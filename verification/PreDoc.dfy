/** Documents with conditional blocks: as a tree, as the lines the tree is written down as, and
    what they evaluate to. */
module PreDoc {

  /** A piece of a text line: plain text or a reference to a variable. */
  datatype Part = Lit(text: string) | Var(name: string)

  /** A further operand of an ifdef or ifndef, with the operator before it. */
  datatype Operand = Operand(isAnd: bool, negated: bool, name: string)

  /** A condition: decided, a comparison with its outcome, or a test whether names are defined. */
  datatype Cond =
    | Known(b: bool)
    | Compare(holds: bool)
    | Test(ifndef: bool, first: string, more: seq<Operand>)

  datatype Line =
    | Text(parts: seq<Part>)
    | Define(name: string, value: string)
    | If(cond: Cond)
    | ElseIf(elifCond: Cond)
    | Else
    | EndIf

  type Vars = map<string, string>

  datatype Doc =
    | Nil
    | Plain(line: Line, rest: Doc)
    | Block(cond: Cond, thn: Doc, alt: Alt, after: Doc)

  /** What follows the first body of a block; an elseif is followed by as much again. */
  datatype Alt =
    | NoElse
    | WithElse(els: Doc)
    | WithElseIf(elifCond: Cond, mid: Doc, more: Alt)

  /** The document as lines. */
  function Flatten(d: Doc): seq<Line> {
    match d
    case Nil => []
    case Plain(l, rest) => [l] + Flatten(rest)
    case Block(c, thn, alt, after) => [If(c)] + Flatten(thn) + Closing(alt) + Flatten(after)
  }

  /** What follows the first body of a block, up to its endif. */
  function Closing(alt: Alt): seq<Line> {
    match alt
    case NoElse => [EndIf]
    case WithElse(els) => [Else] + Flatten(els) + [EndIf]
    case WithElseIf(c, mid, more) => [ElseIf(c)] + Flatten(mid) + Closing(more)
  }

  // ----- evaluation -----

  function Operands(conj: bool, more: seq<Operand>, vars: Vars, ifndef: bool): bool
    decreases |more|
  {
    if more == [] then conj
    else
      var v := (more[0].name in vars) != (more[0].negated != ifndef);
      if more[0].isAnd then Operands(conj && v, more[1..], vars, ifndef)
      else conj || Operands(v, more[1..], vars, ifndef)
  }

  /** An ifndef denies each operand by itself; "&" binds tighter than "|". */
  function Holds(c: Cond, vars: Vars): bool {
    match c
    case Known(b) => b
    case Compare(b) => b
    case Test(ifndef, first, more) => Operands((first in vars) != ifndef, more, vars, ifndef)
  }

  // ----- what a condition says -----

  /** Operand `k` of a test, the first one being 0: whether its name is defined, turned around once
      by "!" and once by ifndef. */
  predicate Literal(ifndef: bool, first: string, more: seq<Operand>, vars: Vars, k: nat)
    requires k <= |more|
  {
    if k == 0 then (if ifndef then first !in vars else first in vars)
    else
      var o := more[k - 1];
      if o.negated == ifndef then o.name in vars else o.name !in vars
  }

  /** Operands `i` to `j` are joined by "&", with no "&" before or after, and all of them are true. */
  predicate TrueRun(lits: seq<bool>, ands: seq<bool>, i: nat, j: nat)
    requires |lits| == |ands| + 1
  {
    && i <= j < |lits|
    && (i > 0 ==> !ands[i - 1]) && (j < |ands| ==> !ands[j])
    && (forall k :: i <= k < j ==> ands[k]) && forall k :: i <= k <= j ==> lits[k]
  }

  function Literals(ifndef: bool, first: string, more: seq<Operand>, vars: Vars): (r: seq<bool>)
    ensures |r| == |more| + 1 && forall k :: 0 <= k <= |more| ==> r[k] == Literal(ifndef, first, more, vars, k)
  {
    seq(|more| + 1, k requires 0 <= k <= |more| => Literal(ifndef, first, more, vars, k))
  }

  function Joins(more: seq<Operand>): (r: seq<bool>)
    ensures |r| == |more| && forall k :: 0 <= k < |more| ==> r[k] == more[k].isAnd
  {
    seq(|more|, k requires 0 <= k < |more| => more[k].isAnd)
  }

  /** A test holds exactly when all operands of some run joined by "&" are true. */
  lemma {:induction false} TestHoldsIff(ifndef: bool, first: string, more: seq<Operand>, vars: Vars)
    ensures Holds(Test(ifndef, first, more), vars) <==>
            exists i, j :: TrueRun(Literals(ifndef, first, more, vars), Joins(more), i, j)
  {
    var lits := Literals(ifndef, first, more, vars);
    OperandsAreRuns(lits, more, vars, ifndef);
  }

  /** An ifdef of one name holds exactly when the name is defined, an ifndef when it is not; a
      comparison, and a condition that is decided, as it came out. */
  lemma {:induction false} SimpleConditions(name: string, b: bool, vars: Vars)
    ensures Holds(Test(false, name, []), vars) <==> name in vars
    ensures Holds(Test(true, name, []), vars) <==> name !in vars
    ensures Holds(Compare(b), vars) == b && Holds(Known(b), vars) == b
  {
  }

  lemma {:induction false} OperandsAreRuns(lits: seq<bool>, more: seq<Operand>, vars: Vars, ifndef: bool)
    requires |lits| == |more| + 1
    requires forall k :: 1 <= k < |lits| ==>
               lits[k] == if more[k - 1].negated == ifndef then more[k - 1].name in vars else more[k - 1].name !in vars
    ensures Operands(lits[0], more, vars, ifndef) <==> exists i, j :: TrueRun(lits, Joins(more), i, j)
    decreases |more|
  {
    var ands := Joins(more);
    if more == [] {
      assert TrueRun(lits, ands, 0, 0) == lits[0];
    } else {
      var lits' := [if ands[0] then lits[0] && lits[1] else lits[1]] + lits[2..];
      var ands' := ands[1..];
      assert Joins(more[1..]) == ands';
      assert forall k :: 1 <= k < |lits'| ==> lits'[k] == lits[k + 1];
      OperandsAreRuns(lits', more[1..], vars, ifndef);
      if ands[0] {
        JoinedRuns(lits, ands, lits', ands');
      } else {
        SeparateRuns(lits, ands, lits', ands');
      }
    }
  }

  lemma {:induction false} JoinedRuns(lits: seq<bool>, ands: seq<bool>, lits': seq<bool>, ands': seq<bool>)
    requires |lits| == |ands| + 1 && ands != [] && ands[0]
    requires lits' == [lits[0] && lits[1]] + lits[2..] && ands' == ands[1..]
    ensures (exists i, j :: TrueRun(lits, ands, i, j)) <==> exists i, j :: TrueRun(lits', ands', i, j)
  {
    if exists i: nat, j: nat :: TrueRun(lits, ands, i, j) {
      var i: nat, j: nat :| TrueRun(lits, ands, i, j);
      assert j >= 1 && (i > 0 ==> i >= 2);
      assert TrueRun(lits', ands', if i == 0 then 0 else i - 1, j - 1);
    }
    if exists i: nat, j: nat :: TrueRun(lits', ands', i, j) {
      var i: nat, j: nat :| TrueRun(lits', ands', i, j);
      RunBefore(lits, ands, lits', ands', i, j);
      assert TrueRun(lits, ands, if i == 0 then 0 else i + 1, j + 1);
    }
  }

  lemma {:induction false} RunBefore(lits: seq<bool>, ands: seq<bool>, lits': seq<bool>, ands': seq<bool>,
                                     i: nat, j: nat)
    requires |lits| == |ands| + 1 && ands != [] && ands[0]
    requires lits' == [lits[0] && lits[1]] + lits[2..] && ands' == ands[1..] && TrueRun(lits', ands', i, j)
    ensures TrueRun(lits, ands, if i == 0 then 0 else i + 1, j + 1)
  {
    var i0 := if i == 0 then 0 else i + 1;
    forall k | i0 <= k < j + 1
      ensures ands[k]
    {
      if k > 0 { assert ands[k] == ands'[k - 1]; }
    }
    forall k | i0 <= k <= j + 1
      ensures lits[k]
    {
      if k >= 2 { assert lits[k] == lits'[k - 1]; } else { assert lits'[0]; }
    }
  }

  lemma {:induction false} SeparateRuns(lits: seq<bool>, ands: seq<bool>, lits': seq<bool>, ands': seq<bool>)
    requires |lits| == |ands| + 1 && ands != [] && !ands[0]
    requires lits' == [lits[1]] + lits[2..] && ands' == ands[1..]
    ensures (exists i, j :: TrueRun(lits, ands, i, j)) <==> lits[0] || exists i, j :: TrueRun(lits', ands', i, j)
  {
    assert lits' == lits[1..];
    if exists i: nat, j: nat :: TrueRun(lits, ands, i, j) {
      var i: nat, j: nat :| TrueRun(lits, ands, i, j);
      if i > 0 {
        assert TrueRun(lits', ands', i - 1, j - 1);
      }
    }
    if lits[0] {
      assert TrueRun(lits, ands, 0, 0);
    }
    if exists i: nat, j: nat :: TrueRun(lits', ands', i, j) {
      var i: nat, j: nat :| TrueRun(lits', ands', i, j);
      assert forall k :: i + 1 <= k < j + 1 ==> ands[k] == ands'[k - 1];
      assert forall k :: i + 1 <= k <= j + 1 ==> lits[k] == lits'[k - 1];
      assert TrueRun(lits, ands, i + 1, j + 1);
    }
  }

  // ----- variables -----

  function FillIn(parts: seq<Part>, vars: Vars): (r: seq<Part>)
    ensures |r| == |parts|
  {
    seq(|parts|, i requires 0 <= i < |parts| =>
      if parts[i].Var? && parts[i].name in vars then Lit(vars[parts[i].name]) else parts[i])
  }

  /** A definition leaves its line empty. */
  function FillInLine(l: Line, vars: Vars): Line {
    match l
    case Text(parts) => Text(FillIn(parts, vars))
    case Define(_, _) => Text([])
    case _ => l
  }

  /** The lines left when every condition is decided, from the outside in. */
  function Evaluate(d: Doc, vars: Vars): seq<Line> {
    match d
    case Nil => []
    case Plain(l, rest) => [FillInLine(l, vars)] + Evaluate(rest, vars)
    case Block(c, thn, alt, after) =>
      (if Holds(c, vars) then Evaluate(thn, vars) else EvaluateAlt(alt, vars)) + Evaluate(after, vars)
  }

  function EvaluateAlt(alt: Alt, vars: Vars): seq<Line> {
    match alt
    case NoElse => []
    case WithElse(els) => Evaluate(els, vars)
    case WithElseIf(c, mid, more) => if Holds(c, vars) then Evaluate(mid, vars) else EvaluateAlt(more, vars)
  }

  /** Definitions count wherever they stand, also in a branch not taken; later ones win. */
  function Definitions(doc: seq<Line>, vars: Vars): Vars {
    if doc == [] then vars
    else Definitions(doc[1..], if doc[0].Define? then vars[doc[0].name := doc[0].value] else vars)
  }

  predicate Defines(l: Line, name: string) {
    l.Define? && l.name == name
  }

  /** Of several definitions of a name the last one counts. */
  lemma {:induction false} LastDefinitionWins(doc: seq<Line>, vars: Vars, i: nat)
    requires i < |doc| && doc[i].Define? && forall j :: i < j < |doc| ==> !Defines(doc[j], doc[i].name)
    ensures doc[i].name in Definitions(doc, vars) && Definitions(doc, vars)[doc[i].name] == doc[i].value
  {
    if i > 0 {
      LastDefinitionWins(doc[1..], if doc[0].Define? then vars[doc[0].name := doc[0].value] else vars, i - 1);
    } else {
      NotDefined(doc[1..], vars[doc[0].name := doc[0].value], doc[0].name);
    }
  }

  /** A name no line defines stays as it is. */
  lemma {:induction false} NotDefined(doc: seq<Line>, vars: Vars, name: string)
    requires forall i :: 0 <= i < |doc| ==> !Defines(doc[i], name)
    ensures name in Definitions(doc, vars) <==> name in vars
    ensures name in vars ==> Definitions(doc, vars)[name] == vars[name]
  {
    if doc != [] {
      assert !Defines(doc[0], name);
      NotDefined(doc[1..], if doc[0].Define? then vars[doc[0].name := doc[0].value] else vars, name);
    }
  }

  /** Literal text stays, a reference to a defined name becomes the text of its value, any other
      reference stays; a definition leaves an empty line. */
  lemma {:induction false} ReferencesFilled(parts: seq<Part>, name: string, value: string, vars: Vars)
    ensures FillInLine(Define(name, value), vars) == Text([])
    ensures var r := FillInLine(Text(parts), vars);
            r.Text? && |r.parts| == |parts| &&
            forall i :: 0 <= i < |parts| ==>
              (parts[i].Lit? ==> r.parts[i] == parts[i]) &&
              (parts[i].Var? && parts[i].name in vars ==> r.parts[i] == Lit(vars[parts[i].name])) &&
              (parts[i].Var? && parts[i].name !in vars ==> r.parts[i] == parts[i])
  {
  }

  // ----- well-nested documents -----

  /** Every body opens with a line that is no conditional. */
  predicate OpensPlain(d: Doc) {
    match d
    case Nil => true
    case Plain(l, rest) => (l.Text? || l.Define?) && OpensPlain(rest)
    case Block(c, thn, alt, after) => thn.Plain? && OpensPlain(thn) && OpensPlainAlt(alt) && OpensPlain(after)
  }

  predicate OpensPlainAlt(alt: Alt) {
    match alt
    case NoElse => true
    case WithElse(els) => els.Plain? && OpensPlain(els)
    case WithElseIf(_, mid, more) => mid.Plain? && OpensPlain(mid) && OpensPlainAlt(more)
  }

  /** A block some pattern is made for: at most one elseif, a comparison followed by an else, and no
      test of more than five operands. */
  predicate Matchable(c: Cond, alt: Alt) {
    && (c.Test? ==> |c.more| <= 4)
    && (alt.WithElseIf? ==> !alt.elifCond.Test? && alt.more.WithElse?)
  }

  /** Every block is one some pattern is made for. */
  predicate Complete(d: Doc) {
    match d
    case Nil => true
    case Plain(_, rest) => Complete(rest)
    case Block(c, thn, alt, after) => Matchable(c, alt) && Complete(thn) && CompleteAlt(alt) && Complete(after)
  }

  predicate CompleteAlt(alt: Alt) {
    match alt
    case NoElse => true
    case WithElse(els) => Complete(els)
    case WithElseIf(_, mid, more) => Complete(mid) && CompleteAlt(more)
  }
}
