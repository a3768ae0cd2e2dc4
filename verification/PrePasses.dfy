/** The passes of the preprocessor over lines: how blocks are found and replaced. */
module PrePasses {
  import opened Common
  import opened PreDoc

  // ----- deciding conditions -----

  function DecideLine(l: Line, vars: Vars): Line {
    match l
    case If(c) => if c.Test? && |c.more| > 4 then l else If(Known(Holds(c, vars)))
    case ElseIf(c) => if c.Test? then l else ElseIf(Known(Holds(c, vars)))
    case _ => FillInLine(l, vars)
  }

  /** The three passes before block reduction, together: variables, comparisons, tests. */
  function Decide(doc: seq<Line>, vars: Vars): (r: seq<Line>)
    ensures |r| == |doc|
    ensures forall i :: 0 <= i < |doc| ==> r[i] == DecideLine(doc[i], vars)
  {
    seq(|doc|, i requires 0 <= i < |doc| => DecideLine(doc[i], vars))
  }

  // ----- finding blocks -----

  /** The number of text lines at the front. */
  function Lead(doc: seq<Line>): (n: nat)
    ensures n <= |doc|
  {
    if doc != [] && doc[0].Text? then 1 + Lead(doc[1..]) else 0
  }

  /** A body as the patterns see it: one line of any kind, then the text lines after it. */
  function BodyLen(doc: seq<Line>): (n: nat)
    ensures n <= |doc| && (doc != [] ==> n > 0)
  {
    if doc == [] then 0 else 1 + Lead(doc[1..])
  }

  /** A body, the line that ends it, and what follows. */
  datatype Cut = Cut(body: seq<Line>, end: Line, rest: seq<Line>)

  /** The body at the front; None when there is no line for it, or none to end it. */
  function CutBody(doc: seq<Line>): (r: Option<Cut>)
    ensures r.Some? ==> r.value.body != [] && doc == r.value.body + [r.value.end] + r.value.rest
  {
    var n := BodyLen(doc);
    if n == |doc| then None else Some(Cut(doc[..n], doc[n], doc[n + 1..]))
  }

  datatype Kind = IfElseIfElse | IfElse | IfOnly

  /** A match: the matched lines and what is put in their place. */
  datatype Found = Found(full: seq<Line>, result: seq<Line>)

  /** The three patterns, at the front of the lines. */
  function MatchAt(kind: Kind, doc: seq<Line>): (r: Option<Found>)
    ensures r.Some? ==> r.value.full != [] && r.value.full <= doc
  {
    if doc == [] || !doc[0].If? || !doc[0].cond.Known? then None
    else
      var c1 := CutBody(doc[1..]);
      if c1.None? then None
      else
        match kind
        case IfOnly => MatchIfOnly(doc[0], c1.value)
        case IfElse => MatchIfElse(doc[0], c1.value)
        case IfElseIfElse => MatchIfElseIf(doc[0], c1.value)
  }

  function MatchIfOnly(head: Line, c1: Cut): (r: Option<Found>)
    requires head.If? && head.cond.Known?
    ensures r.Some? ==> r.value.full != [] && r.value.full <= [head] + (c1.body + [c1.end] + c1.rest)
  {
    if c1.end.EndIf? then Some(Found([head] + c1.body + [c1.end], if head.cond.b then c1.body else []))
    else None
  }

  function MatchIfElse(head: Line, c1: Cut): (r: Option<Found>)
    requires head.If? && head.cond.Known?
    ensures r.Some? ==> r.value.full != [] && r.value.full <= [head] + (c1.body + [c1.end] + c1.rest)
  {
    var c2 := CutBody(c1.rest);
    if c1.end.Else? && c2.Some? && c2.value.end.EndIf? then
      Some(Found([head] + c1.body + [c1.end] + c2.value.body + [c2.value.end],
                 if head.cond.b then c1.body else c2.value.body))
    else None
  }

  lemma {:induction false} ThreeBodies(h: Line, c1: Cut, c2: Cut, c3: Cut)
    requires c1.rest == c2.body + [c2.end] + c2.rest && c2.rest == c3.body + [c3.end] + c3.rest
    ensures [h] + c1.body + [c1.end] + c2.body + [c2.end] + c3.body + [c3.end] <=
            [h] + (c1.body + [c1.end] + c1.rest)
  {
    assert [h] + (c1.body + [c1.end] + c1.rest) ==
           ([h] + c1.body + [c1.end] + c2.body + [c2.end] + c3.body + [c3.end]) + c3.rest;
  }

  function MatchIfElseIf(head: Line, c1: Cut): (r: Option<Found>)
    requires head.If? && head.cond.Known?
    ensures r.Some? ==> r.value.full != [] && r.value.full <= [head] + (c1.body + [c1.end] + c1.rest)
  {
    var c2 := CutBody(c1.rest);
    if c1.end.ElseIf? && c1.end.elifCond.Known? && c2.Some? && c2.value.end.Else? then
      var c3 := CutBody(c2.value.rest);
      if c3.Some? && c3.value.end.EndIf? then
        ThreeBodies(head, c1, c2.value, c3.value);
        Some(Found([head] + c1.body + [c1.end] + c2.value.body + [c2.value.end] + c3.value.body + [c3.value.end],
                   if head.cond.b then c1.body else if c1.end.elifCond.b then c2.value.body else c3.value.body))
      else None
    else None
  }

  /** All matches, from the left, none overlapping. */
  function FindAll(kind: Kind, doc: seq<Line>): seq<Found>
    decreases |doc|
  {
    if doc == [] then []
    else
      var m := MatchAt(kind, doc);
      if m.Some? then [m.value] + FindAll(kind, doc[|m.value.full|..])
      else FindAll(kind, doc[1..])
  }

  /** Every occurrence of some lines is replaced, from the left. */
  function Replace(doc: seq<Line>, full: seq<Line>, result: seq<Line>): seq<Line>
    requires full != []
    decreases |doc|
  {
    if doc == [] then []
    else if full <= doc then result + Replace(doc[|full|..], full, result)
    else [doc[0]] + Replace(doc[1..], full, result)
  }

  function ReplaceEach(doc: seq<Line>, found: seq<Found>): seq<Line>
    requires forall k :: 0 <= k < |found| ==> found[k].full != []
    decreases |found|
  {
    if found == [] then doc
    else ReplaceEach(Replace(doc, found[0].full, found[0].result), found[1..])
  }

  lemma {:induction false} FoundNonempty(kind: Kind, doc: seq<Line>)
    ensures forall k :: 0 <= k < |FindAll(kind, doc)| ==> FindAll(kind, doc)[k].full != []
    decreases |doc|
  {
    if doc != [] {
      var m := MatchAt(kind, doc);
      FoundNonempty(kind, if m.Some? then doc[|m.value.full|..] else doc[1..]);
    }
  }

  /** One pattern: the matches are all found first and then replaced one after the other. */
  function Pass(kind: Kind, doc: seq<Line>): seq<Line> {
    FoundNonempty(kind, doc);
    ReplaceEach(doc, FindAll(kind, doc))
  }

  function Reduce(doc: seq<Line>): seq<Line> {
    Pass(IfOnly, Pass(IfElse, Pass(IfElseIfElse, doc)))
  }

  // ----- no line is made up -----

  predicate Within(a: seq<Line>, b: seq<Line>) {
    forall l :: l in a ==> l in b
  }

  lemma {:induction false} FindWithin(kind: Kind, doc: seq<Line>)
    ensures forall k :: 0 <= k < |FindAll(kind, doc)| ==>
              Within(FindAll(kind, doc)[k].full, doc) && Within(FindAll(kind, doc)[k].result, doc)
    decreases |doc|
  {
    hide MatchAt;
    if doc != [] {
      var m := MatchAt(kind, doc);
      MatchWithin(kind, doc);
      FindWithin(kind, if m.Some? then doc[|m.value.full|..] else doc[1..]);
    }
  }

  lemma {:induction false} MatchWithin(kind: Kind, doc: seq<Line>)
    ensures var m := MatchAt(kind, doc); m.Some? ==> Within(m.value.full, doc) && Within(m.value.result, doc)
  {
    hide CutBody;
    var m := MatchAt(kind, doc);
    if m.Some? {
      assert forall l :: l in m.value.result ==> l in m.value.full;
    }
  }

  lemma {:induction false} ReplaceWithin(doc: seq<Line>, full: seq<Line>, result: seq<Line>, all: seq<Line>)
    requires full != [] && Within(doc, all) && Within(result, all)
    ensures Within(Replace(doc, full, result), all)
    decreases |doc|
  {
    if doc != [] {
      ReplaceWithin(if full <= doc then doc[|full|..] else doc[1..], full, result, all);
    }
  }

  lemma {:induction false} ReplaceEachWithin(doc: seq<Line>, found: seq<Found>, all: seq<Line>)
    requires Within(doc, all)
    requires forall k :: 0 <= k < |found| ==> found[k].full != [] && Within(found[k].result, all)
    ensures Within(ReplaceEach(doc, found), all)
    decreases |found|
  {
    if found != [] {
      ReplaceWithin(doc, found[0].full, found[0].result, all);
      ReplaceEachWithin(Replace(doc, found[0].full, found[0].result), found[1..], all);
    }
  }

  /** A pass leaves only lines that were there. */
  lemma {:induction false} PassWithin(kind: Kind, doc: seq<Line>)
    ensures Within(Pass(kind, doc), doc)
  {
    hide FindAll, ReplaceEach;
    FoundNonempty(kind, doc);
    FindWithin(kind, doc);
    ReplaceEachWithin(doc, FindAll(kind, doc), doc);
  }

  lemma {:induction false} ReduceWithin(doc: seq<Line>)
    ensures Within(Reduce(doc), doc)
  {
    hide Pass;
    PassWithin(IfElseIfElse, doc);
    PassWithin(IfElse, Pass(IfElseIfElse, doc));
    PassWithin(IfOnly, Pass(IfElse, Pass(IfElseIfElse, doc)));
  }

  // ----- rounds -----

  predicate Pending(l: Line) {
    l.If? || l.ElseIf? || l.Else? || l.EndIf? || (l.Text? && exists i :: 0 <= i < |l.parts| && l.parts[i].Var?)
  }

  /** Conditionals and variable references keep the loop going; definitions do not. */
  predicate NeedParse(doc: seq<Line>) {
    exists i :: 0 <= i < |doc| && Pending(doc[i])
  }

  /** Where the loop stands: the lines, and the variables defined so far. */
  datatype Stage = Stage(doc: seq<Line>, vars: Vars)

  function RoundOf(s: Stage): Stage {
    var vars := Definitions(s.doc, s.vars);
    Stage(Reduce(Decide(s.doc, vars)), vars)
  }

  function Rounds(s: Stage, n: nat): Stage {
    if n == 0 then s else RoundOf(Rounds(s, n - 1))
  }
}
