/** The preprocessor: rounds of passes over the lines until nothing is left to do. */
module Preprocessor {
  import opened Common
  import opened PreDoc
  import opened PrePasses
  import opened PreReduce
  import opened PreMatch

  // ----- the line-wise passes -----

  function CompareLine(l: Line): Line {
    match l
    case If(Compare(b)) => If(Known(b))
    case ElseIf(Compare(b)) => ElseIf(Known(b))
    case _ => l
  }

  function TestLine(l: Line, vars: Vars): Line {
    match l
    case If(Test(_, _, more)) => if |more| > 4 then l else If(Known(Holds(l.cond, vars)))
    case _ => l
  }

  class Preprocessor {
    var cusVars: Vars

    constructor ()
      ensures cusVars == map[]
    {
      cusVars := map[];
    }

    /** Collects all definitions, then puts values in for references. */
    method ParseCusVar(doc: seq<Line>) returns (r: seq<Line>)
      modifies this
      ensures cusVars == Definitions(doc, old(cusVars))
      ensures |r| == |doc| && forall i :: 0 <= i < |doc| ==> r[i] == FillInLine(doc[i], cusVars)
    {
      var k := 0;
      while k < |doc|
        invariant 0 <= k <= |doc|
        invariant Definitions(doc[k..], cusVars) == Definitions(doc, old(cusVars))
      {
        if doc[k].Define? {
          cusVars := cusVars[doc[k].name := doc[k].value];
        }
        assert doc[k..][1..] == doc[k + 1..];
        k := k + 1;
      }
      r := [];
      k := 0;
      while k < |doc|
        invariant 0 <= k <= |doc| && |r| == k
        invariant forall i :: 0 <= i < k ==> r[i] == FillInLine(doc[i], cusVars)
      {
        r := r + [FillInLine(doc[k], cusVars)];
        k := k + 1;
      }
    }

    method ParseIfElseif(doc: seq<Line>) returns (r: seq<Line>)
      ensures |r| == |doc| && forall i :: 0 <= i < |doc| ==> r[i] == CompareLine(doc[i])
    {
      r := [];
      while |r| < |doc|
        invariant |r| <= |doc| && forall i :: 0 <= i < |r| ==> r[i] == CompareLine(doc[i])
      {
        r := r + [CompareLine(doc[|r|])];
      }
    }

    method ParseIfdefIfndef(doc: seq<Line>) returns (r: seq<Line>)
      ensures |r| == |doc| && forall i :: 0 <= i < |doc| ==> r[i] == TestLine(doc[i], cusVars)
    {
      r := [];
      while |r| < |doc|
        invariant |r| <= |doc| && forall i :: 0 <= i < |r| ==> r[i] == TestLine(doc[i], cusVars)
      {
        r := r + [TestLine(doc[|r|], cusVars)];
      }
    }

    /** One pattern: its matches are collected first and replaced in turn. */
    method ApplyPattern(kind: Kind, doc: seq<Line>) returns (r: seq<Line>)
      ensures r == Pass(kind, doc)
    {
      FoundNonempty(kind, doc);
      var matches := FindAll(kind, doc);
      r := doc;
      var k := 0;
      while k < |matches|
        invariant 0 <= k <= |matches|
        invariant ReplaceEach(r, matches[k..]) == ReplaceEach(doc, matches)
      {
        assert matches[k..][0] == matches[k] && matches[k..][1..] == matches[k + 1..];
        r := Replace(r, matches[k].full, matches[k].result);
        k := k + 1;
      }
    }

    method ParseIfElseIf(doc: seq<Line>) returns (r: seq<Line>)
      ensures r == Reduce(doc)
    {
      r := ApplyPattern(IfElseIfElse, doc);
      r := ApplyPattern(IfElse, r);
      r := ApplyPattern(IfOnly, r);
    }

    /** One round of the loop. */
    method Round(doc: seq<Line>) returns (r: seq<Line>)
      modifies this
      ensures cusVars == Definitions(doc, old(cusVars))
      ensures r == Reduce(Decide(doc, cusVars))
    {
      r := ParseCusVar(doc);
      r := ParseIfElseif(r);
      r := ParseIfdefIfndef(r);
      assert r == Decide(doc, cusVars);
      r := ParseIfElseIf(r);
    }

    /** The loop, for the documents it ends on (see LoopEndsIff): it stops at the first round that
        leaves nothing to do, and what it leaves is the value of the document, taken from the
        outside in, under all its definitions. A document with nothing but definitions and text is
        left as it is. */
    method Preprocess(doc: seq<Line>, ghost d: Doc) returns (r: seq<Line>)
      requires doc == Flatten(d) && OpensPlain(d) && cusVars == map[] && Ends(d)
      modifies this
      ensures r == if NeedParse(doc) then Evaluate(d, Definitions(doc, map[])) else doc
      ensures r == Evaluate(d, Definitions(doc, map[])) || (r == doc && Flat(d) && NoReference(doc))
      ensures exists n: nat :: Rounds(Stage(doc, map[]), n) == Stage(r, cusVars) && !NeedParse(r) &&
                               forall k: nat :: k < n ==> NeedParse(Rounds(Stage(doc, map[]), k).doc)
    {
      hide Evaluate, Flatten, OpensPlain, Definitions, Reduce, Decide, Complete;
      EndsWhenDone(d);
      r := doc;
      ghost var n: nat := 0;
      while NeedParse(r)
        invariant Rounds(Stage(doc, map[]), n) == Stage(r, cusVars)
        invariant forall k: nat :: k < n ==> NeedParse(Rounds(Stage(doc, map[]), k).doc)
        decreases Blocks(d) + 1 - n
      {
        PendingRoundsAreFew(d, n);
        assert Rounds(Stage(doc, map[]), n + 1) == RoundOf(Stage(r, cusVars));
        r := Round(r);
        n := n + 1;
      }
      if n > 0 {
        ghost var d' := SettledResult(d, n);
        if !Flat(d') {
          BlocksArePending(d');
        }
        assert NeedParse(Rounds(Stage(doc, map[]), 0).doc);
      } else {
        UntouchedIsText(d);
      }
    }
  }

  // ----- deciding keeps the structure -----

  function DecideDoc(d: Doc, vars: Vars): Doc {
    match d
    case Nil => Nil
    case Plain(l, rest) => Plain(DecideLine(l, vars), DecideDoc(rest, vars))
    case Block(c, thn, alt, after) =>
      Block(if c.Test? && |c.more| > 4 then c else Known(Holds(c, vars)),
            DecideDoc(thn, vars), DecideAlt(alt, vars), DecideDoc(after, vars))
  }

  function DecideAlt(alt: Alt, vars: Vars): Alt {
    match alt
    case NoElse => NoElse
    case WithElse(els) => WithElse(DecideDoc(els, vars))
    case WithElseIf(c, mid, more) =>
      WithElseIf(if c.Test? then c else Known(Holds(c, vars)), DecideDoc(mid, vars), DecideAlt(more, vars))
  }

  lemma {:induction false} DecideConcat(a: seq<Line>, b: seq<Line>, vars: Vars)
    ensures Decide(a + b, vars) == Decide(a, vars) + Decide(b, vars)
  {
  }

  lemma {:induction false} DecideOne(l: Line, vars: Vars)
    ensures Decide([l], vars) == [DecideLine(l, vars)]
  {
  }

  /** Deciding line by line is deciding in the tree. */
  lemma {:induction false} DecideFlattens(d: Doc, vars: Vars)
    ensures Flatten(DecideDoc(d, vars)) == Decide(Flatten(d), vars)
  {
    match d
    case Nil =>
    case Plain(l, rest) =>
      DecideFlattens(rest, vars);
      DecideConcat([l], Flatten(rest), vars);
    case Block(c, thn, alt, after) =>
      DecideFlattens(thn, vars);
      DecideFlattensAlt(alt, vars);
      DecideFlattens(after, vars);
      DecideConcat([If(c)] + Flatten(thn) + Closing(alt), Flatten(after), vars);
      DecideConcat([If(c)] + Flatten(thn), Closing(alt), vars);
      DecideConcat([If(c)], Flatten(thn), vars);
      DecideOne(If(c), vars);
  }

  lemma {:induction false} DecideFlattensAlt(alt: Alt, vars: Vars)
    ensures Closing(DecideAlt(alt, vars)) == Decide(Closing(alt), vars)
  {
    DecideOne(EndIf, vars);
    match alt
    case NoElse =>
    case WithElse(els) =>
      DecideFlattens(els, vars);
      DecideConcat([Else] + Flatten(els), [EndIf], vars);
      DecideConcat([Else], Flatten(els), vars);
      DecideOne(Else, vars);
    case WithElseIf(c, mid, more) =>
      DecideFlattens(mid, vars);
      DecideFlattensAlt(more, vars);
      DecideConcat([ElseIf(c)] + Flatten(mid), Closing(more), vars);
      DecideConcat([ElseIf(c)], Flatten(mid), vars);
      DecideOne(ElseIf(c), vars);
  }

  /** Deciding all conditions leaves a settled document with the same blocks and, unless there are
      tests too long to decide, the same value. */
  lemma {:induction false} DecideSettles(d: Doc, vars: Vars)
    requires OpensPlain(d)
    ensures Settled(DecideDoc(d, vars)) && (d.Plain? ==> DecideDoc(d, vars).Plain?)
    ensures Blocks(DecideDoc(d, vars)) == Blocks(d) && (Complete(DecideDoc(d, vars)) <==> Complete(d))
    ensures Complete(d) ==> Evaluate(DecideDoc(d, vars), map[]) == Evaluate(d, vars)
  {
    match d
    case Nil =>
    case Plain(l, rest) =>
      SettledLine(DecideLine(l, vars));
      DecideSettles(rest, vars);
    case Block(c, thn, alt, after) =>
      DecideSettles(thn, vars);
      DecideSettlesAlt(alt, vars);
      DecideSettles(after, vars);
  }

  lemma {:induction false} DecideSettlesAlt(alt: Alt, vars: Vars)
    requires OpensPlainAlt(alt)
    ensures SettledAlt(DecideAlt(alt, vars))
    ensures BlocksAlt(DecideAlt(alt, vars)) == BlocksAlt(alt)
    ensures CompleteAlt(DecideAlt(alt, vars)) <==> CompleteAlt(alt)
    ensures CompleteAlt(alt) && (alt.WithElseIf? ==> !alt.elifCond.Test? && alt.more.WithElse?) ==>
              EvaluateAlt(DecideAlt(alt, vars), map[]) == EvaluateAlt(alt, vars)
  {
    match alt
    case NoElse =>
    case WithElse(els) => DecideSettles(els, vars);
    case WithElseIf(c, mid, more) =>
      DecideSettles(mid, vars);
      DecideSettlesAlt(more, vars);
  }

  // ----- rounds -----

  /** Lines the line-wise passes leave alone. */
  predicate SettledLines(doc: seq<Line>, vars: Vars) {
    forall l :: l in doc ==> DecideLine(l, vars) == l && !l.Define?
  }

  lemma {:induction false} DecideTwice(l: Line, vars: Vars)
    ensures DecideLine(DecideLine(l, vars), vars) == DecideLine(l, vars) && !DecideLine(l, vars).Define?
  {
    if l.Text? {
      assert FillIn(FillIn(l.parts, vars), vars) == FillIn(l.parts, vars);
    } else if l.Define? {
      assert FillIn([], vars) == [];
    }
  }

  lemma {:induction false} NoDefinitions(doc: seq<Line>, vars: Vars)
    requires SettledLines(doc, vars)
    ensures Definitions(doc, vars) == vars && Decide(doc, vars) == doc
  {
    assert Decide(doc, vars) == doc;
    if doc != [] {
      NoDefinitions(doc[1..], vars);
    }
  }

  lemma {:induction false} DecidedLines(doc: seq<Line>, vars: Vars)
    ensures SettledLines(Reduce(Decide(doc, vars)), vars)
  {
    hide Reduce, DecideLine;
    ReduceWithin(Decide(doc, vars));
    forall l | l in Decide(doc, vars)
      ensures DecideLine(l, vars) == l && !l.Define?
    {
      var i :| 0 <= i < |doc| && l == Decide(doc, vars)[i];
      DecideTwice(doc[i], vars);
    }
  }

  function AllDefinitions(d: Doc): Vars {
    Definitions(Flatten(d), map[])
  }

  /** Every block is one some pattern is made for, and the value keeps no undefined reference. */
  predicate Ends(d: Doc) {
    Complete(d) && NoReference(Evaluate(d, AllDefinitions(d)))
  }

  /** Every line is literal text. */
  predicate NoReference(doc: seq<Line>) {
    forall i, k :: 0 <= i < |doc| && doc[i].Text? && 0 <= k < |doc[i].parts| ==> doc[i].parts[k].Lit?
  }

  /** Lines of text need work exactly when some reference is left in them. */
  lemma {:induction false} TextNeedsWork(doc: seq<Line>)
    requires forall i :: 0 <= i < |doc| ==> doc[i].Text?
    ensures NeedParse(doc) <==> !NoReference(doc)
  {
    if !NoReference(doc) {
      var i, k :| 0 <= i < |doc| && doc[i].Text? && 0 <= k < |doc[i].parts| && !doc[i].parts[k].Lit?;
      assert doc[i].parts[k].Var? && Pending(doc[i]);
    }
  }

  lemma {:induction false} ValueIsText(d: Doc, vars: Vars)
    requires OpensPlain(d)
    ensures forall i :: 0 <= i < |Evaluate(d, vars)| ==> Evaluate(d, vars)[i].Text?
  {
    match d
    case Nil =>
    case Plain(_, rest) => ValueIsText(rest, vars);
    case Block(_, thn, alt, after) =>
      ValueIsText(thn, vars);
      AltValueIsText(alt, vars);
      ValueIsText(after, vars);
  }

  lemma {:induction false} AltValueIsText(alt: Alt, vars: Vars)
    requires OpensPlainAlt(alt)
    ensures forall i :: 0 <= i < |EvaluateAlt(alt, vars)| ==> EvaluateAlt(alt, vars)[i].Text?
  {
    match alt
    case NoElse =>
    case WithElse(els) => ValueIsText(els, vars);
    case WithElseIf(_, mid, more) =>
      ValueIsText(mid, vars);
      AltValueIsText(more, vars);
  }

  lemma {:induction false} EndsWhenDone(d: Doc)
    requires OpensPlain(d)
    ensures Ends(d) <==> Complete(d) && !NeedParse(Evaluate(d, AllDefinitions(d)))
  {
    hide OpensPlain, Evaluate, NeedParse, NoReference;
    ValueIsText(d, AllDefinitions(d));
    TextNeedsWork(Evaluate(d, AllDefinitions(d)));
  }

  /** What is left after some rounds is a settled document. It holds a block no pattern is made for
      exactly if the first one did; otherwise it has the same value, and every round has removed a
      block while there was one. */
  lemma {:induction false} SettledResult(d: Doc, n: nat) returns (d': Doc)
    requires OpensPlain(d) && n > 0
    ensures Rounds(Stage(Flatten(d), map[]), n) == Stage(Flatten(d'), AllDefinitions(d))
    ensures Settled(d') && SettledLines(Flatten(d'), AllDefinitions(d)) && (Complete(d') <==> Complete(d))
    ensures Complete(d) ==> Evaluate(d', map[]) == Evaluate(d, AllDefinitions(d))
    ensures Complete(d) ==> Flat(d') || Blocks(d') + n <= Blocks(d)
    ensures Complete(d) && Flat(d') ==> Flatten(d') == Evaluate(d, AllDefinitions(d))
    decreases n
  {
    hide Evaluate, Flatten, OpensPlain, Definitions, Reduce, Decide, Settled, SettledLines, Complete, DecideDoc;
    var vars := AllDefinitions(d);
    if n == 1 {
      DecideFlattens(d, vars);
      DecideSettles(d, vars);
      DecidedLines(Flatten(d), vars);
      FlatBlocks(DecideDoc(d, vars));
      d' := ReduceKeeps(DecideDoc(d, vars));
      assert Rounds(Stage(Flatten(d), map[]), 0) == Stage(Flatten(d), map[]);
    } else {
      var d1 := SettledResult(d, n - 1);
      NoDefinitions(Flatten(d1), vars);
      DecidedLines(Flatten(d1), vars);
      FlatBlocks(d1);
      d' := ReduceKeeps(d1);
    }
    FlatBlocks(d');
    if Flat(d') {
      FlatFacts(d');
    }
  }

  lemma {:induction false} FlatBlocks(d: Doc)
    ensures Blocks(d) == 0 <==> Flat(d)
  {
    if d.Plain? {
      FlatBlocks(d.rest);
    }
  }

  /** A block is work to do. */
  lemma {:induction false} BlocksArePending(d: Doc)
    requires !Flat(d)
    ensures NeedParse(Flatten(d))
  {
    if d.Plain? {
      BlocksArePending(d.rest);
      var i :| 0 <= i < |Flatten(d.rest)| && Pending(Flatten(d.rest)[i]);
      assert Flatten(d)[i + 1] == Flatten(d.rest)[i];
    } else {
      assert Pending(Flatten(d)[0]);
    }
  }

  /** A document without work to do has no block and no reference. */
  lemma {:induction false} NothingToDo(d: Doc, vars: Vars)
    requires OpensPlain(d) && !NeedParse(Flatten(d))
    ensures Complete(d) && !NeedParse(Evaluate(d, vars))
  {
    if !Flat(d) {
      BlocksArePending(d);
    }
    if d.Plain? {
      var lines, rest := Flatten(d), Flatten(d.rest);
      assert lines[0] == d.line && lines[1..] == rest;
      assert forall i :: 0 <= i < |rest| ==> rest[i] == lines[i + 1];
      assert !Pending(lines[0]);
      NothingToDo(d.rest, vars);
      assert forall i :: 1 <= i < |Evaluate(d, vars)| ==> Evaluate(d, vars)[i] == Evaluate(d.rest, vars)[i - 1];
      assert !Pending(FillInLine(d.line, vars));
    }
  }

  lemma {:induction false} UntouchedIsText(d: Doc)
    requires OpensPlain(d) && !NeedParse(Flatten(d))
    ensures Flat(d) && NoReference(Flatten(d))
  {
    if !Flat(d) {
      BlocksArePending(d);
    }
    forall i, k | 0 <= i < |Flatten(d)| && Flatten(d)[i].Text? && 0 <= k < |Flatten(d)[i].parts|
      ensures Flatten(d)[i].parts[k].Lit?
    {
      assert !Pending(Flatten(d)[i]);
    }
  }

  /** After more rounds than there are blocks nothing is left to do. */
  lemma {:induction false} PendingRoundsAreFew(d: Doc, n: nat)
    requires OpensPlain(d) && Ends(d)
    requires NeedParse(Rounds(Stage(Flatten(d), map[]), n).doc)
    ensures n <= Blocks(d)
  {
    hide OpensPlain, Complete, NeedParse;
    EndsWhenDone(d);
    if n > 0 {
      var _ := SettledResult(d, n);
    }
  }

  /** A document with a block no pattern is made for (an elseif without an else, a second elseif, a
      test of more than five operands) keeps it, and the loop going, for ever. */
  lemma {:induction false} IncompleteNeverEnds(d: Doc, n: nat)
    requires OpensPlain(d) && !Complete(d)
    ensures NeedParse(Rounds(Stage(Flatten(d), map[]), n).doc)
  {
    hide OpensPlain, Complete, NeedParse;
    if n == 0 {
      if !NeedParse(Flatten(d)) {
        NothingToDo(d, map[]);
      }
    } else {
      var d' := SettledResult(d, n);
      if Flat(d') {
        FlatFacts(d');
      }
      BlocksArePending(d');
    }
  }

  /** For every document whose bodies open with a plain line, the loop ends if and only if every
      block is one some pattern is made for and the value keeps no undefined reference. */
  lemma {:induction false} LoopEndsIff(d: Doc)
    requires OpensPlain(d)
    ensures (exists n: nat :: !NeedParse(Rounds(Stage(Flatten(d), map[]), n).doc)) <==> Ends(d)
  {
    hide OpensPlain, NeedParse, Rounds;
    if Ends(d) {
      var n := Blocks(d) + 1;
      if NeedParse(Rounds(Stage(Flatten(d), map[]), n).doc) {
        PendingRoundsAreFew(d, n);
      }
      assert !NeedParse(Rounds(Stage(Flatten(d), map[]), n).doc);
    }
    if exists n: nat :: !NeedParse(Rounds(Stage(Flatten(d), map[]), n).doc) {
      var n: nat :| !NeedParse(Rounds(Stage(Flatten(d), map[]), n).doc);
      EndedMeansEnds(d, n);
    }
  }

  lemma {:induction false} EndedMeansEnds(d: Doc, n: nat)
    requires OpensPlain(d) && !NeedParse(Rounds(Stage(Flatten(d), map[]), n).doc)
    ensures Ends(d)
  {
    hide OpensPlain, NeedParse, Complete;
    EndsWhenDone(d);
    if !Complete(d) {
      IncompleteNeverEnds(d, n);
    } else if n == 0 {
      NothingToDo(d, AllDefinitions(d));
    } else {
      var d' := SettledResult(d, n);
      if !Flat(d') {
        BlocksArePending(d');
      }
    }
  }

  // ----- documents outside the conditions -----

  function Word(s: string): Line {
    Text([Lit(s)])
  }

  lemma {:induction false} SettledWord(s: string)
    ensures FillInLine(Word(s), map[]) == Word(s)
  {
    assert FillIn([Lit(s)], map[]) == [Lit(s)];
  }

  /** if True / a / elseif False / b / endif */
  const UNCLOSED: Doc :=
    Block(Known(true), Plain(Text([Lit("a")]), Nil),
          WithElseIf(Known(false), Plain(Text([Lit("b")]), Nil), NoElse), Nil)

  /** An elseif without an else: the document has a value, but the loop never gets there. */
  lemma {:induction false} ElseIfWithoutElseIsStuck(n: nat)
    ensures Evaluate(UNCLOSED, map[]) == [Word("a")]
    ensures NeedParse(Rounds(Stage(Flatten(UNCLOSED), map[]), n).doc)
  {
    SettledWord("a");
    IncompleteNeverEnds(UNCLOSED, n);
  }

  // Empty bodies. A pattern asks for a line of any kind between two directives, so where there is none
  // it takes the directive that closes the body for that line.

  predicate Texts(u: seq<Line>) {
    forall l :: l in u ==> l.Text?
  }

  /** Lines of a decided document. */
  predicate Inert(l: Line) {
    l.Text? || l.Else? || l.EndIf? || (l.If? && l.cond.Known?)
  }

  lemma {:induction false} InertSettled(doc: seq<Line>)
    requires forall l :: l in doc ==> Inert(l)
    ensures SettledLines(doc, map[])
  {
    forall l | l in doc
      ensures DecideLine(l, map[]) == l && !l.Define?
    {
      if l.Text? { SettledLine(l); }
    }
  }

  lemma {:induction false} NoIfNothingFound(kind: Kind, doc: seq<Line>)
    requires forall l :: l in doc ==> !l.If?
    ensures FindAll(kind, doc) == []
  {
    hide CutBody;
    if doc != [] {
      NoIfNothingFound(kind, doc[1..]);
    }
  }

  /** Lines with one if, in front, that no pattern matches: no round changes them. */
  lemma {:induction false} UnmatchedStays(head: Line, rest: seq<Line>, n: nat)
    requires Inert(head) && forall l :: l in rest ==> Inert(l) && !l.If?
    requires forall kind: Kind :: MatchAt(kind, [head] + rest).None?
    ensures Rounds(Stage([head] + rest, map[]), n) == Stage([head] + rest, map[])
  {
    hide MatchAt, Inert, Definitions, Decide;
    if n > 0 {
      var doc := [head] + rest;
      UnmatchedStays(head, rest, n - 1);
      InertSettled(doc);
      NoDefinitions(doc, map[]);
      forall kind: Kind
        ensures FindAll(kind, doc) == []
      {
        assert doc[1..] == rest;
        NoIfNothingFound(kind, rest);
      }
      assert Pass(IfElseIfElse, doc) == doc && Pass(IfElse, doc) == doc && Pass(IfOnly, doc) == doc;
    }
  }

  /** Text lines after a line of any kind are all of a body, up to a closer or the end. */
  lemma {:induction false} TextsAreBody(z: Line, u: seq<Line>, tail: seq<Line>)
    requires Texts(u) && (tail != [] ==> !tail[0].Text?)
    ensures BodyLen([z] + u + tail) == |u| + 1
  {
    assert ([z] + u + tail)[1..] == u + tail;
    LeadOfTexts(u, tail);
  }

  lemma {:induction false} LeadOfTexts(u: seq<Line>, tail: seq<Line>)
    requires Texts(u) && (tail != [] ==> !tail[0].Text?)
    ensures Lead(u + tail) == |u|
  {
    if u != [] {
      assert (u + tail)[0] == u[0] && (u + tail)[1..] == u[1..] + tail;
      LeadOfTexts(u[1..], tail);
    } else {
      assert u + tail == tail;
    }
  }

  /** An empty block with text after it: the loop does not end, whatever the condition. */
  lemma {:induction false} EmptyBlockIsStuck(c: bool, after: Doc, n: nat)
    requires Settled(after) && Flat(after)
    ensures var d := Block(Known(c), Nil, NoElse, after);
            Complete(d) && Evaluate(d, map[]) == Flatten(after) && NeedParse(Rounds(Stage(Flatten(d), map[]), n).doc)
  {
    hide Rounds, NeedParse, Flat, Settled;
    FlatFacts(after);
    EmptyBlockUnmatched(c, Flatten(after), n);
    assert Flatten(Block(Known(c), Nil, NoElse, after)) == [If(Known(c)), EndIf] + Flatten(after);
  }

  lemma {:induction false} EmptyBlockUnmatched(c: bool, u: seq<Line>, n: nat)
    requires Texts(u)
    ensures NeedParse(Rounds(Stage([If(Known(c)), EndIf] + u, map[]), n).doc)
  {
    hide Rounds, BodyLen;
    var doc, rest := [If(Known(c)), EndIf] + u, [EndIf] + u;
    TextsAreBody(EndIf, u, []);
    assert rest + [] == rest && doc == [If(Known(c))] + rest && doc[1..] == rest;
    assert CutBody(rest).None?;
    forall kind: Kind
      ensures MatchAt(kind, doc).None?
    {
      hide CutBody;
    }
    UnmatchedStays(If(Known(c)), rest, n);
    assert Pending(doc[0]);
  }

  /** An empty body before an else: the else and its body are taken for the first one. A false
      condition loses the body, a true one keeps it, and with it an else that nothing takes away. */
  lemma {:induction false} EmptyBodyBeforeElse(c: bool, els: Doc, n: nat)
    requires Settled(els) && Flat(els)
    ensures var d := Block(Known(c), Nil, WithElse(els), Nil);
            Complete(d) && Evaluate(d, map[]) == (if c then [] else Flatten(els)) &&
            Rounds(Stage(Flatten(d), map[]), n + 1).doc == (if c then [Else] + Flatten(els) else []) &&
            (c ==> NeedParse(Rounds(Stage(Flatten(d), map[]), n + 1).doc))
  {
    hide Rounds, RoundOf, Settled, Flat;
    var u := Flatten(els);
    FlatFacts(els);
    var doc := [If(Known(c)), Else] + u + [EndIf];
    assert Flatten(Block(Known(c), Nil, WithElse(els), Nil)) == doc;
    EmptyBodyReduces(c, u);
    RoundsFrom(Stage(doc, map[]), n);
    if c {
      ElseUnmatched(u);
      UnmatchedStays(Else, u, n);
      assert Pending(([Else] + u)[0]);
    } else {
      NothingStays(n);
    }
  }

  lemma {:induction false} ElseUnmatched(u: seq<Line>)
    ensures forall kind: Kind :: MatchAt(kind, [Else] + u).None?
  {
    assert ([Else] + u)[0] == Else;
  }

  lemma {:induction false} NothingStays(n: nat)
    ensures Rounds(Stage([], map[]), n) == Stage([], map[])
  {
    if n > 0 {
      NothingStays(n - 1);
      assert Decide([], map[]) == [];
      assert Pass(IfElseIfElse, []) == [] && Pass(IfElse, []) == [] && Pass(IfOnly, []) == [];
    }
  }

  lemma {:induction false} RoundsFrom(s: Stage, n: nat)
    ensures Rounds(s, n + 1) == Rounds(RoundOf(s), n)
  {
    hide RoundOf;
    if n > 0 {
      RoundsFrom(s, n - 1);
    } else {
      assert Rounds(s, 0) == s;
    }
  }

  lemma {:induction false} EmptyBodyReduces(c: bool, u: seq<Line>)
    requires Texts(u)
    ensures var doc := [If(Known(c)), Else] + u + [EndIf];
            RoundOf(Stage(doc, map[])) == Stage(if c then [Else] + u else [], map[])
  {
    hide MatchAt, FindAll, Replace, Pass;
    var doc := [If(Known(c)), Else] + u + [EndIf];
    InertSettled(doc);
    NoDefinitions(doc, map[]);
    WholeMatches(c, u);
    NothingFoundPasses(IfElseIfElse, doc);
    NothingFoundPasses(IfElse, doc);
    PassOfWhole(IfOnly, doc, if c then [Else] + u else []);
  }

  lemma {:induction false} NothingFoundPasses(kind: Kind, doc: seq<Line>)
    requires doc != [] && MatchAt(kind, doc).None? && forall l :: l in doc[1..] ==> !l.If?
    ensures Pass(kind, doc) == doc
  {
    hide MatchAt;
    NoIfNothingFound(kind, doc[1..]);
    assert FindAll(kind, doc) == [];
  }

  /** A match of all lines leaves its result. */
  lemma {:induction false} PassOfWhole(kind: Kind, doc: seq<Line>, result: seq<Line>)
    requires MatchAt(kind, doc) == Some(Found(doc, result))
    ensures Pass(kind, doc) == result
  {
    hide MatchAt;
    var m := Found(doc, result);
    assert doc[|doc|..] == [] && FindAll(kind, []) == [] && Replace([], doc, result) == [];
    assert FindAll(kind, doc) == [m] + [] == [m] && [m][1..] == [];
    assert Replace(doc, doc, result) == result + [] == result;
    assert ReplaceEach(doc, [m]) == ReplaceEach(result, []) == result;
  }

  lemma {:induction false} WholeMatches(c: bool, u: seq<Line>)
    requires Texts(u)
    ensures var doc := [If(Known(c)), Else] + u + [EndIf];
            MatchAt(IfOnly, doc) == Some(Found(doc, if c then [Else] + u else [])) &&
            MatchAt(IfElse, doc).None? && MatchAt(IfElseIfElse, doc).None?
  {
    hide BodyLen;
    var doc, body := [If(Known(c)), Else] + u + [EndIf], [Else] + u;
    TextsAreBody(Else, u, [EndIf]);
    assert doc[1..] == body + [EndIf];
    assert (body + [EndIf])[..|body|] == body && (body + [EndIf])[|body| + 1..] == [];
    assert CutBody(doc[1..]) == Some(Cut(body, EndIf, []));
    assert [If(Known(c))] + body + [EndIf] == doc;
  }

  /** An empty body after the else: the loop does not end, whatever the condition. */
  lemma {:induction false} EmptyElseIsStuck(c: bool, thn: Doc, n: nat)
    requires Settled(thn) && Flat(thn) && thn.Plain?
    ensures var d := Block(Known(c), thn, WithElse(Nil), Nil);
            Complete(d) && Evaluate(d, map[]) == (if c then Flatten(thn) else []) &&
            NeedParse(Rounds(Stage(Flatten(d), map[]), n).doc)
  {
    FlatFacts(thn);
    EmptyElseUnmatched(c, Flatten(thn), n);
    assert Flatten(Block(Known(c), thn, WithElse(Nil), Nil)) == [If(Known(c))] + Flatten(thn) + [Else, EndIf];
  }

  lemma {:induction false} EmptyElseUnmatched(c: bool, t: seq<Line>, n: nat)
    requires Texts(t) && t != []
    ensures NeedParse(Rounds(Stage([If(Known(c))] + t + [Else, EndIf], map[]), n).doc)
  {
    hide Rounds;
    var doc, rest := [If(Known(c))] + t + [Else, EndIf], t + [Else, EndIf];
    ElseCut(t);
    assert doc == [If(Known(c))] + rest && doc[1..] == rest;
    forall kind: Kind
      ensures MatchAt(kind, doc).None?
    {
      hide CutBody;
    }
    UnmatchedStays(If(Known(c)), rest, n);
    assert Pending(doc[0]);
  }

  lemma {:induction false} ElseCut(t: seq<Line>)
    requires Texts(t) && t != []
    ensures CutBody(t + [Else, EndIf]) == Some(Cut(t, Else, [EndIf])) && CutBody([EndIf]).None?
  {
    hide BodyLen;
    var doc := t + [Else, EndIf];
    TextsAreBody(t[0], t[1..], [Else, EndIf]);
    TextsAreBody(EndIf, [], []);
    assert [t[0]] + t[1..] + [Else, EndIf] == doc && [EndIf] + [] + [] == [EndIf];
    assert doc[..|t|] == t && doc[|t| + 1..] == [EndIf];
  }

  /** if True / if False / x / endif / y / endif */
  const OPENING: Doc :=
    Block(Known(true),
          Block(Known(false), Plain(Text([Lit("x")]), Nil), NoElse, Plain(Text([Lit("y")]), Nil)),
          NoElse, Nil)

  /** if False / x / y / endif */
  const PAIRED: Doc :=
    Block(Known(false), Plain(Text([Lit("x")]), Plain(Text([Lit("y")]), Nil)), NoElse, Nil)

  /** A body that opens with a block of its own: the outer if is paired with the inner endif. One
      round leaves another document, and the text after the inner block is lost with it. */
  lemma {:induction false} BodyOpeningWithBlockLosesText()
    ensures Evaluate(OPENING, map[]) == [Word("y")]
    ensures Reduce(Flatten(OPENING)) == Flatten(PAIRED) && Reduce(Flatten(PAIRED)) == []
  {
    SettledWord("y");
    OuterTakesInner();
    PairedVanishes();
  }

  lemma {:induction false} PairedVanishes()
    ensures Reduce(Flatten(PAIRED)) == []
  {
    assert !Pending(Word("x")) && !Pending(Word("y"));
    assert Settled(PAIRED.thn);
    assert Settled(PAIRED);
    var d := ReduceKeeps(PAIRED);
    FlatBlocks(d);
    FlatBlocks(PAIRED.thn);
    FlatFacts(d);
    assert Evaluate(PAIRED, map[]) == [];
  }

  lemma {:induction false} OpeningLines()
    ensures Flatten(OPENING) == [If(Known(true)), If(Known(false)), Word("x"), EndIf, Word("y"), EndIf]
    ensures Flatten(PAIRED) == [If(Known(false)), Word("x"), Word("y"), EndIf]
  {
    assert Flatten(OPENING.thn) == [If(Known(false)), Word("x"), EndIf, Word("y")];
  }

  lemma {:induction false} OuterTakesInner()
    ensures Reduce(Flatten(OPENING)) == Flatten(PAIRED)
  {
    hide FindAll, MatchAt;
    OpeningLines();
    var doc := Flatten(OPENING);
    OpeningFinds();
    assert doc[..4] + doc[4..] == doc;
    ReplaceOpening();
  }

  lemma {:induction false} ReplaceOpening()
    ensures var doc := Flatten(OPENING); Replace(doc, doc[..4], doc[1..3]) == Flatten(PAIRED)
    ensures var doc := Flatten(OPENING); var m := Found(doc[..4], doc[1..3]);
            ReplaceEach(doc, [m]) == Replace(doc, m.full, m.result)
  {
    OpeningLines();
    var doc := Flatten(OPENING);
    var full := doc[..4];
    assert doc[|full|..] == [Word("y"), EndIf];
    assert [Word("y"), EndIf][1..] == [EndIf] && [EndIf][1..] == [];
    assert Replace([EndIf], full, doc[1..3]) == [EndIf];
    assert Replace([Word("y"), EndIf], full, doc[1..3]) == [Word("y"), EndIf];
    assert [Found(full, doc[1..3])][1..] == [];
  }

  /** What the three patterns find: only the shortest one finds something, and too much of it. */
  lemma {:induction false} OpeningFinds()
    ensures var doc := Flatten(OPENING);
            FindAll(IfElseIfElse, doc) == [] && FindAll(IfElse, doc) == [] &&
            FindAll(IfOnly, doc) == [Found(doc[..4], doc[1..3])]
  {
    hide MatchAt;
    OpeningLines();
    var doc := Flatten(OPENING);
    forall kind: Kind
      ensures FindAll(kind, doc[2..]) == [] && FindAll(kind, doc[4..]) == []
    {
      FindSkips(kind, Word("x"), doc[3..]);
      FindSkips(kind, EndIf, doc[4..]);
      FindSkips(kind, Word("y"), doc[5..]);
      FindSkips(kind, EndIf, []);
      assert doc[2..] == [Word("x")] + doc[3..] && doc[3..] == [EndIf] + doc[4..];
      assert doc[4..] == [Word("y")] + doc[5..] && doc[5..] == [EndIf] + [];
    }
    assert doc[1..][1..] == doc[2..];
    OuterMatches();
    assert doc[1..] != [] && |doc[..4]| == 4;
    forall kind: Kind | kind != IfOnly
      ensures FindAll(kind, doc) == []
    {
      InnerMatches(kind);
      assert FindAll(kind, doc[1..]) == FindAll(kind, doc[1..][1..]);
      assert FindAll(kind, doc) == FindAll(kind, doc[1..]);
    }
    var m := Found(doc[..4], doc[1..3]);
    assert FindAll(IfOnly, doc) == [m] + FindAll(IfOnly, doc[|m.full|..]);
  }

  lemma {:induction false} OuterMatches()
    ensures var doc := Flatten(OPENING);
            MatchAt(IfElseIfElse, doc) == None && MatchAt(IfElse, doc) == None &&
            MatchAt(IfOnly, doc) == Some(Found(doc[..4], doc[1..3]))
  {
    hide CutBody;
    OpeningLines();
    OpeningCut();
    var doc := Flatten(OPENING);
    assert [doc[0]] + doc[1..3] + [EndIf] == doc[..4];
  }

  lemma {:induction false} InnerMatches(kind: Kind)
    requires kind != IfOnly
    ensures MatchAt(kind, Flatten(OPENING)[1..]) == None
  {
    hide CutBody;
    OpeningLines();
    var doc := Flatten(OPENING);
    var x := Plain(Word("x"), Nil);
    assert !Pending(Word("x"));
    assert doc[1..][1..] == Flatten(x) + [EndIf] + [Word("y"), EndIf];
    CutOf(x, EndIf, [Word("y"), EndIf]);
  }

  lemma {:induction false} OpeningCut()
    ensures CutBody(Flatten(OPENING)[1..]) == Some(Cut(Flatten(OPENING)[1..3], EndIf, Flatten(OPENING)[4..]))
  {
    OpeningLines();
    var l := Flatten(OPENING)[1..];
    var rest := l[1..];
    assert rest == [Word("x"), EndIf, Word("y"), EndIf];
    assert rest[1..][0] == EndIf;
    assert Lead(rest[1..]) == 0 && Lead(rest) == 1;
    assert l[..2] == Flatten(OPENING)[1..3] && l[3..] == Flatten(OPENING)[4..];
  }
}
