/** What the patterns find, and what replacing text does, in the lines of a settled document. */
module PreMatch {
  import opened Common
  import opened PreDoc
  import opened PrePasses
  import opened PreReduce

  predicate Closer(l: Line) {
    l.ElseIf? || l.Else? || l.EndIf?
  }

  lemma {:induction false} ClosingStarts(alt: Alt)
    ensures Closing(alt) != [] && Closer(Closing(alt)[0])
  {
  }

  lemma {:induction false} Regroup(h: Line, a: seq<Line>, z: Line, r: seq<Line>, y: seq<Line>)
    ensures [h] + a + ([z] + r) + y == [h] + (a + [z] + (r + y))
    ensures r + [] == r && [h] + a + ([z] + r) + [] == [h] + a + ([z] + r)
  {
  }

  lemma {:induction false} LinesOfBlock(c: Cond, thn: Doc, alt: Alt)
    ensures Closing(alt) != [] && Closer(Closing(alt)[0])
    ensures Closing(alt) == [Closing(alt)[0]] + Closing(alt)[1..]
    ensures Flatten(Block(c, thn, alt, Nil)) == [If(c)] + Flatten(thn) + Closing(alt)
    ensures Flatten(Block(c, thn, alt, Nil)) == [If(c)] + (Flatten(thn) + [Closing(alt)[0]] + Closing(alt)[1..])
  {
    hide Closing;
    ClosingStarts(alt);
    Regroup(If(c), Flatten(thn), Closing(alt)[0], Closing(alt)[1..], []);
    assert Flatten(Block(c, thn, alt, Nil)) == [If(c)] + Flatten(thn) + Closing(alt) + [];
  }

  // ----- blocks are told apart by their lines -----

  /** If some lines start with a flat body and a closer, and also with a settled body and a closer,
      the bodies are one. */
  lemma {:induction false} SameBody(t0: Doc, z0: Line, y0: seq<Line>, t: Doc, z: Line, y: seq<Line>)
    requires Settled(t0) && Flat(t0) && Settled(t) && Closer(z0) && Closer(z)
    requires Flatten(t0) + [z0] + y0 <= Flatten(t) + [z] + y
    ensures t0 == t && z0 == z && y0 <= y
  {
    var a, b := Flatten(t0) + [z0] + y0, Flatten(t) + [z] + y;
    assert a[0] == b[0];
    match t0 {
      case Nil =>
        assert a[0] == z0;
        assert t.Nil? by { BodyStarts(t, z, y); }
        assert a[1..] == y0 && b[1..] == y;
      case Plain(l0, r0) =>
        assert a[0] == l0;
        assert t.Plain? by { BodyStarts(t, z, y); }
        assert a[1..] == Flatten(r0) + [z0] + y0 && b[1..] == Flatten(t.rest) + [z] + y;
        SameBody(r0, z0, y0, t.rest, z, y);
    }
  }

  lemma {:induction false} BodyStarts(t: Doc, z: Line, y: seq<Line>)
    ensures (Flatten(t) + [z] + y)[0] ==
            match t case Nil => z case Plain(l, _) => l case Block(c, _, _, _) => If(c)
  {
  }

  /** The lines of an innermost block start the lines of a block only if that is the same block. */
  lemma {:induction false} SameBlock(b: Doc, c: Cond, thn: Doc, alt: Alt, y: seq<Line>)
    requires Innermost(b) && Settled(Block(c, thn, alt, Nil))
    requires Flatten(b) <= [If(c)] + Flatten(thn) + Closing(alt) + y
    ensures Block(c, thn, alt, Nil) == b
  {
    hide Flatten, Closing;
    LinesThen(c, thn, alt, y);
    LinesThen(b.cond, b.thn, b.alt, []);
    var (z0, z) := (Closing(b.alt)[0], Closing(alt)[0]);
    var (y0, y1) := (Closing(b.alt)[1..] + [], Closing(alt)[1..] + y);
    PrefixDrop(If(b.cond), Flatten(b.thn) + [z0] + y0, If(c), Flatten(thn) + [z] + y1);
    SameBody(b.thn, z0, y0, thn, z, y1);
    SameClosing(b.alt, alt, y);
  }

  lemma {:induction false} LinesThen(c: Cond, thn: Doc, alt: Alt, y: seq<Line>)
    ensures Closing(alt) != [] && Closer(Closing(alt)[0]) && Closing(alt)[1..] + [] == Closing(alt)[1..]
    ensures [If(c)] + Flatten(thn) + Closing(alt) + y ==
            [If(c)] + (Flatten(thn) + [Closing(alt)[0]] + (Closing(alt)[1..] + y))
    ensures Flatten(Block(c, thn, alt, Nil)) + y ==
            [If(c)] + (Flatten(thn) + [Closing(alt)[0]] + (Closing(alt)[1..] + y))
    ensures Flatten(Block(c, thn, alt, Nil)) + y == [If(c)] + Flatten(thn) + Closing(alt) + y
    ensures Flatten(Block(c, thn, alt, Nil)) + [] == Flatten(Block(c, thn, alt, Nil))
  {
    hide Closing, Flatten;
    LinesOfBlock(c, thn, alt);
    Regroup(If(c), Flatten(thn), Closing(alt)[0], Closing(alt)[1..], y);
  }

  lemma {:induction false} PrefixDrop(x: Line, a: seq<Line>, y: Line, b: seq<Line>)
    requires [x] + a <= [y] + b
    ensures x == y && a <= b
  {
    assert ([x] + a)[0] == ([y] + b)[0];
    assert ([x] + a)[1..] == a && ([y] + b)[1..] == b;
  }

  lemma {:induction false} SameClosing(a: Alt, b: Alt, y: seq<Line>)
    requires SettledAlt(a) && FlatAlt(a) && SettledAlt(b)
    requires Closing(a) != [] && Closing(b) != [] && Closing(a)[0] == Closing(b)[0]
    requires Closing(a)[1..] <= Closing(b)[1..] + y
    ensures a == b
  {
    hide Settled;
    match a
    case NoElse =>
    case WithElse(els) =>
      assert Closing(a)[1..] == Flatten(els) + [EndIf] + [];
      assert Closing(b)[1..] + y == Flatten(b.els) + [EndIf] + y;
      SameBody(els, EndIf, [], b.els, EndIf, y);
    case WithElseIf(_, mid, more) =>
      AfterElseIf(a, []);
      AfterElseIf(b, y);
      assert Closing(a)[1..] + [] == Closing(a)[1..] && Closing(more)[1..] + [] == Closing(more)[1..];
      SameBody(mid, Closing(more)[0], Closing(more)[1..], b.mid, Closing(b.more)[0], Closing(b.more)[1..] + y);
      SameClosing(more, b.more, y);
  }

  lemma {:induction false} AfterElseIf(a: Alt, y: seq<Line>)
    requires a.WithElseIf?
    ensures Closing(a.more) != [] && Closer(Closing(a.more)[0])
    ensures Closing(a)[1..] + y == Flatten(a.mid) + [Closing(a.more)[0]] + (Closing(a.more)[1..] + y)
  {
    hide Flatten;
    ClosingMore(a.mid, a.more, y);
    var body, more := Flatten(a.mid), Closing(a.more);
    assert ([ElseIf(a.elifCond)] + body + more)[1..] == body + more;
  }

  /** What stands after an elseif: a body, then a closer. */
  lemma {:induction false} ClosingMore(mid: Doc, more: Alt, y: seq<Line>)
    ensures Closing(more) != [] && Closer(Closing(more)[0])
    ensures Flatten(mid) + Closing(more) + y == Flatten(mid) + [Closing(more)[0]] + (Closing(more)[1..] + y)
  {
    hide Closing, Flatten;
    ClosingStarts(more);
    var m := Closing(more);
    assert m == [m[0]] + m[1..];
  }

  // ----- replacing -----

  lemma {:induction false} ReplaceNothing(b: Doc, result: seq<Line>)
    requires Innermost(b)
    ensures Replace([], Flatten(b), result) == []
  {
  }

  lemma {:induction false} ReplaceSkips(l: Line, doc: seq<Line>, b: Doc, result: seq<Line>)
    requires Innermost(b) && !l.If?
    ensures Replace([l] + doc, Flatten(b), result) == [l] + Replace(doc, Flatten(b), result)
  {
    assert Flatten(b)[0].If?;
    assert ([l] + doc)[1..] == doc;
  }

  /** Replacing the lines of an innermost block everywhere is substituting it in the tree. */
  ghost predicate Replaced(d: Doc, tail: seq<Line>, b: Doc)
    requires Settled(d) && Innermost(b)
  {
    Replace(Flatten(d) + tail, Flatten(b), FoundOf(b).result) ==
    Flatten(Subst(d, b)) + Replace(tail, Flatten(b), FoundOf(b).result)
  }

  lemma {:induction false} ReplaceIsSubst(d: Doc, tail: seq<Line>, b: Doc)
    requires Settled(d) && Innermost(b)
    ensures Replaced(d, tail, b)
    decreases d
  {
    hide Replaced, Replace, Innermost, Evaluate, Flatten, Closing;
    match d
    case Nil => ReplacedNil(tail, b);
    case Plain(l, rest) =>
      ReplaceIsSubst(rest, tail, b);
      ReplacedPlain(l, rest, tail, b);
    case Block(c, thn, alt, after) =>
      ReplaceIsSubst(after, tail, b);
      if Block(c, thn, alt, Nil) == b {
        ReplacedSame(b, after, tail);
      } else {
        ReplaceIsSubst(thn, Closing(alt) + (Flatten(after) + tail), b);
        ReplaceIsSubstAlt(alt, Flatten(after) + tail, b);
        ReplacedOther(c, thn, alt, after, tail, b);
      }
  }

  lemma {:induction false} ReplacedNil(tail: seq<Line>, b: Doc)
    requires Innermost(b)
    ensures Replaced(Nil, tail, b)
  {
    assert Flatten(Nil) + tail == tail;
  }

  lemma {:induction false} ReplacedPlain(l: Line, rest: Doc, tail: seq<Line>, b: Doc)
    requires Settled(Plain(l, rest)) && Innermost(b) && Replaced(rest, tail, b)
    ensures Replaced(Plain(l, rest), tail, b)
  {
    hide Replace, Innermost, FoundOf;
    assert Flatten(Plain(l, rest)) + tail == [l] + (Flatten(rest) + tail);
    ReplaceSkips(l, Flatten(rest) + tail, b, FoundOf(b).result);
  }

  lemma {:induction false} ReplacedSame(b: Doc, after: Doc, tail: seq<Line>)
    requires Innermost(b) && Settled(Block(b.cond, b.thn, b.alt, after)) && Settled(after) && Replaced(after, tail, b)
    ensures Replaced(Block(b.cond, b.thn, b.alt, after), tail, b)
  {
    hide Replace, FoundOf, Append, Chosen, Closing;
    RegroupBlock(If(b.cond), Flatten(b.thn), Closing(b.alt), Flatten(after), tail);
    ReplaceHere(b, Flatten(after) + tail);
    AppendChosen(b, after);
  }

  lemma {:induction false} ReplacedOther(c: Cond, thn: Doc, alt: Alt, after: Doc, tail: seq<Line>, b: Doc)
    requires Innermost(b) && Settled(Block(c, thn, alt, after)) && Block(c, thn, alt, Nil) != b
    requires Settled(thn) && SettledAlt(alt) && Settled(after) && Replaced(after, tail, b)
    requires Replaced(thn, Closing(alt) + (Flatten(after) + tail), b)
    requires Replace(Closing(alt) + (Flatten(after) + tail), Flatten(b), FoundOf(b).result) ==
             Closing(SubstAlt(alt, b)) + Replace(Flatten(after) + tail, Flatten(b), FoundOf(b).result)
    ensures Replaced(Block(c, thn, alt, after), tail, b)
  {
    hide Replace, FoundOf, Innermost, Append, Chosen, Closing;
    RegroupBlock(If(c), Flatten(thn), Closing(alt), Flatten(after), tail);
    ReplaceThere(b, c, thn, alt, Flatten(after) + tail);
    RegroupBlock(If(c), Flatten(Subst(thn, b)), Closing(SubstAlt(alt, b)), Flatten(Subst(after, b)),
                 Replace(tail, Flatten(b), FoundOf(b).result));
  }

  lemma {:induction false} RegroupBlock(h: Line, a: seq<Line>, b: seq<Line>, c: seq<Line>, y: seq<Line>)
    ensures [h] + a + b + c + y == [h] + (a + (b + (c + y)))
  {
  }

  lemma {:induction false} AppendChosen(b: Doc, after: Doc)
    requires Innermost(b) && Settled(after)
    ensures Flatten(Append(Chosen(b.cond, b.thn, b.alt), Subst(after, b))) ==
            FoundOf(b).result + Flatten(Subst(after, b))
  {
    SubstKeeps(after, b);
    ChosenIs(b.cond, b.thn, b.alt);
    AppendIs(Chosen(b.cond, b.thn, b.alt), Subst(after, b));
  }

  lemma {:induction false} ReplaceHere(b: Doc, end: seq<Line>)
    requires Innermost(b)
    ensures Flatten(b) != []
    ensures Replace([If(b.cond)] + (Flatten(b.thn) + (Closing(b.alt) + end)), Flatten(b), FoundOf(b).result) ==
            FoundOf(b).result + Replace(end, Flatten(b), FoundOf(b).result)
  {
    assert [If(b.cond)] + (Flatten(b.thn) + (Closing(b.alt) + end)) == Flatten(b) + end;
    assert (Flatten(b) + end)[|Flatten(b)|..] == end;
  }

  lemma {:induction false} ReplaceThere(b: Doc, c: Cond, thn: Doc, alt: Alt, end: seq<Line>)
    requires Innermost(b) && Settled(Block(c, thn, alt, Nil)) && Block(c, thn, alt, Nil) != b
    ensures Flatten(b) != []
    ensures Replace([If(c)] + (Flatten(thn) + (Closing(alt) + end)), Flatten(b), FoundOf(b).result) ==
            [If(c)] + Replace(Flatten(thn) + (Closing(alt) + end), Flatten(b), FoundOf(b).result)
  {
    var doc := [If(c)] + (Flatten(thn) + (Closing(alt) + end));
    assert doc == [If(c)] + Flatten(thn) + Closing(alt) + end;
    if Flatten(b) <= doc {
      SameBlock(b, c, thn, alt, end);
      assert false;
    }
    assert doc[1..] == Flatten(thn) + (Closing(alt) + end);
  }

  lemma {:induction false} ReplaceIsSubstAlt(alt: Alt, tail: seq<Line>, b: Doc)
    requires SettledAlt(alt) && Innermost(b)
    ensures Replace(Closing(alt) + tail, Flatten(b), FoundOf(b).result) ==
            Closing(SubstAlt(alt, b)) + Replace(tail, Flatten(b), FoundOf(b).result)
    decreases alt
  {
    hide Replace;
    var result := FoundOf(b).result;
    ReplaceSkips(EndIf, tail, b, result);
    match alt
    case NoElse =>
    case WithElse(els) =>
      assert Closing(alt) + tail == [Else] + (Flatten(els) + ([EndIf] + tail));
      ReplaceSkips(Else, Flatten(els) + ([EndIf] + tail), b, result);
      ReplaceIsSubst(els, [EndIf] + tail, b);
    case WithElseIf(c, mid, more) =>
      assert Closing(alt) + tail == [ElseIf(c)] + (Flatten(mid) + (Closing(more) + tail));
      ReplaceSkips(ElseIf(c), Flatten(mid) + (Closing(more) + tail), b, result);
      ReplaceIsSubst(mid, Closing(more) + tail, b);
      ReplaceIsSubstAlt(more, tail, b);
  }

  // ----- finding -----

  /** The patterns see a settled body whole when it is flat, and run into an if otherwise. */
  lemma {:induction false} LeadOf(t: Doc, z: Line, y: seq<Line>)
    requires Settled(t) && Closer(z)
    ensures var doc := Flatten(t) + [z] + y;
            Lead(doc) <= |Flatten(t)| &&
            (Flat(t) ==> Lead(doc) == |Flatten(t)|) &&
            (!Flat(t) ==> doc[Lead(doc)].If?)
  {
    var doc := Flatten(t) + [z] + y;
    match t
    case Nil => assert doc[0] == z;
    case Plain(l, rest) =>
      assert doc[0] == l && doc[1..] == Flatten(rest) + [z] + y;
      LeadOf(rest, z, y);
    case Block(c, thn, alt, after) => assert doc[0] == If(c);
  }

  lemma {:induction false} CutOf(t: Doc, z: Line, y: seq<Line>)
    requires Settled(t) && t.Plain? && Closer(z)
    ensures Flat(t) ==> CutBody(Flatten(t) + [z] + y) == Some(Cut(Flatten(t), z, y))
    ensures !Flat(t) ==> CutBody(Flatten(t) + [z] + y).Some? && CutBody(Flatten(t) + [z] + y).value.end.If?
  {
    var doc := Flatten(t) + [z] + y;
    assert doc[1..] == Flatten(t.rest) + [z] + y;
    LeadOf(t.rest, z, y);
    assert Flat(t) == Flat(t.rest);
    if Flat(t) {
      assert doc[..|Flatten(t)|] == Flatten(t) && doc[|Flatten(t)| + 1..] == y;
    }
  }

  /** At the start of a block a pattern matches exactly when the block is innermost and of its
      kind, and then it matches the whole block. */
  lemma {:induction false} MatchOf(kind: Kind, c: Cond, thn: Doc, alt: Alt, y: seq<Line>)
    requires Settled(Block(c, thn, alt, Nil))
    ensures var b := Block(c, thn, alt, Nil);
            MatchAt(kind, Flatten(b) + y) == if Innermost(b) && KindOf(alt) == kind then Some(FoundOf(b)) else None
  {
    hide CutBody, Flatten, Closing;
    var b := Block(c, thn, alt, Nil);
    LinesThen(c, thn, alt, y);
    var (z, more) := (Closing(alt)[0], Closing(alt)[1..] + y);
    assert (Flatten(b) + y)[1..] == Flatten(thn) + [z] + more;
    CutOf(thn, z, more);
    if c.Known? && Flat(thn) {
      MatchRest(kind, c, thn, alt, more, y);
    }
  }

  lemma {:induction false} MatchRest(kind: Kind, c: Cond, thn: Doc, alt: Alt, more: seq<Line>, y: seq<Line>)
    requires Settled(Block(c, thn, alt, Nil)) && Flat(thn) && Closing(alt) != [] && c.Known?
    requires more == Closing(alt)[1..] + y
    ensures var b := Block(c, thn, alt, Nil); var cut := Cut(Flatten(thn), Closing(alt)[0], more);
            (match kind
             case IfOnly => MatchIfOnly(If(c), cut)
             case IfElse => MatchIfElse(If(c), cut)
             case IfElseIfElse => MatchIfElseIf(If(c), cut))
            == if Innermost(b) && KindOf(alt) == kind then Some(FoundOf(b)) else None
  {
    LinesOfBlock(c, thn, alt);
    match alt
    case NoElse => assert [If(c)] + Flatten(thn) + [EndIf] == Flatten(Block(c, thn, alt, Nil));
    case WithElse(els) => MatchElse(c, thn, els, more, y);
    case WithElseIf(c2, mid, rest) => MatchElseIf(c, thn, c2, mid, rest, more, y);
  }

  lemma {:induction false} RegroupElse(h: Line, a: seq<Line>, b: seq<Line>, y: seq<Line>)
    ensures [h] + a + [Else] + b + [EndIf] == [h] + a + ([Else] + b + [EndIf])
    ensures ([Else] + b + [EndIf])[1..] + y == b + [EndIf] + y
  {
    assert ([Else] + b + [EndIf])[1..] == b + [EndIf];
  }

  lemma {:induction false} MatchElse(c: Cond, thn: Doc, els: Doc, more: seq<Line>, y: seq<Line>)
    requires Settled(Block(c, thn, WithElse(els), Nil)) && Flat(thn) && c.Known?
    requires more == Closing(WithElse(els))[1..] + y
    ensures var b := Block(c, thn, WithElse(els), Nil);
            MatchIfElse(If(c), Cut(Flatten(thn), Else, more)) == if Innermost(b) then Some(FoundOf(b)) else None
  {
    hide CutBody, Flatten;
    RegroupElse(If(c), Flatten(thn), Flatten(els), y);
    CutOf(els, EndIf, y);
    LinesOfBlock(c, thn, WithElse(els));
  }

  lemma {:induction false} RegroupElseIf(h: Line, a: seq<Line>, z: Line, b: seq<Line>, c: seq<Line>, y: seq<Line>)
    ensures [h] + a + [z] + b + [Else] + c + [EndIf] == [h] + a + ([z] + b + ([Else] + c + [EndIf]))
    ensures ([Else] + c + [EndIf])[1..] + y == c + [EndIf] + y
  {
    assert ([Else] + c + [EndIf])[1..] == c + [EndIf];
  }

  lemma {:induction false} MatchElseIf(c: Cond, thn: Doc, c2: Cond, mid: Doc, rest: Alt, more: seq<Line>, y: seq<Line>)
    requires Settled(Block(c, thn, WithElseIf(c2, mid, rest), Nil)) && Flat(thn) && c.Known?
    requires more == Closing(WithElseIf(c2, mid, rest))[1..] + y
    ensures var b := Block(c, thn, WithElseIf(c2, mid, rest), Nil);
            MatchIfElseIf(If(c), Cut(Flatten(thn), ElseIf(c2), more)) == if Innermost(b) then Some(FoundOf(b)) else None
  {
    hide CutBody, Flatten;
    AfterElseIf(WithElseIf(c2, mid, rest), y);
    assert SettledAlt(WithElseIf(c2, mid, rest));
    CutOf(mid, Closing(rest)[0], Closing(rest)[1..] + y);
    LinesOfBlock(c, thn, WithElseIf(c2, mid, rest));
    if rest.WithElse? {
      assert SettledAlt(rest) && FlatAlt(rest) == Flat(rest.els);
      RegroupElseIf(If(c), Flatten(thn), ElseIf(c2), Flatten(mid), Flatten(rest.els), y);
      CutOf(rest.els, EndIf, y);
    }
  }

  // ----- all matches -----

  /** The innermost blocks of one kind, from left to right. */
  function Ready(kind: Kind, d: Doc): seq<Doc> {
    match d
    case Nil => []
    case Plain(_, rest) => Ready(kind, rest)
    case Block(c, thn, alt, after) =>
      if Innermost(Block(c, thn, alt, Nil)) && KindOf(alt) == kind then [Block(c, thn, alt, Nil)] + Ready(kind, after)
      else Ready(kind, thn) + ReadyAlt(kind, alt) + Ready(kind, after)
  }

  function ReadyAlt(kind: Kind, alt: Alt): seq<Doc> {
    match alt
    case NoElse => []
    case WithElse(els) => Ready(kind, els)
    case WithElseIf(_, mid, more) => Ready(kind, mid) + ReadyAlt(kind, more)
  }

  function FoundAll(blocks: seq<Doc>): (r: seq<Found>)
    requires forall k :: 0 <= k < |blocks| ==> Innermost(blocks[k])
    ensures |r| == |blocks|
  {
    if blocks == [] then [] else [FoundOf(blocks[0])] + FoundAll(blocks[1..])
  }

  lemma {:induction false} FoundAllConcat(a: seq<Doc>, b: seq<Doc>)
    requires forall k :: 0 <= k < |a| ==> Innermost(a[k])
    requires forall k :: 0 <= k < |b| ==> Innermost(b[k])
    ensures FoundAll(a + b) == FoundAll(a) + FoundAll(b)
  {
    if a == [] {
      assert a + b == b;
    } else {
      assert (a + b)[1..] == a[1..] + b;
      FoundAllConcat(a[1..], b);
    }
  }

  lemma {:induction false} ReadyInnermost(kind: Kind, d: Doc)
    ensures forall k :: 0 <= k < |Ready(kind, d)| ==> Innermost(Ready(kind, d)[k])
  {
    match d
    case Nil =>
    case Plain(_, rest) => ReadyInnermost(kind, rest);
    case Block(c, thn, alt, after) =>
      ReadyInnermost(kind, thn);
      ReadyInnermostAlt(kind, alt);
      ReadyInnermost(kind, after);
  }

  lemma {:induction false} ReadyInnermostAlt(kind: Kind, alt: Alt)
    ensures forall k :: 0 <= k < |ReadyAlt(kind, alt)| ==> Innermost(ReadyAlt(kind, alt)[k])
  {
    match alt
    case NoElse =>
    case WithElse(els) => ReadyInnermost(kind, els);
    case WithElseIf(_, mid, more) =>
      ReadyInnermost(kind, mid);
      ReadyInnermostAlt(kind, more);
  }

  lemma {:induction false} FindSkips(kind: Kind, l: Line, doc: seq<Line>)
    requires !l.If?
    ensures FindAll(kind, [l] + doc) == FindAll(kind, doc)
  {
    assert ([l] + doc)[1..] == doc;
  }

  /** The matches in the lines of a settled document are its innermost blocks of that kind. */
  lemma {:induction false} FindIsReady(kind: Kind, d: Doc, tail: seq<Line>)
    requires Settled(d)
    ensures forall k :: 0 <= k < |Ready(kind, d)| ==> Innermost(Ready(kind, d)[k])
    ensures FindAll(kind, Flatten(d) + tail) == FoundAll(Ready(kind, d)) + FindAll(kind, tail)
    decreases d
  {
    hide FindAll, MatchAt, FoundAll, FoundOf, Closing, Innermost;
    ReadyInnermost(kind, d);
    match d
    case Nil =>
      assert Flatten(d) + tail == tail;
      FoundNone(kind, tail);
    case Plain(l, rest) =>
      assert Flatten(d) + tail == [l] + (Flatten(rest) + tail);
      FindSkips(kind, l, Flatten(rest) + tail);
      FindIsReady(kind, rest, tail);
    case Block(c, thn, alt, after) =>
      var end := Flatten(after) + tail;
      FindIsReady(kind, after, tail);
      BlockThen(c, thn, alt, after, tail);
      if Innermost(Block(c, thn, alt, Nil)) && KindOf(alt) == kind {
        FindHere(kind, c, thn, alt, end);
        FoundAllConcat([Block(c, thn, alt, Nil)], Ready(kind, after));
      } else {
        FindThere(kind, c, thn, alt, end);
        FindIsReady(kind, thn, Closing(alt) + end);
        FindIsReadyAlt(kind, alt, end);
        FoundAllConcat(Ready(kind, thn), ReadyAlt(kind, alt));
        FoundAllConcat(Ready(kind, thn) + ReadyAlt(kind, alt), Ready(kind, after));
      }
  }

  lemma {:induction false} BlockThen(c: Cond, thn: Doc, alt: Alt, after: Doc, tail: seq<Line>)
    ensures Flatten(Block(c, thn, alt, after)) + tail == Flatten(Block(c, thn, alt, Nil)) + (Flatten(after) + tail)
  {
    hide Closing;
    LinesOfBlock(c, thn, alt);
  }

  lemma {:induction false} FoundNone(kind: Kind, tail: seq<Line>)
    ensures FoundAll([]) + FindAll(kind, tail) == FindAll(kind, tail)
  {
  }

  lemma {:induction false} FindHere(kind: Kind, c: Cond, thn: Doc, alt: Alt, end: seq<Line>)
    requires Innermost(Block(c, thn, alt, Nil)) && KindOf(alt) == kind
    ensures FindAll(kind, Flatten(Block(c, thn, alt, Nil)) + end) ==
            FoundAll([Block(c, thn, alt, Nil)]) + FindAll(kind, end)
  {
    hide MatchAt, Flatten, Closing, Chosen;
    var b := Block(c, thn, alt, Nil);
    MatchOf(kind, c, thn, alt, end);
    assert Flatten(b) != [] by { LinesOfBlock(c, thn, alt); }
    assert (Flatten(b) + end)[|Flatten(b)|..] == end;
    assert [b][1..] == [];
    assert FoundAll([b]) == [FoundOf(b)] + FoundAll([]);
  }

  lemma {:induction false} FindThere(kind: Kind, c: Cond, thn: Doc, alt: Alt, end: seq<Line>)
    requires Settled(Block(c, thn, alt, Nil)) && !(Innermost(Block(c, thn, alt, Nil)) && KindOf(alt) == kind)
    ensures FindAll(kind, Flatten(Block(c, thn, alt, Nil)) + end) == FindAll(kind, Flatten(thn) + (Closing(alt) + end))
  {
    hide MatchAt;
    var doc := Flatten(Block(c, thn, alt, Nil)) + end;
    MatchOf(kind, c, thn, alt, end);
    assert doc[1..] == Flatten(thn) + (Closing(alt) + end);
  }

  lemma {:induction false} FindIsReadyAlt(kind: Kind, alt: Alt, tail: seq<Line>)
    requires SettledAlt(alt)
    ensures forall k :: 0 <= k < |ReadyAlt(kind, alt)| ==> Innermost(ReadyAlt(kind, alt)[k])
    ensures FindAll(kind, Closing(alt) + tail) == FoundAll(ReadyAlt(kind, alt)) + FindAll(kind, tail)
    decreases alt
  {
    hide FindAll, MatchAt, FoundAll, FoundOf;
    ReadyInnermostAlt(kind, alt);
    FindSkips(kind, EndIf, tail);
    match alt
    case NoElse => FoundNone(kind, tail);
    case WithElse(els) =>
      assert Closing(alt) + tail == [Else] + (Flatten(els) + ([EndIf] + tail));
      FindSkips(kind, Else, Flatten(els) + ([EndIf] + tail));
      FindIsReady(kind, els, [EndIf] + tail);
    case WithElseIf(c, mid, more) =>
      assert Closing(alt) + tail == [ElseIf(c)] + (Flatten(mid) + (Closing(more) + tail));
      FindSkips(kind, ElseIf(c), Flatten(mid) + (Closing(more) + tail));
      FindIsReady(kind, mid, Closing(more) + tail);
      FindIsReadyAlt(kind, more, tail);
      FoundAllConcat(Ready(kind, mid), ReadyAlt(kind, more));
  }

  // ----- one pass -----

  function SubstAll(d: Doc, blocks: seq<Doc>): Doc
    requires Settled(d) && forall k :: 0 <= k < |blocks| ==> Innermost(blocks[k])
    decreases |blocks|
  {
    if blocks == [] then d
    else
      SubstKeeps(d, blocks[0]);
      SubstAll(Subst(d, blocks[0]), blocks[1..])
  }

  lemma {:induction false} SubstAllKeeps(d: Doc, blocks: seq<Doc>)
    requires Settled(d) && forall k :: 0 <= k < |blocks| ==> Innermost(blocks[k])
    ensures Settled(SubstAll(d, blocks))
    ensures Evaluate(SubstAll(d, blocks), map[]) == Evaluate(d, map[])
    ensures Blocks(SubstAll(d, blocks)) <= Blocks(d) && (Complete(SubstAll(d, blocks)) <==> Complete(d))
    ensures blocks != [] && Occurs(d, blocks[0]) ==> Blocks(SubstAll(d, blocks)) < Blocks(d)
    decreases |blocks|
  {
    if blocks != [] {
      SubstKeeps(d, blocks[0]);
      SubstAllKeeps(Subst(d, blocks[0]), blocks[1..]);
    }
  }

  lemma {:induction false} ReplaceEachIsSubstAll(d: Doc, blocks: seq<Doc>)
    requires Settled(d) && forall k :: 0 <= k < |blocks| ==> Innermost(blocks[k])
    ensures forall k :: 0 <= k < |FoundAll(blocks)| ==> FoundAll(blocks)[k].full != []
    ensures ReplaceEach(Flatten(d), FoundAll(blocks)) == Flatten(SubstAll(d, blocks))
    decreases |blocks|
  {
    if blocks != [] {
      SubstKeeps(d, blocks[0]);
      ReplaceIsSubst(d, [], blocks[0]);
      assert Flatten(d) + [] == Flatten(d);
      ReplaceNothing(blocks[0], FoundOf(blocks[0]).result);
      assert Flatten(Subst(d, blocks[0])) + [] == Flatten(Subst(d, blocks[0]));
      assert FoundAll(blocks)[1..] == FoundAll(blocks[1..]);
      ReplaceEachIsSubstAll(Subst(d, blocks[0]), blocks[1..]);
    }
  }

  lemma {:induction false} ReadyOccur(kind: Kind, d: Doc)
    ensures Ready(kind, d) != [] ==> Occurs(d, Ready(kind, d)[0])
  {
    match d
    case Nil =>
    case Plain(_, rest) => ReadyOccur(kind, rest);
    case Block(c, thn, alt, after) =>
      ReadyOccur(kind, thn);
      ReadyOccurAlt(kind, alt);
      ReadyOccur(kind, after);
  }

  lemma {:induction false} ReadyOccurAlt(kind: Kind, alt: Alt)
    ensures ReadyAlt(kind, alt) != [] ==> OccursAlt(alt, ReadyAlt(kind, alt)[0])
  {
    match alt
    case NoElse =>
    case WithElse(els) => ReadyOccur(kind, els);
    case WithElseIf(_, mid, more) =>
      ReadyOccur(kind, mid);
      ReadyOccurAlt(kind, more);
  }

  /** A pass over the lines of a settled document is a value-keeping change of the document, smaller
      as soon as some innermost block is of the pass's kind. */
  lemma {:induction false} PassKeeps(kind: Kind, d: Doc) returns (d': Doc)
    requires Settled(d)
    ensures Settled(d') && Pass(kind, Flatten(d)) == Flatten(d')
    ensures Evaluate(d', map[]) == Evaluate(d, map[])
    ensures Blocks(d') <= Blocks(d) && (Complete(d') <==> Complete(d))
    ensures Ready(kind, d) != [] ==> Blocks(d') < Blocks(d)
    ensures Ready(kind, d) == [] ==> d' == d
  {
    var blocks := Ready(kind, d);
    FindIsReady(kind, d, []);
    assert Flatten(d) + [] == Flatten(d);
    assert FindAll(kind, []) == [];
    assert FoundAll(blocks) + [] == FoundAll(blocks);
    ReplaceEachIsSubstAll(d, blocks);
    SubstAllKeeps(d, blocks);
    ReadyOccur(kind, d);
    d' := SubstAll(d, blocks);
  }

  /** While there are blocks, some of them are innermost, and if patterns are made for all of them,
      some pattern matches. */
  lemma {:induction false} SomeReady(d: Doc)
    requires Settled(d) && !Flat(d) && Complete(d)
    ensures Ready(IfOnly, d) != [] || Ready(IfElse, d) != [] || Ready(IfElseIfElse, d) != []
  {
    match d
    case Plain(_, rest) => SomeReady(rest);
    case Block(c, thn, alt, after) =>
      if !Flat(thn) {
        SomeReady(thn);
      } else if !FlatAlt(alt) {
        SomeReadyAlt(alt);
      } else {
        assert Innermost(Block(c, thn, alt, Nil));
      }
  }

  lemma {:induction false} SomeReadyAlt(alt: Alt)
    requires SettledAlt(alt) && !FlatAlt(alt) && CompleteAlt(alt)
    ensures ReadyAlt(IfOnly, alt) != [] || ReadyAlt(IfElse, alt) != [] || ReadyAlt(IfElseIfElse, alt) != []
  {
    match alt
    case WithElse(els) => SomeReady(els);
    case WithElseIf(_, mid, more) => if !Flat(mid) { SomeReady(mid); } else { SomeReadyAlt(more); }
  }

  /** One round of the three patterns keeps the value, and the blocks no pattern is made for; if
      there are none of those, it removes at least one block, should any be left. */
  lemma {:induction false} ReduceKeeps(d: Doc) returns (d': Doc)
    requires Settled(d)
    ensures Settled(d') && Reduce(Flatten(d)) == Flatten(d')
    ensures Evaluate(d', map[]) == Evaluate(d, map[])
    ensures Blocks(d') <= Blocks(d) && (Complete(d') <==> Complete(d))
    ensures Complete(d) && !Flat(d) ==> Blocks(d') < Blocks(d)
  {
    var d1 := PassKeeps(IfElseIfElse, d);
    var d2 := PassKeeps(IfElse, d1);
    d' := PassKeeps(IfOnly, d2);
    if Complete(d) && !Flat(d) {
      SomeReady(d);
    }
  }
}
