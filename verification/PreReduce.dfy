/** Block reduction agrees with evaluation: each pass over the lines of a well-nested document is a
    substitution in its tree that keeps its value, and some pass makes the tree smaller. */
module PreReduce {
  import opened PreDoc
  import opened PrePasses

  // ----- decided documents -----

  /** Conditions are decided as far as they can be, lines are text, bodies open with a line. */
  predicate Settled(d: Doc) {
    match d
    case Nil => true
    case Plain(l, rest) => l.Text? && Settled(rest)
    case Block(c, thn, alt, after) =>
      && (c.Known? || (c.Test? && |c.more| > 4))
      && thn.Plain? && Settled(thn) && SettledAlt(alt) && Settled(after)
  }

  predicate SettledAlt(alt: Alt) {
    match alt
    case NoElse => true
    case WithElse(els) => els.Plain? && Settled(els)
    case WithElseIf(c, mid, more) => (c.Known? || c.Test?) && mid.Plain? && Settled(mid) && SettledAlt(more)
  }

  predicate Flat(d: Doc) {
    match d
    case Nil => true
    case Plain(_, rest) => Flat(rest)
    case Block(_, _, _, _) => false
  }

  predicate FlatAlt(alt: Alt) {
    match alt
    case NoElse => true
    case WithElse(els) => Flat(els)
    case WithElseIf(_, mid, more) => Flat(mid) && FlatAlt(more)
  }

  /** A block some pattern is made for, without blocks inside and with nothing after it. */
  predicate Innermost(b: Doc) {
    b.Block? && Settled(b) && Matchable(b.cond, b.alt) && Flat(b.thn) && FlatAlt(b.alt) && b.after == Nil
  }

  function KindOf(alt: Alt): Kind {
    match alt
    case NoElse => IfOnly
    case WithElse(_) => IfElse
    case WithElseIf(_, _, _) => IfElseIfElse
  }

  /** The body that stays. */
  function Chosen(c: Cond, thn: Doc, alt: Alt): Doc
    requires Settled(Block(c, thn, alt, Nil)) && Matchable(c, alt)
  {
    assert SettledAlt(alt);
    if c.b then thn
    else match alt
      case NoElse => Nil
      case WithElse(els) => els
      case WithElseIf(c2, mid, more) => if c2.b then mid else more.els
  }

  function FoundOf(b: Doc): Found
    requires Innermost(b)
  {
    Found(Flatten(b), Flatten(Chosen(b.cond, b.thn, b.alt)))
  }

  function Append(d: Doc, e: Doc): Doc {
    match d
    case Nil => e
    case Plain(l, rest) => Plain(l, Append(rest, e))
    case Block(c, thn, alt, after) => Block(c, thn, alt, Append(after, e))
  }

  lemma {:induction false} AppendIs(d: Doc, e: Doc)
    requires Settled(d) && Settled(e)
    ensures Settled(Append(d, e)) && Flatten(Append(d, e)) == Flatten(d) + Flatten(e)
    ensures Evaluate(Append(d, e), map[]) == Evaluate(d, map[]) + Evaluate(e, map[])
    ensures Blocks(Append(d, e)) == Blocks(d) + Blocks(e)
    ensures Complete(Append(d, e)) <==> Complete(d) && Complete(e)
  {
    AppendSettled(d, e);
    AppendFlatten(d, e);
    AppendEvaluate(d, e);
  }

  lemma {:induction false} AppendSettled(d: Doc, e: Doc)
    requires Settled(d) && Settled(e)
    ensures Settled(Append(d, e)) && Blocks(Append(d, e)) == Blocks(d) + Blocks(e)
    ensures Complete(Append(d, e)) <==> Complete(d) && Complete(e)
  {
    match d
    case Nil =>
    case Plain(_, rest) => AppendSettled(rest, e);
    case Block(_, _, _, after) => AppendSettled(after, e);
  }

  lemma {:induction false} AppendFlatten(d: Doc, e: Doc)
    ensures Flatten(Append(d, e)) == Flatten(d) + Flatten(e)
  {
    match d
    case Nil =>
    case Plain(l, rest) =>
      AppendFlatten(rest, e);
      Associate([l], Flatten(rest), Flatten(e));
    case Block(c, thn, alt, after) =>
      AppendFlatten(after, e);
      Associate([If(c)] + Flatten(thn) + Closing(alt), Flatten(after), Flatten(e));
  }

  lemma {:induction false} AppendEvaluate(d: Doc, e: Doc)
    ensures Evaluate(Append(d, e), map[]) == Evaluate(d, map[]) + Evaluate(e, map[])
  {
    hide FillInLine, Holds, EvaluateAlt;
    match d
    case Nil =>
    case Plain(l, rest) =>
      AppendEvaluate(rest, e);
      Associate([FillInLine(l, map[])], Evaluate(rest, map[]), Evaluate(e, map[]));
    case Block(c, thn, alt, after) =>
      AppendEvaluate(after, e);
      var body := if Holds(c, map[]) then Evaluate(thn, map[]) else EvaluateAlt(alt, map[]);
      Associate(body, Evaluate(after, map[]), Evaluate(e, map[]));
  }

  lemma {:induction false} Associate(a: seq<Line>, b: seq<Line>, c: seq<Line>)
    ensures (a + b) + c == a + (b + c)
  {
  }

  function Blocks(d: Doc): nat {
    match d
    case Nil => 0
    case Plain(_, rest) => Blocks(rest)
    case Block(_, thn, alt, after) => 1 + Blocks(thn) + BlocksAlt(alt) + Blocks(after)
  }

  function BlocksAlt(alt: Alt): nat {
    match alt
    case NoElse => 0
    case WithElse(els) => Blocks(els)
    case WithElseIf(_, mid, more) => Blocks(mid) + BlocksAlt(more)
  }

  /** All copies of one innermost block give way to the body that stays. */
  function Subst(d: Doc, b: Doc): Doc
    requires Settled(d) && Innermost(b)
  {
    match d
    case Nil => Nil
    case Plain(l, rest) => Plain(l, Subst(rest, b))
    case Block(c, thn, alt, after) =>
      if Block(c, thn, alt, Nil) == b then Append(Chosen(c, thn, alt), Subst(after, b))
      else Block(c, Subst(thn, b), SubstAlt(alt, b), Subst(after, b))
  }

  function SubstAlt(alt: Alt, b: Doc): Alt
    requires SettledAlt(alt) && Innermost(b)
  {
    match alt
    case NoElse => NoElse
    case WithElse(els) => WithElse(Subst(els, b))
    case WithElseIf(c, mid, more) => WithElseIf(c, Subst(mid, b), SubstAlt(more, b))
  }

  lemma {:induction false} FlatFacts(d: Doc)
    requires Settled(d) && Flat(d)
    ensures Blocks(d) == 0 && Complete(d) && Evaluate(d, map[]) == Flatten(d)
    ensures forall i :: 0 <= i < |Flatten(d)| ==> Flatten(d)[i].Text?
  {
    match d
    case Nil =>
    case Plain(l, rest) =>
      FlatFacts(rest);
      SettledLine(l);
  }

  lemma {:induction false} SettledLine(l: Line)
    requires l.Text?
    ensures FillInLine(l, map[]) == l
  {
    assert FillIn(l.parts, map[]) == l.parts;
  }

  lemma {:induction false} ChosenIs(c: Cond, thn: Doc, alt: Alt)
    requires Settled(Block(c, thn, alt, Nil)) && Matchable(c, alt)
    ensures Settled(Chosen(c, thn, alt))
    ensures Evaluate(Chosen(c, thn, alt), map[]) == Evaluate(Block(c, thn, alt, Nil), map[])
  {
    assert SettledAlt(alt);
    if alt.WithElseIf? {
      var more := alt.more;
      assert SettledAlt(more) && more.WithElse?;
      assert EvaluateAlt(more, map[]) == Evaluate(more.els, map[]);
    }
  }

  predicate Occurs(d: Doc, b: Doc) {
    match d
    case Nil => false
    case Plain(_, rest) => Occurs(rest, b)
    case Block(c, thn, alt, after) =>
      Block(c, thn, alt, Nil) == b || Occurs(thn, b) || OccursAlt(alt, b) || Occurs(after, b)
  }

  predicate OccursAlt(alt: Alt, b: Doc) {
    match alt
    case NoElse => false
    case WithElse(els) => Occurs(els, b)
    case WithElseIf(_, mid, more) => Occurs(mid, b) || OccursAlt(more, b)
  }

  /** Substitution keeps the value of a document and, when there is something to substitute, makes
      it smaller. */
  lemma {:induction false} SubstKeeps(d: Doc, b: Doc)
    requires Settled(d) && Innermost(b)
    ensures Settled(Subst(d, b)) && (d.Plain? ==> Subst(d, b).Plain?)
    ensures Evaluate(Subst(d, b), map[]) == Evaluate(d, map[])
    ensures Blocks(Subst(d, b)) <= Blocks(d) && (Complete(Subst(d, b)) <==> Complete(d))
    ensures Occurs(d, b) ==> Blocks(Subst(d, b)) < Blocks(d)
  {
    match d
    case Nil =>
    case Plain(l, rest) => SubstKeeps(rest, b);
    case Block(c, thn, alt, after) =>
      SubstKeeps(after, b);
      if Block(c, thn, alt, Nil) == b {
        ChosenIs(c, thn, alt);
        ChosenFlat(b);
        AppendIs(Chosen(c, thn, alt), Subst(after, b));
      } else {
        SubstKeeps(thn, b);
        SubstKeepsAlt(alt, b);
      }
  }

  lemma {:induction false} ChosenFlat(b: Doc)
    requires Innermost(b)
    ensures Blocks(Chosen(b.cond, b.thn, b.alt)) == 0 && Complete(Chosen(b.cond, b.thn, b.alt))
    ensures Complete(b.thn) && CompleteAlt(b.alt)
  {
    ChosenIs(b.cond, b.thn, b.alt);
    assert b.alt.WithElseIf? ==> FlatAlt(b.alt.more);
    assert Flat(Chosen(b.cond, b.thn, b.alt));
    FlatFacts(Chosen(b.cond, b.thn, b.alt));
    FlatFacts(b.thn);
    FlatCompletes(b.alt);
  }

  lemma {:induction false} FlatCompletes(alt: Alt)
    requires SettledAlt(alt) && FlatAlt(alt)
    ensures CompleteAlt(alt)
  {
    match alt
    case NoElse =>
    case WithElse(els) => FlatFacts(els);
    case WithElseIf(_, mid, more) =>
      FlatFacts(mid);
      FlatCompletes(more);
  }

  lemma {:induction false} SubstKeepsAlt(alt: Alt, b: Doc)
    requires SettledAlt(alt) && Innermost(b)
    ensures SettledAlt(SubstAlt(alt, b)) && BlocksAlt(SubstAlt(alt, b)) <= BlocksAlt(alt)
    ensures EvaluateAlt(SubstAlt(alt, b), map[]) == EvaluateAlt(alt, map[])
    ensures CompleteAlt(SubstAlt(alt, b)) <==> CompleteAlt(alt)
    ensures forall c: Cond :: Matchable(c, SubstAlt(alt, b)) <==> Matchable(c, alt)
    ensures OccursAlt(alt, b) ==> BlocksAlt(SubstAlt(alt, b)) < BlocksAlt(alt)
  {
    match alt
    case NoElse =>
    case WithElse(els) => SubstKeeps(els, b);
    case WithElseIf(c, mid, more) =>
      SubstKeeps(mid, b);
      SubstKeepsAlt(more, b);
  }
}
