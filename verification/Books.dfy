/** The books the allocator keeps: a list of components with sizes and maxima, and two totals. */
module Books {
  import opened Common
  import opened Platform

  datatype Component = Component(name: string, id: int, size: nat, maxSize: nat)

  /** The list has the newest component in front; `curr` and `peak` are the global counters. */
  datatype Books = Books(comps: seq<Component>, curr: nat, peak: nat)

  const EMPTY := Books([], 0, 0)

  // ----- what the code computes -----

  /** Where a name stands in the list. */
  function Find(comps: seq<Component>, name: string): (i: Option<nat>)
    ensures i.Some? ==> i.value < |comps| && comps[i.value].name == name
    ensures i.None? ==> forall k :: 0 <= k < |comps| ==> comps[k].name != name
  {
    if comps == [] then None
    else if comps[0].name == name then Some(0)
    else
      var r := Find(comps[1..], name);
      if r.None? then None else Some(r.value + 1)
  }

  /** The id a scan over the whole list proposes, starting from `candidate`. */
  function NextId(comps: seq<Component>, candidate: int): int {
    if comps == [] then candidate
    else NextId(comps[1..], if comps[0].id >= candidate then Char(comps[0].id + 1) else candidate)
  }

  function Counted(c: Component, size: nat, isAllocation: bool): Component {
    if isAllocation then
      var s := Ulong(c.size + size);
      c.(size := s, maxSize := if s > c.maxSize then s else c.maxSize)
    else c.(size := Ulong(c.size - size))
  }

  /** AnscMemoryCountSize. */
  function CountSize(b: Books, name: string, size: nat, isAllocation: bool): Books {
    var i := Find(b.comps, name);
    var comps := if i.Some? then b.comps[i.value := Counted(b.comps[i.value], size, isAllocation)]
                 else
                   var s := if isAllocation then size else 0;
                   [Component(name, NextId(b.comps, 0), s, s)] + b.comps;
    if isAllocation then
      var c := Ulong(b.curr + size);
      Books(comps, c, if b.peak < c then c else b.peak)
    else Books(comps, Ulong(b.curr - size), b.peak)
  }

  /** AnscMemoryGetComponentID, as a change of the books. */
  function AskId(b: Books, name: string): Books {
    if Find(b.comps, name).Some? then b
    else b.(comps := [Component(name, NextId(b.comps, 0), 0, 0)] + b.comps)
  }

  datatype Event = Count(name: string, size: nat, isAllocation: bool) | Ask(name: string)

  function Apply(b: Books, e: Event): Books {
    match e
    case Count(name, size, isAllocation) => CountSize(b, name, size, isAllocation)
    case Ask(name) => AskId(b, name)
  }

  function Run(events: seq<Event>): Books {
    if events == [] then EMPTY else Apply(Run(events[..|events| - 1]), events[|events| - 1])
  }

  // ----- what the books should say -----

  function Change(e: Event): int {
    if !e.Count? then 0 else if e.isAllocation then e.size as int else -(e.size as int)
  }

  /** What a component holds after some events, in whole numbers. */
  function Held(events: seq<Event>, name: string): int {
    if events == [] then 0
    else
      var e := events[|events| - 1];
      Held(events[..|events| - 1], name) + if e.name == name then Change(e) else 0
  }

  function Total(events: seq<Event>): int {
    if events == [] then 0
    else
      Total(events[..|events| - 1]) + Change(events[|events| - 1])
  }

  /** The most a component has ever held. */
  function MostHeld(events: seq<Event>, name: string): int {
    if events == [] then 0 else Max(MostHeld(events[..|events| - 1], name), Held(events, name))
  }

  function MostTotal(events: seq<Event>): int {
    if events == [] then 0 else Max(MostTotal(events[..|events| - 1]), Total(events))
  }

  /** Every component gives back only what it holds, and the total fits the counter, at all times. */
  ghost predicate Legal(events: seq<Event>) {
    events == [] ||
    (Legal(events[..|events| - 1]) && (forall name :: Held(events, name) >= 0) && Total(events) < ULONG_RANGE)
  }

  function SumSizes(comps: seq<Component>): nat {
    if comps == [] then 0 else comps[0].size + SumSizes(comps[1..])
  }

  function SumMaxima(comps: seq<Component>): nat {
    if comps == [] then 0 else comps[0].maxSize + SumMaxima(comps[1..])
  }

  predicate DistinctNames(comps: seq<Component>) {
    forall i, j :: 0 <= i < j < |comps| ==> comps[i].name != comps[j].name
  }

  /** Sizes and maxima are those of the events, and zero for a component not listed. */
  ghost predicate ItemsRight(comps: seq<Component>, events: seq<Event>) {
    && DistinctNames(comps)
    && (forall i :: 0 <= i < |comps| ==> ItemRight(comps[i], events))
    && (forall name :: Find(comps, name).None? ==> Held(events, name) == 0 && MostHeld(events, name) == 0)
  }

  ghost predicate ItemRight(c: Component, events: seq<Event>) {
    c.size == Held(events, c.name) && c.maxSize == MostHeld(events, c.name)
  }

  /** The totals are those of the events; what is held adds up; every component's maximum is within
      the global one, and that within the sum of the components' maxima. */
  ghost predicate TotalsRight(b: Books, events: seq<Event>) {
    && b.curr == Total(events) && b.peak == MostTotal(events)
    && SumSizes(b.comps) == b.curr && b.curr <= b.peak <= SumMaxima(b.comps)
    && (forall i :: 0 <= i < |b.comps| ==> b.comps[i].size <= b.comps[i].maxSize <= b.peak)
  }

  ghost predicate Right(b: Books, events: seq<Event>) {
    ItemsRight(b.comps, events) && TotalsRight(b, events)
  }

  // ----- proofs -----

  lemma {:induction false} SumUpdate(comps: seq<Component>, i: nat, c: Component)
    requires i < |comps|
    ensures SumSizes(comps[i := c]) == SumSizes(comps) - comps[i].size + c.size
    ensures SumMaxima(comps[i := c]) == SumMaxima(comps) - comps[i].maxSize + c.maxSize
  {
    if i == 0 {
      assert comps[i := c][1..] == comps[1..];
    } else {
      assert comps[i := c][1..] == comps[1..][i - 1 := c];
      SumUpdate(comps[1..], i - 1, c);
    }
  }

  lemma {:induction false} SumAtLeast(comps: seq<Component>, i: nat)
    requires i < |comps|
    ensures comps[i].size <= SumSizes(comps)
  {
    if i > 0 {
      SumAtLeast(comps[1..], i - 1);
    }
  }

  lemma {:induction false} SumsOrdered(comps: seq<Component>)
    requires forall i :: 0 <= i < |comps| ==> comps[i].size <= comps[i].maxSize
    ensures SumSizes(comps) <= SumMaxima(comps)
  {
    if comps != [] {
      SumsOrdered(comps[1..]);
    }
  }

  lemma {:induction false} FindUnique(comps: seq<Component>, i: nat)
    requires DistinctNames(comps) && i < |comps|
    ensures Find(comps, comps[i].name) == Some(i)
  {
    var r := Find(comps, comps[i].name);
    assert r.Some? && comps[r.value].name == comps[i].name;
  }

  /** Listed names after a step: those before, and the one of the event. */
  lemma {:induction false} ApplyNames(b: Books, e: Event)
    requires DistinctNames(b.comps)
    ensures var comps := Apply(b, e).comps;
            DistinctNames(comps) &&
            forall name :: Find(comps, name).Some? <==> Find(b.comps, name).Some? || name == e.name
  {
    var comps := Apply(b, e).comps;
    var i := Find(b.comps, e.name);
    forall name
      ensures Find(comps, name).Some? <==> Find(b.comps, name).Some? || name == e.name
    {
      if i.None? {
        assert comps[1..] == b.comps;
      } else {
        assert |comps| == |b.comps| && forall k :: 0 <= k < |comps| ==> comps[k].name == b.comps[k].name;
      }
    }
  }

  lemma {:induction false} HeldSnoc(events: seq<Event>, e: Event, name: string)
    ensures Held(events + [e], name) == Held(events, name) + if e.name == name then Change(e) else 0
    ensures MostHeld(events + [e], name) == Max(MostHeld(events, name), Held(events + [e], name))
  {
    assert (events + [e])[..|events + [e]| - 1] == events;
  }

  lemma {:induction false} TotalSnoc(events: seq<Event>, e: Event)
    ensures Total(events + [e]) == Total(events) + Change(e)
    ensures MostTotal(events + [e]) == Max(MostTotal(events), Total(events + [e]))
  {
    assert (events + [e])[..|events + [e]| - 1] == events;
  }

  lemma {:induction false} MostIsMost(events: seq<Event>, name: string)
    ensures 0 <= MostHeld(events, name) && Held(events, name) <= MostHeld(events, name)
  {
    if events != [] {
      MostIsMost(events[..|events| - 1], name);
    }
  }

  /** The item of the event itself, listed or new. */
  lemma {:induction false} OwnItem(b: Books, events: seq<Event>, e: Event, i: nat)
    requires Right(b, events) && Held(events + [e], e.name) >= 0 && Total(events + [e]) < ULONG_RANGE
    requires i < |b.comps| && b.comps[i].name == e.name && e.Count?
    ensures ItemRight(Counted(b.comps[i], e.size, e.isAllocation), events + [e])
    ensures var c := Counted(b.comps[i], e.size, e.isAllocation);
            c.name == e.name && c.size == b.comps[i].size + Change(e) && c.maxSize == Max(b.comps[i].maxSize, c.size)
  {
    HeldSnoc(events, e, e.name);
    TotalSnoc(events, e);
    MostIsMost(events, e.name);
    SumAtLeast(b.comps, i);
    assert ItemRight(b.comps[i], events);
  }

  lemma {:induction false} OthersStay(events: seq<Event>, e: Event, name: string)
    requires name != e.name
    ensures Held(events + [e], name) == Held(events, name) && MostHeld(events + [e], name) == MostHeld(events, name)
  {
    HeldSnoc(events, e, name);
    MostIsMost(events, name);
  }

  lemma {:induction false} NewItem(b: Books, events: seq<Event>, e: Event)
    requires Right(b, events) && Held(events + [e], e.name) >= 0 && Total(events + [e]) < ULONG_RANGE
    requires Find(b.comps, e.name).None?
    ensures ItemRight(Apply(b, e).comps[0], events + [e])
  {
    HeldSnoc(events, e, e.name);
  }

  lemma {:induction false} ItemAfter(b: Books, events: seq<Event>, e: Event, k: nat)
    requires Right(b, events) && Held(events + [e], e.name) >= 0 && Total(events + [e]) < ULONG_RANGE
    requires k < |Apply(b, e).comps|
    ensures ItemRight(Apply(b, e).comps[k], events + [e])
  {
    var i := Find(b.comps, e.name);
    if i.Some? {
      if b.comps[k].name != e.name {
        OthersStay(events, e, b.comps[k].name);
      }
      OtherItem(b, events, e, i.value, k);
    } else if k > 0 {
      assert Apply(b, e).comps[k] == b.comps[k - 1] && ItemRight(b.comps[k - 1], events);
      OthersStay(events, e, b.comps[k - 1].name);
    } else {
      NewItem(b, events, e);
    }
  }

  lemma {:induction false} ItemsStayRight(b: Books, events: seq<Event>, e: Event)
    requires Right(b, events) && Held(events + [e], e.name) >= 0 && Total(events + [e]) < ULONG_RANGE
    ensures ItemsRight(Apply(b, e).comps, events + [e])
  {
    hide Apply, ItemRight;
    ApplyNames(b, e);
    forall k | 0 <= k < |Apply(b, e).comps|
      ensures ItemRight(Apply(b, e).comps[k], events + [e])
    {
      ItemAfter(b, events, e, k);
    }
    forall name | Find(Apply(b, e).comps, name).None?
      ensures Held(events + [e], name) == 0 && MostHeld(events + [e], name) == 0
    {
      OthersStay(events, e, name);
    }
  }

  lemma {:induction false} OtherItem(b: Books, events: seq<Event>, e: Event, i: nat, k: nat)
    requires Right(b, events) && Held(events + [e], e.name) >= 0 && Total(events + [e]) < ULONG_RANGE
    requires i < |b.comps| && k < |b.comps| && Find(b.comps, e.name) == Some(i)
    requires b.comps[k].name != e.name ==> Held(events + [e], b.comps[k].name) == Held(events, b.comps[k].name)
    requires b.comps[k].name != e.name ==> MostHeld(events + [e], b.comps[k].name) == MostHeld(events, b.comps[k].name)
    ensures ItemRight(Apply(b, e).comps[k], events + [e])
  {
    assert ItemRight(b.comps[k], events);
    FindUnique(b.comps, k);
    if k == i {
      if e.Count? {
        OwnItem(b, events, e, i);
      } else {
        HeldSnoc(events, e, e.name);
        MostIsMost(events, e.name);
      }
    }
  }

  /** The sums after an event: the sizes' changed by it, the maxima's no lower. */
  lemma {:induction false} SumsAfter(b: Books, events: seq<Event>, e: Event)
    requires Right(b, events) && Held(events + [e], e.name) >= 0 && Total(events + [e]) < ULONG_RANGE
    ensures SumSizes(Apply(b, e).comps) == SumSizes(b.comps) + Change(e)
    ensures SumMaxima(b.comps) <= SumMaxima(Apply(b, e).comps)
  {
    hide Right, Legal, TotalsRight, ItemsRight, NextId;
    var comps := Apply(b, e).comps;
    var i := Find(b.comps, e.name);
    if i.Some? {
      if e.Count? {
        OwnItem(b, events, e, i.value);
        SumUpdate(b.comps, i.value, comps[i.value]);
      }
    } else {
      NewChange(b, events, e);
      assert comps[1..] == b.comps;
    }
  }

  lemma {:induction false} NewChange(b: Books, events: seq<Event>, e: Event)
    requires Right(b, events) && Held(events + [e], e.name) >= 0
    requires Find(b.comps, e.name).None?
    ensures Change(e) >= 0
  {
    HeldSnoc(events, e, e.name);
  }

  /** No size is above its maximum, no maximum above the old peak and its size. */
  lemma {:induction false} BoundsAfter(b: Books, events: seq<Event>, e: Event, k: nat)
    requires Right(b, events) && Held(events + [e], e.name) >= 0 && Total(events + [e]) < ULONG_RANGE
    requires k < |Apply(b, e).comps|
    ensures var c := Apply(b, e).comps[k]; c.size <= c.maxSize && (c.maxSize <= c.size || c.maxSize <= b.peak)
  {
    hide Apply, ItemsRight, Held, MostHeld, Total, Find, Counted;
    ApplyAt(b, e, k);
    var i := Find(b.comps, e.name);
    if i.Some? && e.Count? && k == i.value {
      OwnItem(b, events, e, k);
    }
  }

  /** Which component comes to stand at `k`. */
  lemma {:induction false} ApplyAt(b: Books, e: Event, k: nat)
    requires k < |Apply(b, e).comps|
    ensures var i, c := Find(b.comps, e.name), Apply(b, e).comps[k];
            if i.None? then (if k == 0 then c.size == c.maxSize else k - 1 < |b.comps| && c == b.comps[k - 1])
            else k < |b.comps| &&
                 c == if e.Count? && k == i.value then Counted(b.comps[k], e.size, e.isAllocation) else b.comps[k]
  {
    hide NextId, Counted;
  }

  lemma {:induction false} TotalsStayRight(b: Books, events: seq<Event>, e: Event)
    requires Right(b, events) && Held(events + [e], e.name) >= 0 && 0 <= Total(events + [e]) < ULONG_RANGE
    ensures TotalsRight(Apply(b, e), events + [e])
  {
    hide ItemsRight, Find, NextId, Held, SumSizes, SumMaxima, Change;
    var b' := Apply(b, e);
    GlobalsAfter(b, events, e);
    SumsAfter(b, events, e);
    forall k | 0 <= k < |b'.comps|
      ensures b'.comps[k].size <= b'.comps[k].maxSize <= b'.peak
    {
      BoundsAfter(b, events, e, k);
      SumAtLeast(b'.comps, k);
    }
    SumsOrdered(b'.comps);
  }

  lemma {:induction false} GlobalsAfter(b: Books, events: seq<Event>, e: Event)
    requires TotalsRight(b, events) && 0 <= Total(events + [e]) < ULONG_RANGE
    ensures var b' := Apply(b, e);
            b'.curr == Total(events + [e]) == b.curr + Change(e) &&
            b'.peak == MostTotal(events + [e]) && b'.curr <= b'.peak && b.peak <= b'.peak
    ensures Apply(b, e).peak == b.peak || Apply(b, e).peak == Apply(b, e).curr
  {
    hide Find, NextId, Counted, SumSizes, SumMaxima;
    TotalSnoc(events, e);
  }

  lemma {:induction false} TotalNotNegative(b: Books, events: seq<Event>, e: Event)
    requires Right(b, events) && Held(events + [e], e.name) >= 0
    ensures Total(events + [e]) >= 0
  {
    TotalSnoc(events, e);
    HeldSnoc(events, e, e.name);
    var i := Find(b.comps, e.name);
    if i.Some? {
      SumAtLeast(b.comps, i.value);
      assert ItemRight(b.comps[i.value], events);
    }
  }

  /** After every legal run the books are right. */
  lemma {:induction false} LegalRunsKeepRightBooks(events: seq<Event>)
    requires Legal(events)
    ensures Right(Run(events), events)
  {
    if events != [] {
      var init, e := events[..|events| - 1], events[|events| - 1];
      assert init + [e] == events;
      LegalRunsKeepRightBooks(init);
      TotalNotNegative(Run(init), init, e);
      ItemsStayRight(Run(init), init, e);
      TotalsStayRight(Run(init), init, e);
    }
  }

  // ----- ids -----

  /** Oldest components carry 0, 1, ..., 127; should there be one more, it repeats 127. */
  predicate IdsRight(comps: seq<Component>) {
    && (forall i :: 0 <= i < |comps| && |comps| - 1 - i < 128 ==> comps[i].id == |comps| - 1 - i)
    && (|comps| > 128 ==> comps[|comps| - 129].id == 127)
  }

  lemma {:induction false} NextIdKeeps(comps: seq<Component>, candidate: int)
    requires forall i :: 0 <= i < |comps| ==> comps[i].id < candidate
    ensures NextId(comps, candidate) == candidate
  {
    if comps != [] {
      NextIdKeeps(comps[1..], candidate);
    }
  }

  /** Up to 128 components the scan proposes their number; for the next one the char overflows. */
  lemma {:induction false} NextIdOf(comps: seq<Component>)
    requires IdsRight(comps) && |comps| <= 128
    ensures NextId(comps, 0) == if |comps| < 128 then |comps| else 127
  {
    if comps != [] {
      assert comps[0].id == |comps| - 1;
      var rest := comps[1..];
      assert forall i :: 0 <= i < |rest| ==> rest[i].id == |rest| - 1 - i;
      if |comps| < 128 {
        NextIdKeeps(rest, |comps|);
      } else {
        assert Char(128) == -128;
        assert NextId(comps, 0) == NextId(rest, -128) == NextId(rest[1..], 127);
        NextIdKeeps(rest[1..], 127);
      }
    }
  }

  lemma {:induction false} IdsStep(b: Books, e: Event)
    requires IdsRight(b.comps)
    ensures IdsRight(Apply(b, e).comps)
  {
    var comps := Apply(b, e).comps;
    if Find(b.comps, e.name).None? {
      if |b.comps| <= 128 {
        NextIdOf(b.comps);
      }
      assert forall i :: 1 <= i < |comps| ==> comps[i] == b.comps[i - 1];
    } else {
      assert |comps| == |b.comps| && forall i :: 0 <= i < |comps| ==> comps[i].id == b.comps[i].id;
    }
  }

  lemma {:induction false} RunIds(events: seq<Event>)
    ensures IdsRight(Run(events).comps) && DistinctNames(Run(events).comps)
  {
    hide Apply, IdsRight, DistinctNames;
    if events != [] {
      RunIds(events[..|events| - 1]);
      IdsStep(Run(events[..|events| - 1]), events[|events| - 1]);
      ApplyNames(Run(events[..|events| - 1]), events[|events| - 1]);
    } else {
      NoIds();
    }
  }

  lemma {:induction false} NoIds()
    ensures IdsRight(EMPTY.comps) && DistinctNames(EMPTY.comps)
  {
  }

  predicate DistinctIds(comps: seq<Component>) {
    forall i, j :: 0 <= i < j < |comps| ==> comps[i].id != comps[j].id
  }

  /** After any run, in whatever order sizes are counted and ids asked for: names are distinct, and
      so are ids exactly while there are at most 128 components; then they count down from the
      head of the list to 0. */
  lemma {:induction false} IdsDistinctUpTo128(events: seq<Event>)
    ensures DistinctNames(Run(events).comps)
    ensures DistinctIds(Run(events).comps) <==> |Run(events).comps| <= 128
    ensures |Run(events).comps| <= 128 ==>
              forall i :: 0 <= i < |Run(events).comps| ==> Run(events).comps[i].id == |Run(events).comps| - 1 - i
  {
    RunIds(events);
    var comps := Run(events).comps;
    if |comps| > 128 {
      assert comps[|comps| - 129].id == 127 && comps[|comps| - 128].id == 127;
    }
  }

  /** A component once listed stays listed with its id. */
  lemma {:induction false} IdsStay(b: Books, e: Event, i: nat)
    requires i < |b.comps|
    ensures |Apply(b, e).comps| >= |b.comps|
    ensures var j := |Apply(b, e).comps| - |b.comps| + i;
            Apply(b, e).comps[j].name == b.comps[i].name && Apply(b, e).comps[j].id == b.comps[i].id
  {
  }
}
