/** Blocks handed out by the counting allocator: where they lie in the address space, what they add
    up to, and what freeing one does to the books. */
module LiveBlocks {
  import opened Common
  import opened Platform
  import opened Books

  /** A block handed out and not given back: where, by which component, how large. */
  datatype Live = Live(pointer: nat, owner: string, size: nat)

  /** The bytes of a block: its size and, from the pointer on, the client's. */
  predicate Placed(l: Live) {
    ULONG_BYTES < l.pointer && l.pointer + l.size <= ULONG_RANGE
  }

  predicate Apart(a: Live, b: Live) {
    a.pointer + a.size + ULONG_BYTES <= b.pointer || b.pointer + b.size + ULONG_BYTES <= a.pointer
  }

  predicate Laid(live: seq<Live>) {
    && (forall i :: 0 <= i < |live| ==> Placed(live[i]))
    && (forall i, j :: 0 <= i < j < |live| ==> Apart(live[i], live[j]))
  }

  /** What malloc promises of a block of n bytes at `raw`. */
  predicate Vacant(live: seq<Live>, raw: nat, n: nat) {
    && 0 < raw && raw + n <= ULONG_RANGE
    && forall i :: 0 <= i < |live| ==>
         raw + n + ULONG_BYTES <= live[i].pointer || live[i].pointer + live[i].size <= raw
  }

  /** Every block has its size in front. */
  ghost predicate HeadersRight(m: seq<Byte>, live: seq<Live>) {
    && |m| == ULONG_RANGE
    && (forall i :: 0 <= i < |live| ==> Placed(live[i]))
    && forall i :: 0 <= i < |live| ==> HeaderOf(m, live[i]) == live[i].size
  }

  function HeaderOf(m: seq<Byte>, l: Live): nat
    requires |m| == ULONG_RANGE && Placed(l)
  {
    UlongOf(m[l.pointer - ULONG_BYTES..l.pointer])
  }

  /** No byte outside these addresses differs. */
  predicate SameOutside(m0: seq<Byte>, m1: seq<Byte>, lo: nat, n: nat) {
    |m0| == |m1| && forall a :: 0 <= a < |m0| && !(lo <= a < lo + n) ==> m1[a] == m0[a]
  }

  lemma {:induction false} HeadersKept(m0: seq<Byte>, m1: seq<Byte>, live: seq<Live>, lo: nat, n: nat)
    requires HeadersRight(m0, live) && SameOutside(m0, m1, lo, n)
    requires forall i :: 0 <= i < |live| ==> lo + n + ULONG_BYTES <= live[i].pointer || live[i].pointer <= lo
    ensures HeadersRight(m1, live)
  {
    forall i | 0 <= i < |live|
      ensures HeaderOf(m1, live[i]) == live[i].size
    {
      var p := live[i].pointer;
      assert m1[p - ULONG_BYTES..p] == m0[p - ULONG_BYTES..p];
    }
  }

  function HeldBy(live: seq<Live>, name: string): nat {
    if live == [] then 0
    else HeldBy(live[..|live| - 1], name) + if live[|live| - 1].owner == name then live[|live| - 1].size else 0
  }

  function AllHeld(live: seq<Live>): nat {
    if live == [] then 0 else AllHeld(live[..|live| - 1]) + live[|live| - 1].size
  }

  lemma {:induction false} HeldWithout(live: seq<Live>, k: nat, name: string)
    requires k < |live|
    ensures HeldBy(Without(live, k), name) == HeldBy(live, name) - if live[k].owner == name then live[k].size else 0
    ensures AllHeld(Without(live, k)) == AllHeld(live) - live[k].size
  {
    hide Without;
    var n := |live| - 1;
    LastOfWithout(live, k);
    if k < n {
      HeldWithout(live[..n], k, name);
    }
  }

  lemma {:induction false} LastOfWithout(live: seq<Live>, k: nat)
    requires k < |live|
    ensures var n := |live| - 1;
            if k == n then Without(live, k) == live[..n]
            else |Without(live, k)| == n && Without(live, k)[..n - 1] == Without(live[..n], k) &&
                 Without(live, k)[n - 1] == live[n]
  {
  }

  /** A block cleared and given its size in front. */
  lemma {:induction false} BlockWritten(m0: seq<Byte>, m1: seq<Byte>, m2: seq<Byte>, raw: nat, size: nat)
    requires |m0| == ULONG_RANGE && raw + size + ULONG_BYTES <= ULONG_RANGE && size < ULONG_RANGE
    requires SameOutside(m0, m1, raw, size + ULONG_BYTES)
    requires m1[raw..raw + (size + ULONG_BYTES)] == Zeros(size + ULONG_BYTES)
    requires SameOutside(m1, m2, raw, ULONG_BYTES) && m2[raw..raw + ULONG_BYTES] == UlongBytes(size)
    ensures SameOutside(m0, m2, raw, size + ULONG_BYTES)
    ensures m2[raw + ULONG_BYTES..raw + ULONG_BYTES + size] == Zeros(size)
    ensures UlongOf(m2[raw..raw + ULONG_BYTES]) == size
  {
    hide UlongOf, UlongBytes;
    UlongRoundTrip(size, []);
    assert UlongBytes(size) + [] == UlongBytes(size);
    forall j | raw + ULONG_BYTES <= j < raw + ULONG_BYTES + size
      ensures m2[j] == 0
    {
      assert m1[raw..raw + (size + ULONG_BYTES)][j - raw] == 0;
    }
  }

  lemma {:induction false} LaidWithout(m: seq<Byte>, live: seq<Live>, k: nat)
    requires k < |live| && Laid(live) && HeadersRight(m, live)
    ensures Laid(Without(live, k)) && HeadersRight(m, Without(live, k))
    ensures forall i :: 0 <= i < |Without(live, k)| ==> Apart(Without(live, k)[i], live[k])
  {
    var rest := Without(live, k);
    assert forall i :: 0 <= i < |rest| ==> rest[i] == live[if i < k then i else i + 1];
  }

  lemma {:induction false} NewBlock(m0: seq<Byte>, m1: seq<Byte>, live: seq<Live>, name: string, size: nat, raw: nat)
    requires Laid(live) && HeadersRight(m0, live) && Vacant(live, raw, size + ULONG_BYTES)
    requires SameOutside(m0, m1, raw, size + ULONG_BYTES) && UlongOf(m1[raw..raw + ULONG_BYTES]) == size
    ensures Laid(live + [Live(raw + ULONG_BYTES, name, size)])
    ensures HeadersRight(m1, live + [Live(raw + ULONG_BYTES, name, size)])
  {
    HeadersKept(m0, m1, live, raw, size + ULONG_BYTES);
    LaidWith(m1, live, Live(raw + ULONG_BYTES, name, size));
  }

  lemma {:induction false} LaidWith(m: seq<Byte>, live: seq<Live>, l: Live)
    requires Laid(live) && HeadersRight(m, live) && Placed(l) && HeaderOf(m, l) == l.size
    requires Vacant(live, l.pointer - ULONG_BYTES, ULONG_BYTES + l.size)
    ensures Laid(live + [l]) && HeadersRight(m, live + [l])
  {
  }

  lemma {:induction false} HeldSnocBlock(live: seq<Live>, l: Live, name: string)
    ensures HeldBy(live + [l], name) == HeldBy(live, name) + if l.owner == name then l.size else 0
    ensures AllHeld(live + [l]) == AllHeld(live) + l.size
  {
    assert (live + [l])[..|live + [l]| - 1] == live;
  }

  // ----- giving a block back under some name -----

  function SizeOf(comps: seq<Component>, name: string): nat {
    var i := Find(comps, name);
    if i.Some? then comps[i.value].size else 0
  }

  /** Each component's size is what its blocks add up to. */
  ghost predicate SizesRight(comps: seq<Component>, live: seq<Live>) {
    forall name :: SizeOf(comps, name) == HeldBy(live, name)
  }

  /** Freeing a block keeps the sizes right exactly when it is freed under the component that
      allocated it, or is empty. */
  lemma {:induction false} FreeKeepsSizesIff(b: Books, live: seq<Live>, k: nat, name: string)
    requires DistinctNames(b.comps) && SizesRight(b.comps, live) && k < |live|
    requires forall n :: HeldBy(live, n) < ULONG_RANGE
    ensures SizesRight(CountSize(b, name, live[k].size, false).comps, Without(live, k)) <==>
            name == live[k].owner || live[k].size == 0
  {
    var comps, owner := CountSize(b, name, live[k].size, false).comps, live[k].owner;
    if name == owner || live[k].size == 0 {
      forall n
        ensures SizeOf(comps, n) == HeldBy(Without(live, k), n)
      {
        SizeAfterFree(b, live, k, name, n);
      }
    } else {
      SizeAfterFree(b, live, k, name, owner);
      assert SizeOf(comps, owner) != HeldBy(Without(live, k), owner);
    }
  }

  /** Freed under another name: the owner's size stays too large exactly when the block is not
      empty; the name it is freed under comes out wrong exactly when, besides, it is listed already;
      no other size is touched. */
  lemma {:induction false} FreeUnderOtherName(b: Books, live: seq<Live>, k: nat, name: string, n: string)
    requires DistinctNames(b.comps) && SizesRight(b.comps, live) && k < |live| && name != live[k].owner
    requires forall m :: HeldBy(live, m) < ULONG_RANGE
    ensures var wrong := SizeOf(CountSize(b, name, live[k].size, false).comps, n) != HeldBy(Without(live, k), n);
            wrong <==> live[k].size > 0 && (n == live[k].owner || (n == name && Find(b.comps, name).Some?))
  {
    HeldWithout(live, k, live[k].owner);
    HeldWithout(live, k, n);
    assert SizeOf(b.comps, n) == HeldBy(live, n) && HeldBy(live, live[k].owner) < ULONG_RANGE;
    if n != name {
      SizeOfOther(b, name, live[k].size, n);
    } else {
      SizeOfOwn(b, name, live[k].size);
    }
  }

  lemma {:induction false} SizeAfterFree(b: Books, live: seq<Live>, k: nat, name: string, n: string)
    requires DistinctNames(b.comps) && SizesRight(b.comps, live) && k < |live|
    requires HeldBy(live, n) < ULONG_RANGE
    ensures n != name ==> SizeOf(CountSize(b, name, live[k].size, false).comps, n) == HeldBy(live, n)
    ensures n == name && (live[k].owner == name || live[k].size == 0) ==>
              SizeOf(CountSize(b, name, live[k].size, false).comps, n) == HeldBy(Without(live, k), n)
    ensures HeldBy(Without(live, k), n) == HeldBy(live, n) - if live[k].owner == n then live[k].size else 0
  {
    HeldWithout(live, k, n);
    assert SizeOf(b.comps, n) == HeldBy(live, n);
    if n != name {
      SizeOfOther(b, name, live[k].size, n);
    } else {
      SizeOfOwn(b, name, live[k].size);
    }
  }

  lemma {:induction false} SizeOfOther(b: Books, name: string, size: nat, n: string)
    requires DistinctNames(b.comps) && n != name
    ensures SizeOf(CountSize(b, name, size, false).comps, n) == SizeOf(b.comps, n)
  {
    var comps := CountSize(b, name, size, false).comps;
    var i := Find(b.comps, name);
    ApplyNames(b, Count(name, size, false));
    if i.None? {
      assert comps[1..] == b.comps;
    } else {
      var j := Find(b.comps, n);
      if j.Some? {
        assert comps[j.value] == b.comps[j.value];
        FindUnique(comps, j.value);
      }
    }
  }

  lemma {:induction false} SizeOfOwn(b: Books, name: string, size: nat)
    requires DistinctNames(b.comps)
    ensures SizeOf(CountSize(b, name, size, false).comps, name) ==
            if Find(b.comps, name).Some? then Ulong(SizeOf(b.comps, name) - size) else 0
  {
    var comps := CountSize(b, name, size, false).comps;
    var i := Find(b.comps, name);
    ApplyNames(b, Count(name, size, false));
    if i.Some? {
      FindUnique(comps, i.value);
    }
  }

  // ----- what is live fits the address space -----

  ghost function Interval(lo: nat, n: nat): (r: set<nat>)
    ensures |r| == n && forall x :: x in r <==> lo <= x < lo + n
  {
    if n == 0 then {} else Interval(lo, n - 1) + {lo + n - 1}
  }

  /** The addresses of all bytes in use. */
  ghost function Covered(live: seq<Live>): set<nat>
    requires Laid(live)
  {
    if live == [] then {}
    else
      var l := live[|live| - 1];
      Covered(live[..|live| - 1]) + Interval(l.pointer - ULONG_BYTES, ULONG_BYTES + l.size)
  }

  lemma {:induction false} CoveredApart(live: seq<Live>, l: Live)
    requires Laid(live) && Placed(l) && forall i :: 0 <= i < |live| ==> Apart(live[i], l)
    ensures Covered(live) !! Interval(l.pointer - ULONG_BYTES, ULONG_BYTES + l.size)
    ensures Covered(live) <= Interval(0, ULONG_RANGE)
  {
    if live != [] {
      CoveredApart(live[..|live| - 1], l);
      assert Apart(live[|live| - 1], l);
    }
  }

  lemma {:induction false} CoveredSize(live: seq<Live>)
    requires Laid(live)
    ensures |Covered(live)| == AllHeld(live) + ULONG_BYTES * |live|
    ensures Covered(live) <= Interval(0, ULONG_RANGE)
  {
    if live != [] {
      var init, l := live[..|live| - 1], live[|live| - 1];
      LastApart(live);
      hide Laid, Apart;
      CoveredSize(init);
      CoveredApart(init, l);
    }
  }

  lemma {:induction false} LastApart(live: seq<Live>)
    requires Laid(live) && live != []
    ensures var init, l := live[..|live| - 1], live[|live| - 1];
            Laid(init) && Placed(l) && forall i :: 0 <= i < |init| ==> Apart(init[i], l)
  {
  }

  /** Blocks and their sizes never add up to more than the address space: no counter overflows. */
  lemma {:induction false} LiveFits(live: seq<Live>)
    requires Laid(live)
    ensures AllHeld(live) + ULONG_BYTES * |live| <= ULONG_RANGE && AllHeld(live) < ULONG_RANGE
  {
    CoveredSize(live);
    var all, some := Interval(0, ULONG_RANGE), Covered(live);
    assert all == some + (all - some);
  }

  // ----- counters -----

  /** The global counters are right whatever components are named; `honest` says that so far every
      block was given back under its own component, and then the events are a legal run. */
  ghost predicate CountersRight(b: Books, live: seq<Live>, events: seq<Event>, honest: bool) {
    && b == Run(events)
    && Total(events) == AllHeld(live) == b.curr && MostTotal(events) == b.peak && b.curr <= b.peak
    && (honest ==> Legal(events) && forall name :: Held(events, name) == HeldBy(live, name))
  }

  lemma {:induction false} RunSnoc(events: seq<Event>, e: Event)
    ensures Run(events + [e]) == Apply(Run(events), e)
  {
    assert (events + [e])[..|events + [e]| - 1] == events;
  }

  lemma {:induction false} LegalSnoc(events: seq<Event>, e: Event, live: seq<Live>)
    requires Legal(events) && Total(events + [e]) < ULONG_RANGE
    requires forall name :: Held(events + [e], name) == HeldBy(live, name)
    ensures Legal(events + [e])
  {
    hide Held, HeldBy, Total;
    var all := events + [e];
    assert all[..|all| - 1] == events;
    forall name
      ensures Held(all, name) >= 0
    {
      assert Held(all, name) == HeldBy(live, name);
    }
  }

  lemma {:induction false} CountersSnoc(b: Books, live: seq<Live>, events: seq<Event>, honest: bool, e: Event)
    requires CountersRight(b, live, events, honest) && 0 <= Total(events + [e]) < ULONG_RANGE
    ensures Apply(b, e) == Run(events + [e])
    ensures Apply(b, e).curr == Total(events + [e]) <= Apply(b, e).peak == MostTotal(events + [e])
  {
    hide Legal, Held, HeldBy, AllHeld, Find, NextId, Counted;
    RunSnoc(events, e);
    TotalSnoc(events, e);
  }

  lemma {:induction false} AllocationCounted(b: Books, live: seq<Live>, events: seq<Event>, honest: bool, l: Live)
    requires CountersRight(b, live, events, honest) && Laid(live + [l])
    ensures var e := Count(l.owner, l.size, true);
            CountersRight(CountSize(b, l.owner, l.size, true), live + [l], events + [e], honest)
    ensures CountSize(b, l.owner, l.size, true).curr == b.curr + l.size
    ensures CountSize(b, l.owner, l.size, true).peak == Max(b.peak, b.curr + l.size)
  {
    hide CountSize, Held, HeldBy, AllHeld, Legal, Run;
    var e := Count(l.owner, l.size, true);
    TotalSnoc(events, e);
    LiveFits(live + [l]);
    HeldSnocBlock(live, l, l.owner);
    CountersSnoc(b, live, events, honest, e);
    if honest {
      forall name
        ensures Held(events + [e], name) == HeldBy(live + [l], name)
      {
        HeldSnoc(events, e, name);
        HeldSnocBlock(live, l, name);
      }
      LegalSnoc(events, e, live + [l]);
    }
  }

  lemma {:induction false} FreeCounted(b: Books, live: seq<Live>, events: seq<Event>, honest: bool,
                                          k: nat, name: string)
    requires CountersRight(b, live, events, honest) && Laid(live) && k < |live|
    ensures var e := Count(name, live[k].size, false);
            CountersRight(CountSize(b, name, live[k].size, false), Without(live, k), events + [e],
                          honest && (name == live[k].owner || live[k].size == 0))
    ensures CountSize(b, name, live[k].size, false).curr == b.curr - live[k].size
    ensures CountSize(b, name, live[k].size, false).peak == b.peak
  {
    hide CountSize, Held, HeldBy, AllHeld, Legal, Run;
    var l := live[k];
    var e := Count(name, l.size, false);
    TotalSnoc(events, e);
    LiveFits(live);
    HeldWithout(live, k, l.owner);
    CountersSnoc(b, live, events, honest, e);
    FreeKeepsPeak(b, name, l.size);
    if honest && (name == l.owner || l.size == 0) {
      forall n
        ensures Held(events + [e], n) == HeldBy(Without(live, k), n)
      {
        HeldSnoc(events, e, n);
        HeldWithout(live, k, n);
      }
      LegalSnoc(events, e, Without(live, k));
    }
  }

  lemma {:induction false} FreeKeepsPeak(b: Books, name: string, size: nat)
    ensures CountSize(b, name, size, false).peak == b.peak
  {
  }

  lemma {:induction false} AskCounted(b: Books, live: seq<Live>, events: seq<Event>, honest: bool, name: string)
    requires CountersRight(b, live, events, honest) && Laid(live)
    ensures CountersRight(AskId(b, name), live, events + [Ask(name)], honest)
  {
    hide AskId, Held, HeldBy, AllHeld, Legal, Run;
    var e := Ask(name);
    TotalSnoc(events, e);
    LiveFits(live);
    CountersSnoc(b, live, events, honest, e);
    if honest {
      forall n
        ensures Held(events + [e], n) == HeldBy(live, n)
      {
        HeldSnoc(events, e, n);
      }
      LegalSnoc(events, e, live);
    }
  }

  // ----- what a client sees of a block -----

  function Payload(m: seq<Byte>, l: Live): (r: seq<Byte>)
    requires |m| == ULONG_RANGE && Placed(l)
    ensures |r| == l.size
  {
    m[l.pointer..l.pointer + l.size]
  }

  /** What a block holds after a resize: as much as fits of what it held, then zeros. */
  function Resized(before: seq<Byte>, size: nat): (r: seq<Byte>)
    ensures |r| == size
  {
    if size <= |before| then before[..size] else before + Zeros(size - |before|)
  }

  lemma {:induction false} ResizedAt(before: seq<Byte>, size: nat, i: nat)
    requires i < size
    ensures Resized(before, size)[i] == if i < |before| then before[i] else 0
  {
  }

  /** Writing into one block changes no header. */
  lemma {:induction false} HeadersKeptByClient(m0: seq<Byte>, m1: seq<Byte>, live: seq<Live>, k: nat)
    requires k < |live| && Laid(live) && HeadersRight(m0, live)
    requires SameOutside(m0, m1, live[k].pointer, live[k].size)
    ensures HeadersRight(m1, live)
  {
    forall i | 0 <= i < |live|
      ensures live[k].pointer + live[k].size + ULONG_BYTES <= live[i].pointer || live[i].pointer <= live[k].pointer
    {
      assert i < k ==> Apart(live[i], live[k]);
      assert k < i ==> Apart(live[k], live[i]);
    }
    HeadersKept(m0, m1, live, live[k].pointer, live[k].size);
  }

  /** Clearing the size of a block on its way out leaves the others right. */
  lemma {:induction false} FreedBlock(m0: seq<Byte>, m1: seq<Byte>, live: seq<Live>, k: nat)
    requires k < |live| && Laid(live) && HeadersRight(m0, live)
    requires SameOutside(m0, m1, live[k].pointer - ULONG_BYTES, ULONG_BYTES)
    ensures Laid(Without(live, k)) && HeadersRight(m1, Without(live, k))
  {
    LaidWithout(m0, live, k);
    forall i | 0 <= i < |Without(live, k)|
      ensures var p := Without(live, k)[i].pointer;
              live[k].pointer + ULONG_BYTES <= p || p <= live[k].pointer - ULONG_BYTES
    {
      assert Apart(Without(live, k)[i], live[k]);
    }
    HeadersKept(m0, m1, Without(live, k), live[k].pointer - ULONG_BYTES, ULONG_BYTES);
  }

  /** No byte differs outside these two pieces. */
  predicate SameOutsideBoth(m0: seq<Byte>, m1: seq<Byte>, lo: nat, n: nat, lo2: nat, n2: nat) {
    |m0| == |m1| &&
    forall a :: 0 <= a < |m0| && !(lo <= a < lo + n) && !(lo2 <= a < lo2 + n2) ==> m1[a] == m0[a]
  }

  /** A new block cleared, what fits copied into it, the size of the old block cleared. */
  lemma {:induction false} ResizedBytes(m0: seq<Byte>, m1: seq<Byte>, m2: seq<Byte>, m3: seq<Byte>, l: Live, n: Live)
    requires |m0| == |m3| == ULONG_RANGE && Placed(l) && Placed(n) && Apart(l, n)
    requires SameOutside(m0, m1, n.pointer - ULONG_BYTES, n.size + ULONG_BYTES) && Payload(m1, n) == Zeros(n.size)
    requires var c := if l.size < n.size then l.size else n.size;
             SameOutside(m1, m2, n.pointer, c) && m2[n.pointer..n.pointer + c] == m1[l.pointer..l.pointer + c]
    requires SameOutside(m2, m3, l.pointer - ULONG_BYTES, ULONG_BYTES)
    ensures Payload(m3, n) == Resized(Payload(m0, l), n.size)
    ensures SameOutsideBoth(m0, m3, n.pointer - ULONG_BYTES, n.size + ULONG_BYTES, l.pointer - ULONG_BYTES, ULONG_BYTES)
  {
    hide Resized;
    var c := if l.size < n.size then l.size else n.size;
    forall i | 0 <= i < n.size
      ensures Payload(m3, n)[i] == Resized(Payload(m0, l), n.size)[i]
    {
      var a := n.pointer + i;
      ResizedAt(Payload(m0, l), n.size, i);
      assert Payload(m3, n)[i] == m3[a] == m2[a];
      if i < c {
        assert m2[a] == m2[n.pointer..n.pointer + c][i] == m1[l.pointer..l.pointer + c][i];
        assert m1[l.pointer + i] == m0[l.pointer + i] == Payload(m0, l)[i];
      } else {
        assert m2[a] == m1[a] == Payload(m1, n)[i] == 0;
      }
    }
  }

  lemma {:induction false} BlocksApart(live: seq<Live>, k: nat, n: Live)
    requires k < |live| && Laid(live + [n])
    ensures Placed(live[k]) && Placed(n) && Apart(live[k], n)
  {
    assert (live + [n])[k] == live[k] && (live + [n])[|live|] == n;
  }

  lemma {:induction false} WithoutSnoc(live: seq<Live>, k: nat, n: Live)
    requires k < |live|
    ensures Without(live + [n], k) == Without(live, k) + [n] && (live + [n])[k] == live[k]
  {
  }

  lemma {:induction false} NothingWritten(m0: seq<Byte>, m1: seq<Byte>, lo: nat)
    requires SameOutside(m0, m1, lo, 0)
    ensures m0 == m1
  {
  }
}
