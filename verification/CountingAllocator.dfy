/** The allocator that counts sizes per component: blocks with their size in front, resize by
    allocating, copying and freeing. Memory is the array of all bytes of the address space; where a
    new block lies is up to the system's malloc and a parameter here. */
module CountingAllocator {
  import opened Common
  import opened Platform
  import opened Books
  import opened LiveBlocks

  class Allocator {
    const mem: array<Byte>

    // the component list, newest first, and the global counters
    var comps: seq<Component>
    var sizeCurr: nat
    var sizePeak: nat

    // what happened so far; honest while every block is given back under its own component
    ghost var live: seq<Live>
    ghost var events: seq<Event>
    ghost var honest: bool

    function Ledger(): Books
      reads this
    {
      Books(comps, sizeCurr, sizePeak)
    }

    ghost predicate Valid()
      reads this, mem
    {
      && mem.Length == ULONG_RANGE && Laid(live) && HeadersRight(mem[..], live)
      && CountersRight(Ledger(), live, events, honest)
    }

    constructor ()
      ensures Valid() && live == [] && events == [] && honest && fresh(mem)
    {
      mem := new Byte[ULONG_RANGE];
      comps, sizeCurr, sizePeak := [], 0, 0;
      live, events, honest := [], [], true;
    }

    /** While components are named honestly, each component's size is what its blocks add up to,
        its maximum the most it ever held, and the maxima are ordered. */
    lemma {:induction false} HonestBooks()
      requires Valid() && honest
      ensures Right(Ledger(), events) && SizesRight(comps, live) && SumSizes(comps) == AllHeld(live)
    {
      LegalRunsKeepRightBooks(events);
      forall name
        ensures SizeOf(comps, name) == HeldBy(live, name)
      {
        var i := Find(comps, name);
        assert i.Some? ==> ItemRight(comps[i.value], events);
      }
    }

    // ----- the component list -----

    lemma {:induction false} FirstMatch(comps: seq<Component>, i: nat)
      requires i < |comps| && forall k :: 0 <= k < i ==> comps[k].name != comps[i].name
      ensures Find(comps, comps[i].name) == Some(i)
    {
      if i > 0 {
        FirstMatch(comps[1..], i - 1);
      }
    }

    /** One step of a scan; `candidate` is what it proposes once it is through. */
    lemma {:induction false} ScanStep(comps: seq<Component>, i: nat, candidate: int)
      requires i < |comps|
      ensures NextId(comps[i..], candidate) ==
              NextId(comps[i + 1..], if comps[i].id >= candidate then Char(comps[i].id + 1) else candidate)
    {
      assert comps[i..][1..] == comps[i + 1..];
    }

    lemma {:induction false} ScanEnds(comps: seq<Component>, candidate: int)
      ensures NextId(comps[|comps|..], candidate) == candidate && comps[0..] == comps
    {
    }

    method MemoryGetComponentID(name: string) returns (id: int)
      requires Valid()
      modifies `comps, `events
      ensures Valid() && events == old(events) + [Ask(name)] && Ledger() == AskId(old(Ledger()), name)
      ensures Find(comps, name).Some? && id == comps[Find(comps, name).value].id
    {
      hide Find, NextId, CountersRight, HeadersRight, Laid;
      AskCounted(Ledger(), live, events, honest, name);
      events := events + [Ask(name)];
      ScanEnds(comps, 0);
      var candidate, i := 0, 0;
      while i < |comps|
        invariant i <= |comps| && comps == old(comps) && events == old(events) + [Ask(name)]
        invariant forall k :: 0 <= k < i ==> comps[k].name != name
        invariant NextId(comps, 0) == NextId(comps[i..], candidate)
      {
        ScanStep(comps, i, candidate);
        if comps[i].name == name {
          FirstMatch(comps, i);
          return comps[i].id;
        } else if comps[i].id >= candidate {
          candidate := Char(comps[i].id + 1);
        }
        i := i + 1;
      }
      ScanEnds(comps, candidate);
      comps := [Component(name, candidate, 0, 0)] + comps;
      FirstMatch(comps, 0);
      id := candidate;
    }

    method MemoryCountSize(name: string, size: nat, isAllocation: bool)
      requires size < ULONG_RANGE
      modifies `comps, `sizeCurr, `sizePeak
      ensures Ledger() == CountSize(old(Ledger()), name, size, isAllocation)
    {
      hide Find, NextId;
      ScanEnds(comps, 0);
      var candidate, found, i := 0, false, 0;
      while i < |comps|
        invariant i <= |comps| && unchanged(this) && !found
        invariant forall k :: 0 <= k < i ==> comps[k].name != name
        invariant NextId(comps, 0) == NextId(comps[i..], candidate)
      {
        ScanStep(comps, i, candidate);
        var c := comps[i];
        if c.name == name {
          FirstMatch(comps, i);
          if isAllocation {
            var s := Ulong(c.size + size);
            c := c.(size := s);
            if s > c.maxSize {
              c := c.(maxSize := s);
            }
          } else {
            c := c.(size := Ulong(c.size - size));
          }
          comps := comps[i := c];
          found := true;
          break;
        } else if c.id >= candidate {
          candidate := Char(c.id + 1);
        }
        i := i + 1;
      }
      if !found {
        ScanEnds(comps, candidate);
        var s := if isAllocation then size else 0;
        comps := [Component(name, candidate, s, s)] + comps;
      }
      if isAllocation {
        sizeCurr := Ulong(sizeCurr + size);
        if sizePeak < sizeCurr {
          sizePeak := sizeCurr;
        }
      } else {
        sizeCurr := Ulong(sizeCurr - size);
      }
    }

    // ----- blocks -----

    /** Null when malloc fails. */
    method AllocateMemoryOrig(n: nat, raw: Option<nat>) returns (p: nat)
      requires mem.Length == ULONG_RANGE && (raw.Some? ==> Vacant(live, raw.value, n))
      modifies mem
      ensures raw.None? ==> p == 0 && mem[..] == old(mem[..])
      ensures raw.Some? ==>
                p == raw.value && SameOutside(old(mem[..]), mem[..], p, n) && mem[p..p + n] == Zeros(n)
    {
      if raw.None? {
        return 0;
      }
      p := raw.value;
      forall a | p <= a < p + n {
        mem[a] := 0;
      }
    }

    method WriteUlong(p: nat, x: nat)
      requires mem.Length == ULONG_RANGE && p + ULONG_BYTES <= ULONG_RANGE && x < ULONG_RANGE
      modifies mem
      ensures SameOutside(old(mem[..]), mem[..], p, ULONG_BYTES) && mem[p..p + ULONG_BYTES] == UlongBytes(x)
    {
      forall a | p <= a < p + ULONG_BYTES {
        mem[a] := UlongBytes(x)[a - p];
      }
    }

    method GetMemorySizeCountSize(p: nat, ghost k: nat) returns (size: nat)
      requires Valid() && (p == 0 || (k < |live| && live[k].pointer == p))
      ensures size == if p == 0 then 0 else live[k].size
    {
      if p == 0 {
        return 0;
      }
      size := UlongOf(mem[p - ULONG_BYTES..p]);
      assert mem[p - ULONG_BYTES..p] == mem[..][p - ULONG_BYTES..p];
      assert size == HeaderOf(mem[..], live[k]);
    }

    method AllocateMemoryCountSize(name: string, size: nat, raw: Option<nat>) returns (p: nat)
      requires Valid() && size < ULONG_RANGE
      requires raw.Some? ==> size + ULONG_BYTES < ULONG_RANGE && Vacant(live, raw.value, size + ULONG_BYTES)
      modifies this, mem
      ensures Valid()
      ensures raw.None? ==> p == 0 && unchanged(this) && mem[..] == old(mem[..])
      ensures raw.Some? ==>
                p == raw.value + ULONG_BYTES && live == old(live) + [Live(p, name, size)] && honest == old(honest) &&
                SameOutside(old(mem[..]), mem[..], raw.value, size + ULONG_BYTES) && mem[p..p + size] == Zeros(size)
      ensures raw.Some? ==>
                Ledger() == CountSize(old(Ledger()), name, size, true) &&
                sizeCurr == old(sizeCurr) + size && sizePeak == Max(old(sizePeak), sizeCurr)
    {
      hide CountersRight, CountSize, UlongOf, UlongBytes, SameOutside, Laid;
      ghost var m0 := mem[..];
      p := AllocateMemoryOrig(Ulong(size + ULONG_BYTES), raw);
      if raw.Some? {
        ghost var m1 := mem[..];
        WriteUlong(p, size);
        BlockWritten(m0, m1, mem[..], p, size);
        NewBlock(m0, mem[..], live, name, size, p);
        p := p + ULONG_BYTES;
        AllocationCounted(Ledger(), live, events, honest, Live(p, name, size));
        MemoryCountSize(name, size, true);
        live, events := live + [Live(p, name, size)], events + [Count(name, size, true)];
      }
    }

    /** A block may be given back under any name; only `honest` depends on it. */
    method FreeMemoryCountSize(name: string, p: nat, ghost k: nat)
      requires Valid() && (p == 0 || (k < |live| && live[k].pointer == p))
      modifies this, mem
      ensures Valid()
      ensures p == 0 ==> unchanged(this) && mem[..] == old(mem[..])
      ensures p != 0 ==>
                live == Without(old(live), k) && SameOutside(old(mem[..]), mem[..], p - ULONG_BYTES, ULONG_BYTES) &&
                honest == (old(honest) && (name == old(live)[k].owner || old(live)[k].size == 0))
      ensures p != 0 ==>
                Ledger() == CountSize(old(Ledger()), name, old(live)[k].size, false) &&
                sizeCurr == old(sizeCurr) - old(live)[k].size && sizePeak == old(sizePeak)
    {
      hide CountersRight, CountSize, UlongOf, UlongBytes, SameOutside, Laid, Without;
      if p == 0 {
        return;
      }
      ghost var m0, l := mem[..], live[k];
      var size := GetMemorySizeCountSize(p, k);
      WriteUlong(p - ULONG_BYTES, 0);
      FreedBlock(m0, mem[..], live, k);
      FreeCounted(Ledger(), live, events, honest, k, name);
      MemoryCountSize(name, size, false);
      live, events := Without(live, k), events + [Count(name, size, false)];
      honest := honest && (name == l.owner || l.size == 0);
    }

    /** memcpy to the start of what a client sees of a block. */
    method CopyMemory(dst: nat, src: nat, n: nat, ghost k: nat)
      requires Valid() && k < |live| && live[k].pointer == dst && n <= live[k].size && src + n <= ULONG_RANGE
      modifies mem
      ensures Valid()
      ensures SameOutside(old(mem[..]), mem[..], dst, n) && mem[dst..dst + n] == old(mem[src..src + n])
    {
      hide CountersRight, HeaderOf;
      ghost var m0 := mem[..];
      forall a | dst <= a < dst + n {
        mem[a] := mem[src + (a - dst)];
      }
      HeadersKeptByClient(m0, mem[..], live, k);
    }

    /** Resize: a null `q` only allocates, a failing malloc changes nothing. For a moment both
        blocks are live, and the peak shows it. */
    method ReAllocateMemoryCountSize(name: string, q: nat, size: nat, raw: Option<nat>, ghost k: nat) returns (p: nat)
      requires Valid() && size < ULONG_RANGE
      requires q == 0 || (k < |live| && live[k].pointer == q)
      requires raw.Some? ==> size + ULONG_BYTES < ULONG_RANGE && Vacant(live, raw.value, size + ULONG_BYTES)
      modifies this, mem
      ensures Valid()
      ensures raw.None? ==> p == 0 && unchanged(this) && mem[..] == old(mem[..])
      ensures raw.Some? && q == 0 ==>
                p == raw.value + ULONG_BYTES && live == old(live) + [Live(p, name, size)] && honest == old(honest) &&
                SameOutside(old(mem[..]), mem[..], raw.value, size + ULONG_BYTES) && mem[p..p + size] == Zeros(size) &&
                sizeCurr == old(sizeCurr) + size && sizePeak == Max(old(sizePeak), sizeCurr)
      ensures raw.Some? && q != 0 ==>
                var l := old(live)[k];
                p == raw.value + ULONG_BYTES && live == Without(old(live), k) + [Live(p, name, size)] &&
                honest == (old(honest) && (name == l.owner || l.size == 0)) &&
                mem[p..p + size] == Resized(Payload(old(mem[..]), l), size) &&
                SameOutsideBoth(old(mem[..]), mem[..], raw.value, size + ULONG_BYTES, q - ULONG_BYTES, ULONG_BYTES) &&
                sizeCurr == old(sizeCurr) + size - l.size && sizePeak == Max(old(sizePeak), old(sizeCurr) + size)
    {
      hide CountersRight, CountSize, SameOutside, SameOutsideBoth, Resized;
      hide Laid, HeadersRight, Without, Vacant, Zeros, AllHeld;
      ghost var m0, live0 := mem[..], live;
      var oldSize := GetMemorySizeCountSize(q, k);
      var cpySize := if oldSize < size then oldSize else size;
      p := AllocateMemoryCountSize(name, size, raw);
      if raw.None? {
        return;
      }
      ghost var m1, n := mem[..], Live(p, name, size);
      if q != 0 {
        BlocksApart(live0, k, n);
        WithoutSnoc(live0, k, n);
      }
      CopyMemory(p, q, cpySize, |live0|);
      ghost var m2 := mem[..];
      FreeMemoryCountSize(name, q, k);
      if q == 0 {
        NothingWritten(m1, m2, p);
      } else {
        ResizedBytes(m0, m1, m2, mem[..], live0[k], n);
      }
    }

    /** A client writing inside its own block disturbs nothing. */
    method WriteByClient(ghost k: nat, a: nat, b: Byte)
      requires Valid() && k < |live| && live[k].pointer <= a < live[k].pointer + live[k].size
      modifies mem
      ensures Valid() && mem[..] == old(mem[..])[a := b]
    {
      hide CountersRight, HeaderOf;
      ghost var m0 := mem[..];
      mem[a] := b;
      HeadersKeptByClient(m0, mem[..], live, k);
    }
  }
}
