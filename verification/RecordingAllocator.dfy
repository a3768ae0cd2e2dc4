/** The allocator that records every block: guards around the payload, an item in the table, and the
    same counters as the counting allocator. A block is an array of bytes that malloc gave. */
module RecordingAllocator {
  import opened Common
  import opened Platform
  import opened Books
  import opened AllocTable
  import opened GuardedBlock
  import LiveBlocks

  /** What a free does with a block: nothing for null; nothing but to count for one the table does
      not hold; else it looks at both guards. */
  datatype Verdict = Ignored | Unknown | Checked(headCorrupted: bool, tailCorrupted: bool)

  predicate Reports(v: Verdict) {
    v.Checked? && (v.headCorrupted || v.tailCorrupted)
  }

  function StoredSize(m: seq<Byte>): nat
    requires |m| >= ULONG_BYTES
  {
    UlongOf(m[..ULONG_BYTES])
  }

  /** The memory a free of `p` reads is there: the size in front and, if the table knows the block,
      all that the size says belongs to it. */
  predicate Readable(ops: seq<Op>, p: nat, m: seq<Byte>) {
    |m| >= ULONG_BYTES && (FirstItem(AfterDetail(ops), p).Some? ==> FullSize(StoredSize(m)) <= |m|)
  }

  /** What a free of `p` comes to, after some run and with these bytes in the block. */
  function VerdictOf(ops: seq<Op>, p: nat, m: seq<Byte>): Verdict
    requires Readable(ops, p, m)
  {
    if FirstItem(AfterDetail(ops), p).None? then Unknown
    else Checked(!HeadGood(m), !TailGood(m, StoredSize(m)))
  }

  /** While the size in front is untouched, a free reports a live block exactly when some guard byte
      has changed since the block was made and no other allocation, not even one that failed, came
      after that of the block. */
  lemma {:induction false} FreeReportsIff(ops: seq<Op>, p: nat, was: seq<Byte>, now: seq<Byte>, size: nat)
    requires size < ULONG_RANGE && |was| == |now| == FullSize(size)
    requires was == Intact(was[PAYLOAD..PAYLOAD + size]) && now[..ULONG_BYTES] == was[..ULONG_BYTES]
    ensures StoredSize(now) == size
    ensures Reports(VerdictOf(ops, p, now)) <==>
            LastAdded(ops, p) && LastAt(ops, p).Some? &&
            exists a :: ULONG_BYTES <= a < |now| && !(PAYLOAD <= a < PAYLOAD + size) && now[a] != was[a]
  {
    hide HeadGood, TailGood, UlongOf;
    DetailForgets(ops, p);
    ReportedIff(was, now, size);
  }

  lemma {:induction false} CountLists(b: Books, name: string, size: nat)
    ensures var b' := CountSize(b, name, size, true);
            Find(b'.comps, name).Some? && b'.curr <= b'.peak
  {
    var i := Find(b.comps, name);
    var comps := CountSize(b, name, size, true).comps;
    assert comps[if i.Some? then i.value else 0].name == name;
  }

  /** Some listed component has the name and the identifier. */
  predicate Carries(comps: seq<Component>, name: string, id: int) {
    exists i :: 0 <= i < |comps| && comps[i].name == name && comps[i].id == id
  }

  /** A listed component keeps its identifier, whatever is counted or asked for. */
  lemma {:induction false} CarriesOn(b: Books, e: Event, name: string, id: int)
    requires Carries(b.comps, name, id)
    ensures Carries(Apply(b, e).comps, name, id)
  {
    var i :| 0 <= i < |b.comps| && b.comps[i].name == name && b.comps[i].id == id;
    IdsStay(b, e, i);
    assert Apply(b, e).comps[|Apply(b, e).comps| - |b.comps| + i].id == id;
  }

  /** While at most 128 components are listed, two names do not share an identifier. */
  lemma {:induction false} CarriedApart(events: seq<Event>, name1: string, id1: int, name2: string, id2: int)
    requires |Run(events).comps| <= 128 && name1 != name2
    requires Carries(Run(events).comps, name1, id1) && Carries(Run(events).comps, name2, id2)
    ensures id1 != id2
  {
    IdsDistinctUpTo128(events);
    var comps := Run(events).comps;
    var i :| 0 <= i < |comps| && comps[i].name == name1 && comps[i].id == id1;
    var j :| 0 <= j < |comps| && comps[j].name == name2 && comps[j].id == id2;
    if i < j {
      assert comps[i].id != comps[j].id;
    } else {
      assert comps[j].id != comps[i].id;
    }
  }

  /** Items recorded for components carry their components' identifiers. */
  ghost predicate AllCarried(comps: seq<Component>, ops: seq<Op>, names: seq<string>) {
    |names| == |ops| &&
    forall i :: 0 <= i < |ops| && ops[i].Add? ==> Carries(comps, names[i], ops[i].item.componentId)
  }

  lemma {:induction false} AllCarriedOn(b: Books, e: Event, ops: seq<Op>, names: seq<string>)
    requires AllCarried(b.comps, ops, names)
    ensures AllCarried(Apply(b, e).comps, ops, names)
  {
    hide Carries, Apply;
    forall i | 0 <= i < |ops| && ops[i].Add?
      ensures Carries(Apply(b, e).comps, names[i], ops[i].item.componentId)
    {
      CarriesOn(b, e, names[i], ops[i].item.componentId);
    }
  }

  lemma {:induction false} AllCarriedSnoc(comps: seq<Component>, ops: seq<Op>, names: seq<string>, op: Op, name: string)
    requires AllCarried(comps, ops, names)
    requires op.Add? ==> Carries(comps, name, op.item.componentId)
    ensures AllCarried(comps, ops + [op], names + [name])
  {
    hide Carries;
  }

  /** An item of the component called `name`. */
  predicate Records(it: Item, comps: seq<Component>, name: string, pointer: nat, size: nat, allocId: nat,
                    timestamp: nat, owner: string) {
    && it.hashIndex == pointer % 2048 && it.allocId == allocId && it.pointer == pointer && it.size == size
    && it.timestamp == timestamp && it.owner == owner && Carries(comps, name, it.componentId)
  }

  lemma {:induction false} AskLists(b: Books, name: string)
    ensures Find(AskId(b, name).comps, name).Some?
    ensures Find(b.comps, name).Some? ==> AskId(b, name) == b
  {
    var comps := AskId(b, name).comps;
    assert Find(b.comps, name).None? ==> comps[0].name == name;
  }

  class Recorder {
    var books: Books
    var allocIdentifier: nat
    const table: Table

    // the calls so far and the components they named, and what they counted
    ghost var ops: seq<Op>
    ghost var names: seq<string>
    ghost var events: seq<Event>

    ghost predicate Valid()
      reads this, table, table.table
    {
      && table.Valid() && table.log == AfterDetail(ops) && books == Run(events)
      && AllCarried(books.comps, ops, names)
      && forall i :: 0 <= i < |ops| && ops[i].Add? ==> ops[i].item.pointer >= PAYLOAD
    }

    constructor ()
      ensures Valid() && ops == [] && books == EMPTY && fresh(table) && fresh(table.table)
    {
      books, allocIdentifier := EMPTY, 0;
      table := new Table();
      ops, names, events := [], [], [];
    }

    /** While at most 128 components are listed, items recorded for two of them carry different
        identifiers, however long ago they were recorded. */
    lemma {:induction false} ItemsToldApart(i: nat, j: nat)
      requires Valid() && |books.comps| <= 128
      requires i < |ops| && j < |ops| && ops[i].Add? && ops[j].Add? && names[i] != names[j]
      ensures ops[i].item.componentId != ops[j].item.componentId
    {
      hide Carries;
      CarriedApart(events, names[i], ops[i].item.componentId, names[j], ops[j].item.componentId);
    }

    /** On the way the peak is raised should the total be above it, and the component listed should
        it not be. */
    method AddMemoryAllocItem(name: string, pointer: nat, size: nat, allocId: nat, gotItem: bool,
                              timestamp: nat, owner: string)
      requires table.Valid()
      modifies this`books, table, table.table
      ensures table.Valid()
      ensures var b := old(books).(peak := Max(old(books.peak), old(books.curr)));
              books == if gotItem then AskId(b, name) else b
      ensures !gotItem ==> table.log == old(table.log)
      ensures gotItem ==>
                table.log != [] && table.log[1..] == old(table.log) &&
                Records(table.log[0], books.comps, name, pointer, size, allocId, timestamp, owner)
    {
      hide Find, AskId;
      if books.curr > books.peak {
        books := books.(peak := books.curr);
      }
      var componentId := 0;
      if gotItem {
        AskLists(books, name);
        books := AskId(books, name);
        componentId := books.comps[Find(books.comps, name).value].id;
      }
      table.AddMemoryAllocItem(gotItem, pointer, size, allocId, timestamp, owner, componentId);
    }

    /** The table is started anew before malloc is asked; a null block is one it did not give. */
    method AllocateMemoryRecordDetail(name: string, size: nat, block: array?<Byte>, raw: nat, gotItem: bool,
                                      timestamp: nat, owner: string) returns (p: nat)
      requires Valid() && size < ULONG_RANGE
      requires block != null ==> block.Length == FullSize(size)
      modifies this, table, table.table, block
      ensures Valid() && allocIdentifier == Ulong(old(allocIdentifier) + 1)
      ensures |ops| == |old(ops)| + 1 && ops[..|old(ops)|] == old(ops) && names == old(names) + [name]
      ensures block == null ==> p == 0 && books == old(books) && ops[|old(ops)|] == Lost
      ensures block != null ==>
                p == raw + PAYLOAD && block[..] == Intact(Zeros(size)) &&
                books == CountSize(old(books), name, size, true) &&
                var op := ops[|old(ops)|];
                if gotItem then
                  op.Add? && Records(op.item, books.comps, name, p, size, old(allocIdentifier), timestamp, owner)
                else op == Lost
    {
      hide Find, CountSize, AskId, Intact, HashUlong, Carries, Run, AfterDetail, AllCarried, InBucket, Records;
      var allocId := allocIdentifier;
      allocIdentifier := Ulong(allocIdentifier + 1);
      table.InitializeMemoryAllocTable();
      if block == null {
        AllCarriedSnoc(books.comps, ops, names, Lost, name);
        AfterAllocation(ops, Lost);
        p, ops, names := 0, ops + [Lost], names + [name];
        return;
      }
      Prepare(block, size);
      p := raw + PAYLOAD;
      ghost var e := Count(name, size, true);
      CountLists(books, name, size);
      AllCarriedOn(books, e, ops, names);
      LiveBlocks.RunSnoc(events, e);
      books, events := CountSize(books, name, size, true), events + [e];
      AskLists(books, name);
      AddMemoryAllocItem(name, p, size, allocId, gotItem, timestamp, owner);
      ghost var op := if gotItem then Add(table.log[0]) else Lost;
      RecordCarries(op, books.comps, name, p, size, allocId, timestamp, owner);
      AllCarriedSnoc(books.comps, ops, names, op, name);
      AfterAllocation(ops, op);
      ops, names := ops + [op], names + [name];
    }

    /** The size is counted down before the table is asked, so also for a block that is then not
        freed because the table has forgotten it. A block that is freed is cleared. */
    method FreeMemoryRecordDetail(name: string, p: nat, block: array?<Byte>) returns (v: Verdict)
      requires Valid() && (p != 0 ==> block != null && Readable(ops, p, block[..]))
      modifies this, table, table.table, block
      ensures Valid() && allocIdentifier == old(allocIdentifier)
      ensures p == 0 ==> v == Ignored && books == old(books) && ops == old(ops)
      ensures p != 0 ==>
                v == VerdictOf(old(ops), p, old(block[..])) &&
                ops == old(ops) + [Del(p)] && names == old(names) + [name] &&
                books == CountSize(old(books), name, StoredSize(old(block[..])), false)
      ensures !v.Checked? && block != null ==> block[..] == old(block[..])
      ensures v.Checked? ==>
                p != 0 && forall a :: 0 <= a < FullSize(StoredSize(old(block[..]))) ==> block[a] == 0
    {
      hide CountSize, HeadGood, TailGood, UlongOf, AfterDetail, FirstItem, Removed, InBucket, AllCarried, Run;
      if p == 0 {
        return Ignored;
      }
      assert block[..][..ULONG_BYTES] == block[..ULONG_BYTES];
      var size := UlongOf(block[..ULONG_BYTES]);
      ghost var e := Count(name, size, false);
      AllCarriedOn(books, e, ops, names);
      LiveBlocks.RunSnoc(events, e);
      books, events := CountSize(books, name, size, false), events + [e];
      AllCarriedSnoc(books.comps, ops, names, Del(p), name);
      var item := table.GetMemoryAllocItem(p);
      RemovedUnlessThere(table.log, p);
      AfterDel(ops, p);
      names := names + [name];
      ghost var before := ops;
      if item.None? {
        ops := before + [Del(p)];
        return Unknown;
      }
      var head, tail := Inspect(block);
      v := Checked(head, tail);
      forall a | 0 <= a < FullSize(size) {
        block[a] := 0;
      }
      table.DelMemoryAllocItem(p);
      ops := before + [Del(p)];
    }

    /** Resize: the size to copy is the one the table holds, 0 when it has forgotten the block. The
        allocation makes the table forget the old block, which is therefore counted down, but not
        looked at and not given back. */
    method ReAllocateMemoryRecordDetail(name: string, q: nat, oldBlock: array?<Byte>, size: nat, block: array?<Byte>,
                                        raw: nat, gotItem: bool, timestamp: nat, owner: string)
      returns (p: nat, v: Verdict)
      requires Valid() && size < ULONG_RANGE && q != raw + PAYLOAD && (block != null ==> block != oldBlock)
      requires q != 0 ==> oldBlock != null && ULONG_BYTES <= oldBlock.Length
      requires q != 0 && TrackedSize(ops, q) > 0 ==> PAYLOAD + TrackedSize(ops, q) <= oldBlock.Length
      requires block != null ==> block.Length == FullSize(size)
      modifies this, table, table.table, block, oldBlock
      ensures Valid()
      ensures block == null ==> p == 0 && v == Ignored && books == old(books)
      ensures block != null ==>
                p == raw + PAYLOAD &&
                block[..] == Intact(LiveBlocks.Resized(old(TrackedPayload(ops, q, oldBlock)), size))
      ensures block != null && q != 0 ==>
                v == Unknown &&
                books == CountSize(CountSize(old(books), name, size, true), name, StoredSize(old(oldBlock[..])), false)
      ensures oldBlock != null ==> oldBlock[..] == old(oldBlock[..])
    {
      hide Find, CountSize, Intact, HashUlong, StoredSize, AfterDetail, HeadGood, TailGood, Zeros;
      hide AllCarried, Carries, Run;
      var item := table.GetMemoryAllocItem(q);
      var oldSize := if item.Some? then item.value.size else 0;
      var cpySize := if oldSize < size then oldSize else size;
      NullIsUntracked(ops, q);
      ghost var payload := TrackedPayload(ops, q, oldBlock);
      p := AllocateMemoryRecordDetail(name, size, block, raw, gotItem, timestamp, owner);
      if block == null {
        return p, Ignored;
      }
      ghost var made := block[..];
      forall i | 0 <= i < cpySize {
        block[PAYLOAD + i] := oldBlock[PAYLOAD + i];
      }
      PayloadCopied(made, block[..], payload, size);
      assert ops == old(ops) + [ops[|old(ops)|]];
      Forgotten(old(ops), ops[|old(ops)|], q);
      assert oldBlock != null ==> oldBlock[..] == old(oldBlock[..]);
      ghost var result := block[..];
      v := FreeMemoryRecordDetail(name, q, oldBlock);
      assert block[..] == result;
    }
  }

  /** The size the table holds for a pointer. */
  function TrackedSize(ops: seq<Op>, p: nat): nat {
    var item := FirstItem(AfterDetail(ops), p);
    if item.Some? then item.value.size else 0
  }

  /** As much of a block's payload as the table says it has. */
  ghost function TrackedPayload(ops: seq<Op>, p: nat, block: array?<Byte>): (r: seq<Byte>)
    requires p != 0 && TrackedSize(ops, p) > 0 ==> block != null && PAYLOAD + TrackedSize(ops, p) <= block.Length
    reads block
  {
    if p == 0 || TrackedSize(ops, p) == 0 then [] else block[PAYLOAD..PAYLOAD + TrackedSize(ops, p)]
  }

  lemma {:induction false} NullIsUntracked(ops: seq<Op>, q: nat)
    requires forall i :: 0 <= i < |ops| && ops[i].Add? ==> ops[i].item.pointer >= PAYLOAD
    ensures q == 0 ==> FirstItem(AfterDetail(ops), q).None?
  {
    DetailForgets(ops, q);
    NeverAdded(ops);
  }

  lemma {:induction false} NeverAdded(ops: seq<Op>)
    requires forall i :: 0 <= i < |ops| && ops[i].Add? ==> ops[i].item.pointer >= PAYLOAD
    ensures LastAt(ops, 0).None?
  {
    if ops != [] {
      NeverAdded(ops[..|ops| - 1]);
    }
  }

  lemma {:induction false} Forgotten(ops: seq<Op>, op: Op, q: nat)
    requires op.Lost? || (op.Add? && op.item.pointer != q)
    ensures FirstItem(AfterDetail(ops + [op]), q).None?
  {
    assert op.Add? ==> [op.item][1..] == [];
  }

  /** Copying into the payload leaves the block intact around it. */
  lemma {:induction false} PayloadCopied(m0: seq<Byte>, m1: seq<Byte>, payload: seq<Byte>, size: nat)
    requires size < ULONG_RANGE && m0 == Intact(Zeros(size)) && |m1| == |m0|
    requires forall a :: 0 <= a < |m0| ==>
               m1[a] == if PAYLOAD <= a < PAYLOAD + size && a - PAYLOAD < |payload| then payload[a - PAYLOAD] else m0[a]
    ensures m1 == Intact(LiveBlocks.Resized(payload, size))
  {
    hide Intact;
    var zeros := m0[PAYLOAD..PAYLOAD + size];
    assert zeros == Zeros(size) by { IntactPayload(Zeros(size)); }
    IntactParts(m0, size);
    assert m1[..ULONG_BYTES] == m0[..ULONG_BYTES];
    IntactParts(m1, size);
    assert m1[PAYLOAD..PAYLOAD + size] == LiveBlocks.Resized(payload, size) by {
      forall i | 0 <= i < size
        ensures m1[PAYLOAD..PAYLOAD + size][i] == LiveBlocks.Resized(payload, size)[i]
      {
        assert zeros[i] == m0[PAYLOAD + i] == 0;
      }
    }
  }

  lemma {:induction false} IntactPayload(payload: seq<Byte>)
    requires |payload| < ULONG_RANGE
    ensures Intact(payload)[PAYLOAD..PAYLOAD + |payload|] == payload
  {
  }

  lemma {:induction false} RecordCarries(op: Op, comps: seq<Component>, name: string, pointer: nat, size: nat,
                                         allocId: nat, timestamp: nat, owner: string)
    requires op.Add? ==> Records(op.item, comps, name, pointer, size, allocId, timestamp, owner)
    ensures op.Add? ==> op.item.pointer == pointer && Carries(comps, name, op.item.componentId)
  {
  }

  lemma {:induction false} AfterAllocation(ops: seq<Op>, op: Op)
    requires !op.Del?
    ensures AfterDetail(ops + [op]) == if op.Add? then [op.item] else []
  {
  }

  lemma {:induction false} AfterDel(ops: seq<Op>, p: nat)
    ensures AfterDetail(ops + [Del(p)]) == Removed(AfterDetail(ops), p)
  {
    assert (ops + [Del(p)])[..|ops|] == ops;
  }

  lemma {:induction false} RemovedUnlessThere(s: seq<Item>, p: nat)
    ensures FirstItem(s, p).None? ==> Removed(s, p) == s
  {
    if s != [] {
      RemovedUnlessThere(s[1..], p);
    }
  }
}
