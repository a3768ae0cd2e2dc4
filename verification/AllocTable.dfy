/** The table of live blocks: 2048 buckets of items, hashed by address, newest first. It behaves like
    one list of all items. */
module AllocTable {
  import opened Common
  import opened Platform

  const TABLE_SIZE: nat := 2048

  datatype Item = Item(hashIndex: nat, allocId: nat, pointer: nat, size: nat,
                       timestamp: nat, owner: string, componentId: int)

  datatype Bucket = Bucket(depth: nat, items: seq<Item>)

  function HashUlong(pointer: nat): (h: nat)
    ensures h < TABLE_SIZE
  {
    pointer % TABLE_SIZE
  }

  // ----- one list of all items, newest first -----

  function FirstItem(s: seq<Item>, p: nat): Option<Item> {
    if s == [] then None else if s[0].pointer == p then Some(s[0]) else FirstItem(s[1..], p)
  }

  /** Only the first item with the pointer goes. */
  function Removed(s: seq<Item>, p: nat): seq<Item> {
    if s == [] then [] else if s[0].pointer == p then s[1..] else [s[0]] + Removed(s[1..], p)
  }

  function InBucket(s: seq<Item>, h: nat): seq<Item> {
    if s == [] then []
    else (if HashUlong(s[0].pointer) == h then [s[0]] else []) + InBucket(s[1..], h)
  }

  function ItemsAt(s: seq<Item>, p: nat): seq<Item> {
    if s == [] then []
    else (if s[0].pointer == p then [s[0]] else []) + ItemsAt(s[1..], p)
  }

  lemma {:induction false} InBucketCons(item: Item, s: seq<Item>, h: nat)
    ensures InBucket([item] + s, h) == (if HashUlong(item.pointer) == h then [item] else []) + InBucket(s, h)
  {
    assert ([item] + s)[1..] == s;
  }

  lemma {:induction false} FirstInBucket(s: seq<Item>, p: nat)
    ensures FirstItem(InBucket(s, HashUlong(p)), p) == FirstItem(s, p)
  {
    if s != [] {
      FirstInBucket(s[1..], p);
      if HashUlong(s[0].pointer) == HashUlong(p) {
        assert InBucket(s, HashUlong(p))[1..] == InBucket(s[1..], HashUlong(p));
      } else {
        assert InBucket(s, HashUlong(p)) == InBucket(s[1..], HashUlong(p));
      }
    }
  }

  lemma {:induction false} RemovedInBucket(s: seq<Item>, p: nat, h: nat)
    ensures InBucket(Removed(s, p), h) ==
            if h == HashUlong(p) then Removed(InBucket(s, h), p) else InBucket(s, h)
  {
    if s != [] && s[0].pointer != p {
      RemovedInBucket(s[1..], p, h);
      assert Removed(s, p)[1..] == Removed(s[1..], p);
      if HashUlong(s[0].pointer) == h {
        assert InBucket(s, h)[1..] == InBucket(s[1..], h);
        assert Removed(InBucket(s, h), p) == [s[0]] + Removed(InBucket(s[1..], h), p) || h != HashUlong(p);
      } else {
        assert InBucket(s, h) == InBucket(s[1..], h);
      }
    } else if s != [] && HashUlong(p) == h {
      assert InBucket(s, h)[1..] == InBucket(s[1..], h);
    }
  }

  lemma {:induction false} BucketMembers(s: seq<Item>, h: nat, it: Item)
    ensures it in InBucket(s, h) <==> it in s && it.pointer % 2048 == h
  {
    if s != [] {
      BucketMembers(s[1..], h, it);
    }
  }

  // ----- runs -----

  /** Lost is an allocation that got no block, or no item to record it with. */
  datatype Op = Add(item: Item) | Lost | Del(pointer: nat)

  /** The items after a run, newest first. */
  function After(ops: seq<Op>): seq<Item> {
    if ops == [] then []
    else
      var s := After(ops[..|ops| - 1]);
      match ops[|ops| - 1]
      case Add(item) => [item] + s
      case Lost => s
      case Del(p) => Removed(s, p)
  }

  /** The additions at one pointer not yet matched by a deletion there, newest first. */
  function Unmatched(ops: seq<Op>, p: nat): seq<Item> {
    if ops == [] then []
    else
      var s := Unmatched(ops[..|ops| - 1], p);
      match ops[|ops| - 1]
      case Add(item) => if item.pointer == p then [item] + s else s
      case Lost => s
      case Del(q) => if q == p && s != [] then s[1..] else s
  }

  lemma {:induction false} RemovedAt(s: seq<Item>, q: nat, p: nat)
    ensures ItemsAt(Removed(s, q), p) ==
            if q == p && ItemsAt(s, p) != [] then ItemsAt(s, p)[1..] else ItemsAt(s, p)
  {
    if s != [] && s[0].pointer != q {
      RemovedAt(s[1..], q, p);
      assert Removed(s, q)[1..] == Removed(s[1..], q);
    }
  }

  lemma {:induction false} FirstIsHead(s: seq<Item>, p: nat)
    ensures FirstItem(s, p) == if ItemsAt(s, p) == [] then None else Some(ItemsAt(s, p)[0])
  {
    if s != [] {
      FirstIsHead(s[1..], p);
    }
  }

  /** After any run, also one that adds a pointer twice, a lookup finds the newest addition at the
      pointer that no deletion there has matched. */
  lemma {:induction false} LookupAfterRun(ops: seq<Op>, p: nat)
    ensures ItemsAt(After(ops), p) == Unmatched(ops, p)
    ensures FirstItem(After(ops), p) == if Unmatched(ops, p) == [] then None else Some(Unmatched(ops, p)[0])
  {
    FirstIsHead(After(ops), p);
    if ops != [] {
      var init := ops[..|ops| - 1];
      LookupAfterRun(init, p);
      match ops[|ops| - 1]
      case Add(item) => assert ([item] + After(init))[1..] == After(init);
      case Lost =>
      case Del(q) => RemovedAt(After(init), q, p);
    }
  }

  /** No pointer is added while it is live. */
  predicate Distinct(ops: seq<Op>) {
    ops == [] ||
    (Distinct(ops[..|ops| - 1]) &&
     (ops[|ops| - 1].Add? ==> FirstItem(After(ops[..|ops| - 1]), ops[|ops| - 1].item.pointer).None?))
  }

  predicate About(op: Op, p: nat) {
    match op
    case Add(item) => item.pointer == p
    case Lost => false
    case Del(q) => q == p
  }

  /** What the last operation at a pointer left there. */
  function LastAt(ops: seq<Op>, p: nat): Option<Item> {
    if ops == [] then None
    else
      var op := ops[|ops| - 1];
      if !About(op, p) then LastAt(ops[..|ops| - 1], p)
      else if op.Add? then Some(op.item)
      else None
  }

  /** With live pointers distinct: found exactly when added and not deleted since. */
  lemma {:induction false} LookupIsLast(ops: seq<Op>, p: nat)
    requires Distinct(ops)
    ensures FirstItem(After(ops), p) == LastAt(ops, p) && |Unmatched(ops, p)| <= 1
  {
    LookupAfterRun(ops, p);
    if ops != [] {
      LookupIsLast(ops[..|ops| - 1], p);
      LookupAfterRun(ops[..|ops| - 1], p);
    }
  }

  // ----- the table as the recording allocator uses it -----

  /** The same run, with the table started anew at every allocation. */
  function AfterDetail(ops: seq<Op>): seq<Item> {
    if ops == [] then []
    else
      match ops[|ops| - 1]
      case Add(item) => [item]
      case Lost => []
      case Del(p) => Removed(AfterDetail(ops[..|ops| - 1]), p)
  }

  /** The last allocation of the run was recorded, at `p`. */
  predicate LastAdded(ops: seq<Op>, p: nat) {
    ops != [] &&
    match ops[|ops| - 1]
    case Add(item) => item.pointer == p
    case Lost => false
    case Del(_) => LastAdded(ops[..|ops| - 1], p)
  }

  /** The recording allocator knows a live block exactly while no other was allocated after it:
      a lookup is right just when nothing is live at `p` or the last addition was there. */
  lemma {:induction false} DetailForgets(ops: seq<Op>, p: nat)
    ensures FirstItem(AfterDetail(ops), p) == if LastAdded(ops, p) then LastAt(ops, p) else None
    ensures FirstItem(AfterDetail(ops), p) == LastAt(ops, p) <==> LastAt(ops, p).None? || LastAdded(ops, p)
  {
    if ops != [] && ops[|ops| - 1].Del? {
      var init, q := ops[..|ops| - 1], ops[|ops| - 1].pointer;
      DetailForgets(init, p);
      AtMostOne(init);
      var s := AfterDetail(init);
      if s != [] && s[0].pointer != q {
        RemovedNone(s, q);
      } else {
        assert s == [] || s[1..] == [];
      }
    }
  }

  lemma {:induction false} AtMostOne(ops: seq<Op>)
    ensures |AfterDetail(ops)| <= 1
  {
    if ops != [] && ops[|ops| - 1].Del? {
      AtMostOne(ops[..|ops| - 1]);
      RemovedKeeps(AfterDetail(ops[..|ops| - 1]), ops[|ops| - 1].pointer);
    }
  }

  // ----- the table -----

  /** The greatest pointer below `p`; of items with that pointer, the oldest. */
  predicate IsPrev(s: seq<Item>, p: nat, r: Option<Item>) {
    && (r.Some? ==> r.value.pointer < p && OldestAt(s, r.value))
    && (forall it :: it in s && it.pointer < p ==> r.Some? && it.pointer <= r.value.pointer)
  }

  predicate OldestAt(s: seq<Item>, it: Item) {
    var same := ItemsAt(s, it.pointer);
    same != [] && same[|same| - 1] == it
  }

  lemma {:induction false} ItemsAtSnoc(s: seq<Item>, it: Item, p: nat)
    ensures ItemsAt(s + [it], p) == ItemsAt(s, p) + if it.pointer == p then [it] else []
  {
    if s != [] {
      ItemsAtSnoc(s[1..], it, p);
      assert (s + [it])[1..] == s[1..] + [it];
    }
  }

  lemma {:induction false} ItemsAtInBucket(s: seq<Item>, p: nat)
    ensures ItemsAt(InBucket(s, HashUlong(p)), p) == ItemsAt(s, p)
  {
    if s != [] {
      ItemsAtInBucket(s[1..], p);
      var rest := InBucket(s[1..], HashUlong(p));
      if HashUlong(s[0].pointer) == HashUlong(p) {
        assert InBucket(s, HashUlong(p))[1..] == rest;
      } else {
        assert InBucket(s, HashUlong(p)) == rest;
      }
    }
  }

  lemma {:induction false} OldestInBucket(s: seq<Item>, h: nat, it: Item)
    requires HashUlong(it.pointer) == h && OldestAt(InBucket(s, h), it)
    ensures OldestAt(s, it)
  {
    ItemsAtInBucket(s, it.pointer);
  }

  /** One more item looked at: the item kept is still the oldest of those with its pointer. */
  lemma {:induction false} OldestStep(s: seq<Item>, it: Item, kept: Item)
    ensures OldestAt(s + [it], it)
    ensures it.pointer != kept.pointer && OldestAt(s, kept) ==> OldestAt(s + [it], kept)
  {
    ItemsAtSnoc(s, it, it.pointer);
    ItemsAtSnoc(s, it, kept.pointer);
  }

  class Table {
    const table: array<Bucket>
    ghost var log: seq<Item>

    ghost predicate Valid()
      reads this, table
    {
      && table.Length == TABLE_SIZE
      && (forall h :: 0 <= h < TABLE_SIZE ==> table[h].items == InBucket(log, h))
      && (forall h :: 0 <= h < TABLE_SIZE ==> table[h].depth == |table[h].items| % USHORT_RANGE)
      && (forall it :: it in log ==> it.hashIndex == it.pointer % 2048)
    }

    constructor ()
      ensures Valid() && log == [] && fresh(table)
    {
      table := new Bucket[TABLE_SIZE](_ => Bucket(0, []));
      log := [];
    }

    method InitializeMemoryAllocTable()
      requires table.Length == TABLE_SIZE
      modifies table, `log
      ensures Valid() && log == []
    {
      for i := 0 to TABLE_SIZE
        invariant forall h :: 0 <= h < i ==> table[h] == Bucket(0, [])
      {
        table[i] := Bucket(0, []);
      }
      log := [];
    }

    method AddMemoryAllocItem(gotItem: bool, pointer: nat, size: nat, allocId: nat,
                              timestamp: nat, owner: string, componentId: int)
      requires Valid()
      modifies table, `log
      ensures Valid()
      ensures log == if !gotItem then old(log)
                     else [Item(pointer % 2048, allocId, pointer, size, timestamp, owner, componentId)] + old(log)
    {
      hide InBucket;
      var hash := HashUlong(pointer);
      if !gotItem {
        return;
      }
      var item := Item(hash, allocId, pointer, size, timestamp, owner, componentId);
      var b := table[hash];
      table[hash] := Bucket((b.depth + 1) % USHORT_RANGE, [item] + b.items);
      forall h | 0 <= h < TABLE_SIZE
        ensures InBucket([item] + log, h) == (if h == hash then [item] else []) + InBucket(log, h)
        ensures [] + InBucket(log, h) == InBucket(log, h)
      {
        InBucketCons(item, log, h);
      }
      DepthUp(|b.items|);
      log := [item] + log;
    }

    method GetMemoryAllocItem(pointer: nat) returns (r: Option<Item>)
      requires Valid()
      ensures r == FirstItem(log, pointer)
    {
      FirstInBucket(log, pointer);
      var items := table[HashUlong(pointer)].items;
      var i := 0;
      while i < |items|
        invariant i <= |items| && FirstItem(items[i..], pointer) == FirstItem(items, pointer)
      {
        if items[i].pointer == pointer {
          return Some(items[i]);
        }
        assert items[i..][1..] == items[i + 1..];
        i := i + 1;
      }
      r := None;
    }

    method GetPrevMemoryAllocItem(pointer: nat) returns (prev: Option<Item>)
      requires Valid()
      ensures IsPrev(log, pointer, prev)
    {
      hide InBucket, OldestAt, ItemsAt;
      prev := None;
      for h := 0 to TABLE_SIZE
        invariant forall it :: it in log && HashUlong(it.pointer) < h && it.pointer < pointer ==>
                    prev.Some? && it.pointer <= prev.value.pointer
        invariant prev.Some? ==> prev.value.pointer < pointer && OldestAt(log, prev.value)
      {
        prev := PrevInBucket(pointer, h, prev);
      }
    }

    /** The scan of one bucket. */
    method PrevInBucket(pointer: nat, h: nat, prev0: Option<Item>) returns (prev: Option<Item>)
      requires Valid() && h < TABLE_SIZE
      requires forall it :: it in log && HashUlong(it.pointer) < h && it.pointer < pointer ==>
                 prev0.Some? && it.pointer <= prev0.value.pointer
      requires prev0.Some? ==> prev0.value.pointer < pointer && OldestAt(log, prev0.value)
      ensures forall it :: it in log && HashUlong(it.pointer) <= h && it.pointer < pointer ==>
                prev.Some? && it.pointer <= prev.value.pointer
      ensures prev.Some? ==> prev.value.pointer < pointer && OldestAt(log, prev.value)
    {
      hide InBucket, OldestAt, ItemsAt;
      prev := prev0;
      var items := table[h].items;
      var i := 0;
      while i < |items|
        invariant i <= |items| && (prev0.Some? ==> prev.Some? && prev0.value.pointer <= prev.value.pointer)
        invariant forall k :: 0 <= k < i && items[k].pointer < pointer ==>
                    prev.Some? && items[k].pointer <= prev.value.pointer
        invariant prev.Some? ==> prev.value.pointer < pointer
        invariant prev == prev0 || (OldestAt(items[..i], prev.value) && HashUlong(prev.value.pointer) == h)
      {
        var it := items[i];
        BucketMembers(log, h, it);
        assert items[..i + 1] == items[..i] + [it];
        OldestStep(items[..i], it, if prev.Some? then prev.value else it);
        if it.pointer < pointer {
          if prev.None? {
            prev := Some(it);
          } else if it.pointer >= prev.value.pointer {
            prev := Some(it);
          }
        }
        i := i + 1;
      }
      forall it | it in log && HashUlong(it.pointer) == h
        ensures it in items
      {
        BucketMembers(log, h, it);
      }
      if prev != prev0 {
        assert items[..i] == items;
        OldestInBucket(log, h, prev.value);
      }
    }

    method DelMemoryAllocItem(pointer: nat)
      requires Valid()
      modifies table, `log
      ensures Valid() && log == Removed(old(log), pointer)
    {
      hide InBucket, Removed, HashUlong;
      var hash := HashUlong(pointer);
      var b := table[hash];
      var items := b.items;
      var i := 0;
      forall h | 0 <= h < TABLE_SIZE
        ensures InBucket(Removed(log, pointer), h) ==
                if h == hash then Removed(InBucket(log, h), pointer) else InBucket(log, h)
      {
        RemovedInBucket(log, pointer, h);
      }
      RemovedKeeps(log, pointer);
      while i < |items|
        invariant i <= |items| && unchanged(table)
        invariant forall k :: 0 <= k < i ==> items[k].pointer != pointer
      {
        if items[i].pointer == pointer {
          RemovedIs(items, i, pointer);
          DepthDown(|items|);
          table[hash] := Bucket((b.depth + USHORT_RANGE - 1) % USHORT_RANGE, items[..i] + items[i + 1..]);
          break;
        }
        i := i + 1;
      }
      if i == |items| {
        RemovedNone(items, pointer);
      }
      log := Removed(log, pointer);
    }
  }

  lemma {:induction false} RemovedKeeps(s: seq<Item>, p: nat)
    ensures |Removed(s, p)| <= |s| && forall it :: it in Removed(s, p) ==> it in s
  {
    if s != [] {
      RemovedKeeps(s[1..], p);
    }
  }

  lemma {:induction false} RemovedNone(s: seq<Item>, p: nat)
    requires forall k :: 0 <= k < |s| ==> s[k].pointer != p
    ensures Removed(s, p) == s
  {
    if s != [] {
      RemovedNone(s[1..], p);
    }
  }

  /** The item found is the one to go. */
  lemma {:induction false} RemovedIs(s: seq<Item>, i: nat, p: nat)
    requires i < |s| && s[i].pointer == p && forall k :: 0 <= k < i ==> s[k].pointer != p
    ensures Removed(s, p) == s[..i] + s[i + 1..]
  {
    if i > 0 {
      RemovedIs(s[1..], i - 1, p);
    }
  }
}
