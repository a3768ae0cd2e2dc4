/** The intrusive lists of the ANSC platform: links embedded in other structures, a FIFO queue that
    knows its last link, and a singly linked list whose header is itself a link. */
module Lists {
  import opened Common
  import opened Platform

  class Link {
    var next: Link?

    constructor ()
      ensures next == null
    {
      next := null;
    }
  }

  /** Starting at `l` and following `next`, one meets exactly `s`, then the end. */
  ghost predicate Chain(l: Link?, s: seq<Link>)
    reads s
  {
    if s == [] then l == null
    else l == s[0] && Chain(s[0].next, s[1..])
  }

  /** The memory alone determines what is met. */
  lemma {:induction false} ChainUnique(l: Link?, s: seq<Link>, t: seq<Link>)
    requires Chain(l, s) && Chain(l, t)
    ensures s == t
  {
    if s != [] && t != [] {
      ChainUnique(s[0].next, s[1..], t[1..]);
      assert s == [s[0]] + s[1..] && t == [t[0]] + t[1..];
    }
  }

  /** The same, link by link, for a sequence without repetitions. */
  ghost predicate Linked(s: seq<Link>)
    reads s
  {
    && (forall i :: 0 <= i < |s| - 1 ==> s[i].next == s[i + 1])
    && (s != [] ==> s[|s| - 1].next == null)
    && (forall i, j :: 0 <= i < j < |s| ==> s[i] != s[j])
  }

  lemma {:induction false} LinkedIsChain(s: seq<Link>)
    requires Linked(s)
    ensures Chain(if s == [] then null else s[0], s)
  {
    if s != [] {
      var t := s[1..];
      assert forall i :: 0 <= i < |t| ==> t[i] == s[i + 1];
      LinkedIsChain(t);
      if t != [] { assert s[0].next == s[1]; }
    }
  }

  /** A new last link: the path with it is linked once the old last link points to it. */
  lemma {:induction false} LinkedSnoc(s: seq<Link>, entry: Link)
    requires entry !in s && entry.next == null && forall i, j :: 0 <= i < j < |s| ==> s[i] != s[j]
    requires forall i :: 0 <= i < |s| - 1 ==> s[i].next == s[i + 1]
    requires s != [] ==> s[|s| - 1].next == entry
    ensures Linked(s + [entry])
  {
    var t := s + [entry];
    assert forall i :: 0 <= i < |s| ==> t[i] == s[i];
  }

  class Queue {
    var first: Link?
    var last: Link?
    var depth: nat
    ghost var entries: seq<Link>

    ghost predicate Valid()
      reads this, entries
    {
      && Linked(entries)
      && first == (if entries == [] then null else entries[0])
      && last == (if entries == [] then null else entries[|entries| - 1])
      && depth == |entries| % USHORT_RANGE
    }

    constructor ()
      ensures Valid() && entries == []
    {
      first, last, depth, entries := null, null, 0, [];
    }

    /** Following the links from the head visits the entries in order, ends, and does so for no
        other sequence; the depth counts them while it can. */
    lemma {:induction false} Visits(met: seq<Link>)
      requires Valid()
      ensures Chain(first, entries)
      ensures Chain(first, met) ==> met == entries
      ensures |entries| < USHORT_RANGE ==> depth == |entries|
    {
      LinkedIsChain(entries);
      if Chain(first, met) {
        ChainUnique(first, met, entries);
      }
    }

    method PushEntry(entry: Link)
      requires Valid() && entry !in entries
      modifies this, entry, if entries == [] then {} else {entries[|entries| - 1]}
      ensures Valid() && entries == old(entries) + [entry]
    {
      var lastEntry := last;
      entry.next := null;
      if lastEntry == null {
        first := entry;
      } else {
        lastEntry.next := entry;
      }
      LinkedSnoc(entries, entry);
      DepthUp(|entries|);
      last := entry;
      depth := (depth + 1) % USHORT_RANGE;
      entries := entries + [entry];
    }

    method PushEntryAtFront(entry: Link)
      requires Valid() && entry !in entries
      modifies this, entry
      ensures Valid() && entries == [entry] + old(entries)
    {
      entry.next := first;
      first := entry;
      var lastEntry := last;
      if lastEntry == null {
        last := entry;
      }
      depth := (depth + 1) % USHORT_RANGE;
      entries := [entry] + entries;
    }
  }

  /** `path` was linked, and one link now points past its successor: the successor is out. */
  lemma {:induction false} Unlinked(path: seq<Link>, k: nat)
    requires k + 1 < |path| && forall i, j :: 0 <= i < j < |path| ==> path[i] != path[j]
    requires forall i :: 0 <= i < |path| - 1 && i != k ==> path[i].next == path[i + 1]
    requires path[|path| - 1].next == null || k + 2 == |path|
    requires path[k].next == if k + 2 < |path| then path[k + 2] else null
    ensures Linked(Without(path, k + 1))
  {
    var rest := Without(path, k + 1);
    assert forall i :: 0 <= i < |rest| ==> rest[i] == if i <= k then path[i] else path[i + 1];
  }

  /** The list used as a stack, with removal of any member. Its header holds a link whose `next` is
      the first entry, so that removal need not treat the first entry apart. */
  class SList {
    const head: Link
    var depth: nat
    ghost var entries: seq<Link>

    ghost predicate Valid()
      reads this, head, entries
    {
      && Linked([head] + entries)
      && depth == |entries| % USHORT_RANGE
    }

    constructor ()
      ensures Valid() && entries == [] && fresh(head)
    {
      head := new Link();
      depth, entries := 0, [];
    }

    method PushEntry(entry: Link)
      requires Valid() && entry !in entries && entry != head
      modifies this, head, entry
      ensures Valid() && entries == [entry] + old(entries)
    {
      ghost var path := [head] + entries;
      assert path[0] == head && (entries != [] ==> path[1] == entries[0]);
      entry.next := head.next;
      head.next := entry;
      depth := (depth + 1) % USHORT_RANGE;
      entries := [entry] + entries;
      ghost var path' := [head] + entries;
      assert forall i :: 2 <= i < |path'| ==> path'[i] == path[i - 1];
    }

    /** The assignments of a removal, once the link before the entry is found. */
    method RemoveAfter(prev: Link, entry: Link, ghost k: nat)
      requires Valid() && k < |entries| && entries[k] == entry && prev == ([head] + entries)[k]
      modifies this, prev
      ensures Valid() && entries == Without(old(entries), k)
    {
      ghost var path := [head] + entries;
      assert path[k + 1] == entry && (k + 2 < |path| ==> path[k + 1].next == path[k + 2]);
      prev.next := entry.next;
      Unlinked(path, k);
      SetMembers(Without(entries, k), path, k);
    }

    method SetMembers(ghost rest: seq<Link>, ghost path: seq<Link>, ghost k: nat)
      requires k < |entries| && path == [head] + entries && rest == Without(entries, k)
      requires Linked(Without(path, k + 1)) && depth == |entries| % USHORT_RANGE
      modifies this
      ensures Valid() && entries == rest
    {
      assert [head] + rest == Without(path, k + 1);
      depth := (depth + USHORT_RANGE - 1) % USHORT_RANGE;
      entries := rest;
    }

    /** Removes exactly the given entry and says whether it was there; nothing else moves. */
    method PopEntryByLink(entry: Link) returns (found: bool)
      requires Valid() && entry != head
      modifies this, head, entries
      ensures Valid()
      ensures found <==> entry in old(entries)
      ensures !found ==> entries == old(entries) && depth == old(depth) && head.next == old(head.next)
      ensures found ==> exists k :: 0 <= k < |old(entries)| && old(entries)[k] == entry &&
                                    entries == Without(old(entries), k)
    {
      ghost var path := [head] + entries;
      var nextEntry: Link? := head;
      ghost var k := 0;
      found := false;
      while nextEntry != null
        invariant 0 <= k <= |path|
        invariant nextEntry == if k == |path| then null else path[k]
        invariant forall i :: 1 <= i <= k && i < |path| ==> path[i] != entry
        invariant entries == old(entries) && depth == old(depth)
        invariant forall i :: 0 <= i < |path| ==> path[i].next == old(path[i].next)
        invariant !found
        decreases |path| - k
      {
        if nextEntry.next == entry {
          assert path[k + 1] == entry;
          RemoveAfter(nextEntry, entry, k);
          found := true;
          break;
        }
        nextEntry := nextEntry.next;
        k := k + 1;
      }
      if !found {
        assert [head] + entries == path && Linked(path);
        forall i | 0 <= i < |entries|
          ensures entries[i] != entry
        {
          assert path[i + 1] == entries[i];
        }
      }
    }
  }
}
