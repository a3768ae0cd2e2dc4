/** The DM pack runtime as it is written: nodes with parent pointers and linked child queues, and two
    global pointers. Every operation is proved to be a step of the machine in DmMachine. */
module DmRuntime {
  import opened Common
  import opened DmTables
  import opened DmEmit
  import opened DmMachine
  import opened Lists

  class Node {
    var name: string
    var stringData: Option<string>
    var dataSize: nat
    var level: nat
    var parent: Node?
    const linkage: Link
    const childQueue: Queue

    /** A node as it is allocated: zeroed, with an empty child queue. */
    constructor ()
      ensures name == "" && stringData == None && dataSize == 0 && level == 0 && parent == null
      ensures fresh(linkage) && fresh(childQueue)
      ensures childQueue.Valid() && childQueue.entries == [] && linkage.next == null
    {
      name, stringData, dataSize, level, parent := "", None, 0, 0, null;
      linkage := new Link();
      childQueue := new Queue();
    }
  }

  // ----- nodes against their records -----

  /** The nodes and their parts are among `rs`. */
  ghost predicate Owned(ns: seq<Node>, rs: set<object>) {
    forall i :: 0 <= i < |ns| ==> ns[i] in rs && ns[i].linkage in rs && ns[i].childQueue in rs
  }

  ghost predicate Distinct(ns: seq<Node>) {
    forall i, j :: 0 <= i < j < |ns| ==>
      ns[i] != ns[j] && ns[i].linkage != ns[j].linkage && ns[i].childQueue != ns[j].childQueue
  }

  /** The queue holds the links of the given nodes, in order. */
  ghost predicate HoldsChildren(q: Queue, ns: seq<Node>, children: seq<nat>, rs: set<object>)
    requires Owned(ns, rs) && q in rs && forall k :: 0 <= k < |children| ==> children[k] < |ns|
    reads rs
  {
    && |q.entries| == |children|
    && (forall k :: 0 <= k < |children| ==> q.entries[k] == ns[children[k]].linkage)
    && q.Valid()
  }

  /** Node `i` looks as its record says. */
  ghost predicate Looks(ns: seq<Node>, h: Heap, rs: set<object>, i: nat)
    requires i < |ns| == |h| && Shape(h) && Owned(ns, rs)
    reads rs
  {
    assert NodeShape(h, i);
    LooksSelf(ns, h, rs, i) && HoldsChildren(ns[i].childQueue, ns, h[i].children, rs)
  }

  ghost predicate LooksSelf(ns: seq<Node>, h: Heap, rs: set<object>, i: nat)
    requires i < |ns| == |h| && Shape(h) && Owned(ns, rs)
    reads rs
  {
    assert NodeShape(h, i);
    var n, r := ns[i], h[i];
    && n.name == r.tag && n.stringData == r.text && n.dataSize == r.dataSize && n.level == r.level
    && n.parent == (if r.parent.Some? then ns[r.parent.value] else null)
  }

  /** A node still looks as its record says when more nodes are listed. */
  lemma {:induction false} LooksSelfOn(ns: seq<Node>, h: Heap, rs: set<object>, n: Node,
                                          h2: Heap, rs2: set<object>, i: nat)
    requires i < |ns| == |h| && Shape(h) && Owned(ns, rs) && LooksSelf(ns, h, rs, i)
    requires |h2| == |h| + 1 && Shape(h2) && rs <= rs2 && Owned(ns + [n], rs2)
    requires h2[i] == h[i].(children := h2[i].children)
    ensures LooksSelf(ns + [n], h2, rs2, i)
  {
    assert NodeShape(h, i);
  }

  lemma {:induction false} LooksOn(ns: seq<Node>, h: Heap, rs: set<object>, n: Node, h2: Heap, rs2: set<object>, i: nat)
    requires i < |ns| == |h| && Shape(h) && Owned(ns, rs) && Looks(ns, h, rs, i)
    requires |h2| == |h| + 1 && Shape(h2) && rs <= rs2 && Owned(ns + [n], rs2) && h2[i] == h[i]
    ensures Looks(ns + [n], h2, rs2, i)
  {
    assert NodeShape(h, i);
    LooksSelfOn(ns, h, rs, n, h2, rs2, i);
  }

  lemma {:induction false} LooksGrown(ns: seq<Node>, h: Heap, rs: set<object>, n: Node,
                                         h2: Heap, rs2: set<object>, i: nat)
    requires i < |ns| == |h| && Shape(h) && Owned(ns, rs) && LooksSelf(ns, h, rs, i)
    requires |h2| == |h| + 1 && Shape(h2) && rs <= rs2 && Owned(ns + [n], rs2)
    requires h2[i] == h[i].(children := h[i].children + [|h|])
    requires ns[i].childQueue.Valid() && |ns[i].childQueue.entries| == |h[i].children| + 1
    requires forall k :: 0 <= k < |h[i].children| ==>
               h[i].children[k] < |ns| && ns[i].childQueue.entries[k] == ns[h[i].children[k]].linkage
    requires ns[i].childQueue.entries[|h[i].children|] == n.linkage
    ensures Looks(ns + [n], h2, rs2, i)
  {
    LooksSelfOn(ns, h, rs, n, h2, rs2, i);
    assert NodeShape(h2, i);
  }

  /** One more node has been made under `p`, and is in its queue: all nodes look as recorded. */
  lemma {:induction false} AllLook(ns: seq<Node>, h: Heap, rs: set<object>, n: Node, rs2: set<object>, p: Option<nat>)
    requires |ns| == |h| && Shape(h) && Owned(ns, rs) && Distinct(ns) && (p.Some? ==> p.value < |ns|)
    requires rs2 == rs + {n, n.linkage, n.childQueue} && n !in rs && n.linkage !in rs && n.childQueue !in rs
    requires n.childQueue.Valid() && n.childQueue.entries == []
    requires n.parent == (if p.None? then null else ns[p.value])
    requires n.level == if p.None? then 0 else h[p.value].level + 1
    requires n.dataSize == if n.stringData.Some? then |n.stringData.value| else 0
    requires forall i :: 0 <= i < |ns| && p != Some(i) ==> Looks(ns, h, rs, i)
    requires p.Some? ==>
               LooksSelf(ns, h, rs, p.value) &&
               var q, children := ns[p.value].childQueue, h[p.value].children;
               q.Valid() && |q.entries| == |children| + 1 && q.entries[|children|] == n.linkage &&
               forall k :: 0 <= k < |children| ==> children[k] < |ns| && q.entries[k] == ns[children[k]].linkage
    ensures var h2 := AddRec(h, p, n.name, n.stringData, n.dataSize);
            Shape(h2) && Owned(ns + [n], rs2) && Distinct(ns + [n]) &&
            forall i :: 0 <= i < |ns| + 1 ==> Looks(ns + [n], h2, rs2, i)
  {
    var h2 := AddRec(h, p, n.name, n.stringData, n.dataSize);
    AddRecShape(h, p, n.name, n.stringData, n.dataSize);
    forall i | 0 <= i < |ns| + 1
      ensures Looks(ns + [n], h2, rs2, i)
    {
      if i == |ns| {
      } else if p != Some(i) {
        LooksOn(ns, h, rs, n, h2, rs2, i);
      } else {
        LooksGrown(ns, h, rs, n, h2, rs2, i);
      }
    }
  }

  class Runtime {
    var lastObject: Node?
    var currentFunctions: Node?
    ghost var nodes: seq<Node>
    ghost var repr: set<object>
    ghost var heap: Heap
    ghost var last: Option<nat>
    ghost var cur: Option<nat>

    /** `p` is the number of node `n`. */
    ghost predicate Is(n: Node?, p: Option<nat>)
      reads this
    {
      if p.None? then n == null else p.value < |nodes| && nodes[p.value] == n
    }

    /** The nodes made so far are distinct, own their parts, and look as `heap` says; `last` and
        `cur` number what the globals point to. */
    ghost predicate Valid()
      reads this, repr
      ensures Valid() ==> this !in repr && |nodes| == |heap|
    {
      && |nodes| == |heap| && Shape(heap) && this !in repr && Owned(nodes, repr) && Distinct(nodes)
      && (forall i :: 0 <= i < |nodes| ==> Looks(nodes, heap, repr, i))
      && Is(lastObject, last) && Is(currentFunctions, cur)
    }

    /** The state of the machine, given what the registers hold. */
    ghost function Machine(regs: map<nat, nat>): State
      reads this
    {
      State(heap, last, cur, regs)
    }

    constructor ()
      ensures Valid() && nodes == [] && repr == {} && Machine(map[]) == INIT
    {
      lastObject, currentFunctions := null, null;
      nodes, repr, heap, last, cur := [], {}, [], None, None;
    }

    /** DMPackCreateNode, with a text or without: an object of the allocator, filled in and pushed
        onto the child queue of its parent. */
    method CreateNode(parent: Node?, name: string, text: Option<string>, textSize: nat, ghost p: Option<nat>)
      returns (n: Node)
      requires Valid() && Is(parent, p)
      requires text.Some? ==> textSize == 0 || textSize == |text.value|
      modifies this`nodes, this`heap, this`repr, repr
      ensures Valid() && fresh(repr - old(repr)) && nodes == old(nodes) + [n]
      ensures text.Some? ==> heap == AddText(old(heap), p, name, text.value, textSize)
      ensures text.None? ==> heap == AddPlain(old(heap), p, name)
    {
      n := new Node();
      if parent != null {
        n.parent := parent;
        ParentLevel(parent, p);
        n.level := parent.level + 1;
      }
      n.name := name;
      var size := textSize;
      if text.Some? {
        if size == 0 {
          size := |text.value|;
        }
        n.dataSize := size;
        n.stringData := Some(text.value[..size]);
      }
      Attach(n, parent, p);
    }

    /** DMPackCreatePNode. */
    method CreatePNode(parent: Node?, name: string, ghost p: Option<nat>) returns (n: Node)
      requires Valid() && Is(parent, p)
      modifies this`nodes, this`heap, this`repr, repr
      ensures Valid() && fresh(repr - old(repr)) && nodes == old(nodes) + [n]
      ensures heap == AddPlain(old(heap), p, name)
    {
      n := new Node();
      if parent != null {
        n.parent := parent;
        ParentLevel(parent, p);
        n.level := parent.level + 1;
      }
      n.name := name;
      Attach(n, parent, p);
    }

    lemma {:induction false} ParentLevel(parent: Node, p: Option<nat>)
      requires Valid() && Is(parent, p)
      ensures parent.level == heap[p.value].level
    {
      assert Looks(nodes, heap, repr, p.value);
    }

    /** A link is in the queue of one node only. */
    lemma {:induction false} LinksApart(p: nat, i: nat, k: nat)
      requires Valid() && p < |nodes| && i < |nodes| && p != i && k < |heap[p].children|
      ensures |nodes[p].childQueue.entries| == |heap[p].children|
      ensures nodes[p].childQueue.entries[k] !in nodes[i].childQueue.entries
    {
      assert Looks(nodes, heap, repr, p) && Looks(nodes, heap, repr, i) && NodeShape(heap, p) && NodeShape(heap, i);
      forall j | 0 <= j < |heap[i].children|
        ensures nodes[i].childQueue.entries[j] != nodes[p].childQueue.entries[k]
      {
        var c, c' := heap[p].children[k], heap[i].children[j];
        assert heap[c].parent == Some(p) && heap[c'].parent == Some(i);
      }
    }

    lemma {:induction false} LinksOwned(i: nat)
      requires Valid() && i < |nodes|
      ensures nodes[i].childQueue.Valid() && forall l :: l in nodes[i].childQueue.entries ==> l in repr
    {
      assert Looks(nodes, heap, repr, i) && NodeShape(heap, i);
    }

    /** The links a push writes to are in no other queue. */
    lemma {:induction false} QueuesApart(parent: Node, entry: Link, p: nat)
      requires Valid() && p < |nodes| && nodes[p] == parent && entry !in repr
      ensures parent.childQueue.Valid() && entry !in parent.childQueue.entries
      ensures forall l :: l in parent.childQueue.entries ==> l in repr
      ensures var q := parent.childQueue.entries;
              forall i :: 0 <= i < |nodes| && i != p ==>
                nodes[i].childQueue.Valid() && entry !in nodes[i].childQueue.entries &&
                (q != [] ==> q[|q| - 1] !in nodes[i].childQueue.entries)
    {
      assert Looks(nodes, heap, repr, p) && NodeShape(heap, p);
      LinksOwned(p);
      var q := parent.childQueue.entries;
      forall i | 0 <= i < |nodes| && i != p
        ensures nodes[i].childQueue.Valid() && entry !in nodes[i].childQueue.entries
        ensures q != [] ==> q[|q| - 1] !in nodes[i].childQueue.entries
      {
        LinksOwned(i);
        if q != [] {
          LinksApart(p, i, |q| - 1);
        }
      }
    }

    /** The push onto the parent's queue: no other queue and no node changes. */
    method PushOnto(parent: Node, entry: Link, ghost p: nat)
      requires Valid() && p < |nodes| && nodes[p] == parent && entry !in repr
      modifies repr, entry
      ensures parent.childQueue.Valid()
      ensures parent.childQueue.entries == old(parent.childQueue.entries) + [entry]
      ensures forall i :: 0 <= i < |nodes| ==> LooksSelf(nodes, heap, repr, i)
      ensures forall i :: 0 <= i < |nodes| && i != p ==> Looks(nodes, heap, repr, i)
    {
      QueuesApart(parent, entry, p);
      parent.childQueue.PushEntry(entry);
      forall i | 0 <= i < |nodes|
        ensures LooksSelf(nodes, heap, repr, i)
        ensures i != p ==> Looks(nodes, heap, repr, i)
      {
        assert old(Looks(nodes, heap, repr, i));
      }
    }

    lemma {:induction false} ParentHolds(p: nat)
      requires Valid() && p < |nodes|
      ensures |nodes[p].childQueue.entries| == |heap[p].children|
      ensures forall k :: 0 <= k < |heap[p].children| ==>
                heap[p].children[k] < |nodes| && nodes[p].childQueue.entries[k] == nodes[heap[p].children[k]].linkage
    {
      assert Looks(nodes, heap, repr, p) && NodeShape(heap, p);
    }

    /** The end of both node creations: the push onto the parent's queue. */
    method Attach(n: Node, parent: Node?, ghost p: Option<nat>)
      requires Valid() && Is(parent, p)
      requires {n, n.linkage, n.childQueue} !! repr && this as object != n
      requires n.childQueue.Valid() && n.childQueue.entries == []
      requires n.parent == parent && n.level == (if p.None? then 0 else heap[p.value].level + 1)
      requires n.dataSize == if n.stringData.Some? then |n.stringData.value| else 0
      modifies this`nodes, this`heap, this`repr, repr, n.linkage
      ensures Valid() && repr == old(repr) + {n, n.linkage, n.childQueue}
      ensures nodes == old(nodes) + [n]
      ensures heap == AddRec(old(heap), p, n.name, n.stringData, n.dataSize)
    {
      hide Looks, LooksSelf, Shape;
      if parent != null {
        ParentHolds(p.value);
        PushOnto(parent, n.linkage, p.value);
      }
      ghost var repr' := repr + {n, n.linkage, n.childQueue};
      AllLook(nodes, heap, repr, n, repr', p);
      nodes, heap, repr := nodes + [n], AddRec(heap, p, n.name, n.stringData, n.dataSize), repr';
    }

    lemma {:induction false} FieldsSnoc(h: Heap, p: Option<nat>, done: seq<Field>, f: Field)
      requires (p.Some? ==> p.value < |h|)
      ensures AddFields(h, p, done + [f]) == AddText(AddFields(h, p, done), p, f.tag, f.text, f.size)
    {
      assert (done + [f])[..|done + [f]| - 1] == done;
    }

    /** One more text node under `p`; `done` are the fields it had been given since `h`. */
    method CreateField(parent: Node?, name: string, text: string, textSize: nat,
                       ghost p: Option<nat>, ghost h: Heap, ghost done: seq<Field>)
      requires Valid() && Is(parent, p) && (textSize == 0 || textSize == |text|)
      requires (p.Some? ==> p.value < |h|) && heap == AddFields(h, p, done)
      modifies this`nodes, this`heap, this`repr, repr
      ensures Valid() && fresh(repr - old(repr)) && old(nodes) <= nodes
      ensures heap == AddFields(h, p, done + [Field(name, text, textSize)])
    {
      FieldsSnoc(h, p, done, Field(name, text, textSize));
      var _ := CreateNode(parent, name, Some(text), textSize, p);
    }

    lemma {:induction false} NoFields(h: Heap, p: Option<nat>)
      requires p.Some? ==> p.value < |h|
      ensures AddFields(h, p, []) == h
    {
    }

    method CreateObject(P: Node, objType: ObjectNum, name: string, maxInstance: Option<string>, ghost p: nat)
      returns (P1: Node)
      requires Valid() && Is(P, Some(p))
      modifies this`currentFunctions, this`cur, this`nodes, this`heap, this`repr, repr
      ensures Valid() && fresh(repr - old(repr)) && old(nodes) <= nodes && Is(P1, Some(|old(nodes)|))
      ensures heap == AddFields(AddPlain(old(heap), Some(p), "object"), Some(|old(heap)|),
                                ObjectFields(objType, name, maxInstance))
      ensures cur == None
    {
      hide Valid, ObjectTypeName, ObjectTypeLen, AddRec, AddText, AddFields;
      ghost var c := Some(|heap|);
      P1 := CreateNode(P, "object", None, 0, Some(p));
      ghost var h := heap;
      NoFields(h, c);
      ObjectTablesAgree(objType);
      CreateField(P1, "name", name, 0, c, h, []);
      ghost var done := [] + [Field("name", name, 0)];
      CreateField(P1, "objectType", ObjectTypeName(objType), ObjectTypeLen(objType), c, h, done);
      done := done + [Field("objectType", ObjectTypeName(objType), ObjectTypeLen(objType))];
      if maxInstance.Some? {
        CreateField(P1, "maxInstance", maxInstance.value, 0, c, h, done);
        done := done + [Field("maxInstance", maxInstance.value, 0)];
      }
      assert done == ObjectFields(objType, name, maxInstance);
      SetCurrentFunctions(null, None);
    }

    method SetCurrentFunctions(n: Node?, ghost p: Option<nat>)
      requires Valid() && Is(n, p)
      modifies this`currentFunctions, this`cur
      ensures Valid() && cur == p && currentFunctions == n
    {
      currentFunctions, cur := n, p;
    }

    method CreateType(P1: Node, typeId: ParamNum, typeText: Option<string>,
                      ghost a: ParamArgs, ghost c: Option<nat>, ghost h: Heap, ghost done: seq<Field>)
      requires Valid() && Is(P1, c) && c.Some? && c.value < |h| && heap == AddFields(h, c, done)
      requires a.typeId == typeId && a.typeText == typeText
      modifies this`nodes, this`heap, this`repr, repr
      ensures Valid() && fresh(repr - old(repr)) && old(nodes) <= nodes
      ensures heap == AddFields(h, c, done + [TypeField(a)])
    {
      hide Valid, ParamTypeName, ParamTypeLen;
      ParamTablesAgree(typeId);
      if typeText.Some? {
        CreateField(P1, "type", typeText.value, 0, c, h, done);
      } else {
        CreateField(P1, "type", ParamTypeName(typeId), ParamTypeLen(typeId), c, h, done);
      }
    }

    method CreateSyntax(P1: Node, typeId: ParamNum, syntax: Option<string>,
                        ghost a: ParamArgs, ghost c: Option<nat>, ghost h: Heap, ghost done: seq<Field>)
      requires Valid() && Is(P1, c) && c.Some? && c.value < |h| && heap == AddFields(h, c, done)
      requires a.typeId == typeId && a.syntax == syntax
      modifies this`nodes, this`heap, this`repr, repr
      ensures Valid() && fresh(repr - old(repr)) && old(nodes) <= nodes
      ensures heap == AddFields(h, c, done + [SyntaxField(a)])
    {
      hide Valid, ParamSyntaxName, ParamSyntaxLen;
      ParamTablesAgree(typeId);
      if syntax.Some? {
        CreateField(P1, "syntax", syntax.value, 0, c, h, done);
      } else {
        CreateField(P1, "syntax", ParamSyntaxName(typeId), ParamSyntaxLen(typeId), c, h, done);
      }
    }

    method CreateWritable(P1: Node, writable: int, ghost c: Option<nat>, ghost h: Heap, ghost done: seq<Field>)
      requires Valid() && Is(P1, c) && c.Some? && c.value < |h| && heap == AddFields(h, c, done)
      modifies this`nodes, this`heap, this`repr, repr
      ensures Valid() && fresh(repr - old(repr)) && old(nodes) <= nodes
      ensures heap == AddFields(h, c, done + WritableFields(writable))
    {
      hide Valid;
      assert done + [] == done;
      if writable == 0 {
        CreateField(P1, "writable", "false", 5, c, h, done);
      } else if writable == 1 {
        CreateField(P1, "writable", "true", 4, c, h, done);
      }
    }

    method CreateNotify(P1: Node, notify: int, ghost c: Option<nat>, ghost h: Heap, ghost done: seq<Field>)
      requires Valid() && Is(P1, c) && c.Some? && c.value < |h| && heap == AddFields(h, c, done)
      modifies this`nodes, this`heap, this`repr, repr
      ensures Valid() && fresh(repr - old(repr)) && old(nodes) <= nodes
      ensures heap == AddFields(h, c, done + NotifyFields(notify))
    {
      hide Valid;
      assert done + [] == done;
      if notify == 0 {
        CreateField(P1, "notify", "off", 3, c, h, done);
      } else if notify == 1 {
        CreateField(P1, "notify", "on", 2, c, h, done);
      }
    }

    lemma {:induction false} PlainFields(name: string, a: ParamArgs)
      requires a.writable == -1 && a.notify == -1
      ensures ParamFields(name, a) == [] + [Field("name", name, 0)] + [TypeField(a)] + [SyntaxField(a)]
    {
      hide TypeField, SyntaxField;
      assert WritableFields(a.writable) == [] && NotifyFields(a.notify) == [];
    }

    method CreateParam(P: Node, name: string, typeId: ParamNum, ghost p: nat)
      requires Valid() && Is(P, Some(p))
      modifies this`nodes, this`heap, this`repr, repr
      ensures Valid() && fresh(repr - old(repr)) && old(nodes) <= nodes
      ensures heap == AddFields(AddPlain(old(heap), Some(p), "parameter"), Some(|old(heap)|),
                                ParamFields(name, Wrapped(CallPlain(typeId))))
    {
      hide Valid, TypeField, SyntaxField, AddRec, AddText, AddFields;
      ghost var a := Wrapped(CallPlain(typeId));
      ghost var c := Some(|heap|);
      var P1 := CreateNode(P, "parameter", None, 0, Some(p));
      ghost var h := heap;
      NoFields(h, c);
      CreateField(P1, "name", name, 0, c, h, []);
      ghost var done := [] + [Field("name", name, 0)];
      CreateType(P1, typeId, None, a, c, h, done);
      CreateSyntax(P1, typeId, None, a, c, h, done + [TypeField(a)]);
      PlainFields(name, a);
    }

    method CreateParamEx(P: Node, name: string, typeId: ParamNum, typeText: Option<string>, syntax: Option<string>,
                         writable: int, notify: int, ghost p: nat)
      requires Valid() && Is(P, Some(p))
      modifies this`nodes, this`heap, this`repr, repr
      ensures Valid() && fresh(repr - old(repr)) && old(nodes) <= nodes
      ensures heap == AddFields(AddPlain(old(heap), Some(p), "parameter"), Some(|old(heap)|),
                                ParamFields(name, ParamArgs(typeId, typeText, syntax, writable, notify)))
    {
      hide Valid, TypeField, SyntaxField, WritableFields, NotifyFields, AddRec, AddText, AddFields;
      ghost var a := ParamArgs(typeId, typeText, syntax, writable, notify);
      ghost var c := Some(|heap|);
      var P1 := CreateNode(P, "parameter", None, 0, Some(p));
      ghost var h := heap;
      NoFields(h, c);
      CreateField(P1, "name", name, 0, c, h, []);
      ghost var done := [] + [Field("name", name, 0)];
      CreateType(P1, typeId, typeText, a, c, h, done);
      done := done + [TypeField(a)];
      CreateSyntax(P1, typeId, syntax, a, c, h, done);
      done := done + [SyntaxField(a)];
      CreateWritable(P1, writable, c, h, done);
      done := done + WritableFields(writable);
      CreateNotify(P1, notify, c, h, done);
      assert done + NotifyFields(notify) == ParamFields(name, a);
    }

    /** The functions node is looked for in the globals, not in the DOM. */
    method CreateFunctions(P: Node, name: string, funcIds: seq<FuncNum>, ghost p: nat)
      requires Valid() && Is(P, Some(p))
      modifies this, repr
      ensures Valid() && fresh(repr - old(repr)) && old(nodes) <= nodes
      ensures var o := OpenFunctions(old(Machine(map[])), p);
              (o.cur.Some? ==> o.cur.value < |o.heap|) && last == o.last && cur == o.cur &&
              heap == AddFields(o.heap, o.cur, FuncFields(name, funcIds))
    {
      OpenFunctionsNode(P, p);
      AddHandlers(name, funcIds, heap);
    }

    method OpenFunctionsNode(P: Node, ghost p: nat)
      requires Valid() && Is(P, Some(p))
      modifies this, repr
      ensures Valid() && fresh(repr - old(repr)) && old(nodes) <= nodes
      ensures Machine(map[]) == OpenFunctions(old(Machine(map[])), p)
      ensures Is(currentFunctions, cur)
    {
      if P != lastObject {
        lastObject, last := P, Some(p);
        ghost var c := Some(|heap|);
        var n := CreateNode(P, "functions", None, 0, Some(p));
        SetCurrentFunctions(n, c);
      }
    }

    /** One round of the loop below: tag and handler are put together from the tables. */
    method CreateHandler(name: string, funcId: FuncNum, ghost h: Heap, ghost done: seq<Field>)
      requires Valid() && Is(currentFunctions, cur) && (cur.Some? ==> cur.value < |h|)
      requires heap == AddFields(h, cur, done)
      modifies this`nodes, this`heap, this`repr, repr
      ensures Valid() && fresh(repr - old(repr)) && old(nodes) <= nodes && Is(currentFunctions, cur)
      ensures heap == AddFields(h, cur, done + [FuncField(name, funcId)])
    {
      hide Valid, FuncName, FuncNameLen;
      var f, flen := FuncName(funcId), FuncNameLen(funcId);
      FuncTablesAgree(funcId);
      assert f[..flen] == f;
      var buff1 := "func_" + f[..flen];
      var buff2 := name + "_" + f[..flen];
      assert Field(buff1, buff2, |name| + 1 + flen) == FuncField(name, funcId);
      CreateField(currentFunctions, buff1, buff2, |name| + 1 + flen, cur, h, done);
    }

    lemma {:induction false} HandlersStart(name: string, funcIds: seq<FuncNum>, h: Heap, p: Option<nat>)
      requires p.Some? ==> p.value < |h|
      ensures AddFields(h, p, FuncFields(name, funcIds[..0])) == h
    {
    }

    lemma {:induction false} FuncFieldsStep(name: string, funcIds: seq<FuncNum>, i: nat)
      requires i < |funcIds|
      ensures FuncFields(name, funcIds[..i + 1]) == FuncFields(name, funcIds[..i]) + [FuncField(name, funcIds[i])]
    {
      hide FuncField;
      assert funcIds[..i + 1][..i] == funcIds[..i];
    }

    /** The loop over the numbers of one call. */
    method AddHandlers(name: string, funcIds: seq<FuncNum>, ghost h: Heap)
      requires Valid() && h == heap && Is(currentFunctions, cur) && (cur.Some? ==> cur.value < |h|)
      modifies this`nodes, this`heap, this`repr, repr
      ensures Valid() && fresh(repr - old(repr)) && old(nodes) <= nodes
      ensures (cur.Some? ==> cur.value < |h|) && heap == AddFields(h, cur, FuncFields(name, funcIds))
    {
      hide Valid, FuncField, FuncFields, AddFields;
      HandlersStart(name, funcIds, h, cur);
      var i := 0;
      while i < |funcIds|
        invariant 0 <= i <= |funcIds|
        invariant Valid() && fresh(repr - old(repr)) && old(nodes) <= nodes
        invariant Is(currentFunctions, cur) && (cur.Some? ==> cur.value < |h|)
        invariant heap == AddFields(h, cur, FuncFields(name, funcIds[..i]))
      {
        CreateHandler(name, funcIds[i], h, FuncFields(name, funcIds[..i]));
        FuncFieldsStep(name, funcIds, i);
        i := i + 1;
      }
      assert funcIds[..i] == funcIds;
    }

    // ----- running emitted code -----

    /** The registers hold the nodes with the given numbers. */
    ghost predicate Holds(regs: map<nat, Node>, ids: map<nat, nat>)
      reads this
    {
      && regs.Keys == ids.Keys
      && forall r :: r in ids ==> ids[r] < |nodes| && nodes[ids[r]] == regs[r]
    }

    /** The statements that assign a register. */
    method ExecuteMake(i: Instr, regs: map<nat, Node>, ghost ids: map<nat, nat>) returns (regs': map<nat, Node>)
      requires Valid() && Holds(regs, ids) && Ready(i, Machine(ids))
      requires i.MakeNode? || i.MakePNode? || i.MakeObject?
      modifies this`currentFunctions, this`cur, this`nodes, this`heap, this`repr, repr
      ensures Valid() && fresh(repr - old(repr))
      ensures var s := Step(i, old(Machine(ids))); Machine(s.regs) == s && Holds(regs', s.regs)
    {
      hide Valid;
      ghost var c := |nodes|;
      var n: Node;
      match i {
        case MakeNode(_, src, tag, text, size) =>
          n := CreateNode(if src.Some? then regs[src.value] else null, tag, Some(text), size, Reg(Machine(ids), src));
        case MakePNode(_, src, tag) =>
          n := CreatePNode(if src.Some? then regs[src.value] else null, tag, Reg(Machine(ids), src));
        case MakeObject(_, src, objType, name, maxInstance) =>
          n := CreateObject(regs[src], objType, name, maxInstance, ids[src]);
      }
      assert Is(n, Some(c)) && old(nodes) <= nodes;
      regs' := regs[i.dst := n];
    }

    /** The parameter statements, each through its wrapper. */
    method ExecuteParam(i: Instr, regs: map<nat, Node>, ghost ids: map<nat, nat>)
      requires Valid() && Holds(regs, ids) && Ready(i, Machine(ids)) && i.MakeParam?
      modifies this`nodes, this`heap, this`repr, repr
      ensures Valid() && fresh(repr - old(repr))
      ensures var s := Step(i, old(Machine(ids))); Machine(s.regs) == s && Holds(regs, s.regs)
    {
      hide Valid;
      if i.call.CallPlain? {
        CreateParam(regs[i.paramSrc], i.name, i.call.t, ids[i.paramSrc]);
      } else {
        var a := Wrapped(i.call);
        CreateParamEx(regs[i.paramSrc], i.name, a.typeId, a.typeText, a.syntax, a.writable, a.notify, ids[i.paramSrc]);
      }
    }

    /** One statement of the emitted function. */
    method Execute(i: Instr, regs: map<nat, Node>, ghost ids: map<nat, nat>) returns (regs': map<nat, Node>)
      requires Valid() && Holds(regs, ids) && Ready(i, Machine(ids))
      modifies this, repr
      ensures Valid() && fresh(repr - old(repr))
      ensures var s := Step(i, old(Machine(ids))); Machine(s.regs) == s && Holds(regs', s.regs)
    {
      hide Valid;
      regs' := regs;
      if i.MakeFunctions? {
        CreateFunctions(regs[i.fnSrc], i.prefix, i.ids, ids[i.fnSrc]);
      } else if i.MakeParam? {
        ExecuteParam(i, regs, ids);
      } else {
        regs' := ExecuteMake(i, regs, ids);
      }
    }

    /** The emitted function: all its statements, then the value of P0. */
    method Run(prog: seq<Instr>) returns (P0: Node)
      requires Valid() && Exec(prog, Machine(map[])).Some? && 0 in Exec(prog, Machine(map[])).value.regs
      modifies this, repr
      ensures Valid() && fresh(repr - old(repr))
      ensures var s := Exec(prog, old(Machine(map[]))).value; Machine(s.regs) == s && Is(P0, Some(s.regs[0]))
    {
      var regs: map<nat, Node> := map[];
      ghost var s := Machine(map[]);
      var k := 0;
      while k < |prog|
        invariant 0 <= k <= |prog|
        invariant Valid() && fresh(repr - old(repr))
        invariant Exec(prog[..k], old(Machine(map[]))) == Some(s) && Machine(s.regs) == s && Holds(regs, s.regs)
      {
        ExecPrefix(prog, k, old(Machine(map[])));
        regs := Execute(prog[k], regs, s.regs);
        s := Step(prog[k], s);
        k := k + 1;
      }
      assert prog[..k] == prog;
      P0 := regs[0];
    }
  }

  lemma {:induction false} ExecPrefix(prog: seq<Instr>, k: nat, s: State)
    requires k < |prog| && Exec(prog, s).Some?
    ensures Exec(prog[..k], s).Some? && Ready(prog[k], Exec(prog[..k], s).value)
    ensures Exec(prog[..k + 1], s) == Some(Step(prog[k], Exec(prog[..k], s).value))
  {
    ExecConcat(prog[..k + 1], prog[k + 1..], s);
    assert prog[..k + 1] + prog[k + 1..] == prog;
    assert prog[..k + 1][..|prog[..k + 1]| - 1] == prog[..k];
  }
}
