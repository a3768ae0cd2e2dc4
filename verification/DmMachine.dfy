/** The runtime as a machine on values: the DOM is a growing sequence of node records, a node is
    its number in creation order. The class in DmRuntime keeps to this machine step by step. */
module DmMachine {
  import opened Common
  import opened DmTables
  import opened DmEmit

  datatype NodeRec = NodeRec(tag: string, text: Option<string>, dataSize: nat, level: nat,
                             parent: Option<nat>, children: seq<nat>)

  type Heap = seq<NodeRec>

  /** `last` and `cur` are the runtime's globals pLastObject and pCurrentFunctionsNode, `regs` the
      variables P0, P1, ... of the emitted function that have been assigned. */
  datatype State = State(heap: Heap, last: Option<nat>, cur: Option<nat>, regs: map<nat, nat>)

  const INIT := State([], None, None, map[])

  // ----- node creation -----

  /** Appends a node; under a parent it becomes the parent's last child, one level further down. */
  function AddRec(h: Heap, parent: Option<nat>, tag: string, text: Option<string>, dataSize: nat): Heap
    requires parent.Some? ==> parent.value < |h|
  {
    match parent
    case None => h + [NodeRec(tag, text, dataSize, 0, None, [])]
    case Some(p) =>
      h[p := h[p].(children := h[p].children + [|h|])]
      + [NodeRec(tag, text, dataSize, h[p].level + 1, parent, [])]
  }

  /** DMPackCreateNode with a text: a size of 0 asks for the length of the text to be taken, and
      only the first `size` characters are stored. */
  function AddText(h: Heap, parent: Option<nat>, tag: string, text: string, size: nat): Heap
    requires parent.Some? ==> parent.value < |h|
    requires size <= |text|
  {
    var n := if size == 0 then |text| else size;
    AddRec(h, parent, tag, Some(text[..n]), n)
  }

  /** DMPackCreatePNode, and DMPackCreateNode without a text. */
  function AddPlain(h: Heap, parent: Option<nat>, tag: string): Heap
    requires parent.Some? ==> parent.value < |h|
  {
    AddRec(h, parent, tag, None, 0)
  }

  /** The arguments of a text-node creation; the size is 0 or right. */
  datatype FieldArgs = Field(tag: string, text: string, size: nat)

  type Field = f: FieldArgs | f.size == 0 || f.size == |f.text| witness Field("", "", 0)

  /** One text node after the other under one parent. */
  function AddFields(h: Heap, parent: Option<nat>, fields: seq<Field>): (r: Heap)
    requires parent.Some? ==> parent.value < |h|
    ensures |r| == |h| + |fields|
  {
    if fields == [] then h
    else
      var f := fields[|fields| - 1];
      AddText(AddFields(h, parent, fields[..|fields| - 1]), parent, f.tag, f.text, f.size)
  }

  // ----- the fields the runtime writes -----

  function ObjectFields(objType: ObjectNum, name: string, maxInstance: Option<string>): seq<Field>
  {
    ObjectTablesAgree(objType);
    [Field("name", name, 0), Field("objectType", ObjectTypeName(objType), ObjectTypeLen(objType))]
    + if maxInstance.Some? then [Field("maxInstance", maxInstance.value, 0)] else []
  }

  function FuncField(prefix: string, id: FuncNum): Field {
    FuncTablesAgree(id);
    Field("func_" + FuncName(id), prefix + "_" + FuncName(id), |prefix| + 1 + FuncNameLen(id))
  }

  function FuncFields(prefix: string, ids: seq<FuncNum>): (r: seq<Field>)
    ensures |r| == |ids|
    ensures forall k :: 0 <= k < |ids| ==> r[k] == FuncField(prefix, ids[k])
  {
    if ids == [] then []
    else FuncFields(prefix, ids[..|ids| - 1]) + [FuncField(prefix, ids[|ids| - 1])]
  }

  /** What a wrapper hands on to DMPackCreateParamEx. */
  datatype ParamArgs = ParamArgs(typeId: ParamNum, typeText: Option<string>, syntax: Option<string>,
                                 writable: int, notify: int)

  function Wrapped(c: ParamCall): ParamArgs {
    match c
    case CallTSWN(T, S, W, N) => ParamArgs(0, Some(T), Some(S), W, N)
    case CallTSW(T, S, W) => ParamArgs(0, Some(T), Some(S), W, -1)
    case CallTSN(T, S, N) => ParamArgs(0, Some(T), Some(S), -1, N)
    case CallTS(T, S) => ParamArgs(0, Some(T), Some(S), -1, -1)
    case CallTWN(T, W, N) => ParamArgs(0, Some(T), None, W, N)
    case CallTW(T, W) => ParamArgs(0, Some(T), None, W, -1)
    case CallTN(T, N) => ParamArgs(0, Some(T), None, -1, N)
    case CallT(T) => ParamArgs(0, Some(T), None, -1, -1)
    case CallSWN(t, S, W, N) => ParamArgs(t, None, Some(S), W, N)
    case CallSW(t, S, W) => ParamArgs(t, None, Some(S), W, -1)
    case CallSN(t, S, N) => ParamArgs(t, None, Some(S), -1, N)
    case CallS(t, S) => ParamArgs(t, None, Some(S), -1, -1)
    case CallWN(t, W, N) => ParamArgs(t, None, None, W, N)
    case CallW(t, W) => ParamArgs(t, None, None, W, -1)
    case CallN(t, N) => ParamArgs(t, None, None, -1, N)
    case CallPlain(t) => ParamArgs(t, None, None, -1, -1)
  }

  function TypeField(a: ParamArgs): Field {
    ParamTablesAgree(a.typeId);
    if a.typeText.Some? then Field("type", a.typeText.value, 0)
    else Field("type", ParamTypeName(a.typeId), ParamTypeLen(a.typeId))
  }

  function SyntaxField(a: ParamArgs): Field {
    ParamTablesAgree(a.typeId);
    if a.syntax.Some? then Field("syntax", a.syntax.value, 0)
    else Field("syntax", ParamSyntaxName(a.typeId), ParamSyntaxLen(a.typeId))
  }

  function WritableFields(writable: int): seq<Field> {
    if writable == 0 then [Field("writable", "false", 5)]
    else if writable == 1 then [Field("writable", "true", 4)]
    else []
  }

  function NotifyFields(notify: int): seq<Field> {
    if notify == 0 then [Field("notify", "off", 3)]
    else if notify == 1 then [Field("notify", "on", 2)]
    else []
  }

  function ParamFields(name: string, a: ParamArgs): seq<Field> {
    [Field("name", name, 0), TypeField(a), SyntaxField(a)] + WritableFields(a.writable) + NotifyFields(a.notify)
  }

  // ----- one statement -----

  /** A statement reads only assigned registers, and passes the size of its text or 0. */
  predicate Ready(i: Instr, s: State) {
    (forall r :: r in s.regs ==> s.regs[r] < |s.heap|) &&
    match i
    case MakeNode(dst, src, tag, text, size) => (src.Some? ==> src.value in s.regs) && (size == 0 || size == |text|)
    case MakePNode(dst, src, tag) => src.Some? ==> src.value in s.regs
    case MakeObject(dst, src, objType, name, maxInstance) => src in s.regs
    case MakeFunctions(src, prefix, ids) =>
      src in s.regs && (s.cur.Some? ==> s.cur.value < |s.heap|)
    case MakeParam(src, name, call) => src in s.regs
  }

  function Reg(s: State, src: Option<nat>): Option<nat>
    requires src.Some? ==> src.value in s.regs
  {
    if src.Some? then Some(s.regs[src.value]) else None
  }

  /** The functions node of an object is made by the first call that names the object, and used
      as long as calls go on naming it. */
  function OpenFunctions(s: State, p: nat): State
    requires p < |s.heap|
  {
    if s.last == Some(p) then s
    else s.(heap := AddPlain(s.heap, Some(p), "functions"), last := Some(p), cur := Some(|s.heap|))
  }

  function Step(i: Instr, s: State): State
    requires Ready(i, s)
  {
    var n := |s.heap|;
    match i
    case MakeNode(dst, src, tag, text, size) =>
      s.(heap := AddText(s.heap, Reg(s, src), tag, text, size), regs := s.regs[dst := n])
    case MakePNode(dst, src, tag) =>
      s.(heap := AddPlain(s.heap, Reg(s, src), tag), regs := s.regs[dst := n])
    case MakeObject(dst, src, objType, name, maxInstance) =>
      var h := AddPlain(s.heap, Some(s.regs[src]), "object");
      s.(heap := AddFields(h, Some(n), ObjectFields(objType, name, maxInstance)),
         cur := None, regs := s.regs[dst := n])
    case MakeFunctions(src, prefix, ids) =>
      var o := OpenFunctions(s, s.regs[src]);
      o.(heap := AddFields(o.heap, o.cur, FuncFields(prefix, ids)))
    case MakeParam(src, name, call) =>
      var fields := ParamFields(name, Wrapped(call));
      s.(heap := AddFields(AddPlain(s.heap, Some(s.regs[src]), "parameter"), Some(n), fields))
  }

  /** A run of statements; None when one of them is not ready when its turn comes. */
  function Exec(prog: seq<Instr>, s: State): Option<State> {
    if prog == [] then Some(s)
    else
      var r := Exec(prog[..|prog| - 1], s);
      if r.None? || !Ready(prog[|prog| - 1], r.value) then None
      else Some(Step(prog[|prog| - 1], r.value))
  }

  lemma {:induction false} ExecConcat(a: seq<Instr>, b: seq<Instr>, s: State)
    ensures Exec(a + b, s) == if Exec(a, s).None? then None else Exec(b, Exec(a, s).value)
  {
    if b == [] {
      assert a + b == a;
    } else {
      assert (a + b)[..|a + b| - 1] == a + b[..|b| - 1];
      ExecConcat(a, b[..|b| - 1], s);
    }
  }

  lemma {:induction false} ExecSnoc(a: seq<Instr>, i: Instr, s: State)
    ensures Exec(a + [i], s) ==
            if Exec(a, s).None? || !Ready(i, Exec(a, s).value) then None else Some(Step(i, Exec(a, s).value))
  {
    assert (a + [i])[..|a + [i]| - 1] == a;
  }

  lemma {:induction false} ExecOne(i: Instr, s: State)
    ensures Exec([i], s) == if Ready(i, s) then Some(Step(i, s)) else None
  {
    assert Exec([], s) == Some(s);
    assert [i][..0] == [];
  }

  // ----- the shape of the DOM -----

  /** A forest in creation order: each node but a root stands exactly once in the child list of
      its parent, one level below it, with its children made after it and kept in the order they
      were made; the stored size is the length of the stored text. */
  ghost predicate Shape(h: Heap) {
    forall i :: 0 <= i < |h| ==> NodeShape(h, i)
  }

  ghost predicate NodeShape(h: Heap, i: nat)
    requires i < |h|
  {
    && (h[i].parent.Some? ==>
          h[i].parent.value < i && i in h[h[i].parent.value].children && h[i].level == h[h[i].parent.value].level + 1)
    && (h[i].parent.None? ==> h[i].level == 0)
    && (forall k :: 0 <= k < |h[i].children| ==>
          i < h[i].children[k] < |h| && h[h[i].children[k]].parent == Some(i))
    && (forall j, k :: 0 <= j < k < |h[i].children| ==> h[i].children[j] < h[i].children[k])
    && h[i].dataSize == (if h[i].text.Some? then |h[i].text.value| else 0)
  }

  lemma {:induction false} AddRecShape(h: Heap, parent: Option<nat>, tag: string, text: Option<string>, dataSize: nat)
    requires Shape(h) && (parent.Some? ==> parent.value < |h|)
    requires dataSize == if text.Some? then |text.value| else 0
    ensures Shape(AddRec(h, parent, tag, text, dataSize))
  {
    var r := AddRec(h, parent, tag, text, dataSize);
    forall i | 0 <= i < |r|
      ensures NodeShape(r, i)
    {
      if i < |h| {
        assert NodeShape(h, i);
        if h[i].parent.Some? {
          var p := h[i].parent.value;
          var k :| 0 <= k < |h[p].children| && h[p].children[k] == i;
          assert r[p].children[k] == i;
        }
      } else if parent.Some? {
        var p := parent.value;
        assert r[p].children[|h[p].children|] == i;
      }
    }
  }

  /** Every statement keeps the DOM a forest in creation order, whatever came before it. */
  lemma {:induction false} AddFieldsShape(h: Heap, parent: Option<nat>, fields: seq<Field>)
    requires Shape(h) && (parent.Some? ==> parent.value < |h|)
    ensures Shape(AddFields(h, parent, fields))
  {
    if fields != [] {
      var f := fields[|fields| - 1];
      AddFieldsShape(h, parent, fields[..|fields| - 1]);
      AddRecShape(AddFields(h, parent, fields[..|fields| - 1]), parent, f.tag, Some(f.text), |f.text|);
      assert f.text[..|f.text|] == f.text;
    }
  }

  /** A state of the runtime between two statements. */
  ghost predicate Ok(s: State) {
    && Shape(s.heap)
    && (s.last.Some? ==> s.last.value < |s.heap|)
    && (s.cur.Some? ==> s.cur.value < |s.heap|)
    && forall r :: r in s.regs ==> s.regs[r] < |s.heap|
  }
}
