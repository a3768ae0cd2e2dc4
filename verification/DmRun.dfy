/** Runs of emitted code: for every source tree the generator gets through, the code is runnable
    and leaves the tree `Built` describes, hung under the node of the enclosing register. */
module DmRun {
  import opened Common
  import opened DmXml
  import opened DmEmit
  import opened DmMachine
  import opened DmDom
  import opened DmBuilt
  import opened DmBatches

  /** Registers below `d` keep their values. */
  ghost predicate KeepsRegs(s1: State, s2: State, d: nat) {
    forall r: nat :: r < d && r in s1.regs ==> r in s2.regs && s2.regs[r] == s1.regs[r]
  }

  /** The globals after code that makes functions of some object at or after `n` (`fns`) or, if it
      does not, objects (`objs`). */
  ghost predicate Effects(s1: State, s2: State, n: nat, fns: bool, objs: bool) {
    if fns then s2.last.Some? && s2.last.value >= n
    else s2.last == s1.last && s2.cur == (if objs then None else s1.cur)
  }

  /** The globals stand to node `p` as `st` says; an open functions node is not older than `n`. */
  ghost predicate StatusIs(s: State, p: nat, st: Status, n: nat)
    requires p < |s.heap|
  {
    match st
    case Fresh => s.last != Some(p)
    case Open(idx) =>
      s.last == Some(p) && idx < |s.heap[p].children| && s.cur == Some(s.heap[p].children[idx]) &&
      n <= s.heap[p].children[idx]
    case Lost => s.last == Some(p) && s.cur == None
  }

  /** Node `p`, which was the last of `h0`, has been filled as far as `b` says, and nothing else of
      `h0` has changed. */
  ghost predicate Filled(h0: Heap, s: State, p: nat, b: Partial) {
    && Ok(s)
    && p < |h0| <= |s.heap| && Extends(h0, s.heap, Some(p))
    && KidTrees(s.heap, p) == b.kids
    && StatusIs(s, p, b.status, |h0|)
  }

  // ----- functions -----

  lemma {:induction false} RunFunctions(entries: seq<Entry>, d: nat, h0: Heap, s: State, p: nat, b: Partial)
    returns (s': State)
    requires d > 0 && d - 1 in s.regs && s.regs[d - 1] == p && Filled(h0, s, p, b)
    ensures Exec(EmitFuncs(entries, d), s) == Some(s')
    ensures Filled(h0, s', p, BuildFunctions(b, entries))
    ensures s'.regs == s.regs && s'.last == Some(p)
  {
    var prog := EmitFuncs(entries, d);
    BatchesKeepEntries(entries, d);
    ExecFunctions(prog, d - 1, s);
    var fields := FunctionCalls(entries);
    s' := Opened(s, p, fields);
    match b.status
    case Fresh => RunFresh(fields, h0, s, p, b);
    case Open(idx) => RunOpen(fields, h0, s, p, b);
    case Lost =>
      FieldsAdded(s.heap, None, fields);
      ExtendsThen(h0, s.heap, s'.heap, Some(p), None);
      Frame(s.heap, s'.heap, None, p);
  }

  lemma {:induction false} RunFresh(fields: seq<Field>, h0: Heap, s: State, p: nat, b: Partial)
    requires Filled(h0, s, p, b) && b.status.Fresh?
    ensures Filled(h0, Opened(s, p, fields), p,
                   Partial(b.kids + [Tree("functions", None, Leaves(fields))], Open(|b.kids|)))
  {
    var f := |s.heap|;
    var h1 := AddPlain(s.heap, Some(p), "functions");
    var h2 := AddFields(h1, Some(f), fields);
    ChildWithFields(s.heap, p, "functions", fields);
    ExtendsThen(h0, s.heap, h2, Some(p), Some(p));
  }

  lemma {:induction false} RunOpen(fields: seq<Field>, h0: Heap, s: State, p: nat, b: Partial)
    requires Filled(h0, s, p, b) && b.status.Open?
    ensures b.status.idx < |b.kids|
    ensures Filled(h0, Opened(s, p, fields), p,
                   b.(kids := b.kids[b.status.idx := Grow(b.kids[b.status.idx], Leaves(fields))]))
  {
    var f := s.cur.value;
    var h2 := AddFields(s.heap, Some(f), fields);
    FieldsAdded(s.heap, Some(f), fields);
    assert ExtendsAt(s.heap, h2, Some(f), f) && ExtendsAt(s.heap, h2, Some(f), p);
    ChildGrew(s.heap, h2, p, b.status.idx);
    ExtendsThen(h0, s.heap, h2, Some(p), Some(f));
  }

  // ----- parameters -----

  lemma {:induction false} RunParamCalls(params: seq<Element>, r: nat, s: State) returns (s': State)
    requires Ok(s) && r in s.regs
    ensures Exec(EmitParamCalls(params, r), s) == Some(s')
    ensures Ok(s') && s' == s.(heap := s'.heap) && Extends(s.heap, s'.heap, Some(s.regs[r]))
    ensures KidTrees(s'.heap, s.regs[r]) == KidTrees(s.heap, s.regs[r]) + BuiltParams(params)
  {
    var q := s.regs[r];
    if params == [] {
      s' := s;
      assert KidTrees(s.heap, q) + BuiltParams(params) == KidTrees(s.heap, q);
    } else {
      var init, e := params[..|params| - 1], params[|params| - 1];
      var m := RunParamCalls(init, r, s);
      var prog := EmitParamCalls(params, r);
      assert prog == EmitParamCalls(init, r) + [EmitParam(e, r)];
      s' := RunParam(e, r, m);
      ExecSnoc(EmitParamCalls(init, r), EmitParam(e, r), s);
      ExtendsThen(s.heap, m.heap, s'.heap, Some(q), Some(q));
      BuiltParamsSnoc(params);
    }
  }

  lemma {:induction false} BuiltParamsSnoc(params: seq<Element>)
    requires params != []
    ensures BuiltParams(params) == BuiltParams(params[..|params| - 1]) + [BuiltParam(params[|params| - 1])]
  {
    hide BuiltParam;
  }

  lemma {:induction false} RunParam(e: Element, r: nat, s: State) returns (s': State)
    requires Ok(s) && r in s.regs
    ensures Ready(EmitParam(e, r), s) && s' == Step(EmitParam(e, r), s)
    ensures Ok(s') && s' == s.(heap := s'.heap) && Extends(s.heap, s'.heap, Some(s.regs[r]))
    ensures KidTrees(s'.heap, s.regs[r]) == KidTrees(s.heap, s.regs[r]) + [BuiltParam(e)]
  {
    var q, c := s.regs[r], |s.heap|;
    var f := ReadFields(e.children);
    var fields := ParamFields(Shown(f.name), Wrapped(ChooseCall(f)));
    s' := Step(EmitParam(e, r), s);
    ChildWithFields(s.heap, q, "parameter", fields);
  }

  /** A plain child with fields of its own, as objects and parameters are made. */
  lemma {:induction false} ChildWithFields(h: Heap, p: nat, tag: string, fields: seq<Field>)
    requires Shape(h) && p < |h|
    ensures var h2 := AddFields(AddPlain(h, Some(p), tag), Some(|h|), fields);
            Shape(h2) && |h| < |h2| && Extends(h, h2, Some(p)) && h2[p].children == h[p].children + [|h|]
            && h2[|h|].parent == Some(p)
            && KidTrees(h2, |h|) == Leaves(fields)
            && TreeOf(h2, |h|) == Tree(tag, None, Leaves(fields))
            && KidTrees(h2, p) == KidTrees(h, p) + [TreeOf(h2, |h|)]
  {
    var c := |h|;
    var h1 := AddPlain(h, Some(p), tag);
    RecAdded(h, Some(p), tag, None, 0);
    FieldsAdded(h1, Some(c), fields);
    var h2 := AddFields(h1, Some(c), fields);
    ChildThenGrowth(h, h1, h2, p);
    assert KidTrees(h1, c) == [];
    assert KidTrees(h2, c) == Leaves(fields);
  }

  lemma {:induction false} RunParams(params: seq<Element>, d: nat, h0: Heap, s: State, p: nat, b: Partial)
    returns (s': State)
    requires d > 0 && d - 1 in s.regs && s.regs[d - 1] == p && Filled(h0, s, p, b)
    ensures Exec(EmitParams(params, d), s) == Some(s')
    ensures Filled(h0, s', p, b.(kids := b.kids + [Tree("parameters", None, BuiltParams(params))]))
    ensures KeepsRegs(s, s', d) && s'.last == s.last && s'.cur == s.cur
  {
    hide BuiltParam, EmitParam, EmitParamCalls, Exec, BuiltParams, KidTrees, Extends, StatusIs;
    var i := MakePNode(d, Some(d - 1), "parameters");
    ExecConcat([i], EmitParamCalls(params, d), s);
    ExecOne(i, s);
    var m := Step(i, s);
    RecAdded(s.heap, Some(p), "parameters", None, 0);
    s' := RunParamCalls(params, d, m);
    ParamsFinished(params, h0, s, m, s', p, b);
  }

  lemma {:induction false} ParamsFinished(params: seq<Element>, h0: Heap, s: State, m: State, s': State,
                                             p: nat, b: Partial)
    requires Filled(h0, s, p, b) && Ok(m) && Ok(s') && p < |s.heap| < |m.heap| && m.last == s.last && m.cur == s.cur
    requires s' == m.(heap := s'.heap) && Extends(m.heap, s'.heap, Some(|s.heap|))
    requires m.heap == AddPlain(s.heap, Some(p), "parameters")
    requires KidTrees(s'.heap, |s.heap|) == KidTrees(m.heap, |s.heap|) + BuiltParams(params)
    ensures Filled(h0, s', p, b.(kids := b.kids + [Tree("parameters", None, BuiltParams(params))]))
  {
    hide BuiltParams;
    var c := |s.heap|;
    RecAdded(s.heap, Some(p), "parameters", None, 0);
    assert KidTrees(m.heap, c) == [];
    assert KidTrees(s'.heap, c) == BuiltParams(params);
    ChildThenGrowth(s.heap, m.heap, s'.heap, p);
    ExtendsThen(h0, s.heap, s'.heap, Some(p), Some(p));
  }

  /** A new last child of `p` that then grows is, for `p`, one more child. */
  lemma {:induction false} ChildThenGrowth(h: Heap, m: Heap, h2: Heap, p: nat)
    requires Shape(h) && Shape(m) && Shape(h2) && p < |h| < |m|
    requires Extends(h, m, Some(p)) && m[p].children == h[p].children + [|h|]
    requires Extends(m, h2, Some(|h|))
    ensures Extends(h, h2, Some(p)) && h2[p].children == h[p].children + [|h|]
    ensures KidTrees(h2, p) == KidTrees(h, p) + [TreeOf(h2, |h|)]
    ensures h2[|h|].parent == m[|h|].parent
    ensures TreeOf(h2, |h|) == Tree(m[|h|].tag, m[|h|].text, KidTrees(h2, |h|))
  {
    var c := |h|;
    assert ExtendsAt(m, h2, Some(c), p) && ExtendsAt(m, h2, Some(c), c);
    ExtendsThen(h, m, h2, Some(p), Some(c));
    GainChild(h, h2, p, c);
  }

  // ----- elements and objects -----

  ghost function RegBelow(s: State, d: nat): Option<nat>
    requires d > 0 ==> d - 1 in s.regs
  {
    if d == 0 then None else Some(s.regs[d - 1])
  }

  /** The code of `t` has run from `s` to `s'`: its node is the first new one, hung under the node
      of the register below and carrying the tree `Built` says; old nodes and the registers below
      are as they were. */
  ghost predicate NodeRun(t: Element, d: nat, asObject: bool, s: State, s': State)
    requires Ok(s) && Compiles(t, asObject) && (d > 0 ==> d - 1 in s.regs)
  {
    var c, parent := |s.heap|, RegBelow(s, d);
    && Ok(s') && c < |s'.heap|
    && Extends(s.heap, s'.heap, parent)
    && s'.heap[c].parent == parent
    && (parent.Some? ==> s'.heap[parent.value].children == s.heap[parent.value].children + [c])
    && TreeOf(s'.heap, c) == Built(t, asObject)
    && KeepsRegs(s, s', d) && d in s'.regs && s'.regs[d] == c
    && Effects(s, s', c, MakesFunctions(t, asObject), MakesObjects(t, asObject))
  }

  /** The first statement of an element or object makes its node. */
  ghost predicate HeadRun(i: Instr, d: nat, s: State, s': State)
    requires Ok(s) && (d > 0 ==> d - 1 in s.regs)
  {
    var c, parent := |s.heap|, RegBelow(s, d);
    && Ready(i, s) && s' == Step(i, s)
    && Ok(s') && c < |s'.heap| && Extends(s.heap, s'.heap, parent) && s'.heap[c].parent == parent
    && (parent.Some? ==> s'.heap[parent.value].children == s.heap[parent.value].children + [c])
    && s'.regs == s.regs[d := c] && s'.last == s.last
  }

  lemma {:induction false} RunObjectHead(t: Element, d: nat, s: State) returns (s': State)
    requires Ok(s) && ReadsObjectTypes(t.children) && d > 0 && d - 1 in s.regs
    ensures HeadRun(HeadInstr(t, d, true), d, s, s')
    ensures TreeOf(s'.heap, |s.heap|) == BuiltHead(t, true) && s'.cur == None
  {
    var i := HeadInstr(t, d, true);
    s' := Step(i, s);
    HeadingsFound(t.children);
    ChildWithFields(s.heap, s.regs[d - 1], "object", ObjectFields(i.objType, i.name, i.maxInstance));
  }

  lemma {:induction false} RunElementHead(t: Element, d: nat, s: State) returns (s': State)
    requires Ok(s) && (d > 0 ==> d - 1 in s.regs)
    ensures HeadRun(HeadInstr(t, d, false), d, s, s')
    ensures TreeOf(s'.heap, |s.heap|) == BuiltHead(t, false) && s'.cur == s.cur
  {
    var i := HeadInstr(t, d, false);
    s' := Step(i, s);
    if i.MakeNode? {
      assert i.text[..i.size] == i.text;
      RecAdded(s.heap, RegBelow(s, d), t.tag, t.text, i.size);
    } else {
      RecAdded(s.heap, RegBelow(s, d), t.tag, None, 0);
    }
  }

  /** The main lemma: the code of any element or object the generator gets through. */
  lemma {:induction false} RunNode(t: Element, d: nat, asObject: bool, s: State) returns (s': State)
    requires Ok(s) && Compiles(t, asObject) && (asObject ==> d > 0) && (d > 0 ==> d - 1 in s.regs)
    ensures Exec(Emit(t, d, asObject), s) == Some(s')
    ensures NodeRun(t, d, asObject, s, s')
    decreases t, 1
  {
    var c, parent := |s.heap|, RegBelow(s, d);
    var i := HeadInstr(t, d, asObject);
    var m: State;
    if asObject { m := RunObjectHead(t, d, s); } else { m := RunElementHead(t, d, s); }
    ExecConcat([i], EmitKids(t.children, d + 1, asObject), s);
    ExecOne(i, s);
    var head := BuiltHead(t, asObject).children;
    s' := RunKids(t.children, d + 1, asObject, m, c, head);
    NodeFinished(t, d, asObject, s, m, s');
  }

  lemma {:induction false} NodeFinished(t: Element, d: nat, asObject: bool, s: State, m: State, s': State)
    requires Ok(s) && Compiles(t, asObject) && (asObject ==> d > 0) && (d > 0 ==> d - 1 in s.regs)
    requires HeadRun(HeadInstr(t, d, asObject), d, s, m) && m.cur == (if asObject then None else s.cur)
    requires TreeOf(m.heap, |s.heap|) == BuiltHead(t, asObject)
    requires Filled(m.heap, s', |s.heap|, BuildKids(BuiltHead(t, asObject).children, t.children, asObject))
    requires KeepsRegs(m, s', d + 1)
    requires Effects(m, s', |s.heap|, MakesFunctionsAny(t.children, asObject), MakesObjectsAny(t.children, asObject))
    ensures NodeRun(t, d, asObject, s, s')
  {
    var c := |s.heap|;
    assert ExtendsAt(m.heap, s'.heap, Some(c), c);
    if d > 0 {
      assert ExtendsAt(m.heap, s'.heap, Some(c), s.regs[d - 1]);
    }
    ExtendsThen(s.heap, m.heap, s'.heap, RegBelow(s, d), Some(c));
  }

  /** The code of the children of node `p`, made right before, when the globals do not name it. */
  lemma {:induction false} RunKids(kids: seq<Element>, d: nat, inObject: bool, s: State, p: nat, head: seq<Tree>)
    returns (s': State)
    requires d > 0 && CompilesAll(kids, inObject)
    requires d - 1 in s.regs && s.regs[d - 1] == p && Filled(s.heap, s, p, Partial(head, Fresh))
    ensures Exec(EmitKids(kids, d, inObject), s) == Some(s')
    ensures Filled(s.heap, s', p, BuildKids(head, kids, inObject))
    ensures KeepsRegs(s, s', d)
    ensures Effects(s, s', p, MakesFunctionsAny(kids, inObject), MakesObjectsAny(kids, inObject))
    decreases kids, 0
  {
    if kids == [] {
      s' := s;
    } else {
      var init, e := kids[..|kids| - 1], kids[|kids| - 1];
      var m := RunKids(init, d, inObject, s, p, head);
      ExecConcat(EmitKids(init, d, inObject), EmitKid(e, d, inObject), s);
      s' := RunKid(e, d, inObject, s.heap, m, p, BuildKids(head, init, inObject));
    }
  }

  lemma {:induction false} RunKid(e: Element, d: nat, inObject: bool, h0: Heap, s: State, p: nat, b: Partial)
    returns (s': State)
    requires d > 0 && CompilesKid(e, inObject)
    requires d - 1 in s.regs && s.regs[d - 1] == p && Filled(h0, s, p, b)
    ensures Exec(EmitKid(e, d, inObject), s) == Some(s')
    ensures Filled(h0, s', p, BuildKid(b, e, inObject))
    ensures KeepsRegs(s, s', d)
    ensures Effects(s, s', p, MakesFunctionsKid(e, inObject), MakesObjectsKid(e, inObject))
    decreases e, 2
  {
    match KindOf(e, inObject)
    case Heading => s' := s;
    case Parameters => s' := RunParams(e.children, d, h0, s, p, b);
    case Functions => s' := RunFunctions(ReadEntries(e.children).value, d, h0, s, p, b);
    case Sub(asObject) =>
      s' := RunNode(e, d, asObject, s);
      GainChild(s.heap, s'.heap, p, |s.heap|);
      ExtendsThen(h0, s.heap, s'.heap, Some(p), Some(p));
  }

  /** Running the emitted function on the empty runtime: P0 holds the first node, and the tree below
      it is the one `Built` describes, for every document the generator gets through. */
  lemma {:induction false} RunRoot(root: Element) returns (s: State)
    requires Compiles(root, false)
    ensures Exec(Emit(root, 0, false), INIT) == Some(s)
    ensures Ok(s) && 0 in s.regs && s.regs[0] == 0 && 0 < |s.heap| && s.heap[0].parent == None
    ensures TreeOf(s.heap, 0) == Built(root, false)
  {
    s := RunNode(root, 0, false, INIT);
  }
}
