/** The registers the emitted function declares against those its statements name. */
module DmRegisters {
  import opened Common
  import opened DmXml
  import opened DmEmit

  /** The depth count: an element counts with everything below it, except that nothing below, and
      no depth, is counted for a parameter or a function. */
  function MaxDepth(e: Element, depth: nat): nat
    decreases e, 1
  {
    if e.tag == "parameter" || e.tag == "function" then 0 else MaxDepthKids(e.children, depth)
  }

  function MaxDepthKids(kids: seq<Element>, depth: nat): (m: nat)
    ensures m >= depth
    decreases kids, 0
  {
    if kids == [] then depth
    else Max(MaxDepthKids(kids[..|kids| - 1], depth), MaxDepth(kids[|kids| - 1], depth + 1))
  }

  method CalcMaxDepth(elem: Element, depth: nat) returns (maxDepth: nat)
    ensures maxDepth == MaxDepth(elem, depth)
    decreases elem
  {
    if elem.tag == "parameter" {
      return 0;
    }
    if elem.tag == "function" {
      return 0;
    }
    maxDepth := depth;
    var i := 0;
    while i < |elem.children|
      invariant 0 <= i <= |elem.children|
      invariant maxDepth == MaxDepthKids(elem.children[..i], depth)
    {
      var childDepth := CalcMaxDepth(elem.children[i], depth + 1);
      assert elem.children[..i + 1][..i] == elem.children[..i];
      if childDepth > maxDepth {
        maxDepth := childDepth;
      }
      i := i + 1;
    }
    assert elem.children[..i] == elem.children;
  }

  predicate Counted(e: Element) {
    e.tag != "parameter" && e.tag != "function"
  }

  /** A way down from `e`, by the numbers of the children taken, that meets no parameter or function. */
  predicate Path(e: Element, path: seq<nat>)
    decreases |path|
  {
    path == [] ||
    (path[0] < |e.children| && Counted(e.children[path[0]]) && Path(e.children[path[0]], path[1..]))
  }

  /** The depth count is the depth at which the longest of these ways ends. */
  lemma {:induction false} MaxDepthIsLongest(e: Element, depth: nat)
    ensures !Counted(e) ==> MaxDepth(e, depth) == 0
    ensures Counted(e) ==> exists path :: Path(e, path) && MaxDepth(e, depth) == depth + |path|
    ensures Counted(e) ==> forall path :: Path(e, path) ==> depth + |path| <= MaxDepth(e, depth)
  {
    if Counted(e) {
      var path := LongestPath(e, depth);
      forall p | Path(e, p)
        ensures depth + |p| <= MaxDepth(e, depth)
      {
        NoLongerPath(e, depth, p);
      }
    }
  }

  lemma {:induction false} LongestPath(e: Element, depth: nat) returns (path: seq<nat>)
    requires Counted(e)
    ensures Path(e, path) && MaxDepth(e, depth) == depth + |path|
  {
    path := [];
    if MaxDepth(e, depth) > depth {
      var k := DeepestKid(e.children, depth);
      var rest := LongestPath(e.children[k], depth + 1);
      path := [k] + rest;
      assert path[1..] == rest;
    }
  }

  lemma {:induction false} DeepestKid(kids: seq<Element>, depth: nat) returns (k: nat)
    requires MaxDepthKids(kids, depth) > depth
    ensures k < |kids| && Counted(kids[k]) && MaxDepthKids(kids, depth) == MaxDepth(kids[k], depth + 1)
  {
    k := |kids| - 1;
    if MaxDepth(kids[k], depth + 1) < MaxDepthKids(kids, depth) {
      k := DeepestKid(kids[..k], depth);
    }
  }

  lemma {:induction false} NoLongerPath(e: Element, depth: nat, path: seq<nat>)
    requires Counted(e) && Path(e, path)
    ensures depth + |path| <= MaxDepth(e, depth)
    decreases |path|
  {
    if path != [] {
      NoLongerPath(e.children[path[0]], depth + 1, path[1..]);
      NoDeeperKid(e.children, depth, path[0]);
    }
  }

  lemma {:induction false} NoDeeperKid(kids: seq<Element>, depth: nat, k: nat)
    requires k < |kids|
    ensures MaxDepth(kids[k], depth + 1) <= MaxDepthKids(kids, depth)
  {
    if k < |kids| - 1 {
      NoDeeperKid(kids[..|kids| - 1], depth, k);
    }
  }

  /** The emitted function declares P0 and then P1 up to, and without, the depth count. */
  predicate Declared(root: Element, r: nat) {
    r == 0 || r < MaxDepth(root, 0)
  }

  // ----- registers of statements -----

  function RegsOf(i: Instr): set<nat> {
    match i
    case MakeNode(dst, src, _, _, _) => {dst} + if src.Some? then {src.value} else {}
    case MakePNode(dst, src, _) => {dst} + if src.Some? then {src.value} else {}
    case MakeObject(dst, src, _, _, _) => {dst, src}
    case MakeFunctions(src, _, _) => {src}
    case MakeParam(src, _, _) => {src}
  }

  function Regs(prog: seq<Instr>): set<nat> {
    if prog == [] then {} else Regs(prog[..|prog| - 1]) + RegsOf(prog[|prog| - 1])
  }

  lemma {:induction false} RegsConcat(a: seq<Instr>, b: seq<Instr>)
    ensures Regs(a + b) == Regs(a) + Regs(b)
  {
    if b == [] {
      assert a + b == a;
    } else {
      assert (a + b)[..|a + b| - 1] == a + b[..|b| - 1];
      RegsConcat(a, b[..|b| - 1]);
    }
  }

  lemma {:induction false} RegsOne(i: Instr)
    ensures Regs([i]) == RegsOf(i)
  {
    assert [i][..0] == [];
  }

  // ----- elements that are given a register -----

  /** In `t`, met at depth `d`, some element at depth `m` is given a register of its own. */
  predicate Bears(t: Element, d: nat, asObject: bool, m: nat)
    decreases t, 1
  {
    m == d || BearsAny(t.children, d + 1, asObject, m)
  }

  predicate BearsAny(kids: seq<Element>, d: nat, inObject: bool, m: nat)
    decreases kids, 0
  {
    kids != [] &&
    (BearsAny(kids[..|kids| - 1], d, inObject, m) || BearsKid(kids[|kids| - 1], d, inObject, m))
  }

  predicate BearsKid(e: Element, d: nat, inObject: bool, m: nat)
    decreases e, 2
  {
    match KindOf(e, inObject)
    case Heading => false
    case Parameters => m == d
    case Functions => false
    case Sub(asObject) => Bears(e, d, asObject, m)
  }

  lemma {:induction false} BatchRegs(entries: seq<Entry>, src: nat)
    ensures Regs(BatchAll(entries, src).written) <= {src}
  {
    if entries != [] {
      var b := BatchAll(entries[..|entries| - 1], src);
      BatchRegs(entries[..|entries| - 1], src);
      RegsConcat(b.written, [MakeFunctions(src, b.prefix, b.pending)]);
      RegsOne(MakeFunctions(src, b.prefix, b.pending));
    }
  }

  lemma {:induction false} ParamRegs(params: seq<Element>, src: nat)
    ensures Regs(EmitParamCalls(params, src)) <= {src}
  {
    if params != [] {
      ParamRegs(params[..|params| - 1], src);
      RegsConcat(EmitParamCalls(params[..|params| - 1], src), [EmitParam(params[|params| - 1], src)]);
      RegsOne(EmitParam(params[|params| - 1], src));
    }
  }

  /** The code of an element names exactly the registers given inside it and the one below it. */
  lemma {:induction false} RegsOfNode(t: Element, d: nat, asObject: bool, r: nat)
    requires Compiles(t, asObject) && (asObject ==> d > 0)
    ensures r in Regs(Emit(t, d, asObject)) <==> Bears(t, d, asObject, r) || r + 1 == d
    decreases t, 1
  {
    var i := HeadInstr(t, d, asObject);
    RegsConcat([i], EmitKids(t.children, d + 1, asObject));
    RegsOne(i);
    RegsOfKids(t.children, d + 1, asObject, r);
  }

  lemma {:induction false} RegsOfKids(kids: seq<Element>, d: nat, inObject: bool, r: nat)
    requires d > 0 && CompilesAll(kids, inObject)
    ensures r in Regs(EmitKids(kids, d, inObject)) ==> BearsAny(kids, d, inObject, r) || r + 1 == d
    ensures BearsAny(kids, d, inObject, r) ==> r in Regs(EmitKids(kids, d, inObject))
    decreases kids, 0
  {
    if kids != [] {
      var init, e := kids[..|kids| - 1], kids[|kids| - 1];
      RegsOfKids(init, d, inObject, r);
      RegsOfKid(e, d, inObject, r);
      RegsConcat(EmitKids(init, d, inObject), EmitKid(e, d, inObject));
    }
  }

  lemma {:induction false} RegsOfKid(e: Element, d: nat, inObject: bool, r: nat)
    requires d > 0 && CompilesKid(e, inObject)
    ensures r in Regs(EmitKid(e, d, inObject)) ==> BearsKid(e, d, inObject, r) || r + 1 == d
    ensures BearsKid(e, d, inObject, r) ==> r in Regs(EmitKid(e, d, inObject))
    decreases e, 2
  {
    hide EmitParams, EmitFuncs, Emit, Bears;
    match KindOf(e, inObject)
    case Heading =>
    case Parameters => ParamsRegs(e.children, d, r);
    case Functions => FuncsRegs(ReadEntries(e.children).value, d, r);
    case Sub(asObject) => RegsOfNode(e, d, asObject, r);
  }

  lemma {:induction false} ParamsRegs(params: seq<Element>, d: nat, r: nat)
    requires d > 0
    ensures r in Regs(EmitParams(params, d)) ==> r == d || r + 1 == d
    ensures d in Regs(EmitParams(params, d))
  {
    var i := MakePNode(d, Some(d - 1), "parameters");
    RegsConcat([i], EmitParamCalls(params, d));
    RegsOne(i);
    ParamRegs(params, d);
  }

  lemma {:induction false} FuncsRegs(entries: seq<Entry>, d: nat, r: nat)
    requires d > 0
    ensures r in Regs(EmitFuncs(entries, d)) ==> r + 1 == d
  {
    var b := BatchAll(entries, d - 1);
    BatchRegs(entries, d - 1);
    RegsConcat(b.written, [MakeFunctions(d - 1, b.prefix, b.pending)]);
    RegsOne(MakeFunctions(d - 1, b.prefix, b.pending));
  }

  // ----- the bound -----

  /** No parameter or function tag stands where the generator makes a node of the element. */
  predicate Regular(t: Element, asObject: bool)
    decreases t, 1
  {
    t.tag != "parameter" && t.tag != "function" && RegularAll(t.children, asObject)
  }

  predicate RegularAll(kids: seq<Element>, inObject: bool)
    decreases kids, 0
  {
    kids == [] || (RegularAll(kids[..|kids| - 1], inObject) && RegularKid(kids[|kids| - 1], inObject))
  }

  predicate RegularKid(e: Element, inObject: bool)
    decreases e, 2
  {
    var kind := KindOf(e, inObject);
    kind.Sub? ==> Regular(e, kind.asObject)
  }

  /** Registers given in a regular tree do not pass its depth count. */
  lemma {:induction false} BearsWithin(t: Element, d: nat, asObject: bool, m: nat)
    requires Regular(t, asObject) && Bears(t, d, asObject, m)
    ensures m <= MaxDepth(t, d)
    decreases t, 1
  {
    if m != d {
      BearsWithinAny(t.children, d, asObject, m);
    }
  }

  lemma {:induction false} BearsWithinAny(kids: seq<Element>, d: nat, inObject: bool, m: nat)
    requires RegularAll(kids, inObject) && BearsAny(kids, d + 1, inObject, m)
    ensures m <= MaxDepthKids(kids, d)
    decreases kids, 0
  {
    var init, e := kids[..|kids| - 1], kids[|kids| - 1];
    if BearsAny(init, d + 1, inObject, m) {
      BearsWithinAny(init, d, inObject, m);
    } else {
      BearsWithinKid(e, d, inObject, m);
    }
  }

  lemma {:induction false} BearsWithinKid(e: Element, d: nat, inObject: bool, m: nat)
    requires RegularKid(e, inObject) && BearsKid(e, d + 1, inObject, m)
    ensures m <= MaxDepth(e, d + 1)
    decreases e, 2
  {
    var kind := KindOf(e, inObject);
    if kind.Sub? {
      BearsWithin(e, d + 1, kind.asObject, m);
    }
  }

  /** Registers are given without gaps: on the way down to depth `m` every depth gets one. */
  lemma {:induction false} BearsBetween(t: Element, d: nat, asObject: bool, m: nat, k: nat)
    requires Bears(t, d, asObject, m) && d <= k <= m
    ensures Bears(t, d, asObject, k)
    decreases t, 1
  {
    if d < k {
      BearsBetweenAny(t.children, d + 1, asObject, m, k);
    }
  }

  lemma {:induction false} BearsBetweenAny(kids: seq<Element>, d: nat, inObject: bool, m: nat, k: nat)
    requires BearsAny(kids, d, inObject, m) && d <= k <= m
    ensures BearsAny(kids, d, inObject, k)
    decreases kids, 0
  {
    var init, e := kids[..|kids| - 1], kids[|kids| - 1];
    if BearsAny(init, d, inObject, m) {
      BearsBetweenAny(init, d, inObject, m, k);
    } else {
      BearsBetweenKid(e, d, inObject, m, k);
    }
  }

  lemma {:induction false} BearsBetweenKid(e: Element, d: nat, inObject: bool, m: nat, k: nat)
    requires BearsKid(e, d, inObject, m) && d <= k <= m
    ensures BearsKid(e, d, inObject, k)
    decreases e, 2
  {
    var kind := KindOf(e, inObject);
    if kind.Sub? {
      BearsBetween(e, d, kind.asObject, m, k);
    }
  }

  /** For every document the generator gets through: no statement names a register from depth `m`
      on exactly when no element is given one at `m`. */
  lemma {:induction false} RegsBelow(root: Element, m: nat)
    requires Compiles(root, false)
    ensures (forall r :: r in Regs(Emit(root, 0, false)) ==> r < m) <==> !Bears(root, 0, false, m)
  {
    RegsOfNode(root, 0, false, m);
    forall r | r in Regs(Emit(root, 0, false)) && !Bears(root, 0, false, m)
      ensures r < m
    {
      RegsOfNode(root, 0, false, r);
      if r >= m {
        BearsBetween(root, 0, false, r, m);
      }
    }
  }

  /** For every document the generator gets through: all registers named are declared exactly when
      no element is given one at the depth count, or at 1 should that be the greater; none is above
      the depth count exactly when no element is given one right above it, as in every regular
      document. */
  lemma {:induction false} DeclarationsCover(root: Element)
    requires Compiles(root, false)
    ensures (forall r :: r in Regs(Emit(root, 0, false)) ==> Declared(root, r)) <==>
            !Bears(root, 0, false, Max(1, MaxDepth(root, 0)))
    ensures (forall r :: r in Regs(Emit(root, 0, false)) ==> r <= MaxDepth(root, 0)) <==>
            !Bears(root, 0, false, MaxDepth(root, 0) + 1)
    ensures Regular(root, false) ==> forall r :: r in Regs(Emit(root, 0, false)) ==> r <= MaxDepth(root, 0)
  {
    var m := MaxDepth(root, 0);
    RegsBelow(root, Max(1, m));
    RegsBelow(root, m + 1);
    assert forall r: nat :: Declared(root, r) <==> r < Max(1, m);
    if Regular(root, false) && Bears(root, 0, false, m + 1) {
      BearsWithin(root, 0, false, m + 1);
    }
  }

  /** Without regularity the count can fall short of the registers: a parameter element outside
      of any parameters list is given P1, and only P0 is declared. */
  const STRAY := Element("a", None, [Element("parameter", None, [])])

  lemma {:induction false} StrayParameterUndeclared()
    ensures Compiles(STRAY, false) && 1 in Regs(Emit(STRAY, 0, false)) && !Declared(STRAY, 1)
  {
    var kids := STRAY.children;
    assert kids[..0] == [];
    assert kids[0].tag[0] == 'p';
    assert BearsAny(kids, 1, false, 1) by { assert BearsKid(kids[0], 1, false, 1); }
    assert CompilesAll([], false);
    assert Compiles(kids[0], false);
    RegsOfNode(STRAY, 0, false, 1);
  }

  /** A regular document whose declarations fall short: one element below the root is enough. */
  const NESTED := Element("a", None, [Element("b", None, [])])

  lemma {:induction false} DeepestElementUndeclared()
    ensures Compiles(NESTED, false) && Regular(NESTED, false)
    ensures 1 in Regs(Emit(NESTED, 0, false)) && !Declared(NESTED, 1)
  {
    var kids := NESTED.children;
    assert kids[..0] == [];
    assert kids[0].tag[0] == 'b' && |kids[0].tag| == 1;
    assert BearsAny(kids, 1, false, 1) by { assert BearsKid(kids[0], 1, false, 1); }
    assert CompilesAll([], false) && Compiles(kids[0], false);
    assert Regular(kids[0], false);
    RegsOfNode(NESTED, 0, false, 1);
  }
}
