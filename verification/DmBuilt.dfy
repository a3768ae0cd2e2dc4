/** What a run of the emitted code leaves behind, as a function of the source tree alone: every
    quirk of generator and runtime included. DmRun proves that runs leave exactly this. */
module DmBuilt {
  import opened Common
  import opened DmXml
  import opened DmEmit
  import opened DmMachine
  import opened DmDom

  // ----- functions -----

  /** The prefix entry `k` ends up under: its own or, when that is empty, the one of the next entry
      with a nonempty prefix, for an empty prefix in force never ends a batch. */
  function EffectivePrefix(entries: seq<Entry>, k: nat): string
    requires k < |entries|
    decreases |entries| - k
  {
    if entries[k].prefix != "" then entries[k].prefix
    else if k + 1 < |entries| then EffectivePrefix(entries, k + 1)
    else ""
  }

  function FunctionCalls(entries: seq<Entry>): (r: seq<Field>)
    ensures |r| == |entries|
    ensures forall k :: 0 <= k < |entries| ==> r[k] == FuncField(EffectivePrefix(entries, k), entries[k].id)
  {
    seq(|entries|, k requires 0 <= k < |entries| => FuncField(EffectivePrefix(entries, k), entries[k].id))
  }

  function BuiltFunctions(entries: seq<Entry>): seq<Tree>
  {
    Leaves(FunctionCalls(entries))
  }

  // ----- parameters -----

  function BuiltParam(e: Element): Tree {
    var f := ReadFields(e.children);
    Tree("parameter", None, Leaves(ParamFields(Shown(f.name), Wrapped(ChooseCall(f)))))
  }

  function BuiltParams(params: seq<Element>): (r: seq<Tree>)
    ensures |r| == |params|
    ensures forall k :: 0 <= k < |params| ==> r[k] == BuiltParam(params[k])
  {
    seq(|params|, k requires 0 <= k < |params| => BuiltParam(params[k]))
  }

  // ----- effects on the runtime's globals -----

  /** The code of `t` creates an object, which closes the current functions node. */
  predicate MakesObjects(t: Element, asObject: bool)
    decreases t, 1
  {
    asObject || MakesObjectsAny(t.children, asObject)
  }

  predicate MakesObjectsAny(kids: seq<Element>, inObject: bool)
    decreases kids, 0
  {
    kids != [] &&
    (MakesObjectsAny(kids[..|kids| - 1], inObject) || MakesObjectsKid(kids[|kids| - 1], inObject))
  }

  predicate MakesObjectsKid(e: Element, inObject: bool)
    decreases e, 2
  {
    var kind := KindOf(e, inObject);
    kind.Sub? && MakesObjects(e, kind.asObject)
  }

  /** The code of `t` adds functions to some object inside `t`. */
  predicate MakesFunctions(t: Element, asObject: bool)
    decreases t, 1
  {
    MakesFunctionsAny(t.children, asObject)
  }

  predicate MakesFunctionsAny(kids: seq<Element>, inObject: bool)
    decreases kids, 0
  {
    kids != [] &&
    (MakesFunctionsAny(kids[..|kids| - 1], inObject) || MakesFunctionsKid(kids[|kids| - 1], inObject))
  }

  predicate MakesFunctionsKid(e: Element, inObject: bool)
    decreases e, 2
  {
    match KindOf(e, inObject)
    case Heading => false
    case Parameters => false
    case Functions => true
    case Sub(asObject) => MakesFunctions(e, asObject)
  }

  // ----- elements and objects -----

  /** How the runtime's globals stand to the node being filled. Fresh: the next functions call on
      it makes a functions node. Open: that call goes to its child `idx`. Lost: the globals name the
      node but the functions node is forgotten, so handlers are made without a parent. */
  datatype Status = Fresh | Open(idx: nat) | Lost

  datatype Partial = Partial(kids: seq<Tree>, status: Status)

  function HeadingTrees(kids: seq<Element>): seq<Tree>
    requires ReadsObjectTypes(kids)
  {
    HeadingsFound(kids);
    var h := ReadHeadings(kids);
    Leaves(ObjectFields(h.objType.value, Shown(h.name), if Truthy(h.maxInstance) then h.maxInstance else None))
  }

  function BuiltHead(t: Element, asObject: bool): (r: Tree)
    requires asObject ==> ReadsObjectTypes(t.children)
  {
    if asObject then Tree("object", None, HeadingTrees(t.children))
    else Tree(t.tag, if t.children == [] && Truthy(t.text) then t.text else None, [])
  }

  function Built(t: Element, asObject: bool): Tree
    requires Compiles(t, asObject)
    decreases t, 1
  {
    var head := BuiltHead(t, asObject);
    head.(children := BuildKids(head.children, t.children, asObject).kids)
  }

  function BuildKids(head: seq<Tree>, kids: seq<Element>, inObject: bool): Partial
    requires CompilesAll(kids, inObject)
    decreases kids, 0
  {
    if kids == [] then Partial(head, Fresh)
    else BuildKid(BuildKids(head, kids[..|kids| - 1], inObject), kids[|kids| - 1], inObject)
  }

  function BuildKid(b: Partial, e: Element, inObject: bool): Partial
    requires CompilesKid(e, inObject)
    decreases e, 2
  {
    match KindOf(e, inObject)
    case Heading => b
    case Parameters => b.(kids := b.kids + [Tree("parameters", None, BuiltParams(e.children))])
    case Functions => BuildFunctions(b, ReadEntries(e.children).value)
    case Sub(asObject) =>
      Partial(b.kids + [Built(e, asObject)],
              if MakesFunctions(e, asObject) then Fresh
              else if MakesObjects(e, asObject) && b.status.Open? then Lost
              else b.status)
  }

  function BuildFunctions(b: Partial, entries: seq<Entry>): Partial
  {
    var handlers := BuiltFunctions(entries);
    match b.status
    case Fresh => Partial(b.kids + [Tree("functions", None, handlers)], Open(|b.kids|))
    case Open(idx) =>
      if idx < |b.kids| then b.(kids := b.kids[idx := Grow(b.kids[idx], handlers)]) else b
    case Lost => b
  }
}
