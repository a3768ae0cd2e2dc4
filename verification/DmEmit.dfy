/** The statements the generator writes, and what it writes for every source element.

    `Emit(t, d, asObject)` is the text written for element `t` at depth `d`: by codeGenObject when
    `asObject`, by codeGenElement otherwise. Lists are taken apart from their right end, the way
    the generator's loops build them up. */
module DmEmit {
  import opened Common
  import opened DmXml
  import opened DmTables

  // ----- statements -----

  /** The calls a parameter entry is turned into: W and N are the writable and notify numbers,
      T and S a type and a syntax given as text, `t` a type given by number. */
  datatype ParamCall =
    | CallTSWN(T: string, S: string, W: int, N: int)
    | CallTSW(T: string, S: string, W: int)
    | CallTSN(T: string, S: string, N: int)
    | CallTS(T: string, S: string)
    | CallTWN(T: string, W: int, N: int)
    | CallTW(T: string, W: int)
    | CallTN(T: string, N: int)
    | CallT(T: string)
    | CallSWN(t: ParamNum, S: string, W: int, N: int)
    | CallSW(t: ParamNum, S: string, W: int)
    | CallSN(t: ParamNum, S: string, N: int)
    | CallS(t: ParamNum, S: string)
    | CallWN(t: ParamNum, W: int, N: int)
    | CallW(t: ParamNum, W: int)
    | CallN(t: ParamNum, N: int)
    | CallPlain(t: ParamNum)

  /** One emitted statement. `dst` is the register assigned, `src` the register the new node is
      hung under (none only for the root). */
  datatype Instr =
    | MakeNode(dst: nat, src: Option<nat>, tag: string, text: string, size: nat)
    | MakePNode(dst: nat, src: Option<nat>, tag: string)
    | MakeObject(dst: nat, objSrc: nat, objType: ObjectNum, name: string, maxInstance: Option<string>)
    | MakeFunctions(fnSrc: nat, prefix: string, ids: seq<FuncNum>)
    | MakeParam(paramSrc: nat, name: string, call: ParamCall)

  // ----- what a child of an element is to the generator -----

  datatype Kind = Heading | Parameters | Functions | Sub(asObject: bool)

  function KindOf(e: Element, inObject: bool): Kind {
    if !inObject then Sub(e.tag == "object")
    else if e.tag == "parameters" then Parameters
    else if e.tag == "functions" then Functions
    else if e.tag == "name" || e.tag == "objectType" || e.tag == "maxInstance" then Heading
    else Sub(false)
  }

  // ----- headings of objects -----

  datatype Headings = Headings(name: Option<string>, objType: Option<ObjectNum>, maxInstance: Option<string>)

  /** What codeGenObject has read off the children of an object: of several children with one
      tag the last counts. `objType` is None after a text the dictionary does not hold. */
  function ReadHeadings(kids: seq<Element>): Headings {
    if kids == [] then Headings(Some(""), Some(0), None)
    else
      var (h, e) := (ReadHeadings(kids[..|kids| - 1]), kids[|kids| - 1]);
      if e.tag == "name" then h.(name := e.text)
      else if e.tag == "objectType" then
        h.(objType := if e.text.Some? then ObjectTypeId(e.text.value) else None)
      else if e.tag == "maxInstance" then h.(maxInstance := e.text)
      else h
  }

  // ----- parameters -----

  datatype Fields = Fields(name: Option<string>, typeId: int, typeText: Option<string>,
                           defaultSyntax: string, syntax: Option<string>, writable: int, notify: int)

  const NO_FIELDS := Fields(Some(""), -1, Some(""), "", Some(""), -1, -1)

  /** One round of the loop over the children of a parameter. */
  function ReadField(f: Fields, e: Element): Fields {
    if e.tag == "name" then f.(name := e.text)
    else if e.tag == "type" then
      var g := f.(typeText := e.text);
      if e.text == Some("boolean") then g.(typeId := 0, defaultSyntax := "bool")
      else if e.text == Some("int") then g.(typeId := 1, defaultSyntax := "int")
      else if e.text == Some("unsignedInt") then g.(typeId := 2, defaultSyntax := "uint32")
      else if e.text == Some("string") then g.(typeId := 3, defaultSyntax := "string")
      else g
    else if e.tag == "syntax" then f.(syntax := e.text)
    else if e.tag == "writable" then
      if e.text == Some("false") then f.(writable := 0)
      else if e.text == Some("true") then f.(writable := 1)
      else f
    else if e.tag == "notify" then
      if e.text == Some("off") then f.(notify := 0)
      else if e.text == Some("on") then f.(notify := 1)
      else f
    else f
  }

  function ReadFields(kids: seq<Element>): (f: Fields)
    ensures -1 <= f.typeId < PARAM_TYPE_COUNT
    ensures f.writable in {-1, 0, 1} && f.notify in {-1, 0, 1}
  {
    if kids == [] then NO_FIELDS else ReadField(ReadFields(kids[..|kids| - 1]), kids[|kids| - 1])
  }

  /** The choice among the call shapes. The numbers writable and notify are -1 when absent; the
      one test that takes notify as a truth value is kept as it stands. */
  function ChooseCall(f: Fields): ParamCall
    requires -1 <= f.typeId < PARAM_TYPE_COUNT
  {
    if f.typeId == -1 then
      if f.syntax != Some(f.defaultSyntax) then
        if f.writable != -1 then
          if f.notify != -1 then CallTSWN(Shown(f.typeText), Shown(f.syntax), f.writable, f.notify)
          else CallTSW(Shown(f.typeText), Shown(f.syntax), f.writable)
        else if f.notify != -1 then CallTSN(Shown(f.typeText), Shown(f.syntax), f.notify)
        else CallTS(Shown(f.typeText), Shown(f.syntax))
      else if f.writable != -1 then
        if f.notify != -1 then CallTWN(Shown(f.typeText), f.writable, f.notify)
        else CallTW(Shown(f.typeText), f.writable)
      else if f.notify != -1 then CallTN(Shown(f.typeText), f.notify)
      else CallT(Shown(f.typeText))
    else if f.syntax != Some(f.defaultSyntax) then
      if f.writable != -1 then
        if f.notify != 0 then CallSWN(f.typeId, Shown(f.syntax), f.writable, f.notify)
        else CallSW(f.typeId, Shown(f.syntax), f.writable)
      else if f.notify != -1 then CallSN(f.typeId, Shown(f.syntax), f.notify)
      else CallS(f.typeId, Shown(f.syntax))
    else if f.writable != -1 then
      if f.notify != -1 then CallWN(f.typeId, f.writable, f.notify)
      else CallW(f.typeId, f.writable)
    else if f.notify != -1 then CallN(f.typeId, f.notify)
    else CallPlain(f.typeId)
  }

  function EmitParam(e: Element, src: nat): Instr {
    var f := ReadFields(e.children);
    MakeParam(src, Shown(f.name), ChooseCall(f))
  }

  function EmitParamCalls(params: seq<Element>, src: nat): seq<Instr> {
    if params == [] then []
    else EmitParamCalls(params[..|params| - 1], src) + [EmitParam(params[|params| - 1], src)]
  }

  function EmitParams(params: seq<Element>, d: nat): seq<Instr>
    requires d > 0
  {
    [MakePNode(d, Some(d - 1), "parameters")] + EmitParamCalls(params, d)
  }

  // ----- functions -----

  /** Python's `s.split(sep)[0]`: what stands before the first `sep`, or all of `s`. */
  function Before(s: string, sep: string): string {
    if |s| < |sep| || s == "" then s
    else if s[..|sep|] == sep then ""
    else [s[0]] + Before(s[1..], sep)
  }

  lemma {:induction false} StandsLater(s: string, sep: string)
    requires |s| >= |sep| && s != "" && s[..|sep|] != sep
    ensures forall i :: 1 <= i <= |s| ==> StandsAt(s, sep, i) == StandsAt(s[1..], sep, i - 1)
    ensures !StandsAt(s, sep, 0)
  {
    forall i | 1 <= i <= |s|
      ensures StandsAt(s, sep, i) == StandsAt(s[1..], sep, i - 1)
    {
      if i + |sep| <= |s| {
        assert s[1..][i - 1..i - 1 + |sep|] == s[i..i + |sep|];
      }
    }
  }

  /** The part found is the first: `sep` stands right after it and nowhere earlier; when it stands
      nowhere, all of `s` is taken. */
  lemma {:induction false} BeforeIsFirst(s: string, sep: string)
    requires sep != ""
    ensures |Before(s, sep)| <= |s| && Before(s, sep) == s[..|Before(s, sep)|]
    ensures Before(s, sep) != s ==> StandsAt(s, sep, |Before(s, sep)|)
    ensures forall i :: 0 <= i < |Before(s, sep)| ==> !StandsAt(s, sep, i)
  {
    if |s| >= |sep| && s[..|sep|] != sep {
      BeforeIsFirst(s[1..], sep);
      StandsLater(s, sep);
      hide StandsAt;
      assert Before(s, sep) == [s[0]] + Before(s[1..], sep) && s == [s[0]] + s[1..];
    } else if |s| >= |sep| {
      assert StandsAt(s, sep, 0);
    }
  }

  /** `tag.split("func")[1]`: no tag in the dictionary holds "func" anywhere but at its start. */
  function SuffixOf(tag: string): string {
    if |tag| < 4 then "" else tag[4..]
  }

  /** What the generator keeps of a functions entry: the number of its tag, and its handler name up
      to the function name. */
  datatype Entry = Entry(id: FuncNum, prefix: string)

  function ReadEntry(e: Element): Option<Entry> {
    var id := FuncId(e.tag);
    if id.None? || e.text.None? then None
    else Some(Entry(id.value, Before(e.text.value, SuffixOf(e.tag))))
  }

  /** None when one of the entries stops the generator. */
  function ReadEntries(kids: seq<Element>): (r: Option<seq<Entry>>)
    ensures r.Some? ==> |r.value| == |kids|
    ensures r.Some? ==> forall k :: 0 <= k < |kids| ==> ReadEntry(kids[k]) == Some(r.value[k])
  {
    if kids == [] then Some([])
    else
      var (init, last) := (ReadEntries(kids[..|kids| - 1]), ReadEntry(kids[|kids| - 1]));
      if init.None? || last.None? then None else Some(init.value + [last.value])
  }

  /** The variables of the batching loop: statements written, prefix in force, numbers pending. */
  datatype Batch = Batch(written: seq<Instr>, prefix: string, pending: seq<FuncNum>)

  function BatchStep(b: Batch, e: Entry, src: nat): Batch {
    var b1 := if e.prefix == b.prefix then b
              else if b.prefix != "" then Batch(b.written + [MakeFunctions(src, b.prefix, b.pending)], e.prefix, [])
              else b.(prefix := e.prefix);
    b1.(pending := b1.pending + [e.id])
  }

  function BatchAll(entries: seq<Entry>, src: nat): Batch {
    if entries == [] then Batch([], "", [])
    else BatchStep(BatchAll(entries[..|entries| - 1], src), entries[|entries| - 1], src)
  }

  function EmitFuncs(entries: seq<Entry>, d: nat): seq<Instr>
    requires d > 0
  {
    var b := BatchAll(entries, d - 1);
    b.written + [MakeFunctions(d - 1, b.prefix, b.pending)]
  }

  // ----- elements and objects -----

  /** The generator gets through: every dictionary lookup and every text it takes apart is there. */
  predicate Compiles(t: Element, asObject: bool)
    decreases t, 1
  {
    (asObject ==> ReadsObjectTypes(t.children)) && CompilesAll(t.children, asObject)
  }

  /** Every object type is looked up, also one a later child overrides. */
  predicate ReadsObjectTypes(kids: seq<Element>) {
    forall e :: e in kids && e.tag == "objectType" ==> e.text.Some? && ObjectTypeId(e.text.value).Some?
  }

  predicate CompilesAll(kids: seq<Element>, inObject: bool)
    decreases kids, 0
  {
    kids == [] ||
    (CompilesAll(kids[..|kids| - 1], inObject) && CompilesKid(kids[|kids| - 1], inObject))
  }

  predicate CompilesKid(e: Element, inObject: bool)
    decreases e, 2
  {
    match KindOf(e, inObject)
    case Heading => true
    case Parameters => true
    case Functions => ReadEntries(e.children).Some?
    case Sub(asObject) => Compiles(e, asObject)
  }

  lemma {:induction false} HeadingsFound(kids: seq<Element>)
    requires ReadsObjectTypes(kids)
    ensures ReadHeadings(kids).objType.Some?
  {
    if kids != [] {
      var e := kids[|kids| - 1];
      assert forall x :: x in kids[..|kids| - 1] ==> x in kids;
      HeadingsFound(kids[..|kids| - 1]);
    }
  }

  function HeadInstr(t: Element, d: nat, asObject: bool): Instr
    requires asObject ==> d > 0 && ReadsObjectTypes(t.children)
  {
    if asObject then
      HeadingsFound(t.children);
      var h := ReadHeadings(t.children);
      MakeObject(d, d - 1, h.objType.value, Shown(h.name), if Truthy(h.maxInstance) then h.maxInstance else None)
    else
      var src := if d == 0 then None else Some(d - 1);
      if t.children == [] && Truthy(t.text) then MakeNode(d, src, t.tag, t.text.value, |t.text.value|)
      else MakePNode(d, src, t.tag)
  }

  function Emit(t: Element, d: nat, asObject: bool): seq<Instr>
    requires Compiles(t, asObject) && (asObject ==> d > 0)
    decreases t, 1
  {
    [HeadInstr(t, d, asObject)] + EmitKids(t.children, d + 1, asObject)
  }

  function EmitKids(kids: seq<Element>, d: nat, inObject: bool): seq<Instr>
    requires d > 0 && CompilesAll(kids, inObject)
    decreases kids, 0
  {
    if kids == [] then []
    else EmitKids(kids[..|kids| - 1], d, inObject) + EmitKid(kids[|kids| - 1], d, inObject)
  }

  function EmitKid(e: Element, d: nat, inObject: bool): seq<Instr>
    requires d > 0 && CompilesKid(e, inObject)
    decreases e, 2
  {
    match KindOf(e, inObject)
    case Heading => []
    case Parameters => EmitParams(e.children, d)
    case Functions => EmitFuncs(ReadEntries(e.children).value, d)
    case Sub(asObject) => Emit(e, d, asObject)
  }
}
