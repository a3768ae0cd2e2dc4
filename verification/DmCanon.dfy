/** The tree a data-model document means, the documents that are well-formed, and those of them the
    generated code is faithful to: all by tags, texts and positions alone, with nothing taken from
    the generator or the runtime but their tables of names. */
module DmCanon {
  import opened Common
  import opened DmXml
  import opened DmTables

  // ----- canonical trees -----

  /** The first child with a tag. */
  function Find(kids: seq<Element>, tag: string): Option<Element> {
    if kids == [] then None
    else if kids[0].tag == tag then Some(kids[0])
    else Find(kids[1..], tag)
  }

  /** The child with the given tag as a text node, if there is one. */
  function Copied(kids: seq<Element>, tag: string): seq<Tree> {
    var e := Find(kids, tag);
    if e.Some? then [Tree(tag, e.value.text, [])] else []
  }

  function CanonParam(e: Element): Tree {
    Tree("parameter", None,
         Copied(e.children, "name") + Copied(e.children, "type") + Copied(e.children, "syntax")
         + Copied(e.children, "writable") + Copied(e.children, "notify"))
  }

  function CanonParams(params: seq<Element>): seq<Tree> {
    seq(|params|, k requires 0 <= k < |params| => CanonParam(params[k]))
  }

  function CanonFunctions(entries: seq<Element>): seq<Tree> {
    seq(|entries|, k requires 0 <= k < |entries| => Tree(entries[k].tag, entries[k].text, []))
  }

  /** Name, object type and instance limit come first; the type defaults to "object". */
  function CanonHeadings(kids: seq<Element>): seq<Tree> {
    Copied(kids, "name")
    + (if Find(kids, "objectType").Some? then Copied(kids, "objectType") else [Leaf("objectType", "object")])
    + Copied(kids, "maxInstance")
  }

  /** An element called object is an object, wherever it stands. Other children keep their order;
      attributes and text beside children are dropped. */
  function Canon(t: Element): Tree
    decreases t, 1
  {
    if t.tag == "object" then Tree("object", None, CanonHeadings(t.children) + CanonKids(t.children, true))
    else Tree(t.tag, if TextElement(t) then t.text else None, CanonKids(t.children, false))
  }

  function CanonKids(kids: seq<Element>, inObject: bool): seq<Tree>
    decreases kids, 0
  {
    if kids == [] then []
    else CanonKids(kids[..|kids| - 1], inObject) + CanonKid(kids[|kids| - 1], inObject)
  }

  function CanonKid(e: Element, inObject: bool): seq<Tree>
    decreases e, 2
  {
    if inObject && IsHeading(e) then []
    else if inObject && e.tag == "parameters" then [Tree("parameters", None, CanonParams(e.children))]
    else if inObject && e.tag == "functions" then [Tree("functions", None, CanonFunctions(e.children))]
    else [Canon(e)]
  }

  // ----- the data-model grammar -----

  predicate AtMostOnce(kids: seq<Element>, tag: string) {
    forall i, j :: 0 <= i < |kids| && 0 <= j < |kids| && kids[i].tag == tag && kids[j].tag == tag ==> i == j
  }

  predicate Once(kids: seq<Element>, tag: string) {
    Find(kids, tag).Some? && AtMostOnce(kids, tag)
  }

  predicate TextElement(e: Element) {
    e.children == [] && e.text.Some? && e.text.value != ""
  }

  predicate GoodParam(e: Element) {
    var kids := e.children;
    && e.tag == "parameter"
    && Once(kids, "name") && Once(kids, "type") && Once(kids, "syntax")
    && AtMostOnce(kids, "writable") && AtMostOnce(kids, "notify")
    && forall k :: 0 <= k < |kids| ==> GoodField(kids[k])
  }

  predicate GoodField(e: Element) {
    && TextElement(e)
    && (e.tag == "name" || e.tag == "type" || e.tag == "syntax"
        || (e.tag == "writable" && (e.text.value == "true" || e.text.value == "false"))
        || (e.tag == "notify" && (e.text.value == "on" || e.text.value == "off")))
  }

  /** The tag is "func_" and a function's name; the text is a prefix and then "_" and that name, which
      stand nowhere earlier in it. */
  predicate GoodEntry(e: Element) {
    && TextElement(e) && |e.tag| > 5 && e.tag[..5] == "func_"
    && EndsOnceIn(e.text.value, e.tag[4..])
  }

  predicate EndsOnceIn(s: string, end: string) {
    && |end| <= |s| && s[|s| - |end|..] == end
    && forall i :: 0 <= i < |s| - |end| ==> !StandsAt(s, end, i)
  }

  predicate IsHeading(e: Element) {
    e.tag == "name" || e.tag == "objectType" || e.tag == "maxInstance"
  }

  predicate GoodHeadings(kids: seq<Element>) {
    && Once(kids, "name") && AtMostOnce(kids, "objectType") && AtMostOnce(kids, "maxInstance")
    && forall k :: 0 <= k < |kids| && IsHeading(kids[k]) ==> TextElement(kids[k])
  }

  predicate WellFormed(t: Element)
    decreases t, 1
  {
    if t.tag == "object" then GoodHeadings(t.children) && WellFormedKids(t.children, true)
    else WellFormedKids(t.children, false)
  }

  predicate WellFormedKids(kids: seq<Element>, inObject: bool)
    decreases kids, 0
  {
    kids == [] ||
    (WellFormedKids(kids[..|kids| - 1], inObject) && WellFormedKid(kids[|kids| - 1], inObject))
  }

  /** No object stands directly in another. */
  predicate WellFormedKid(e: Element, inObject: bool)
    decreases e, 2
  {
    if inObject && IsHeading(e) then true
    else if inObject && e.tag == "parameters" then forall k :: 0 <= k < |e.children| ==> GoodParam(e.children[k])
    else if inObject && e.tag == "functions" then forall k :: 0 <= k < |e.children| ==> GoodEntry(e.children[k])
    else (inObject ==> e.tag != "object") && WellFormed(e)
  }

  /** The root is no object. */
  predicate WellFormedDocument(root: Element) {
    root.tag != "object" && WellFormed(root)
  }

  // ----- names in the tables -----

  predicate KnownFunction(tag: string) {
    exists id: FuncNum :: tag == "func_" + FuncName(id)
  }

  predicate KnownObjectType(text: string) {
    exists id: ObjectNum :: text == ObjectTypeName(id)
  }

  /** Object types and function tags are among those of the tables. */
  predicate Known(t: Element)
    decreases t, 1
  {
    && (t.tag == "object" ==>
          forall k :: 0 <= k < |t.children| && t.children[k].tag == "objectType" ==>
            t.children[k].text.Some? && KnownObjectType(t.children[k].text.value))
    && KnownKids(t.children, t.tag == "object")
  }

  predicate KnownKids(kids: seq<Element>, inObject: bool)
    decreases kids, 0
  {
    kids == [] ||
    (KnownKids(kids[..|kids| - 1], inObject) && KnownKid(kids[|kids| - 1], inObject))
  }

  predicate KnownKid(e: Element, inObject: bool)
    decreases e, 2
  {
    if inObject && (IsHeading(e) || e.tag == "parameters") then true
    else if inObject && e.tag == "functions" then
      forall k :: 0 <= k < |e.children| ==> KnownFunction(e.children[k].tag)
    else Known(e)
  }

  // ----- when the code is faithful -----

  predicate BuiltinType(text: string) {
    text == "boolean" || text == "int" || text == "unsignedInt" || text == "string"
  }

  function DefaultSyntax(text: string): string {
    if text == "boolean" then "bool"
    else if text == "int" then "int"
    else if text == "unsignedInt" then "uint32"
    else if text == "string" then "string"
    else ""
  }

  function TextOf(kids: seq<Element>, tag: string): string {
    var e := Find(kids, tag);
    if e.Some? && e.value.text.Some? then e.value.text.value else ""
  }

  /** A parameter that loses its "off": a builtin type with another syntax than its own, given
      together with a writable field. */
  predicate LosesNotify(e: Element) {
    && BuiltinType(TextOf(e.children, "type"))
    && TextOf(e.children, "syntax") != DefaultSyntax(TextOf(e.children, "type"))
    && Find(e.children, "writable").Some?
    && TextOf(e.children, "notify") == "off"
  }

  predicate EmptyPrefix(e: Element) {
    e.text.Some? && e.tag == "func" + e.text.value
  }

  /** After a handler with an empty prefix come only handlers with an empty prefix. */
  predicate PrefixesSettle(entries: seq<Element>) {
    forall j, k :: 0 <= j < k < |entries| && EmptyPrefix(entries[j]) ==> EmptyPrefix(entries[k])
  }

  /** Some object at `t` or below gets functions. */
  predicate GetsFunctions(t: Element)
    decreases t, 1
  {
    GetsFunctionsAny(t.children, t.tag == "object")
  }

  predicate GetsFunctionsAny(kids: seq<Element>, inObject: bool)
    decreases kids, 0
  {
    kids != [] &&
    (GetsFunctionsAny(kids[..|kids| - 1], inObject) || GetsFunctionsKid(kids[|kids| - 1], inObject))
  }

  predicate GetsFunctionsKid(e: Element, inObject: bool)
    decreases e, 2
  {
    if inObject && (IsHeading(e) || e.tag == "parameters") then false
    else if inObject && e.tag == "functions" then true
    else GetsFunctions(e)
  }

  /** A child of an object with which some other object inside gets functions. */
  predicate Interrupts(e: Element) {
    !IsHeading(e) && e.tag != "parameters" && e.tag != "functions" && GetsFunctions(e)
  }

  /** Between two functions children of one object stands a child that interrupts. */
  ghost predicate Spaced(kids: seq<Element>) {
    forall i, j :: 0 <= i < j < |kids| && kids[i].tag == "functions" && kids[j].tag == "functions" ==>
      exists m :: i < m < j && Interrupts(kids[m])
  }

  ghost predicate Faithful(t: Element)
    decreases t, 1
  {
    (t.tag == "object" ==> Spaced(t.children)) && FaithfulKids(t.children, t.tag == "object")
  }

  ghost predicate FaithfulKids(kids: seq<Element>, inObject: bool)
    decreases kids, 0
  {
    kids == [] ||
    (FaithfulKids(kids[..|kids| - 1], inObject) && FaithfulKid(kids[|kids| - 1], inObject))
  }

  ghost predicate FaithfulKid(e: Element, inObject: bool)
    decreases e, 2
  {
    if inObject && IsHeading(e) then true
    else if inObject && e.tag == "parameters" then forall k :: 0 <= k < |e.children| ==> !LosesNotify(e.children[k])
    else if inObject && e.tag == "functions" then PrefixesSettle(e.children)
    else Faithful(e)
  }
}
