/** The DM pack as a whole: generating code for a data-model document and running that code. */
module DmTheorem {
  import opened Common
  import opened DmXml
  import opened DmTables
  import opened DmEmit
  import opened DmMachine
  import opened DmDom
  import opened DmBuilt
  import opened DmRun
  import opened DmCanon
  import opened DmFaithful
  import opened DmCodeGen
  import opened DmRuntime

  // ----- any program -----

  lemma {:induction false} MakeKeepsOk(i: Instr, s: State)
    requires Ok(s) && Ready(i, s) && (i.MakeNode? || i.MakePNode? || i.MakeFunctions?)
    ensures Ok(Step(i, s))
  {
    hide FuncName, FuncNameLen;
    match i
    case MakeNode(dst, src, tag, text, size) =>
      assert text[..|text|] == text;
      RecAdded(s.heap, Reg(s, src), tag, Some(text), |text|);
    case MakePNode(dst, src, tag) => RecAdded(s.heap, Reg(s, src), tag, None, 0);
    case MakeFunctions(src, prefix, ids) =>
      var o := OpenFunctions(s, s.regs[src]);
      RecAdded(s.heap, Some(s.regs[src]), "functions", None, 0);
      FieldsAdded(o.heap, o.cur, FuncFields(prefix, ids));
  }

  lemma {:induction false} StepKeepsOk(i: Instr, s: State)
    requires Ok(s) && Ready(i, s)
    ensures Ok(Step(i, s))
  {
    if i.MakeObject? {
      ChildWithFields(s.heap, s.regs[i.objSrc], "object", ObjectFields(i.objType, i.name, i.maxInstance));
    } else if i.MakeParam? {
      ChildWithFields(s.heap, s.regs[i.paramSrc], "parameter", ParamFields(i.name, Wrapped(i.call)));
    } else {
      MakeKeepsOk(i, s);
    }
  }

  /** Whatever statements run, in whatever order: the nodes form a forest in creation order, with
      levels and stored sizes right, and globals and registers name nodes that exist. */
  lemma {:induction false} EveryRunKeepsShape(prog: seq<Instr>)
    requires Exec(prog, INIT).Some?
    ensures Ok(Exec(prog, INIT).value)
  {
    if prog != [] {
      EveryRunKeepsShape(prog[..|prog| - 1]);
      StepKeepsOk(prog[|prog| - 1], Exec(prog[..|prog| - 1], INIT).value);
    }
  }

  // ----- the compiler -----

  /** For every document the generator gets through, the emitted program runs on the empty runtime,
      and P0 ends up holding the root of the tree `Built`; for a well-formed document that tree is
      the canonical one exactly when the document is faithful. */
  lemma {:induction false} CompilerCorrect(root: Element) returns (s: State)
    requires Compiles(root, false)
    ensures Exec(Emit(root, 0, false), INIT) == Some(s) && Ok(s)
    ensures 0 in s.regs && s.regs[0] < |s.heap| && s.heap[s.regs[0]].parent == None
    ensures TreeOf(s.heap, s.regs[0]) == Built(root, false)
    ensures WellFormedDocument(root) ==> (TreeOf(s.heap, s.regs[0]) == Canon(root) <==> Faithful(root))
  {
    s := RunRoot(root);
    if WellFormedDocument(root) {
      BuiltIsCanon(root, false);
    }
  }

  /** Generator and runtime as written, one after the other. */
  method BuildDom(root: Element) returns (ok: bool, runtime: Runtime, P0: Node?)
    ensures ok <==> Compiles(root, false)
    ensures WellFormedDocument(root) ==> (ok <==> Known(root))
    ensures ok ==> runtime.Valid() && runtime.Is(P0, Some(0))
    ensures ok ==> TreeOf(runtime.heap, 0) == Built(root, false)
    ensures ok && WellFormedDocument(root) ==>
              (TreeOf(runtime.heap, 0) == Canon(root) <==> Faithful(root))
  {
    if WellFormedDocument(root) {
      CompilesIffKnown(root);
    }
    P0 := null;
    runtime := new Runtime();
    var generator := new CodeGenerator();
    ok := generator.CodeGenElement(root, 0);
    if ok {
      assert generator.fout == Emit(root, 0, false);
      ghost var s := RunRoot(root);
      P0 := runtime.Run(generator.fout);
      if WellFormedDocument(root) {
        BuiltIsCanon(root, false);
      }
    }
  }

  // ----- documents that are not faithful -----

  function TextChild(tag: string, text: string): Element {
    Element(tag, Some(text), [])
  }

  /** A read-only parameter with notification switched off. */
  function QuietParam(name: string, typeText: string, syntax: string): Element {
    Element("parameter", None, [
      TextChild("name", name), TextChild("type", typeText), TextChild("syntax", syntax),
      TextChild("writable", "false"), TextChild("notify", "off")])
  }

  lemma {:induction false} QuietFinds(name: string, typeText: string, syntax: string)
    ensures var kids := QuietParam(name, typeText, syntax).children;
            Find(kids, "name") == Some(kids[0]) && Find(kids, "type") == Some(kids[1]) &&
            Find(kids, "syntax") == Some(kids[2]) && Find(kids, "writable") == Some(kids[3]) &&
            Find(kids, "notify") == Some(kids[4])
  {
    var kids := QuietParam(name, typeText, syntax).children;
    var k1, k2, k3, k4 := kids[1..], kids[1..][1..], kids[1..][1..][1..], kids[1..][1..][1..][1..];
    assert k1[0] == kids[1] && k2[0] == kids[2] && k3[0] == kids[3] && k4[0] == kids[4];
    assert Find(kids, "type") == Find(k1, "type");
    assert Find(kids, "syntax") == Find(k1, "syntax") == Find(k2, "syntax");
    assert Find(kids, "writable") == Find(k1, "writable") == Find(k2, "writable") == Find(k3, "writable");
    assert Find(kids, "notify") == Find(k1, "notify") == Find(k2, "notify") == Find(k3, "notify") == Find(k4, "notify");
  }

  lemma {:induction false} QuietTags(name: string, typeText: string, syntax: string)
    ensures var kids := QuietParam(name, typeText, syntax).children;
            forall i, j :: 0 <= i < |kids| && 0 <= j < |kids| && kids[i].tag == kids[j].tag ==> i == j
  {
    var kids := QuietParam(name, typeText, syntax).children;
    assert kids[0].tag[0] == 'n' && kids[0].tag[1] == 'a' && kids[1].tag[0] == 't' && kids[2].tag[0] == 's';
    assert kids[3].tag[0] == 'w' && kids[4].tag[0] == 'n' && kids[4].tag[1] == 'o';
  }

  /** Well-formed parameters whose "off" does not reach the DOM: for instance a string with the
      syntax "hex". */
  lemma {:induction false} QuietParamLosesOff(name: string, typeText: string, syntax: string)
    requires name != "" && BuiltinType(typeText) && syntax != "" && syntax != DefaultSyntax(typeText)
    ensures GoodParam(QuietParam(name, typeText, syntax))
    ensures BuiltParam(QuietParam(name, typeText, syntax)) != CanonParam(QuietParam(name, typeText, syntax))
  {
    hide BuiltParam, CanonParam, GoodParam;
    QuietIsGood(name, typeText, syntax);
    QuietFinds(name, typeText, syntax);
    ParamRoundTrip(QuietParam(name, typeText, syntax));
  }

  lemma {:induction false} QuietIsGood(name: string, typeText: string, syntax: string)
    requires name != "" && typeText != "" && syntax != ""
    ensures GoodParam(QuietParam(name, typeText, syntax))
  {
    QuietFinds(name, typeText, syntax);
    QuietTags(name, typeText, syntax);
  }

  /** An object with two empty functions elements in a row: the second one finds the first one's
      node still open and makes none. */
  const TWICE := Element("object", None, [
    TextChild("name", "T"), Element("functions", None, []), Element("functions", None, [])])

  lemma {:induction false} TwiceKids()
    ensures CompilesAll(TWICE.children, true) && WellFormedKids(TWICE.children, true)
    ensures KindOf(TWICE.children[1], true).Functions? && KindOf(TWICE.children[2], true).Functions?
    ensures KindOf(TWICE.children[0], true).Heading?
  {
    var kids := TWICE.children;
    KindOfTags(kids);
    var a, b := kids[..1], kids[..2];
    assert kids[..|kids| - 1] == b && b[..|b| - 1] == a && a[..|a| - 1] == [];
    assert b[|b| - 1] == kids[1] && a[|a| - 1] == kids[0];
    assert CompilesAll([], true) && WellFormedKids([], true);
    assert CompilesKid(kids[0], true) && WellFormedKid(kids[0], true);
    assert CompilesAll(a, true) && WellFormedKids(a, true);
    assert CompilesAll(b, true) && WellFormedKids(b, true);
  }

  lemma {:induction false} KindOfTags(kids: seq<Element>)
    requires kids == TWICE.children
    ensures KindOf(kids[0], true).Heading? && KindOf(kids[1], true).Functions? && KindOf(kids[2], true).Functions?
  {
    assert kids[0].tag[0] == 'n' && kids[1].tag[0] == 'f' && kids[2].tag[0] == 'f';
  }

  lemma {:induction false} TwiceHeadings()
    ensures GoodHeadings(TWICE.children) && ReadsObjectTypes(TWICE.children)
  {
    var kids := TWICE.children;
    assert Find(kids, "name") == Some(kids[0]);
    assert kids[1].tag[0] == 'f' && kids[2].tag[0] == 'f';
  }

  lemma {:induction false} SecondFunctionsVanish()
    ensures Compiles(TWICE, true) && WellFormed(TWICE) && Built(TWICE, true) != Canon(TWICE)
  {
    var kids := TWICE.children;
    TwiceKids();
    TwiceHeadings();
    assert !Spaced(kids);
    BuiltIsCanon(TWICE, true);
  }

  // ----- objects in objects -----

  /** As a plain element, every child is a child of its own, under its own tag. */
  lemma {:induction false} PlainKidTags(kids: seq<Element>)
    requires CompilesAll(kids, false)
    ensures var built := BuildKids([], kids, false).kids;
            |built| == |kids| && forall k :: 0 <= k < |kids| ==> built[k].tag == kids[k].tag
  {
    hide Built;
    if kids != [] {
      var init, e := kids[..|kids| - 1], kids[|kids| - 1];
      PlainKidTags(init);
      BuiltTag(e, e.tag == "object");
    }
  }

  lemma {:induction false} BuiltTag(t: Element, asObject: bool)
    requires Compiles(t, asObject) && (asObject ==> t.tag == "object")
    ensures Built(t, asObject).tag == t.tag
  {
  }

  /** An object that stands directly in another is written as a plain element: without an object
      type of its own it gets no default one. */
  lemma {:induction false} NestedObjectLosesType(e: Element)
    requires e.tag == "object" && Compiles(e, false)
    requires Find(e.children, "name").Some? && Find(e.children, "objectType").None?
    ensures KindOf(e, true) == Sub(false) && Built(e, false) != Canon(e)
  {
    hide CanonKids, BuildKids;
    assert e.tag[0] == 'o' && e.tag[1] == 'b' && |e.tag| == 6;
    PlainKidTags(e.children);
    FindNone(e.children, "objectType");
    var built, canon := Built(e, false).children, Canon(e).children;
    assert built == BuildKids([], e.children, false).kids;
    assert |canon| > 1 && canon[1] == Leaf("objectType", "object");
    assert |built| > 1 ==> built[1].tag == e.children[1].tag != canon[1].tag;
    assert built != canon;
  }

  lemma {:induction false} FindNone(kids: seq<Element>, tag: string)
    requires Find(kids, tag).None?
    ensures forall k :: 0 <= k < |kids| ==> kids[k].tag != tag
  {
    if kids != [] {
      FindNone(kids[1..], tag);
    }
  }
}
