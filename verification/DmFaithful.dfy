/** Exactly when generated code builds the canonical tree of a well-formed document. */
module DmFaithful {
  import opened Common
  import opened DmXml
  import opened DmTables
  import opened DmEmit
  import opened DmMachine
  import opened DmDom
  import opened DmBuilt
  import opened DmCanon

  // ----- finding children -----

  lemma {:induction false} FindSnoc(kids: seq<Element>, tag: string)
    requires kids != []
    ensures var init, e := kids[..|kids| - 1], kids[|kids| - 1];
            Find(kids, tag) ==
            if Find(init, tag).Some? then Find(init, tag) else if e.tag == tag then Some(e) else None
  {
    if |kids| > 1 {
      FindSnoc(kids[1..], tag);
      assert kids[1..][..|kids[1..]| - 1] == kids[..|kids| - 1][1..];
    }
  }

  lemma {:induction false} FindIs(kids: seq<Element>, tag: string)
    ensures Find(kids, tag).Some? ==>
              exists k :: 0 <= k < |kids| && kids[k] == Find(kids, tag).value && kids[k].tag == tag
    ensures Find(kids, tag).None? ==> forall k :: 0 <= k < |kids| ==> kids[k].tag != tag
  {
    if kids != [] && kids[0].tag != tag {
      FindIs(kids[1..], tag);
      if Find(kids, tag).Some? {
        var k :| 0 <= k < |kids| - 1 && kids[1..][k] == Find(kids, tag).value && kids[1..][k].tag == tag;
        assert kids[k + 1] == Find(kids, tag).value;
      } else {
        forall k | 0 <= k < |kids|
          ensures kids[k].tag != tag
        {
          if k > 0 { assert kids[k] == kids[1..][k - 1]; }
        }
      }
    }
  }

  predicate FoundLast(init: seq<Element>, kids: seq<Element>, e: Element, tag: string) {
    && (e.tag == tag ==> Find(init, tag) == None && Find(kids, tag) == Some(e))
    && (e.tag != tag ==> Find(kids, tag) == Find(init, tag))
  }

  /** A tag that occurs at most once is found at the end of the list or before it. */
  lemma {:induction false} FindLast(kids: seq<Element>, tag: string)
    requires kids != [] && AtMostOnce(kids, tag)
    ensures AtMostOnce(kids[..|kids| - 1], tag)
    ensures FoundLast(kids[..|kids| - 1], kids, kids[|kids| - 1], tag)
  {
    var init := kids[..|kids| - 1];
    FindSnoc(kids, tag);
    FindIs(init, tag);
    assert forall k :: 0 <= k < |init| ==> init[k] == kids[k];
  }

  // ----- parameters -----

  function TypeNumber(text: Option<string>): int {
    if text == Some("boolean") then 0
    else if text == Some("int") then 1
    else if text == Some("unsignedInt") then 2
    else if text == Some("string") then 3
    else -1
  }

  function TextOrEmpty(e: Option<Element>): Option<string> {
    if e.Some? then e.value.text else Some("")
  }

  function Flag(e: Option<Element>, off: string): int {
    if e.None? then -1 else if e.value.text == Some(off) then 0 else 1
  }

  /** What the loop over the fields of a parameter ends with, when no field is given twice. */
  function Summary(kids: seq<Element>): Fields {
    var typeText := TextOrEmpty(Find(kids, "type"));
    Fields(TextOrEmpty(Find(kids, "name")), TypeNumber(typeText), typeText,
           if typeText.Some? then DefaultSyntax(typeText.value) else "",
           TextOrEmpty(Find(kids, "syntax")), Flag(Find(kids, "writable"), "false"), Flag(Find(kids, "notify"), "off"))
  }

  predicate FieldsOnce(kids: seq<Element>) {
    && AtMostOnce(kids, "name") && AtMostOnce(kids, "type") && AtMostOnce(kids, "syntax")
    && AtMostOnce(kids, "writable") && AtMostOnce(kids, "notify")
    && forall k :: 0 <= k < |kids| ==> GoodField(kids[k])
  }

  lemma {:induction false} ReadFieldsSummary(kids: seq<Element>)
    requires FieldsOnce(kids)
    ensures ReadFields(kids) == Summary(kids)
  {
    if kids != [] {
      var init, e := kids[..|kids| - 1], kids[|kids| - 1];
      FindLast(kids, "name");
      FindLast(kids, "type");
      FindLast(kids, "syntax");
      FindLast(kids, "writable");
      FindLast(kids, "notify");
      assert forall k :: 0 <= k < |init| ==> init[k] == kids[k];
      ReadFieldsSummary(init);
      FieldRead(init, kids, e);
    }
  }

  lemma {:induction false} FieldRead(init: seq<Element>, kids: seq<Element>, e: Element)
    requires GoodField(e)
    requires FoundLast(init, kids, e, "name") && FoundLast(init, kids, e, "type") && FoundLast(init, kids, e, "syntax")
    requires FoundLast(init, kids, e, "writable") && FoundLast(init, kids, e, "notify")
    ensures ReadField(Summary(init), e) == Summary(kids)
  {
  }

  function TypeMeant(a: ParamArgs): string {
    if a.typeText.Some? then a.typeText.value else ParamTypeName(a.typeId)
  }

  function SyntaxMeant(a: ParamArgs): string {
    if a.syntax.Some? then a.syntax.value else ParamSyntaxName(a.typeId)
  }

  predicate LostFlag(f: Fields) {
    f.typeId != -1 && f.syntax != Some(f.defaultSyntax) && f.writable != -1 && f.notify == 0
  }

  lemma {:induction false} TypeRow(text: string)
    ensures BuiltinType(text) <==> TypeNumber(Some(text)) != -1
    ensures BuiltinType(text) ==> 0 <= TypeNumber(Some(text)) < PARAM_TYPE_COUNT
    ensures BuiltinType(text) ==> ParamTypeName(TypeNumber(Some(text))) == text
    ensures BuiltinType(text) ==> ParamSyntaxName(TypeNumber(Some(text))) == DefaultSyntax(text)
    ensures !BuiltinType(text) ==> DefaultSyntax(text) == ""
  {
  }

  /** The chosen call shape and its wrapper hand the fields of a parameter on to the runtime as
      they are, except that a lost flag arrives as absent, and that where neither type nor syntax
      say anything the runtime takes the first row of its tables. */
  lemma {:induction false} CallKeepsFields(f: Fields)
    requires f.typeText.Some? && f.typeId == TypeNumber(f.typeText)
    requires f.defaultSyntax == DefaultSyntax(f.typeText.value)
    requires -1 <= f.typeId < PARAM_TYPE_COUNT
    ensures var a := Wrapped(ChooseCall(f));
            TypeMeant(a) == f.typeText.value && a.writable == f.writable
            && a.notify == if LostFlag(f) then -1 else f.notify
    ensures var syntax := SyntaxMeant(Wrapped(ChooseCall(f)));
            syntax == if f.typeId == -1 && f.syntax == Some("") then "bool" else Shown(f.syntax)
  {
    TypeRow(f.typeText.value);
  }

  lemma {:induction false} FieldsAsLeaves(name: string, a: ParamArgs)
    ensures Leaves(ParamFields(name, a)) ==
            [Leaf("name", name), Leaf("type", TypeMeant(a)), Leaf("syntax", SyntaxMeant(a))]
            + (if a.writable == 0 then [Leaf("writable", "false")]
               else if a.writable == 1 then [Leaf("writable", "true")] else [])
            + (if a.notify == 0 then [Leaf("notify", "off")]
               else if a.notify == 1 then [Leaf("notify", "on")] else [])
  {
  }

  /** For every well-formed parameter, the call chosen for it and what the runtime makes of that
      call give back its fields, in the fixed order, unless its "off" is lost. */
  lemma {:induction false} ParamRoundTrip(e: Element)
    requires GoodParam(e)
    ensures BuiltParam(e) == CanonParam(e) <==> !LosesNotify(e)
  {
    var kids := e.children;
    var f := ReadFields(kids);
    ReadFieldsSummary(kids);
    FindIs(kids, "name");
    FindIs(kids, "type");
    FindIs(kids, "syntax");
    FindIs(kids, "writable");
    FindIs(kids, "notify");
    TypeRow(f.typeText.value);
    CallKeepsFields(f);
    FieldsAsLeaves(f.name.value, Wrapped(ChooseCall(f)));
    CanonParamLeaves(e);
    assert LostFlag(f) <==> LosesNotify(e);
    if LostFlag(f) {
      assert |CanonParam(e).children| == |BuiltParam(e).children| + 1;
    }
  }

  lemma {:induction false} CanonParamLeaves(e: Element)
    requires GoodParam(e)
    ensures var f := Summary(e.children);
            f.name.Some? && f.typeText.Some? && f.syntax.Some? && f.syntax.value != "" &&
            CanonParam(e).children ==
            [Leaf("name", f.name.value), Leaf("type", f.typeText.value), Leaf("syntax", f.syntax.value)]
            + (if f.writable == 0 then [Leaf("writable", "false")]
               else if f.writable == 1 then [Leaf("writable", "true")] else [])
            + (if f.notify == 0 then [Leaf("notify", "off")]
               else if f.notify == 1 then [Leaf("notify", "on")] else [])
  {
    var kids := e.children;
    FindIs(kids, "name");
    FindIs(kids, "type");
    FindIs(kids, "syntax");
    FindIs(kids, "writable");
    FindIs(kids, "notify");
  }

  /** A parameter of another type than the builtin ones, without a syntax, gets "bool" for one. */
  lemma {:induction false} MissingSyntaxBecomesBool(e: Element)
    requires FieldsOnce(e.children) && Find(e.children, "syntax").None?
    requires Find(e.children, "type").Some? && !BuiltinType(TextOf(e.children, "type"))
    ensures BuiltParam(e).children[2] == Leaf("syntax", "bool")
  {
    var kids := e.children;
    var f := ReadFields(kids);
    ReadFieldsSummary(kids);
    FindIs(kids, "type");
    TypeRow(f.typeText.value);
    CallKeepsFields(f);
    FieldsAsLeaves(Shown(f.name), Wrapped(ChooseCall(f)));
  }

  // ----- functions -----

  /** What the generator takes for a handler's prefix is the prefix. */
  lemma {:induction false} PrefixFound(s: string, end: string)
    requires EndsOnceIn(s, end) && end != ""
    ensures Before(s, end) + end == s
  {
    var r, n := Before(s, end), |s| - |end|;
    BeforeIsFirst(s, end);
    assert s[n..n + |end|] == s[n..] == end;
    assert StandsAt(s, end, n);
    assert |r| == n;
    assert s == s[..n] + s[n..];
  }

  lemma {:induction false} EntryRow(e: Element, r: Entry)
    requires ReadEntry(e) == Some(r) && GoodEntry(e)
    ensures e.tag == "func_" + FuncName(r.id)
    ensures e.text.value == r.prefix + "_" + FuncName(r.id)
    ensures r.prefix == "" <==> EmptyPrefix(e)
  {
    hide GEN_FUNC_TAGS, FuncName, FuncNameLen, Lookup, Before;
    var name := FuncName(r.id);
    FuncTablesAgree(r.id);
    LookupFinds(GEN_FUNC_TAGS, e.tag, FUNC_COUNT);
    assert SuffixOf(e.tag) == e.tag[4..] == "_" + name;
    PrefixFound(e.text.value, e.tag[4..]);
    assert r.prefix + ("_" + name) == r.prefix + "_" + name;
    assert e.tag == "func" + ("_" + name);
    EmptyPrefixText(r.prefix, "_" + name);
  }

  lemma {:induction false} EmptyPrefixText(p: string, end: string)
    ensures "func" + (p + end) == "func" + end <==> p == ""
  {
    if p == "" {
      assert p + end == end;
    } else {
      assert |"func" + (p + end)| > |"func" + end|;
    }
  }

  /** The prefix in force is the own one, or that of some later entry. */
  lemma {:induction false} EffectiveFrom(entries: seq<Entry>, k: nat)
    requires k < |entries|
    ensures EffectivePrefix(entries, k) == entries[k].prefix ||
            (entries[k].prefix == "" &&
             exists m :: k < m < |entries| && entries[m].prefix == EffectivePrefix(entries, k))
    ensures EffectivePrefix(entries, k) == "" ==> forall m :: k <= m < |entries| ==> entries[m].prefix == ""
    decreases |entries| - k
  {
    if k + 1 < |entries| {
      EffectiveFrom(entries, k + 1);
    }
  }

  predicate EntriesSettle(entries: seq<Entry>) {
    forall j, k :: 0 <= j < k < |entries| && entries[j].prefix == "" ==> entries[k].prefix == ""
  }

  lemma {:induction false} AllSettled(entries: seq<Entry>)
    ensures EntriesSettle(entries) <==>
            forall k :: 0 <= k < |entries| ==> EffectivePrefix(entries, k) == entries[k].prefix
  {
    forall k | 0 <= k < |entries|
      ensures EntriesSettle(entries) ==> EffectivePrefix(entries, k) == entries[k].prefix
      ensures EffectivePrefix(entries, k) == "" ==> forall m :: k <= m < |entries| ==> entries[m].prefix == ""
    {
      EffectiveFrom(entries, k);
    }
  }

  lemma {:induction false} EntryBuilt(e: Element, entries: seq<Entry>, k: nat)
    requires k < |entries| && ReadEntry(e) == Some(entries[k]) && GoodEntry(e)
    ensures BuiltFunctions(entries)[k] == Tree(e.tag, e.text, []) <==>
            EffectivePrefix(entries, k) == entries[k].prefix
  {
    var p, name := EffectivePrefix(entries, k), FuncName(entries[k].id);
    EntryRow(e, entries[k]);
    HandlerMatches(p, entries[k].prefix, name);
    assert BuiltFunctions(entries)[k] == Leaf("func_" + name, p + "_" + name);
  }

  lemma {:induction false} EntryAt(kids: seq<Element>, entries: seq<Entry>, k: nat)
    requires ReadEntries(kids) == Some(entries) && forall k :: 0 <= k < |kids| ==> GoodEntry(kids[k])
    requires k < |entries|
    ensures BuiltFunctions(entries)[k] == CanonFunctions(kids)[k] <==>
            EffectivePrefix(entries, k) == entries[k].prefix
  {
    EntryBuilt(kids[k], entries, k);
    assert CanonFunctions(kids)[k] == Tree(kids[k].tag, kids[k].text, []);
  }

  lemma {:induction false} EntriesAt(kids: seq<Element>, entries: seq<Entry>)
    requires ReadEntries(kids) == Some(entries) && forall k :: 0 <= k < |kids| ==> GoodEntry(kids[k])
    ensures forall k :: 0 <= k < |entries| ==>
              (BuiltFunctions(entries)[k] == CanonFunctions(kids)[k] <==>
               EffectivePrefix(entries, k) == entries[k].prefix)
  {
    forall k | 0 <= k < |entries|
      ensures BuiltFunctions(entries)[k] == CanonFunctions(kids)[k] <==>
              EffectivePrefix(entries, k) == entries[k].prefix
    {
      EntryAt(kids, entries, k);
    }
  }

  lemma {:induction false} SameWhenSettled(a: seq<Tree>, b: seq<Tree>, entries: seq<Entry>)
    requires |a| == |b| == |entries|
    requires forall k :: 0 <= k < |entries| ==> (a[k] == b[k] <==> EffectivePrefix(entries, k) == entries[k].prefix)
    ensures a == b <==> EntriesSettle(entries)
  {
    AllSettled(entries);
  }

  lemma {:induction false} SettledEntries(kids: seq<Element>, entries: seq<Entry>)
    requires ReadEntries(kids) == Some(entries) && forall k :: 0 <= k < |kids| ==> GoodEntry(kids[k])
    ensures PrefixesSettle(kids) <==> EntriesSettle(entries)
  {
    hide GoodEntry, EmptyPrefix, ReadEntry, ReadEntries;
    forall k | 0 <= k < |kids|
      ensures EmptyPrefix(kids[k]) <==> entries[k].prefix == ""
    {
      EntryRow(kids[k], entries[k]);
    }
    assert forall k :: 0 <= k < |entries| ==> (entries[k].prefix == "" <==> EmptyPrefix(kids[k]));
  }

  /** Batching gives back the tags and handlers of a functions list, in order, exactly when the
      empty prefixes settle. */
  lemma {:induction false} HandlersRoundTrip(kids: seq<Element>, entries: seq<Entry>)
    requires ReadEntries(kids) == Some(entries) && forall k :: 0 <= k < |kids| ==> GoodEntry(kids[k])
    ensures BuiltFunctions(entries) == CanonFunctions(kids) <==> PrefixesSettle(kids)
  {
    SettledEntries(kids, entries);
    EntriesAt(kids, entries);
    SameWhenSettled(BuiltFunctions(entries), CanonFunctions(kids), entries);
  }

  lemma {:induction false} HandlerMatches(p: string, q: string, name: string)
    ensures p + "_" + name == q + "_" + name <==> p == q
  {
    if p + "_" + name == q + "_" + name {
      assert |p + "_" + name| == |p| + 1 + |name| && |q + "_" + name| == |q| + 1 + |name|;
      assert (p + "_" + name)[..|p|] == p && (q + "_" + name)[..|q|] == q;
    }
  }

  // ----- headings -----

  function HeadingSummary(kids: seq<Element>): Headings {
    Headings(TextOrEmpty(Find(kids, "name")),
             (var e := Find(kids, "objectType");
              if e.None? then Some(0) else if e.value.text.Some? then ObjectTypeId(e.value.text.value) else None),
             (var e := Find(kids, "maxInstance"); if e.Some? then e.value.text else None))
  }

  lemma {:induction false} ReadHeadingsSummary(kids: seq<Element>)
    requires AtMostOnce(kids, "name") && AtMostOnce(kids, "objectType") && AtMostOnce(kids, "maxInstance")
    ensures ReadHeadings(kids) == HeadingSummary(kids)
  {
    if kids != [] {
      FindLast(kids, "name");
      FindLast(kids, "objectType");
      FindLast(kids, "maxInstance");
      ReadHeadingsSummary(kids[..|kids| - 1]);
    }
  }

  /** The nodes an object starts with are its headings in canonical order. */
  lemma {:induction false} HeadingsRoundTrip(kids: seq<Element>)
    requires GoodHeadings(kids) && ReadsObjectTypes(kids)
    ensures HeadingTrees(kids) == CanonHeadings(kids)
  {
    ReadHeadingsSummary(kids);
    HeadingsFound(kids);
    FindIs(kids, "name");
    FindIs(kids, "objectType");
    FindIs(kids, "maxInstance");
    var t := Find(kids, "objectType");
    if t.Some? {
      LookupFinds(GEN_OBJECT_TYPES, t.value.text.value, OBJECT_TYPE_COUNT);
    }
    ObjectTablesAgree(ReadHeadings(kids).objType.value);
  }

  // ----- elements and objects -----

  /** No functions child is left with no interruption after it. */
  ghost predicate Clear(kids: seq<Element>) {
    forall i :: 0 <= i < |kids| && kids[i].tag == "functions" ==>
      exists m :: i < m < |kids| && Interrupts(kids[m])
  }

  lemma {:induction false} ClearSnoc(init: seq<Element>, e: Element)
    ensures Clear(init + [e]) <==>
            e.tag != "functions" && (Interrupts(e) || Clear(init))
  {
    var kids := init + [e];
    assert kids[|init|] == e;
    assert forall i :: 0 <= i < |init| ==> kids[i] == init[i];
    if e.tag == "functions" {
      assert !Clear(kids);
    } else if Interrupts(e) {
      assert Clear(kids);
    } else if Clear(init) {
      forall i | 0 <= i < |kids| && kids[i].tag == "functions"
        ensures exists m :: i < m < |kids| && Interrupts(kids[m])
      {
        var m :| i < m < |init| && Interrupts(init[m]);
        assert Interrupts(kids[m]);
      }
    } else {
      var i :| 0 <= i < |init| && init[i].tag == "functions" &&
               !exists m :: i < m < |init| && Interrupts(init[m]);
      assert kids[i].tag == "functions";
      assert forall m :: i < m < |kids| ==> !Interrupts(kids[m]) by {
        forall m | i < m < |kids|
          ensures !Interrupts(kids[m])
        {
          if m < |init| { assert kids[m] == init[m]; }
        }
      }
    }
  }

  lemma {:induction false} SpacedSnoc(init: seq<Element>, e: Element)
    ensures Spaced(init + [e]) <==> Spaced(init) && (e.tag == "functions" ==> Clear(init))
  {
    var kids := init + [e];
    assert kids[|init|] == e;
    assert forall i :: 0 <= i < |init| ==> kids[i] == init[i];
    if Spaced(kids) {
      forall i, j | 0 <= i < j < |init| && init[i].tag == "functions" && init[j].tag == "functions"
        ensures exists m :: i < m < j && Interrupts(init[m])
      {
        assert kids[i].tag == "functions" && kids[j].tag == "functions";
        var m :| i < m < j && Interrupts(kids[m]);
        assert Interrupts(init[m]);
      }
      if e.tag == "functions" {
        forall i | 0 <= i < |init| && init[i].tag == "functions"
          ensures exists m :: i < m < |init| && Interrupts(init[m])
        {
          assert kids[i].tag == "functions";
          var m :| i < m < |init| && Interrupts(kids[m]);
          assert Interrupts(init[m]);
        }
      }
    }
    if Spaced(init) && (e.tag == "functions" ==> Clear(init)) {
      forall i, j | 0 <= i < j < |kids| && kids[i].tag == "functions" && kids[j].tag == "functions"
        ensures exists m :: i < m < j && Interrupts(kids[m])
      {
        var m :| i < m < j && m < |init| && Interrupts(init[m]);
        assert Interrupts(kids[m]);
      }
    }
  }

  /** What a child of a well-formed element is to the generator, read off its tag. */
  lemma {:induction false} KindByTag(e: Element, inObject: bool)
    requires inObject ==> e.tag != "object"
    ensures KindOf(e, inObject) ==
            if inObject && IsHeading(e) then Heading
            else if inObject && e.tag == "parameters" then Parameters
            else if inObject && e.tag == "functions" then Functions
            else Sub(e.tag == "object")
  {
  }

  /** An object whose name holds no text is called "None". */
  lemma {:induction false} EmptyNameReadsNone(t: Element)
    requires Compiles(t, true) && AtMostOnce(t.children, "objectType") && AtMostOnce(t.children, "maxInstance")
    requires AtMostOnce(t.children, "name") && Find(t.children, "name").Some?
    requires Find(t.children, "name").value.text.None?
    ensures BuiltHead(t, true).children[0] == Leaf("name", "None")
  {
    ReadHeadingsSummary(t.children);
    HeadingsFound(t.children);
    ObjectTablesAgree(ReadHeadings(t.children).objType.value);
  }

  // ----- which well-formed documents the generator gets through -----

  lemma {:induction false} KnownIsNumbered(tag: string)
    ensures FuncId(tag).Some? <==> KnownFunction(tag)
  {
    hide GEN_FUNC_TAGS, FuncName, FuncNameLen, Lookup;
    FuncTablesAgree(0);
    forall id: FuncNum
      ensures GEN_FUNC_TAGS[id] == "func_" + FuncName(id)
    {
      FuncTablesAgree(id);
    }
    LookupFinds(GEN_FUNC_TAGS, tag, FUNC_COUNT);
    if KnownFunction(tag) {
      var id: FuncNum :| tag == "func_" + FuncName(id);
      assert GEN_FUNC_TAGS[..FUNC_COUNT][id] == tag;
    }
  }

  lemma {:induction false} KnownTypeIsNumbered(text: string)
    ensures ObjectTypeId(text).Some? <==> KnownObjectType(text)
  {
    hide ObjectTypeName, ObjectTypeLen, Lookup;
    forall id: ObjectNum
      ensures GEN_OBJECT_TYPES[id] == ObjectTypeName(id)
    {
      ObjectTablesAgree(id);
    }
    LookupFinds(GEN_OBJECT_TYPES, text, OBJECT_TYPE_COUNT);
    if KnownObjectType(text) {
      var id: ObjectNum :| text == ObjectTypeName(id);
      assert GEN_OBJECT_TYPES[..OBJECT_TYPE_COUNT][id] == text;
    }
  }

  /** A well-formed element is got through exactly when its function tags and object types are in
      the tables. */
  lemma {:induction false} CompilesIffKnown(t: Element)
    requires WellFormed(t)
    ensures Compiles(t, t.tag == "object") <==> Known(t)
    decreases t, 1
  {
    var kids := t.children;
    CompilesIffKnownAll(kids, t.tag == "object");
    if t.tag == "object" {
      TypesIffKnown(kids);
    }
  }

  lemma {:induction false} TypesIffKnown(kids: seq<Element>)
    ensures ReadsObjectTypes(kids) <==>
            forall k :: 0 <= k < |kids| && kids[k].tag == "objectType" ==>
              kids[k].text.Some? && KnownObjectType(kids[k].text.value)
  {
    hide ObjectTypeId, KnownObjectType;
    forall k | 0 <= k < |kids| && kids[k].text.Some?
      ensures ObjectTypeId(kids[k].text.value).Some? <==> KnownObjectType(kids[k].text.value)
    {
      KnownTypeIsNumbered(kids[k].text.value);
    }
    assert forall k :: 0 <= k < |kids| ==> kids[k] in kids;
  }

  lemma {:induction false} CompilesIffKnownAll(kids: seq<Element>, inObject: bool)
    requires WellFormedKids(kids, inObject)
    ensures CompilesAll(kids, inObject) <==> KnownKids(kids, inObject)
    decreases kids, 0
  {
    hide CompilesKid, KnownKid, WellFormedKid;
    if kids != [] {
      CompilesIffKnownAll(kids[..|kids| - 1], inObject);
      CompilesIffKnownKid(kids[|kids| - 1], inObject);
    }
  }

  lemma {:induction false} CompilesIffKnownKid(e: Element, inObject: bool)
    requires WellFormedKid(e, inObject)
    ensures CompilesKid(e, inObject) <==> KnownKid(e, inObject)
    decreases e, 2
  {
    hide Compiles, Known, ReadEntries, KnownFunction, GoodEntry;
    KindByTag(e, inObject);
    match KindOf(e, inObject)
    case Heading =>
    case Parameters =>
    case Functions => EntriesIffKnown(e.children);
    case Sub(_) => CompilesIffKnown(e);
  }

  lemma {:induction false} EntriesIffKnown(kids: seq<Element>)
    requires forall k :: 0 <= k < |kids| ==> GoodEntry(kids[k])
    ensures ReadEntries(kids).Some? <==> forall k :: 0 <= k < |kids| ==> KnownFunction(kids[k].tag)
  {
    hide FuncId, KnownFunction, Before;
    if kids != [] {
      var init, e := kids[..|kids| - 1], kids[|kids| - 1];
      EntriesIffKnown(init);
      KnownIsNumbered(e.tag);
      assert GoodEntry(e);
      assert forall k :: 0 <= k < |init| ==> init[k] == kids[k];
    }
  }

  // ----- what gets functions -----

  lemma {:induction false} MakesIsGets(t: Element)
    requires WellFormed(t)
    ensures MakesFunctions(t, t.tag == "object") == GetsFunctions(t)
    decreases t, 1
  {
    MakesIsGetsAny(t.children, t.tag == "object");
  }

  lemma {:induction false} MakesIsGetsAny(kids: seq<Element>, inObject: bool)
    requires WellFormedKids(kids, inObject)
    ensures MakesFunctionsAny(kids, inObject) == GetsFunctionsAny(kids, inObject)
    decreases kids, 0
  {
    if kids != [] {
      MakesIsGetsAny(kids[..|kids| - 1], inObject);
      MakesIsGetsKid(kids[|kids| - 1], inObject);
    }
  }

  lemma {:induction false} MakesIsGetsKid(e: Element, inObject: bool)
    requires WellFormedKid(e, inObject)
    ensures MakesFunctionsKid(e, inObject) == GetsFunctionsKid(e, inObject)
    decreases e, 2
  {
    hide MakesFunctions, GetsFunctions;
    KindByTag(e, inObject);
    if KindOf(e, inObject).Sub? {
      MakesIsGets(e);
    }
  }

  /** The globals are ready for a new functions node exactly when nothing is left uninterrupted. */
  lemma {:induction false} FreshIsClear(head: seq<Tree>, kids: seq<Element>, inObject: bool)
    requires CompilesAll(kids, inObject) && WellFormedKids(kids, inObject)
    ensures BuildKids(head, kids, inObject).status.Fresh? <==> (inObject ==> Clear(kids))
  {
    assert Clear([]);
    hide BuildKid, CompilesKid, WellFormedKid, Clear, Interrupts;
    if kids != [] {
      var init, e := kids[..|kids| - 1], kids[|kids| - 1];
      assert kids == init + [e];
      FreshIsClear(head, init, inObject);
      FreshAfter(BuildKids(head, init, inObject), e, inObject);
      if inObject { ClearSnoc(init, e); }
    }
  }

  lemma {:induction false} FreshAfter(b: Partial, e: Element, inObject: bool)
    requires CompilesKid(e, inObject) && WellFormedKid(e, inObject)
    ensures BuildKid(b, e, inObject).status.Fresh? <==>
            if inObject then e.tag != "functions" && (Interrupts(e) || b.status.Fresh?)
            else MakesFunctions(e, e.tag == "object") || b.status.Fresh?
  {
    hide MakesFunctions, MakesObjects, GetsFunctions, Built;
    KindByTag(e, inObject);
    if KindOf(e, inObject).Sub? {
      MakesIsGets(e);
    }
  }

  /** Children built so far against canonical ones. */
  ghost predicate Compared(b: seq<Tree>, c: seq<Tree>, spaced: bool, faithful: bool) {
    && |b| <= |c|
    && (|b| == |c| <==> spaced)
    && (spaced ==> (b == c <==> faithful))
  }

  lemma {:induction false} ComparedSnoc(b: seq<Tree>, c: seq<Tree>, x: Tree, y: Tree, spaced: bool, faithful: bool)
    requires Compared(b, c, spaced, faithful)
    ensures Compared(b + [x], c + [y], spaced, faithful && x == y)
  {
    if |b| == |c| {
      assert (b + [x])[..|b|] == b && (c + [y])[..|c|] == c;
      assert (b + [x])[|b|] == x && (c + [y])[|c|] == y;
    }
  }

  /** The main equivalence: for every well-formed element or object the generator gets through, the
      tree its code builds is the canonical one exactly when the source is faithful. */
  lemma {:induction false} BuiltIsCanon(t: Element, asObject: bool)
    requires WellFormed(t) && asObject == (t.tag == "object") && Compiles(t, asObject)
    ensures Built(t, asObject) == Canon(t) <==> Faithful(t)
    decreases t, 1
  {
    var head := BuiltHead(t, asObject).children;
    if asObject {
      HeadingsRoundTrip(t.children);
      assert head == CanonHeadings(t.children);
    }
    KidsAreCanon(head, t.children, asObject);
    assert head + CanonKids(t.children, asObject) == Canon(t).children;
  }

  lemma {:induction false} SpacedSoFar(head: seq<Tree>, init: seq<Element>, e: Element, inObject: bool)
    requires CompilesAll(init, inObject) && WellFormedKids(init, inObject)
    ensures (inObject ==> Spaced(init + [e])) <==>
            (inObject ==> Spaced(init)) &&
            (inObject && e.tag == "functions" ==> BuildKids(head, init, inObject).status.Fresh?)
  {
    FreshIsClear(head, init, inObject);
    SpacedSnoc(init, e);
  }

  lemma {:induction false} KidsAreCanon(head: seq<Tree>, kids: seq<Element>, inObject: bool)
    requires CompilesAll(kids, inObject) && WellFormedKids(kids, inObject)
    ensures Compared(BuildKids(head, kids, inObject).kids, head + CanonKids(kids, inObject),
                     inObject ==> Spaced(kids), FaithfulKids(kids, inObject))
    decreases kids, 0
  {
    assert Spaced([]);
    hide BuildKid, CanonKid, FaithfulKid, CompilesKid, WellFormedKid, Spaced;
    if kids == [] {
      assert head + CanonKids(kids, inObject) == head;
    } else {
      var init, e := kids[..|kids| - 1], kids[|kids| - 1];
      assert kids == init + [e];
      KidsAreCanon(head, init, inObject);
      SpacedSoFar(head, init, e, inObject);
      KidIsCanon(BuildKids(head, init, inObject), head + CanonKids(init, inObject), e, inObject,
                 inObject ==> Spaced(init), FaithfulKids(init, inObject));
      assert head + CanonKids(kids, inObject) == (head + CanonKids(init, inObject)) + CanonKid(e, inObject);
    }
  }

  lemma {:induction false} KidIsCanon(b: Partial, c: seq<Tree>, e: Element, inObject: bool,
                                         spaced: bool, faithful: bool)
    requires CompilesKid(e, inObject) && WellFormedKid(e, inObject)
    requires Compared(b.kids, c, spaced, faithful)
    ensures Compared(BuildKid(b, e, inObject).kids, c + CanonKid(e, inObject),
                     spaced && (inObject && e.tag == "functions" ==> b.status.Fresh?),
                     faithful && FaithfulKid(e, inObject))
    decreases e, 2
  {
    hide Built, Canon, Faithful, Compiles, CanonParams, CanonFunctions, BuiltParams, BuildFunctions, PrefixesSettle;
    hide Compared;
    KindByTag(e, inObject);
    match KindOf(e, inObject)
    case Heading =>
      assert c + [] == c;
    case Parameters => ParamsKidIsCanon(b.kids, c, e.children, spaced, faithful);
    case Functions => FunctionsKidIsCanon(b, c, e.children, ReadEntries(e.children).value, spaced, faithful);
    case Sub(asObject) =>
      BuiltIsCanon(e, asObject);
      ComparedSnoc(b.kids, c, Built(e, asObject), Canon(e), spaced, faithful);
  }

  lemma {:induction false} ParamsKidIsCanon(b: seq<Tree>, c: seq<Tree>, params: seq<Element>,
                                               spaced: bool, faithful: bool)
    requires forall k :: 0 <= k < |params| ==> GoodParam(params[k])
    requires Compared(b, c, spaced, faithful)
    ensures Compared(b + [Tree("parameters", None, BuiltParams(params))],
                     c + [Tree("parameters", None, CanonParams(params))],
                     spaced, faithful && forall k :: 0 <= k < |params| ==> !LosesNotify(params[k]))
  {
    ParamsAreCanon(params);
    ComparedSnoc(b, c, Tree("parameters", None, BuiltParams(params)), Tree("parameters", None, CanonParams(params)),
                 spaced, faithful);
  }

  lemma {:induction false} FunctionsKidIsCanon(b: Partial, c: seq<Tree>, kids: seq<Element>, entries: seq<Entry>,
                                                  spaced: bool, faithful: bool)
    requires ReadEntries(kids) == Some(entries) && forall k :: 0 <= k < |kids| ==> GoodEntry(kids[k])
    requires Compared(b.kids, c, spaced, faithful)
    ensures Compared(BuildFunctions(b, entries).kids, c + [Tree("functions", None, CanonFunctions(kids))],
                     spaced && b.status.Fresh?, faithful && PrefixesSettle(kids))
  {
    if b.status.Fresh? {
      HandlersRoundTrip(kids, entries);
      ComparedSnoc(b.kids, c, Tree("functions", None, BuiltFunctions(entries)),
                   Tree("functions", None, CanonFunctions(kids)),
                   spaced, faithful);
    }
  }

  lemma {:induction false} ParamsAreCanon(params: seq<Element>)
    requires forall k :: 0 <= k < |params| ==> GoodParam(params[k])
    ensures BuiltParams(params) == CanonParams(params) <==>
            forall k :: 0 <= k < |params| ==> !LosesNotify(params[k])
  {
    forall k | 0 <= k < |params|
      ensures BuiltParams(params)[k] == CanonParams(params)[k] <==> !LosesNotify(params[k])
    {
      ParamRoundTrip(params[k]);
    }
    var built, canon := BuiltParams(params), CanonParams(params);
    assert built == canon <==> forall k :: 0 <= k < |params| ==> built[k] == canon[k];
  }
}
