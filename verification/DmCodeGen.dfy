/** The generator as it is written: loops and recursion over the source tree that append statements
    to the output file. A method answers false where the Python code raises an exception. */
module DmCodeGen {
  import opened Common
  import opened DmXml
  import opened DmTables
  import opened DmEmit

  class CodeGenerator {
    var fout: seq<Instr>

    constructor ()
      ensures fout == []
    {
      fout := [];
    }

    method Write(i: Instr)
      modifies this
      ensures fout == old(fout) + [i]
    {
      fout := fout + [i];
    }

    method CodeGenParams(elem: Element, depth: nat)
      requires depth > 0
      modifies this
      ensures fout == old(fout) + EmitParams(elem.children, depth)
    {
      var params := elem.children;
      Write(MakePNode(depth, Some(depth - 1), "parameters"));
      var i := 0;
      while i < |params|
        invariant 0 <= i <= |params|
        invariant fout == old(fout) + [MakePNode(depth, Some(depth - 1), "parameters")]
                          + EmitParamCalls(params[..i], depth)
      {
        var f := CollectFields(params[i].children);
        assert params[..i + 1][..i] == params[..i];
        Write(MakeParam(depth, Shown(f.name), ChooseCall(f)));
        i := i + 1;
      }
      assert params[..i] == params;
    }

    /** The inner loop of codeGenParams. */
    method CollectFields(kids: seq<Element>) returns (f: Fields)
      ensures f == ReadFields(kids)
    {
      f := NO_FIELDS;
      var i := 0;
      while i < |kids|
        invariant 0 <= i <= |kids|
        invariant f == ReadFields(kids[..i])
      {
        assert kids[..i + 1][..i] == kids[..i];
        f := ReadField(f, kids[i]);
        i := i + 1;
      }
      assert kids[..i] == kids;
    }

    method CodeGenFuncs(elem: Element, depth: nat) returns (ok: bool)
      requires depth > 0
      modifies this
      ensures ok <==> ReadEntries(elem.children).Some?
      ensures ok ==> fout == old(fout) + EmitFuncs(ReadEntries(elem.children).value, depth)
    {
      hide ReadEntry, ReadEntries, BatchAll;
      EntriesStart(elem.children, depth - 1);
      var kids := elem.children;
      var funcPrefix, params: seq<FuncNum> := "", [];
      ghost var entries: seq<Entry> := [];
      ghost var b := BatchAll(entries, depth - 1);
      var i := 0;
      while i < |kids|
        invariant 0 <= i <= |kids|
        invariant ReadEntries(kids[..i]) == Some(entries)
        invariant b == BatchAll(entries, depth - 1) && b.prefix == funcPrefix && b.pending == params
        invariant fout == old(fout) + b.written
      {
        EntriesRound(kids, i, entries, depth - 1);
        var entry := ReadEntry(kids[i]);
        if entry.None? {
          EntriesStop(kids, i + 1);
          return false;
        }
        b := BatchStep(b, entry.value, depth - 1);
        var prefix := entry.value.prefix;
        if prefix != funcPrefix {
          if funcPrefix != "" {
            Write(MakeFunctions(depth - 1, funcPrefix, params));
            params := [];
          }
          funcPrefix := prefix;
        }
        params := params + [entry.value.id];
        entries := entries + [entry.value];
        i := i + 1;
      }
      assert kids[..i] == kids;
      Write(MakeFunctions(depth - 1, funcPrefix, params));
      ok := true;
    }

    lemma {:induction false} EntriesStart(kids: seq<Element>, src: nat)
      ensures ReadEntries(kids[..0]) == Some([]) && BatchAll([], src) == Batch([], "", [])
    {
    }

    lemma {:induction false} EntriesRound(kids: seq<Element>, i: nat, entries: seq<Entry>, src: nat)
      requires i < |kids| && ReadEntries(kids[..i]) == Some(entries)
      ensures ReadEntry(kids[i]).None? ==> ReadEntries(kids[..i + 1]) == None
      ensures ReadEntry(kids[i]).Some? ==>
                ReadEntries(kids[..i + 1]) == Some(entries + [ReadEntry(kids[i]).value]) &&
                BatchAll(entries + [ReadEntry(kids[i]).value], src) ==
                BatchStep(BatchAll(entries, src), ReadEntry(kids[i]).value, src)
    {
      assert kids[..i + 1][..i] == kids[..i];
      if ReadEntry(kids[i]).Some? {
        assert (entries + [ReadEntry(kids[i]).value])[..|entries|] == entries;
      }
    }

    lemma {:induction false} EntriesStop(kids: seq<Element>, k: nat)
      requires k <= |kids| && ReadEntries(kids[..k]).None?
      ensures ReadEntries(kids).None?
    {
      if k < |kids| {
        assert kids[..|kids| - 1][..k] == kids[..k];
        EntriesStop(kids[..|kids| - 1], k);
      } else {
        assert kids[..k] == kids;
      }
    }

    /** The first loop of codeGenObject. */
    method CollectHeadings(kids: seq<Element>) returns (ok: bool, h: Headings)
      ensures ok <==> ReadsObjectTypes(kids)
      ensures ok ==> h == ReadHeadings(kids)
    {
      h := Headings(Some(""), Some(0), None);
      var i := 0;
      while i < |kids|
        invariant 0 <= i <= |kids|
        invariant ReadsObjectTypes(kids[..i])
        invariant h == ReadHeadings(kids[..i])
      {
        var e := kids[i];
        assert kids[..i + 1][..i] == kids[..i] && kids[..i + 1][i] == e;
        if e.tag == "name" {
          h := h.(name := e.text);
        } else if e.tag == "objectType" {
          var id := if e.text.Some? then ObjectTypeId(e.text.value) else None;
          if id.None? {
            assert e in kids;
            return false, h;
          }
          h := h.(objType := id);
        } else if e.tag == "maxInstance" {
          h := h.(maxInstance := e.text);
        }
        i := i + 1;
      }
      assert kids[..i] == kids;
      ok := true;
    }

    method CodeGenObject(elem: Element, depth: nat) returns (ok: bool)
      requires depth > 0
      modifies this
      ensures ok <==> Compiles(elem, true)
      ensures ok ==> fout == old(fout) + Emit(elem, depth, true)
      decreases elem, 1
    {
      var headed, h := CollectHeadings(elem.children);
      if !headed {
        return false;
      }
      HeadingsFound(elem.children);
      if Truthy(h.maxInstance) {
        Write(MakeObject(depth, depth - 1, h.objType.value, Shown(h.name), h.maxInstance));
      } else {
        Write(MakeObject(depth, depth - 1, h.objType.value, Shown(h.name), None));
      }
      ok := CodeGenChildren(elem.children, depth + 1, true);
    }

    method CodeGenElement(elem: Element, depth: nat) returns (ok: bool)
      modifies this
      ensures ok <==> Compiles(elem, false)
      ensures ok ==> fout == old(fout) + Emit(elem, depth, false)
      decreases elem, 1
    {
      var src := if depth == 0 then None else Some(depth - 1);
      if elem.children == [] && Truthy(elem.text) {
        Write(MakeNode(depth, src, elem.tag, elem.text.value, |elem.text.value|));
      } else {
        Write(MakePNode(depth, src, elem.tag));
      }
      ok := CodeGenChildren(elem.children, depth + 1, false);
    }

    /** The loops over children at the end of codeGenObject (`inObject`) and of codeGenElement. */
    method CodeGenChildren(kids: seq<Element>, depth: nat, inObject: bool) returns (ok: bool)
      requires depth > 0
      modifies this
      ensures ok <==> CompilesAll(kids, inObject)
      ensures ok ==> fout == old(fout) + EmitKids(kids, depth, inObject)
      decreases kids, 0
    {
      hide CompilesAll, CompilesKid, EmitKids, EmitKid;
      ok := true;
      ChildrenStart(kids, depth, inObject);
      var i := 0;
      while i < |kids|
        invariant 0 <= i <= |kids|
        invariant ok && CompilesAll(kids[..i], inObject)
        invariant fout == old(fout) + EmitKids(kids[..i], depth, inObject)
      {
        ChildrenStep(kids, i, depth, inObject);
        ok := CodeGenChild(kids[i], depth, inObject);
        if !ok {
          ChildrenStop(kids, i + 1, inObject);
          return;
        }
        i := i + 1;
      }
      assert kids[..i] == kids;
    }

    method CodeGenChild(e: Element, depth: nat, inObject: bool) returns (ok: bool)
      requires depth > 0
      modifies this
      ensures ok <==> CompilesKid(e, inObject)
      ensures ok ==> fout == old(fout) + EmitKid(e, depth, inObject)
      decreases e, 2
    {
      ok := true;
      if inObject {
        if e.tag == "parameters" {
          CodeGenParams(e, depth);
        } else if e.tag == "functions" {
          ok := CodeGenFuncs(e, depth);
        } else if e.tag != "name" && e.tag != "objectType" && e.tag != "maxInstance" {
          ok := CodeGenElement(e, depth);
        }
      } else if e.tag == "object" {
        ok := CodeGenObject(e, depth);
      } else {
        ok := CodeGenElement(e, depth);
      }
    }

    lemma {:induction false} ChildrenStart(kids: seq<Element>, depth: nat, inObject: bool)
      requires depth > 0
      ensures CompilesAll(kids[..0], inObject) && EmitKids(kids[..0], depth, inObject) == []
    {
    }

    lemma {:induction false} ChildrenStep(kids: seq<Element>, i: nat, depth: nat, inObject: bool)
      requires i < |kids| && depth > 0
      ensures CompilesAll(kids[..i + 1], inObject) <==>
              CompilesAll(kids[..i], inObject) && CompilesKid(kids[i], inObject)
      ensures CompilesAll(kids[..i + 1], inObject) ==>
                EmitKids(kids[..i + 1], depth, inObject) ==
                EmitKids(kids[..i], depth, inObject) + EmitKid(kids[i], depth, inObject)
    {
      assert kids[..i + 1][..i] == kids[..i];
    }

    lemma {:induction false} ChildrenStop(kids: seq<Element>, k: nat, inObject: bool)
      requires k <= |kids| && !CompilesAll(kids[..k], inObject)
      ensures !CompilesAll(kids, inObject)
    {
      if k < |kids| {
        assert kids[..|kids| - 1][..k] == kids[..k];
        ChildrenStop(kids[..|kids| - 1], k, inObject);
      } else {
        assert kids[..k] == kids;
      }
    }
  }
}
