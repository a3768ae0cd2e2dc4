/** The number tables shared by the generator (Python dictionaries) and the runtime (C arrays).
    The two sides are written down separately, as in the sources, and proved to agree. */
module DmTables {
  import opened Common

  const FUNC_COUNT: nat := 30
  const OBJECT_TYPE_COUNT: nat := 5
  const PARAM_TYPE_COUNT: nat := 4

  /** Numbers with a row in the respective tables. */
  type FuncNum = n: nat | n < FUNC_COUNT
  type ObjectNum = n: nat | n < OBJECT_TYPE_COUNT
  type ParamNum = n: nat | n < PARAM_TYPE_COUNT

  // ----- the generator's dictionaries, as the list of their keys by number -----

  const GEN_FUNC_TAGS: seq<string> := [
    "func_GetEntryCount", "func_GetEntryStatus", "func_GetEntry", "func_AddEntry",
    "func_DelEntry", "func_IsUpdated", "func_Synchronize", "func_Lock",
    "func_Unlock", "func_CheckInstance", "func_GetParamBoolValue", "func_GetParamIntValue",
    "func_GetParamUlongValue", "func_GetParamStringValue", "func_GetBulkParamValues", "func_SetParamBoolValue",
    "func_SetParamIntValue", "func_SetParamUlongValue", "func_SetParamStringValue", "func_SetBulkParamValues",
    "func_Validate", "func_Commit", "func_Rollback", "func_Init",
    "func_Async_Init", "func_Unload", "func_MemoryCheck", "func_MemoryUsage",
    "func_MemoryTable", "func_IsObjSupported"
  ]

  const GEN_OBJECT_TYPES: seq<string> := ["object", "staticTable", "dynamicTable", "writableTable", "dynWritableTable"]

  /** Dictionary lookup among the first `n` keys: the number of a key. */
  function Lookup(table: seq<string>, key: string, n: nat): (id: Option<nat>)
    requires n <= |table|
    ensures id.Some? ==> id.value < n
  {
    if n == 0 then None
    else if table[n - 1] == key then Some(n - 1)
    else Lookup(table, key, n - 1)
  }

  lemma {:induction false} LookupFinds(table: seq<string>, key: string, n: nat)
    requires n <= |table|
    ensures Lookup(table, key, n).Some? ==> table[Lookup(table, key, n).value] == key
    ensures Lookup(table, key, n).None? ==> key !in table[..n]
  {
    if n > 0 {
      LookupFinds(table, key, n - 1);
    }
  }

  /** The number the generator gives a function tag. */
  function FuncId(tag: string): Option<FuncNum> {
    Lookup(GEN_FUNC_TAGS, tag, FUNC_COUNT)
  }

  function ObjectTypeId(name: string): Option<ObjectNum> {
    Lookup(GEN_OBJECT_TYPES, name, OBJECT_TYPE_COUNT)
  }

  // ----- the runtime's arrays: each array of strings has a parallel array of lengths -----

  const FUNC_NAMES: seq<string> := [
    "GetEntryCount", "GetEntryStatus", "GetEntry", "AddEntry", "DelEntry",
    "IsUpdated", "Synchronize", "Lock", "Unlock", "CheckInstance",
    "GetParamBoolValue", "GetParamIntValue", "GetParamUlongValue", "GetParamStringValue", "GetBulkParamValues",
    "SetParamBoolValue", "SetParamIntValue", "SetParamUlongValue", "SetParamStringValue", "SetBulkParamValues",
    "Validate", "Commit", "Rollback", "Init", "Async_Init",
    "Unload", "MemoryCheck", "MemoryUsage", "MemoryTable", "IsObjSupported"
  ]

  const FUNC_NAME_LENS: seq<nat> := [
    13, 14, 8, 8, 8, 9, 11, 4, 6, 13, 17, 16, 18, 19, 18, 17, 16, 18, 19, 18, 8, 6, 8, 4, 10, 6, 11, 11, 11, 14
  ]

  function FuncName(id: FuncNum): string {
    FUNC_NAMES[id]
  }

  function FuncNameLen(id: FuncNum): nat {
    FUNC_NAME_LENS[id]
  }

  const OBJECT_TYPES: seq<string> := ["object", "staticTable", "dynamicTable", "writableTable", "dynWritableTable"]

  const OBJECT_TYPE_LENS: seq<nat> := [6, 11, 12, 13, 16]

  function ObjectTypeName(id: ObjectNum): string {
    OBJECT_TYPES[id]
  }

  function ObjectTypeLen(id: ObjectNum): nat {
    OBJECT_TYPE_LENS[id]
  }

  const PARAM_TYPES: seq<string> := ["boolean", "int", "unsignedInt", "string"]

  const PARAM_TYPE_LENS: seq<nat> := [7, 3, 11, 6]

  const PARAM_SYNTAXES: seq<string> := ["bool", "int", "uint32", "string"]

  const PARAM_SYNTAX_LENS: seq<nat> := [4, 3, 6, 6]

  function ParamTypeName(id: ParamNum): string {
    PARAM_TYPES[id]
  }

  function ParamTypeLen(id: ParamNum): nat {
    PARAM_TYPE_LENS[id]
  }

  function ParamSyntaxName(id: ParamNum): string {
    PARAM_SYNTAXES[id]
  }

  function ParamSyntaxLen(id: ParamNum): nat {
    PARAM_SYNTAX_LENS[id]
  }

  /** A tag is "func_" and then the name, and the length is that of the name. */
  predicate RowAgrees(id: FuncNum) {
    && |GEN_FUNC_TAGS[id]| >= 5 && GEN_FUNC_TAGS[id][..5] == "func_" && GEN_FUNC_TAGS[id][5..] == FuncName(id)
    && FuncNameLen(id) == |FuncName(id)|
  }

  lemma {:induction false} FuncRowsAgree0(id: nat)
    requires 0 <= id < 3
    ensures RowAgrees(id)
  {
  }

  lemma {:induction false} FuncRowsAgree3(id: nat)
    requires 3 <= id < 6
    ensures RowAgrees(id)
  {
  }

  lemma {:induction false} FuncRowsAgree6(id: nat)
    requires 6 <= id < 9
    ensures RowAgrees(id)
  {
  }

  lemma {:induction false} FuncRowsAgree9(id: nat)
    requires 9 <= id < 12
    ensures RowAgrees(id)
  {
  }

  lemma {:induction false} FuncRowsAgree12(id: nat)
    requires 12 <= id < 15
    ensures RowAgrees(id)
  {
  }

  lemma {:induction false} FuncRowsAgree15(id: nat)
    requires 15 <= id < 18
    ensures RowAgrees(id)
  {
  }

  lemma {:induction false} FuncRowsAgree18(id: nat)
    requires 18 <= id < 21
    ensures RowAgrees(id)
  {
  }

  lemma {:induction false} FuncRowsAgree21(id: nat)
    requires 21 <= id < 24
    ensures RowAgrees(id)
  {
  }

  lemma {:induction false} FuncRowsAgree24(id: nat)
    requires 24 <= id < 27
    ensures RowAgrees(id)
  {
  }

  lemma {:induction false} FuncRowsAgree27(id: nat)
    requires 27 <= id < 30
    ensures RowAgrees(id)
  {
  }

  /** The runtime's lengths are the lengths of its function names, and those names, prefixed with
      "func_", are the generator's tags under the same numbers. */
  lemma {:induction false} FuncTablesAgree(id: FuncNum)
    ensures |GEN_FUNC_TAGS| == FUNC_COUNT
    ensures GEN_FUNC_TAGS[id] == "func_" + FuncName(id)
    ensures FuncNameLen(id) == |FuncName(id)|
  {
    if id < 3 { FuncRowsAgree0(id); }
    else if id < 6 { FuncRowsAgree3(id); }
    else if id < 9 { FuncRowsAgree6(id); }
    else if id < 12 { FuncRowsAgree9(id); }
    else if id < 15 { FuncRowsAgree12(id); }
    else if id < 18 { FuncRowsAgree15(id); }
    else if id < 21 { FuncRowsAgree18(id); }
    else if id < 24 { FuncRowsAgree21(id); }
    else if id < 27 { FuncRowsAgree24(id); }
    else { FuncRowsAgree27(id); }
    assert GEN_FUNC_TAGS[id] == GEN_FUNC_TAGS[id][..5] + GEN_FUNC_TAGS[id][5..];
  }

  lemma {:induction false} ObjectTablesAgree(id: ObjectNum)
    ensures GEN_OBJECT_TYPES[id] == ObjectTypeName(id)
    ensures ObjectTypeLen(id) == |ObjectTypeName(id)|
  {
  }

  lemma {:induction false} ParamTablesAgree(id: ParamNum)
    ensures ParamTypeLen(id) == |ParamTypeName(id)|
    ensures ParamSyntaxLen(id) == |ParamSyntaxName(id)|
  {
  }
}
