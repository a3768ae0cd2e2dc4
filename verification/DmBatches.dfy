/** The batching of function entries: what the generator splits into calls, the runtime puts
    together again. */
module DmBatches {
  import opened Common
  import opened DmEmit
  import opened DmMachine
  import opened DmDom
  import opened DmBuilt

  ghost predicate AllFunctions(prog: seq<Instr>, src: nat) {
    forall k :: 0 <= k < |prog| ==> prog[k].MakeFunctions? && prog[k].fnSrc == src
  }

  /** The handlers a list of functions statements makes, in order. */
  ghost function FlatCalls(prog: seq<Instr>, src: nat): seq<Field>
    requires AllFunctions(prog, src)
  {
    if prog == [] then []
    else FlatCalls(prog[..|prog| - 1], src) + FuncFields(prog[|prog| - 1].prefix, prog[|prog| - 1].ids)
  }

  lemma {:induction false} EffectiveSnoc(entries: seq<Entry>, e: Entry, k: nat)
    requires k < |entries|
    ensures EffectivePrefix(entries + [e], k) ==
            if EffectivePrefix(entries, k) != "" then EffectivePrefix(entries, k) else e.prefix
    decreases |entries| - k
  {
    if k + 1 < |entries| {
      EffectiveSnoc(entries, e, k + 1);
    }
  }

  /** What the batching loop has to show after some entries: handlers already written stand under
      their final prefix, pending ones will get the prefix in force. */
  ghost predicate BatchCovers(b: Batch, entries: seq<Entry>, src: nat)
  {
    && AllFunctions(b.written, src)
    && var flat := FlatCalls(b.written, src);
       |flat| + |b.pending| == |entries|
       && (forall k :: 0 <= k < |flat| ==>
             EffectivePrefix(entries, k) != "" && flat[k] == FuncField(EffectivePrefix(entries, k), entries[k].id))
       && (forall k :: |flat| <= k < |entries| ==>
             EffectivePrefix(entries, k) == b.prefix && b.pending[k - |flat|] == entries[k].id)
  }

  lemma {:induction false} BatchCoversAll(entries: seq<Entry>, src: nat)
    ensures BatchCovers(BatchAll(entries, src), entries, src)
  {
    if entries != [] {
      var init, e := entries[..|entries| - 1], entries[|entries| - 1];
      BatchCoversAll(init, src);
      BatchCoversSnoc(BatchAll(init, src), init, e, src);
      assert init + [e] == entries;
    }
  }

  lemma {:induction false} BatchCoversSnoc(b: Batch, init: seq<Entry>, e: Entry, src: nat)
    requires BatchCovers(b, init, src)
    ensures BatchCovers(BatchStep(b, e, src), init + [e], src)
  {
    hide FuncField;
    EffectiveSnocAll(init, e);
    if e.prefix != b.prefix && b.prefix != "" {
      BatchFlushed(b, init, src);
    }
  }

  lemma {:induction false} EffectiveSnocAll(init: seq<Entry>, e: Entry)
    ensures forall k :: 0 <= k < |init| ==>
              EffectivePrefix(init + [e], k) ==
              if EffectivePrefix(init, k) != "" then EffectivePrefix(init, k) else e.prefix
    ensures EffectivePrefix(init + [e], |init|) == e.prefix
  {
    forall k | 0 <= k < |init|
      ensures EffectivePrefix(init + [e], k) ==
              if EffectivePrefix(init, k) != "" then EffectivePrefix(init, k) else e.prefix
    {
      EffectiveSnoc(init, e, k);
    }
  }

  /** Writing the pending batch settles all entries read so far. */
  lemma {:induction false} BatchFlushed(b: Batch, init: seq<Entry>, src: nat)
    requires BatchCovers(b, init, src) && b.prefix != ""
    ensures BatchCovers(Batch(b.written + [MakeFunctions(src, b.prefix, b.pending)], "", []), init, src)
  {
    hide FuncField, FlatCalls, AllFunctions, EffectivePrefix;
    FlatCallsSnoc(b.written, MakeFunctions(src, b.prefix, b.pending), src);
    var flat := FlatCalls(b.written, src);
    forall k | |flat| <= k < |init|
      ensures FuncFields(b.prefix, b.pending)[k - |flat|] == FuncField(EffectivePrefix(init, k), init[k].id)
    {
      assert b.pending[k - |flat|] == init[k].id;
    }
  }

  /** Splitting the entries into batches and writing one statement a batch loses nothing: the
      statements make one handler an entry, in order. */
  lemma {:induction false} BatchesKeepEntries(entries: seq<Entry>, d: nat)
    requires d > 0
    ensures AllFunctions(EmitFuncs(entries, d), d - 1)
    ensures FlatCalls(EmitFuncs(entries, d), d - 1) == FunctionCalls(entries)
  {
    BatchCoversAll(entries, d - 1);
    LastBatch(BatchAll(entries, d - 1), entries, d - 1);
  }

  lemma {:induction false} FlatCallsSnoc(prog: seq<Instr>, i: Instr, src: nat)
    requires AllFunctions(prog, src) && i.MakeFunctions? && i.fnSrc == src
    ensures AllFunctions(prog + [i], src)
    ensures FlatCalls(prog + [i], src) == FlatCalls(prog, src) + FuncFields(i.prefix, i.ids)
  {
    hide FuncField, FuncFields;
    assert (prog + [i])[..|prog + [i]| - 1] == prog;
  }

  lemma {:induction false} LastBatch(b: Batch, entries: seq<Entry>, src: nat)
    requires BatchCovers(b, entries, src)
    ensures AllFunctions(b.written + [MakeFunctions(src, b.prefix, b.pending)], src)
    ensures FlatCalls(b.written + [MakeFunctions(src, b.prefix, b.pending)], src) == FunctionCalls(entries)
  {
    hide FuncField, FlatCalls, AllFunctions, EffectivePrefix;
    FlatCallsSnoc(b.written, MakeFunctions(src, b.prefix, b.pending), src);
    var flat := FlatCalls(b.written, src);
    forall k | |flat| <= k < |entries|
      ensures FuncFields(b.prefix, b.pending)[k - |flat|] == FunctionCalls(entries)[k]
    {
      assert b.pending[k - |flat|] == entries[k].id;
    }
  }

  /** The state after the functions node of `p` is open and `fields` are added to it. */
  ghost function Opened(s: State, p: nat, fields: seq<Field>): State
    requires Ok(s) && p < |s.heap|
  {
    var o := OpenFunctions(s, p);
    o.(heap := AddFields(o.heap, o.cur, fields))
  }

  lemma {:induction false} OpenedMore(s: State, p: nat, fields: seq<Field>, i: Instr)
    requires Ok(s) && p < |s.heap|
    requires i.MakeFunctions? && i.fnSrc in s.regs && s.regs[i.fnSrc] == p
    ensures Ready(i, Opened(s, p, fields))
    ensures Step(i, Opened(s, p, fields)) == Opened(s, p, fields + FuncFields(i.prefix, i.ids))
  {
    var o := OpenFunctions(s, p);
    FieldsConcat(o.heap, o.cur, fields, FuncFields(i.prefix, i.ids));
  }

  /** A nonempty list of functions statements on one node opens its functions node once and then
      only adds handlers to it. */
  lemma {:induction false} ExecFunctions(prog: seq<Instr>, src: nat, s: State)
    requires AllFunctions(prog, src) && prog != []
    requires Ok(s) && src in s.regs
    ensures Exec(prog, s) == Some(Opened(s, s.regs[src], FlatCalls(prog, src)))
  {
    var p := s.regs[src];
    var init, i := prog[..|prog| - 1], prog[|prog| - 1];
    if init == [] {
      assert prog == [i];
      ExecFirst(i, s);
      assert FlatCalls(prog, src) == FuncFields(i.prefix, i.ids);
    } else {
      ExecFunctions(init, src, s);
      OpenedMore(s, p, FlatCalls(init, src), i);
    }
  }

  lemma {:induction false} ExecFirst(i: Instr, s: State)
    requires i.MakeFunctions? && Ok(s) && i.fnSrc in s.regs
    ensures Exec([i], s) == Some(Opened(s, s.regs[i.fnSrc], FuncFields(i.prefix, i.ids)))
  {
    ExecOne(i, s);
    assert Step(i, s) == Opened(s, s.regs[i.fnSrc], FuncFields(i.prefix, i.ids));
  }
}
