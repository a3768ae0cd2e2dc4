# Models of the CCSP common library: data-model packing, preprocessing, memory accounting

Dafny models of four parts of the CCSP common library, with proofs of what each is for.

- **The DM pack** turns a data-model document into C code and runs that code. `dm_pack_code_gen.py`
  writes straight-line calls with one variable `P<depth>` per depth; `dm_pack_xml_helper.c` runs the
  calls and builds a DOM, keeping two globals in step with their order. Modelled as a compiler
  (`DmEmit`, and the class `DmCodeGen.CodeGenerator` with the generator's loops), a machine on values
  (`DmMachine`), a class-based runtime with real nodes and linked queues (`DmRuntime`), a meaning of
  documents that includes every quirk (`DmBuilt`) and the meaning a reader would expect (`DmCanon`),
  which goes by tags, texts and positions alone. `DmTheorem.CompilerCorrect` ties them together.
- **The conditional preprocessor** of the same script rewrites blocks from the inside out until no
  directive is left. Modelled over lines (`PrePasses`), with the loop as a class (`Preprocessor`), and
  compared with an evaluator that takes the document as a tree, from the outside in (`PreDoc`).
- **The tracking allocator** of `ansc_memory.c`: per-component and global counters (`Books`), blocks
  with their size in front and resize by allocating, copying and freeing in one array of bytes
  (`LiveBlocks`, `CountingAllocator`), the hash table of live blocks (`AllocTable`), the guard bytes
  (`GuardedBlock`), and the recording allocator that puts table, guards and counters together
  (`RecordingAllocator`).
- **Structures they rest on**: the head/tail queue and the singly linked list (`Lists`), the buffer
  descriptor's window (`BufferDescriptor`) and alignment-aware word access (`WordAccess`).

`Platform` fixes the machine: ULONG and pointers have 32 bits, a plain char is signed. Where the source
adds or subtracts on a ULONG, USHORT or char, so does the model, wrap-around included. Every lemma
carries `{:induction false}`: each induction is written out.

## Where the code does not do what one would expect

- A parameter of a builtin type with another syntax than the type's own, given with `writable`, loses
  `notify` "off" (`DmTheorem.QuietParamLosesOff`; dm_pack_code_gen.py line 268 tests a number for
  truth). `DmFaithful.ParamRoundTrip`: those are exactly the parameters that do not come through.
- Handlers with an empty prefix are grouped with the next prefix; a second functions element of one
  object is merged into the first, or its handlers hang on no node
  (`DmTheorem.SecondFunctionsVanish`, `DmFaithful.HandlersRoundTrip`). `DmFaithful.BuiltIsCanon` says
  for which documents the DOM is the expected one: if and only if.
- The emitted function declares one variable too few when an element stands at the greatest counted
  depth, and fewer still when a `parameter` or `function` tag stands outside its list
  (`DmRegisters.DeepestElementUndeclared`, `DmRegisters.StrayParameterUndeclared`).
  `DmRegisters.DeclarationsCover` says for which documents all are declared: if and only if.
- A parameter of another type than the builtin ones, without a syntax, gets the syntax "bool", the
  first row of the runtime's table (`DmFaithful.MissingSyntaxBecomesBool`); an object with an empty
  name element is called "None" (`DmFaithful.EmptyNameReadsNone`).
- An object that stands directly in another is written as a plain element and gets no default type
  (`DmTheorem.NestedObjectLosesType`).
- The preprocessor does not end on an `elseif` without `else`, on a second `elseif`, on a test of more
  than five operands, or when an undefined reference is left in the value; `Preprocessor.LoopEndsIff`
  says that these are all the ways among documents whose bodies all open with a plain line. Where a
  body is empty, the directive that closes it is taken for its first line: the loop does not end
  (`Preprocessor.EmptyBlockIsStuck`, `Preprocessor.EmptyElseIsStuck`), or the else branch is lost or
  its `else` left behind (`Preprocessor.EmptyBodyBeforeElse`). Text can be lost, too, when a body opens
  with a block (`Preprocessor.BodyOpeningWithBlockLosesText`).
- Component identifiers are chars: the 129th component gets 127 again (`Books.IdsDistinctUpTo128`).
- A block given back under another component's name leaves its owner's size too large and makes the
  other's wrong as well if that is listed already; the total stays right
  (`LiveBlocks.FreeUnderOtherName`, `LiveBlocks.FreeCounted`).
- The recording allocator starts its table anew at every allocation (ansc_memory.c line 1029), so it
  knows a block only until the next one is asked for (`AllocTable.DetailForgets`). Freed after that, a
  block is counted down, but neither looked at nor given back
  (`RecordingAllocator.Recorder.FreeMemoryRecordDetail`), and a resize never gives the old block back
  (`RecordingAllocator.Recorder.ReAllocateMemoryRecordDetail`).
- Guards are looked for where the stored size says; a damaged size can hide a damaged guard
  (`GuardedBlock.DamagedSizeHides`).

## Model

| member | source | states |
|---|---|---|
| DmTheorem.CompilerCorrect | source/dm_pack/dm_pack_code_gen.py:142-311 | For every document the generator gets through, the emitted program runs on the empty runtime without using an unset variable, leaves the root in P0 and the DOM `Built` describes; for well-formed documents that DOM is the canonical tree if and only if the document is faithful |
| DmTheorem.BuildDom | source/dm_pack/dm_pack_code_gen.py:313-329 | The generator's loops followed by the linked runtime, as methods, fail exactly on the documents that do not compile, which of the well-formed ones are those with an object type or function tag outside the tables; otherwise they build that same DOM |
| DmTheorem.EveryRunKeepsShape | source/dm_pack/dm_pack_xml_helper.c:386-513 | After any sequence of node-creating calls the nodes form a forest: every node once in its parent's list, in creation order, level one more than the parent's, stored size the length of the stored text |
| DmTheorem.QuietParamLosesOff | source/dm_pack/dm_pack_code_gen.py:266-275 | Well-formed parameters that do not come through: builtin type, other syntax, writable given, notify "off" |
| DmTheorem.SecondFunctionsVanish | source/dm_pack/dm_pack_xml_helper.c:240-244 | A well-formed object whose second functions element leaves no node |
| DmTheorem.NestedObjectLosesType | source/dm_pack/dm_pack_code_gen.py:160-166 | Of every object standing directly in another, without an object type of its own, the tree built is not the canonical one |
| DmFaithful.BuiltIsCanon | source/dm_pack/dm_pack_code_gen.py:142-285 | For well-formed documents the tree built equals the canonical tree exactly when no parameter loses its notify, prefixes settle and functions elements of one object are spaced; an element is taken for an object just when it is called one |
| DmFaithful.CompilesIffKnown | source/dm_pack/dm_pack_code_gen.py:142-197 | The generator gets through a well-formed document exactly when its object types and function tags are those of the tables |
| DmFaithful.ParamRoundTrip | source/dm_pack/dm_pack_code_gen.py:209-285 | Of all well-formed parameters, the chosen call followed by the runtime gives back exactly the given fields, except just those of one shape |
| DmFaithful.CallKeepsFields | source/dm_pack/dm_pack_code_gen.py:246-284 | The sixteen call shapes keep type, syntax, writable and notify, but for the one lost flag, and for a missing syntax of a type that is not builtin, which becomes "bool" |
| DmFaithful.MissingSyntaxBecomesBool | source/dm_pack/dm_pack_xml_helper.c:285-384 | Every parameter with such a type and no syntax has the syntax "bool" in the DOM |
| DmFaithful.ReadFieldsSummary | source/dm_pack/dm_pack_code_gen.py:210-245 | What the loop over a parameter's children reads is what the children say, in whatever order they stand |
| DmFaithful.HandlersRoundTrip | source/dm_pack/dm_pack_code_gen.py:168-197 | Handlers written as a prefix followed by the function's name come back as they were exactly when no nonempty prefix follows an empty one |
| DmEmit.BeforeIsFirst | source/dm_pack/dm_pack_code_gen.py:178-178 | The split at the function's name yields the text before its first occurrence, the whole text when there is none |
| DmFaithful.PrefixFound | source/dm_pack/dm_pack_code_gen.py:178-178 | For a text that ends in the function's name and has it nowhere earlier, what is taken for the prefix is the rest |
| DmFaithful.HeadingsRoundTrip | source/dm_pack/dm_pack_code_gen.py:142-159 | Name, object type (by default "object") and instance limit come first in an object, with the texts of the document |
| DmFaithful.EmptyNameReadsNone | source/dm_pack/dm_pack_code_gen.py:146-159 | An object whose name element is empty gets the name "None" |
| DmBatches.BatchesKeepEntries | source/dm_pack/dm_pack_code_gen.py:176-197 | Splitting a functions list into calls by prefix loses, adds and reorders nothing: played back, the calls name every handler once, in order |
| DmBatches.ExecFunctions | source/dm_pack/dm_pack_xml_helper.c:232-271 | Any number of consecutive function calls on one object has the effect of opening its functions node once and adding all handlers to it |
| DmTables.FuncTablesAgree | source/dm_pack/dm_pack_xml_helper.c:91-172 | The generator's dictionary, the runtime's names and their stored lengths agree for all 30 functions |
| DmTables.ObjectTablesAgree | source/dm_pack/dm_pack_xml_helper.c:198-211 | So do the object types |
| DmTables.ParamTablesAgree | source/dm_pack/dm_pack_xml_helper.c:173-197 | The runtime's stored lengths of parameter types and syntaxes fit its strings |
| DmFaithful.TypeRow | source/dm_pack/dm_pack_code_gen.py:220-233 | The number the generator gives a parameter type and the default syntax it assumes are those of the runtime's tables at that number, for the four builtin types and no other |
| DmRun.RunNode | source/dm_pack/dm_pack_code_gen.py:287-311 | Code of an element at any depth, run from any reachable state: its node becomes the last child of the node in P(depth-1), nothing else in the DOM changes, no variable below its depth is touched, the tree below is `Built` |
| DmRun.RunRoot | source/dm_pack/dm_pack_code_gen.py:327-328 | The same for the whole function on the empty runtime |
| DmRun.RunFunctions | source/dm_pack/dm_pack_code_gen.py:163-197 | Functions code in each of the three states of the globals: a new node, more handlers for the open one, or handlers without a parent |
| DmRun.RunParams | source/dm_pack/dm_pack_code_gen.py:199-285 | Parameters code adds one parameters node holding the parameters in order |
| DmCodeGen.CodeGenerator.CodeGenElement | source/dm_pack/dm_pack_code_gen.py:287-311 | The method appends to the output exactly `Emit` of the element, and fails exactly when the element does not compile |
| DmCodeGen.CodeGenerator.CodeGenObject | source/dm_pack/dm_pack_code_gen.py:142-166 | Likewise for objects, two loops over the children |
| DmCodeGen.CodeGenerator.CodeGenFuncs | source/dm_pack/dm_pack_code_gen.py:168-197 | The loop with its running prefix and batch writes what the batches of the whole list are; it fails on an unknown tag or a missing text |
| DmCodeGen.CodeGenerator.CodeGenParams | source/dm_pack/dm_pack_code_gen.py:199-285 | The loop over the parameters writes one node and one call a parameter |
| DmRuntime.Runtime.CreateNode | source/dm_pack/dm_pack_xml_helper.c:386-472 | With real nodes and linked child queues: one node more, linked last under its parent, the machine's heap grown accordingly, whether the text size is passed or 0 |
| DmRuntime.Runtime.CreatePNode | source/dm_pack/dm_pack_xml_helper.c:474-513 | The same without a text |
| DmRuntime.Runtime.CreateObject | source/dm_pack/dm_pack_xml_helper.c:216-230 | Node, name, type, limit in that order; the current functions node is forgotten |
| DmRuntime.Runtime.CreateFunctions | source/dm_pack/dm_pack_xml_helper.c:232-271 | The functions node is opened when the object differs from the last one; then one handler a number, by a loop |
| DmRuntime.Runtime.CreateParam | source/dm_pack/dm_pack_xml_helper.c:273-283 | Name, type and syntax from the tables |
| DmRuntime.Runtime.CreateParamEx | source/dm_pack/dm_pack_xml_helper.c:285-384 | Given texts instead of the tables' where present; writable and notify only when 0 or 1 |
| DmRuntime.Runtime.Run | source/dm_pack/dm_pack_code_gen.py:321-328 | Running a program on the linked runtime keeps step with the machine and returns the node in P0 |
| DmRegisters.CalcMaxDepth | source/dm_pack/dm_pack_code_gen.py:129-140 | The recursive count with its running maximum |
| DmRegisters.MaxDepthIsLongest | source/dm_pack/dm_pack_code_gen.py:129-140 | The count is 0 for parameter and function tags; for any other element it is its own depth plus the length of the longest path downwards that meets neither tag |
| DmRegisters.RegsOfNode | source/dm_pack/dm_pack_code_gen.py:287-311 | The statements of an element name exactly the registers given to elements inside it, and the one below its depth |
| DmRegisters.DeclarationsCover | source/dm_pack/dm_pack_code_gen.py:322-326 | For every document the generator gets through: all registers named are declared if and only if no element is given one at the depth count (or at 1, if that is greater); none is above the depth count if and only if none is given right above it, which holds when parameter and function tags stand only where they belong |
| DmRegisters.RegsBelow | source/dm_pack/dm_pack_code_gen.py:287-311 | Registers are used without gaps: the code stays below a depth exactly when no element is given that one |
| DmRegisters.DeepestElementUndeclared | source/dm_pack/dm_pack_code_gen.py:322-326 | A document whose deepest element's variable is not declared |
| DmRegisters.StrayParameterUndeclared | source/dm_pack/dm_pack_code_gen.py:129-133 | A document with a parameter tag outside a list, where the count falls short |
| Preprocessor.LoopEndsIff | source/dm_pack/dm_pack_code_gen.py:426-443 | For every document whose bodies open with a plain line: some number of rounds leaves nothing to do if and only if every block has at most one elseif, a comparison followed by an else, every test has at most five operands, and no line of the value keeps an undefined reference |
| Preprocessor.Preprocessor.Preprocess | source/dm_pack/dm_pack_code_gen.py:432-443 | On those documents the loop stops at the first round with nothing left to do, and its result is the outside-in value of the document under all its definitions; or the document itself, if it has neither blocks nor references |
| Preprocessor.IncompleteNeverEnds | source/dm_pack/dm_pack_code_gen.py:394-443 | A block no pattern is made for keeps the loop going after any number of rounds, wherever it stands in the document |
| Preprocessor.SettledResult | source/dm_pack/dm_pack_code_gen.py:441-443 | After any number of rounds the lines are those of a document with the same value, every definition in force, and fewer blocks by at least one a round |
| Preprocessor.Preprocessor.Round | source/dm_pack/dm_pack_code_gen.py:441-443 | One round is: collect definitions, decide all lines, reduce |
| Preprocessor.Preprocessor.ParseCusVar | source/dm_pack/dm_pack_code_gen.py:335-349 | All definitions are in force before any reference is filled in; the last one of a name wins |
| PreDoc.LastDefinitionWins | source/dm_pack/dm_pack_code_gen.py:335-342 | A name has the value of the last line that defines it |
| PreDoc.NotDefined | source/dm_pack/dm_pack_code_gen.py:335-342 | A name no line defines keeps the value it had, or has none |
| PreDoc.ReferencesFilled | source/dm_pack/dm_pack_code_gen.py:342-349 | A reference to a defined name becomes the text of its value, another one stays, text stays, and a definition leaves an empty line |
| Preprocessor.Preprocessor.ApplyPattern | source/dm_pack/dm_pack_code_gen.py:398-423 | Matches found first, then each replaced everywhere |
| Preprocessor.DecideSettles | source/dm_pack/dm_pack_code_gen.py:351-392 | Deciding every condition beforehand, also in branches not taken, keeps the value and the blocks |
| PreDoc.TestHoldsIff | source/dm_pack/dm_pack_code_gen.py:362-392 | A test of any number of operands holds exactly when, of some operands joined by "&" without another "&" beside them, all are true; an operand is whether the name is defined, turned around by "!" and by ifndef |
| PreDoc.SimpleConditions | source/dm_pack/dm_pack_code_gen.py:351-392 | An ifdef of one name holds exactly when it is defined, an ifndef when it is not, a comparison as it comes out |
| PreMatch.ReduceKeeps | source/dm_pack/dm_pack_code_gen.py:394-424 | One round of the three patterns on a settled document is a settled document with the same value and the same blocks no pattern is made for; if there are none of those, at least one block goes |
| PreMatch.PassKeeps | source/dm_pack/dm_pack_code_gen.py:398-407 | So is a single pattern, with replacement of every copy of each match |
| PreMatch.FindIsReady | source/dm_pack/dm_pack_code_gen.py:395-398 | In a settled document a pattern finds exactly the innermost blocks of its kind, none across a border, and no block with another shape |
| PreMatch.ReplaceIsSubst | source/dm_pack/dm_pack_code_gen.py:407-407 | Replacing the text of an innermost block everywhere is substituting its chosen body in the tree |
| Preprocessor.NothingToDo | source/dm_pack/dm_pack_code_gen.py:426-430 | A document that needs no work has no block, and its value no reference |
| PrePasses.ReduceWithin | source/dm_pack/dm_pack_code_gen.py:394-424 | Reduction leaves only lines that were there |
| Preprocessor.ElseIfWithoutElseIsStuck | source/dm_pack/dm_pack_code_gen.py:395-441 | A document of one line of value that the loop never gets to |
| Preprocessor.BodyOpeningWithBlockLosesText | source/dm_pack/dm_pack_code_gen.py:397-423 | A document that two rounds empty although its value is a line |
| Preprocessor.EmptyBlockIsStuck | source/dm_pack/dm_pack_code_gen.py:397-441 | A block with an empty body and no else, whatever its condition and the text after it, keeps the loop going after any number of rounds |
| Preprocessor.EmptyBodyBeforeElse | source/dm_pack/dm_pack_code_gen.py:396-423 | A block with an empty body before an else of text: a false condition leaves nothing, losing the else branch; a true one leaves the else branch with its else, after the first and every later round |
| Preprocessor.EmptyElseIsStuck | source/dm_pack/dm_pack_code_gen.py:395-441 | A block of text with an empty else keeps the loop going after any number of rounds |
| Books.LegalRunsKeepRightBooks | source/debug_api/ansc_memory.c:244-306 | After any run in which no component gives back more than it holds: every size is what the component holds, every maximum the most it ever held, the total their sum, each component's peak within the global peak and that within the sum of the peaks |
| Books.IdsDistinctUpTo128 | source/debug_api/ansc_memory.c:197-242 | After any interleaving of counting and asking: names distinct; identifiers distinct exactly up to 128 components, and then n-1 down to 0 from the head |
| Books.IdsStay | source/debug_api/ansc_memory.c:219-241 | A listed component keeps its place from the end and its identifier |
| Books.NextIdOf | source/debug_api/ansc_memory.c:224-228 | The scan proposes the number of components, and 127 for the 129th |
| LiveBlocks.LiveFits | source/debug_api/ansc_memory.c:326-361 | Blocks apart in the address space never add up to more than it: the total cannot overflow |
| LiveBlocks.AllocationCounted | source/debug_api/ansc_memory.c:348-358 | An allocation keeps the counters right and raises the peak exactly when the total passes it |
| LiveBlocks.FreeCounted | source/debug_api/ansc_memory.c:397-421 | A free keeps the global counters right under any name, and the components' when named honestly |
| LiveBlocks.FreeKeepsSizesIff | source/debug_api/ansc_memory.c:397-421 | Components' sizes stay right exactly when the block is freed under its own component or is empty |
| LiveBlocks.FreeUnderOtherName | source/debug_api/ansc_memory.c:265-306 | Under another name: the owner's size is wrong exactly when the block is not empty, the other's exactly when besides it is listed, no third one's ever |
| LiveBlocks.ResizedBytes | source/debug_api/ansc_memory.c:364-394 | Clear, copy, clear the old size: the new block holds what fits of the old and then zeros, and no byte outside the new block and the old size differs |
| LiveBlocks.HeadersKeptByClient | source/debug_api/ansc_memory.c:308-324 | Clients writing inside their blocks never change a stored size |
| CountingAllocator.Allocator.HonestBooks | source/debug_api/ansc_memory.c:244-306 | In any reachable state with honest naming the list, counters and peaks are those of the live blocks and of the history |
| CountingAllocator.Allocator.MemoryGetComponentID | source/debug_api/ansc_memory.c:197-242 | The scanning loop finds the component or adds it with the next identifier, with sizes 0 |
| CountingAllocator.Allocator.MemoryCountSize | source/debug_api/ansc_memory.c:244-306 | The scanning loop's effect on list, counters and peaks |
| CountingAllocator.Allocator.GetMemorySizeCountSize | source/debug_api/ansc_memory.c:308-324 | The size read back in front of a live block is the one it was allocated with; 0 for null |
| CountingAllocator.Allocator.AllocateMemoryCountSize | source/debug_api/ansc_memory.c:326-361 | A cleared block behind its size, no other byte changed, counted under the name; null and no change when malloc fails |
| CountingAllocator.Allocator.FreeMemoryCountSize | source/debug_api/ansc_memory.c:397-421 | The block is gone and uncounted, only its stored size cleared; null is ignored |
| CountingAllocator.Allocator.ReAllocateMemoryCountSize | source/debug_api/ansc_memory.c:364-394 | Old bytes up to the smaller size, then zeros; other blocks untouched; the total changes by the difference; the peak is at least that of both blocks live; a failure changes nothing |
| AllocTable.LookupAfterRun | source/debug_api/ansc_memory.c:496-590 | After any run of additions and deletions a lookup finds the newest addition at the pointer that no deletion matched |
| AllocTable.LookupIsLast | source/debug_api/ansc_memory.c:556-590 | With live pointers distinct: found exactly when added and not deleted since |
| AllocTable.RemovedInBucket | source/debug_api/ansc_memory.c:635-668 | Removing in one bucket is removing in the one list of all items |
| AllocTable.FirstInBucket | source/debug_api/ansc_memory.c:556-590 | Looking in one bucket is looking in the one list of all items |
| AllocTable.Table.AddMemoryAllocItem | source/debug_api/ansc_memory.c:539-552 | The item goes first into bucket pointer mod 2048, with that index and the bucket's depth one up (mod 65536); without an item nothing changes |
| AllocTable.Table.GetMemoryAllocItem | source/debug_api/ansc_memory.c:556-590 | The scan of one bucket returns the newest item at the pointer, null when there is none |
| AllocTable.Table.GetPrevMemoryAllocItem | source/debug_api/ansc_memory.c:593-632 | The scan of all buckets returns the oldest item at the greatest tracked address below the pointer, null exactly when nothing is tracked below it |
| AllocTable.Table.DelMemoryAllocItem | source/debug_api/ansc_memory.c:635-668 | Exactly the newest item at the pointer goes; nothing happens when there is none |
| AllocTable.DetailForgets | source/debug_api/ansc_memory.c:1028-1029 | With the table started anew at each allocation, a lookup is right exactly when nothing is live at the pointer or the last allocation was there |
| GuardedBlock.Prepare | source/debug_api/ansc_memory.c:1042-1081 | The block made: size, 8 bytes 0x5C, cleared payload, 32 bytes 0x7A |
| GuardedBlock.IntactParts | source/debug_api/ansc_memory.c:1042-1081 | The four parts are disjoint and fill the block: it is intact exactly when size and both guards are |
| GuardedBlock.Inspect | source/debug_api/ansc_memory.c:1219-1281 | The two loops report the head and the tail exactly when some byte there is wrong |
| GuardedBlock.ReportedIff | source/debug_api/ansc_memory.c:1218-1281 | With the size intact, the loops, once reached, find fault exactly when a guard byte changed, never for writes inside the payload |
| RecordingAllocator.FreeReportsIff | source/debug_api/ansc_memory.c:1194-1281 | With the size intact, a free reports a live block exactly when a guard byte changed and the last allocation asked for was that of the block |
| RecordingAllocator.Recorder.FreeMemoryRecordDetail | source/debug_api/ansc_memory.c:1194-1326 | Null is ignored; else the size in front is counted down first, whether or not the table knows the block; an unknown block is left alone, a known one looked at, cleared and taken off the table |
| RecordingAllocator.Recorder.AllocateMemoryRecordDetail | source/debug_api/ansc_memory.c:1028-1132 | The table is emptied first, also when malloc then fails; the block is made with size and guards, counted, and recorded as the only item, with the identifier of a listed component of that name |
| RecordingAllocator.Recorder.AddMemoryAllocItem | source/debug_api/ansc_memory.c:496-553 | Hash, peak brought up to the total, component identifier asked for, item pushed: the item has the identifier of a listed component of that name; without an item only the peak |
| RecordingAllocator.Recorder.ItemsToldApart | source/debug_api/ansc_memory.c:539-547 | While at most 128 components are listed, items ever recorded for two of them carry different identifiers |
| RecordingAllocator.Recorder.ReAllocateMemoryRecordDetail | source/debug_api/ansc_memory.c:1136-1171 | The new block holds what the table knew of the old one's payload, then zeros, between good guards; the old one is counted down but, being forgotten, never given back |
| GuardedBlock.DamagedSizeHides | source/debug_api/ansc_memory.c:1194-1196 | A block with a damaged size and tail that is not reported |
| Lists.Queue.Visits | source/debug_api/ansc_common_structures.h:138-185 | Following the links from the head meets the entries in order and ends, and no other sequence does; the depth counts them below 65536 |
| Lists.Queue.PushEntry | source/debug_api/ansc_common_structures.h:145-163 | One entry more at the end, two links and the header written |
| Lists.Queue.PushEntryAtFront | source/debug_api/ansc_common_structures.h:165-179 | One entry more in front |
| Lists.SList.PushEntry | source/debug_api/ansc_common_structures.h:199-204 | One entry more in front of the stack list |
| Lists.SList.PopEntryByLink | source/util_api/ansc/AnscPlatform/ansc_slist.c:103-130 | Exactly the given entry is taken out, wherever it is; false and no change when it is not there |
| BufferDescriptor.Undo | source/cosa/include/ansc_buffer_descriptor.h:190-213 | Expand and shrink undo each other in either order, wrap-around included |
| BufferDescriptor.InsideAfterExpand | source/cosa/include/ansc_buffer_descriptor.h:190-199 | The sizes for which the window stays inside the buffer: if and only if |
| BufferDescriptor.InsideAfterShrink | source/cosa/include/ansc_buffer_descriptor.h:201-211 | The same for shrinking |
| BufferDescriptor.PartsFill | source/cosa/include/ansc_buffer_descriptor.h:170-171 | Offset, block and left size add up to the buffer size |
| BufferDescriptor.ShrinkTakes | source/cosa/include/ansc_buffer_descriptor.h:201-211 | ShrinkLeft drops bytes from the back of the block, ShrinkRight from the front |
| BufferDescriptor.ExpandLeftTakes | source/cosa/include/ansc_buffer_descriptor.h:190-194 | ExpandLeft takes in the bytes before the block |
| BufferDescriptor.ExpandRightTakes | source/cosa/include/ansc_buffer_descriptor.h:196-199 | ExpandRight takes in the bytes behind it |
| BufferDescriptor.Descriptor.AppendData | source/cosa/include/ansc_buffer_descriptor.h:228-236 | The data is concatenated to the block; no byte but those it takes changes |
| BufferDescriptor.Descriptor.AppendChar | source/cosa/include/ansc_buffer_descriptor.h:219-226 | The same for one byte |
| WordAccess.ReadsAreDecodings | source/debug_api/ansc_debug_wrapper_base.h:316-350 | At every address and in both byte orders the number read is the one the bytes encode, every halfword access even, every word access at a multiple of 4 |
| WordAccess.WriteUlong | source/debug_api/ansc_debug_wrapper_base.h:368-390 | Memory afterwards is the old one with the plain encoding of the number stored, by aligned accesses only |
| WordAccess.WriteUshort | source/debug_api/ansc_debug_wrapper_base.h:352-366 | The same for 16 bits |
| WordAccess.ReadAfterWrite | source/debug_api/ansc_debug_wrapper_base.h:316-468 | What was written is read back |
| WordAccess.WriteAfterRead | source/debug_api/ansc_debug_wrapper_base.h:316-468 | Writing back what was read changes nothing |
| WordAccess.HalvesOfWord | source/debug_api/ansc_debug_wrapper_base.h:394-468 | Which half of a written word lies first is the byte order |

## Left out

- XML text parsing, reading and writing files: documents start as trees, preprocessor input as lines.
- Regular expressions and Python's eval in the preprocessor: a comparison carries its outcome, directives are whole lines.
- Preprocess: bodies that are empty or open with another block. The directive next to them is then paired wrongly, as the lemmas on such documents show, but the result can be right by accident; no exact condition is given for them.
- Preprocess: a last line without a newline. The patterns ask for a newline after every `endif`, so a file that ends in a bare one never matches; the model's lines all end in newlines.
- Preprocess: a first operand that is negated. `<?ifdef !X?>` is caught by the comparison pattern (dm_pack_code_gen.py line 352) as `def`, `!` and `X`, on which eval raises, so the script stops; the model has no such tests. Nor has it the other directives, like include or foreach, that the script waits for without treating them.
- C string-literal escaping in the generated text and the fixed sizes of Name, buff1 and buff2: names fit and texts are plain.
- Texts outside ASCII, whose length in characters is not their length in bytes.
- Wrappers of DMPackCreateParamEx: one function, `DmMachine.Wrapped`, gives the arguments each of them passes on.
- Failing allocation in the DM pack runtime; the `#if 0` attribute code; owner and XML context handles of nodes.
- Spin locks: each function of the allocator is one step.
- Component names longer than 255 characters, which the allocator cuts off; failing allocation of a component item.
- AllocateMemoryCountSize: malloc giving a block for a request within 4 bytes of the largest ULONG, where the added header wraps around, is excluded; what C does with the block is undefined. The same in ReAllocateMemoryCountSize.
- AllocateMemoryRecordDetail: the same for requests within 44 bytes of the largest ULONG, where size, guards and payload together wrap around; also in ReAllocateMemoryRecordDetail.
- AddMemoryAllocItem: the item counters, which nothing else updates, and building the owner's description from the file name; tick count and description are parameters.
- AllocTable.Table: buckets are sequences. The list they are in the source, with removal by link, is `Lists.SList`, proved on its own.
- RecordingAllocator: blocks are arrays of their own, without the address space around them; the dump of a damaged block and the look for its predecessor are output only.
- Memory tracing and inspection, ansc_protection.c, ansc_debug.c: output, or code not compiled.
- DLists, AnscSListPushEntryAtBack and list lookups by index: easy variants of what is modelled.
- The mmap flag, free function and owner object of the buffer descriptor; 64-bit counters of the wrapper base: field copies.
