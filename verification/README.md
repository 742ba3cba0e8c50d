# A verified model of the qcvm virtual machine

qcvm runs QuakeC programs. Many of its parts come in two forms: a fast or restartable one that runs,
and a simple one that says what it should do. This project models both forms in Dafny and proves that
they agree, together with the invariants the fast form relies on.

- **Interpreter** (`Program`, `Views`, `Machine`, `Effects`, `Step`, `Loop`, `Interp`, `FastPaths`,
  `Window`, `WindowRun`, `WindowHost`). One opcode per shape of effect. The machine is a value, and `Step.StepOf`
  says what one statement does to it, through the bounds-checked view of region S or through the
  masked window. `Loop` is the budgeted loop over any step function: what a budget counts, and that
  handing it out in chunks changes nothing. `CoreRun.Core` is the same interpreter as the source has
  it: arrays and registers updated in place, one method per kind of opcode, a `while` loop, all
  proved equal to the functions on values. `WindowHost` lifts the window's equivalence to whole host
  calls.
- **Calls and threads** (`Frames`, `Locals`, `Calls`, `StackSafe`, `Host`, `Chunks`, `HostBudget`,
  `VmEngine`, `HostStack`, `StackGuard`, `HostRun`, `Threads`, `Resume`, `ResumeFails`, `Suspension`,
  `ThreadRun`, `ThreadQueue`). Frames, the local stack, calls from the host with builtins that call back, and
  snapshots of the stack that are rebuilt later. `HostRun.HostVm` and `ThreadRun` are the imperative
  forms. `Host` sees the interpreter only through the laws listed in `Host.Lawful`; `VmEngine` proves
  that the modelled interpreter meets them.
- **Memory** (`Bytes`, `Memory`, `Entities`, `Space`, `Heap`, `Strings`): the three regions, their
  layout, everything that resizes them, the coalescing allocator and the collector.
- **Loader** (`Loader`, `Link`, `Boot`): arbitrary records become statements whose operands the
  interpreter trusts, functions are bound, and a VM is built; every run from there stays inside the
  program.
- **Standard library** (`Json`, `JsonTree`, `JsonWriter`, `JsonRead`, `HexFloat`, `HexNearest`,
  `HexParse`, `HexText`, `CInteger`, `Kmp`, `Glob`, `Tokens`, `Quote`, `Utf8`, `Calendar`,
  `HashTable`, `StringSort`, `Containers`).

Arithmetic on floats is left uninterpreted: the environment of a run holds functions on 32-bit words,
and every result holds whatever they are. Integers are unbounded, and wrap-around, saturation and
64-bit limits are written out where the source has them.

## What the code does not promise

Some properties one might expect hold only under a condition. The condition is proved exactly.

- `window_fits` bounds operands by the number of globals, but `CALLnH` copies to fixed PARM slots. For
  a progs it accepts, and for the operands the loader gives, the window is equivalent if and only if
  those slots, 40 bytes above the globals' base, also lie in the window (`WindowRun.ParmSlotsExactly`;
  `WindowRun.SlotsDiffer` is the memory and the call that differ). The 28 reserved globals imply it.
- Operands are checked as single words. A vector store that names the last legal word reaches two
  words further, into the local stack; it spares the stack if and only if it ends before it
  (`Locals.SparesStackExactly`, `Locals.LastOperandReachesStack`). A program of two statements that
  does so is a call that does not give its caller's word back (`StackSafe.SpoilerIsNotNeutral`). When
  every destination ends before the local stack, the 28 reserved globals are present and no statement
  stores through a pointer (`StackSafe.SafeCode`, a condition on the loaded code alone), no run writes
  saved locals and calls are neutral (`StackSafe.SafeCallIsNeutral`, `HostStack.HostCallGivesBack`).
  Any other code is covered call by call: a call that comes to no statement writing saved locals gives
  the same back, wherever else it stores (`StackGuard.RespectfulCallGivesBack`).
- A builtin the host calls directly sees its own progs as the running one. If QuakeC of another progs is
  suspended from there, its top activation is taken for a function of the wrong progs, and a thread that
  runs may not be captured at all (`Suspension.DirectBuiltinMissesThread`). The context stays fit to be
  suspended if and only if nothing runs or the builtin's progs has, under the running function's number,
  a function with the same locals (`Suspension.DirectBuiltinFitExactly`); with one progs it always does.
- A `SWITCH` sets its registers before it is counted. A statement the budget stops is free of effects if
  and only if it is no `SWITCH` or the registers hold those values already; running it again always is
  as if it had not started (`Interp.RetryIsFresh`).
- The limit on sleeping threads bounds what each suspension sees. Threads taken out to run, and put back
  after an error, are not counted meanwhile. From a queue within its limits, the limits hold after every
  run whose suspensions were all admitted if and only if at most one thread is due
  (`ThreadQueue.LimitsKeptExactly`); they hold whenever no thread fails
  (`ThreadQueue.NoFailureKeepsLimits`), and `ThreadQueue.LimitExceeded` is a run that exceeds them.
- A budget is spent with a `Runaway` error only if builtins pass on the errors of the calls they make
  (`HostBudget.SpentIsRunaway`).
- Decoding UTF-8 gives back what was encoded if and only if no high surrogate is directly followed by a
  low one (`Utf8.RoundTrip`).
- A list of quoted strings is tokenized back if and only if each fits the buffer and has no NUL in a form
  that escapes it (`Quote.ReadBackExactly`).
- `%s` gives back the seconds of a time if and only if its year fits 32 bits
  (`Calendar.UnixRoundTripExactly`).
- The first buckets of the `gamestate` table are never charged; `Containers.Valid` says what is.

## Model

| member | source | states |
|---|---|---|
| Bytes.BytesOf | src/bytes.rs:11-28 | a word's four bytes, low byte first, read back as the word |
| Bytes.WordBytesInverse | src/bytes.rs:11-28 | four bytes are those of the word they hold |
| Memory.QuotIsDivision | src/vm/memory.rs:94-113 | quotient and remainder by the block size are division, as the source's shift and mask compute |
| Memory.FieldsOfOne | src/vm/memory.rs:94-113 | a byte address lies in the fields of at most one entity |
| Memory.RegionsDisjoint | src/vm/memory.rs:94-113 | no byte address lies in two of the regions S, E and H |
| Memory.LocateS | src/vm/memory.rs:94-113 | a non-empty access lands in region S exactly when all its bytes are there |
| Memory.LocateE | src/vm/memory.rs:94-113 | a non-empty access lands in an entity exactly when all its bytes are in that entity's fields |
| Memory.LocateH | src/vm/memory.rs:94-113 | a non-empty access lands in the heap exactly when all its bytes are there |
| Memory.PutChangesExactly | src/vm/memory.rs:148-171 | a successful write changes exactly the addressed bytes, at every address QuakeC can use, and maps none anew |
| Memory.ReadAfterPut | src/vm/memory.rs:134-171 | what was written is what is read back |
| Memory.FieldOffsetInBlock | src/vm/memory.rs:72-83 | a field's offset and words lie in its entity's block and in region E |
| Entities.ApplyKeepsLayout | src/vm/memory.rs:274-400 | spawn, claim, remove, write, added fields, added progs and heap growth keep the layout sound and move no region |
| Entities.RunKeepsRegionsApart | src/vm/memory.rs:94-113 | after any sequence of those operations every address below 2^31 belongs to at most one region and entities have not moved |
| Entities.TakeMeaning | src/vm/memory.rs:292-340 | taking a slot zeroes its block, moves its serial on and touches no other entity |
| Entities.SpawnMeaning | src/vm/memory.rs:312-341 | a spawned entity was free or new and not reserved, is zeroed under a fresh serial, and no other slot or byte changed |
| Entities.SpawnRefused | src/vm/memory.rs:312-341 | a spawn fails exactly when every slot from the first spawnable on is in use and none can be added |
| Space.PlanIsSound | src/vm/mod.rs:1123-1156 | an accepted layout orders the regions below 2^31, has a power-of-two stride with room for the reserve, and as many entities as asked for or as fit |
| Space.InitialIsSound | src/vm/mod.rs:1158-1182 | the memory a VM starts with satisfies the layout invariant |
| Space.InitialGlobals | src/vm/mod.rs:1160-1168 | the initial globals are the program's |
| Space.InitialBytes | src/vm/mod.rs:1160-1168 | around the globals lie the program's strings, NUL-terminated, and zeros |
| Space.SortCovers | src/vm/multiprogs.rs:173-186 | sorting definitions changes no word's coverage |
| Space.Space.constructor | src/vm/mod.rs:1158-1182 | builds that memory step by step |
| Space.Space.GrowTable | src/vm/memory.rs:274-289 | adds zeroed slots, one block each, within the limit |
| Space.Space.FindSlot | src/vm/memory.rs:312-331 | finds the first free (or reusable) slot |
| Space.Space.TakeSlot | src/vm/memory.rs:292-340 | clears a block and takes its slot into use |
| Space.Space.SpawnEntity | src/vm/memory.rs:312-341 | is the spawn of module Entities, in place |
| Space.Space.ClaimEntity | src/vm/memory.rs:345-360 | is the claim of module Entities, in place |
| Space.Space.RemoveEntity | src/vm/memory.rs:364-392 | is the removal of module Entities, in place, refused for the world, free and protected entities |
| Space.Space.EnsureField | src/vm/mod.rs:275-299 | finds a field by name or adds it at the end of the layout when the block has room; otherwise nothing changes |
| Space.Space.Unify | src/vm/multiprogs.rs:187-205 | a definition whose name is known with its size gets that field's place; another shares the words of an earlier one at its offset, or gets new words when they fit the block, and is added to the layout |
| Space.Space.MapDefs | src/vm/multiprogs.rs:185-208 | maps exactly the words definitions cover and places those that share no word |
| Space.Space.MapRest | src/vm/multiprogs.rs:209-214 | every other header word gets a new word of its own, in order |
| Space.Space.MapFields | src/vm/multiprogs.rs:173-214 | the field map covers the header and all definitions, within the capacity, and the layout stays sound |
| Space.Space.AddProgs | src/vm/multiprogs.rs:260-312 | region S grows by the progs' strings, aligned to 16, its globals after a NUL, and zeros, below region E; old bytes stay; a progs that does not fit changes nothing |
| Heap.CeilIsMasking | src/vm/heap.rs:14-17 | rounding up to 16 is the source's mask arithmetic |
| Heap.TilesExactly | src/vm/heap.rs:19-33 | in a tiled heap every byte lies in exactly one block |
| Heap.TakeKeepsTiling | src/vm/heap.rs:35-60 | taking part of a free block keeps the tiling, alignment and that no free blocks touch |
| Heap.ReleaseKeepsTiling | src/vm/heap.rs:63-85 | giving a block back, merged with its free neighbours, keeps them too |
| Heap.Heap.FirstFit | src/vm/heap.rs:35-60 | finds the lowest free block that fits |
| Heap.Heap.Alloc | src/vm/heap.rs:35-60 | takes the lowest fitting free block or the tail, zeroed; fails exactly when the size does not round or neither fits; touches no other block |
| Heap.Heap.Preceding | src/vm/heap.rs:63-85 | finds the free block that ends where this one starts |
| Heap.Heap.Free | src/vm/heap.rs:63-85 | frees exactly that block's bytes, coalesced; refuses offsets that are not blocks |
| Heap.Heap.Move | src/vm/heap.rs:93-107 | moves a block, keeping the first bytes and zeroing the rest |
| Heap.Heap.Realloc | src/vm/heap.rs:93-107 | keeps the first min(old, new) bytes, zeroes the rest, leaves other blocks alone, and changes nothing when it fails |
| Strings.SomeEmpty | src/vm/strings.rs:139-160 | a table with fewer strings than slots has an empty slot, so the cursor search finds one |
| Strings.RefsClassify | src/vm/interp.rs:2020-2043 | a reference classifies as the slot it was made from, and different slots have different references |
| Strings.NewRefIsDistinct | src/vm/strings.rs:124-137 | a new reference differs from every live one |
| Strings.Strings.Search | src/vm/strings.rs:139-160 | finds the first empty slot of a range |
| Strings.Strings.FreeSlot | src/vm/strings.rs:139-160 | finds or adds an empty slot; fails exactly when the table is full |
| Strings.Strings.AllocRaw | src/vm/strings.rs:124-137 | stores a string and counts it; fails exactly at the byte or slot limit, changing nothing |
| Strings.Strings.Alloc | src/vm/strings.rs:111-121 | stores text with its terminator and padding, within the limits |
| Strings.Strings.TempRawMut | src/vm/strings.rs:168-185 | grows a temp string with zeros within the limits, as the interpreter's writes see it |
| Strings.Strings.Pin | src/vm/strings.rs:203-208 | counts one more pin of a temp string |
| Strings.Strings.Unpin | src/vm/strings.rs:210-219 | counts one pin less, and forgets the last |
| Strings.Strings.Mark | src/vm/strings.rs:229-246 | marks exactly the slots an aligned root word names |
| Strings.Strings.Collect | src/vm/strings.rs:229-264 | keeps a string exactly when a root names it or it is pinned, unchanged, and recounts strings and bytes |
| Loader.CanonicalStatementMeaning | src/progs/load.rs:181-254 | a statement keeps its opcode exactly when every global it names exists; then each operand is the byte offset, index, number or jump target the record names, in A, B and C alike |
| Loader.LoadedStatementMeaning | src/vm/core.rs:194-220 | the same of the code that runs: its operands are the addresses of those globals wherever they were placed, and jumps out of range go to the sentinel |
| Loader.CanonicalStatementOk | src/progs/load.rs:181-254 | whatever a record holds, the interpreter can run its canonical statement |
| Loader.CanonicalStatements | src/progs/load.rs:181-254 | converts every record and ends the code with a trap |
| Loader.RewriteHexen2Calls | src/progs/load.rs:167-178 | rewrites calls and RAND results in place, one by one |
| Loader.Hexen2StatementMeaning | src/progs/load.rs:167-178 | plain calls with arguments get their other opcode, RAND results go to the return slot, breakpoint bits, operands and all other statements stay |
| Loader.PlanAt | src/progs/load.rs:313-338 | word w of parameter i is copied from global 4 + 3i + w to the next local |
| Loader.PlanParamCopies | src/progs/load.rs:313-338 | plans those copies; succeeds exactly when the locals and every copy lie within the limit |
| Loader.CanonicalFunction | src/progs/load.rs:273-309 | a record is a QuakeC function exactly when its entry, locals and copies are within their tables |
| Loader.LoadFunctions | src/progs/load.rs:59-72 | every function record in canonical form, with call information that stays within the tables |
| Loader.RelocatedCodeOk | src/vm/core.rs:194-220 | relocation and padding keep every operand and jump within the tables, without wrap-around |
| Loader.RelocatedFunctionOk | src/vm/core.rs:149-185 | entering a relocated function touches only its progs' globals and tail |
| Loader.Load | src/progs/load.rs:181-338 | from arbitrary records to code and functions the interpreter trusts, wherever the globals are placed |
| Link.BoundLikeEntered | src/vm/mod.rs:1097-1113 | a function is dispatched to the interpreter exactly when it has an entry there |
| Link.BindFunctions | src/vm/mod.rs:1097-1113 | binds each record: builtins by number or name, missing ones and invalid functions as such |
| Link.PlanWithin | src/progs/load.rs:313-338 | copies in range stay within the globals and their tail |
| Link.LinkProgs | src/vm/core.rs:149-185 | loads a file, binds its functions and builds the state of the progs |
| Link.LinkedIsOk | src/vm/core.rs:149-185 | any file, loaded anywhere in region S, is a program the interpreter can run |
| Link.FilesRunInside | src/vm/interp.rs:390-475 | whatever the files hold, a run from any function of any program stays at statements of the code, their operands in the globals, the tail or two words after it, and ends for every budget |
| Boot.BootIsReady | src/vm/mod.rs:1115-1255 | a VM just built is laid out for its program and idle, its stack accounting is right and any function can be called |
| Boot.WritesExactly | src/vm/memory.rs:148-171 | in every memory reachable by spawns, claims, removals, writes, added fields and growth, a successful write changes exactly the addressed bytes, and no address has two regions |
| Boot.ReachedIsReady | src/vm/mod.rs:1115-1255 | any function can be called in every such memory |
| Boot.SessionStaysReady | src/vm/mod.rs:334-400 | after any sequence of host calls, however each ends, no QuakeC runs and every function can be called |
| Boot.GuardedSessionStaysReady | src/vm/mod.rs:334-400 | with any code, when statements that would write saved locals are stopped |
| Views.SameWord | src/vm/interp.rs:289-313 | below the mask, the window reads and writes the words the checked view does |
| Views.SameCopy | src/vm/interp.rs:1748-1756 | so do copies |
| Views.MaskWraps | src/vm/interp.rs:289-313 | past the mask the views differ |
| FastPaths.EntFieldExact | src/vm/interp.rs:1760-1776 | the slice bounds of a field load accept exactly the valid fields of existing entities, and yield their bytes |
| FastPaths.StoreFieldAgrees | src/vm/interp.rs:104-135 | a field store's fast path stores what the slow path would, and applies whenever that would store anything |
| FastPaths.EntTargetIsLocate | src/vm/interp.rs:138-148 | the pointer target in region E is where the memory map locates it |
| FastPaths.PtrReadAgrees | src/vm/interp.rs:178-192 | a pointer read's fast path reads what the memory map would |
| FastPaths.PtrWriteAgrees | src/vm/interp.rs:151-175 | a pointer write's fast path writes what the memory map would |
| FastPaths.StorePtrAgrees | src/vm/interp.rs:853-900 | whichever path a pointer store takes, the result is the slow path's |
| FastPaths.LoadPtrAgrees | src/vm/interp.rs:939-960 | whichever path a pointer load takes, the result is the slow path's |
| FastPaths.CompoundAgrees | src/vm/interp.rs:1092-1101 | whichever path a compound store takes, the result is the slow path's |
| Window.ReservedGlobalsSuffice | src/vm/interp.rs:243-251 | with the 28 reserved globals the PARM slots fit the window |
| Window.StraightAgrees | src/vm/interp.rs:464-1562 | every straight-line opcode does the same through either view |
| WindowRun.ParmSlotsExactly | src/vm/interp.rs:1263-1272 | for a progs window_fits accepts, CALLnH with operands the loader gives is the same through the window in every memory if and only if its PARM slots lie in it |
| WindowRun.SlotsDiffer | src/vm/interp.rs:1263-1272 | a memory in which calling with the first global differs when they do not |
| WindowRun.StepAgrees | src/vm/interp.rs:390-1562 | one statement does the same through either view |
| WindowRun.StepKeepsFit | src/vm/interp.rs:243-251 | whatever a statement does, the window still fits |
| WindowRun.WindowEquivalence | src/vm/interp.rs:84-99 | for every program the window fits, every state and every budget, the run through the window ends with the same memory, registers, exit and budget |
| WindowHost.HostCallIgnoresWindow | src/vm/mod.rs:334-568 | in a VM the window fits, a whole host call, with its builtins and nested calls, ends with the same machine, budget and error through the window |
| Loop.SplitBudget | src/vm/mod.rs:508-537 | handing out part of a budget and then the rest is handing out all of it |
| Loop.BudgetInvisible | src/vm/interp.rs:419-442 | a budget has no effect before it is spent |
| Loop.StopsAtCount | src/vm/interp.rs:419-442 | a budget stops a run exactly at the statement it counts to |
| Interp.StepKeepsOk | src/vm/interp.rs:461-475 | the program counter never leaves the statement table, and without being counted it only moves on by one |
| Interp.RetryIsFresh | src/vm/interp.rs:419-442 | a statement the budget stopped runs again as if it had not started; it had no effect exactly when it was no SWITCH or its registers held those values |
| Interp.InterpreterSound | src/vm/interp.rs:390-475 | every run terminates by the measure of budget and statements left, inside the program |
| CoreRun.Core.EnterQc | src/vm/core.rs:382-437 | is the function Step.Enter on the machine held, error included |
| CoreRun.Core.LeaveQc | src/vm/core.rs:441-468 | is the function Step.Leave on the machine held |
| CoreRun.Core.UnwindTo | src/vm/core.rs:471-475 | is the function Step.Unwind on the machine held |
| CoreRun.Core.RunStraight | src/vm/interp.rs:683-1562 | executes any straight-line opcode in place |
| CoreRun.Core.Step | src/vm/interp.rs:461-475 | takes exactly the step of the machine held, within the budget |
| CoreRun.Core.Run | src/vm/interp.rs:390-475 | the loop in place is the run of the machine held, exit and budget left included |
| Frames.EnterKeepsStack | src/vm/core.rs:382-437 | entering keeps the top of the local stack the sum of what all frames hold |
| Frames.LeaveKeepsStack | src/vm/core.rs:441-468 | leaving keeps it, and gives the caller its registers back |
| Frames.StepKeepsStack | src/vm/core.rs:382-475 | every statement keeps it and the caller's frames; a run returns only by popping the frame it was entered with |
| Locals.LeaveBytes | src/vm/core.rs:441-448 | a return writes the callee's locals and nothing else |
| Locals.UnwindRestores | src/vm/core.rs:441-475 | unwinding gives each byte the value saved by the outermost popped frame that covers it, with any recursion and overlap |
| Locals.SparesStackExactly | src/vm/interp.rs:1748-1756 | a vector store leaves the local stack alone if and only if it ends before it |
| Locals.LastOperandReachesStack | src/vm/mod.rs:1123-1129 | at the last legal operand of the main progs it does not |
| Calls.StepKept | src/vm/core.rs:382-475 | one statement of a called function keeps what the caller saved |
| Calls.CallIsNeutral | src/vm/mod.rs:334-400 | a call gives the caller its context, stack and the function's locals back, however it stops and whatever it calls |
| StackSafe.TargetInReach | src/progs/load.rs:181-254 | what a checked statement writes by itself lies in its globals, their tail or the two words after it |
| StackSafe.WritesOnlyTarget | src/vm/interp.rs:464-1562 | a statement that does not store through a pointer writes nothing but its destination |
| StackSafe.StepWritesInReach | src/vm/interp.rs:461-475 | so in any run such a statement writes, by itself, no byte out of reach of its globals |
| StackSafe.SafeRespects | src/vm/interp.rs:464-1562 | no statement of safe code writes saved locals, in any state |
| StackSafe.SafeCallIsNeutral | src/vm/mod.rs:334-400 | with safe code every call of every function is neutral, for every budget |
| StackSafe.SpoilerIsNotNeutral | src/vm/interp.rs:1748-1756 | a program whose call returns and leaves a local of its callee changed |
| Host.NextOf | src/vm/mod.rs:503-568 | one chunk of a run lowers the budget, or ends with the boundary's frame popped |
| Host.ExecuteInner | src/vm/mod.rs:503-568 | however a run ends, its caller runs again |
| Host.RunBuiltin | src/vm/mod.rs:594-632 | a builtin's error or abort unwinds to the boundary, otherwise the context goes on |
| Host.CallInner | src/vm/mod.rs:334-387 | however a call ends, the context it was made from goes on, with its argument count |
| Chunks.ChunksInvisible | src/vm/mod.rs:497-537 | a host call gives the same machine, error and budget however the budget is handed out, across builtins that call back |
| VmEngine.EngineIsLawful | src/vm/interp.rs:390-418 | the interpreter meets every law host calls rely on, through either view |
| VmEngine.HostCallIsNeutral | src/vm/mod.rs:334-387 | a call from the host or a builtin leaves frames, registers, arguments and local stack as they were, however it ends |
| VmEngine.HostCallIgnoresChunks | src/vm/mod.rs:508-537 | chunks of 2^16 change nothing a host call does |
| HostBudget.BudgetUsed | src/vm/mod.rs:497-568 | a call that ends with budget left is the same call with any budget above what it used, and spends any budget up to that, across builtins and nested calls |
| HostBudget.SpentIsRunaway | src/vm/mod.rs:526-537 | a call that spends its budget raises Runaway, when builtins pass errors on |
| HostBudget.BudgetExactly | src/vm/mod.rs:497-568 | every call either takes a fixed number of statements, ending alike with every budget above it and running away with every budget up to it, or runs away with every budget |
| HostStack.BeganGoesOn | src/vm/mod.rs:457-479 | passing arguments leaves the local stack alone |
| HostStack.ExecuteGivesBack | src/vm/mod.rs:503-568 | from wherever it stops, running to the end of a call gives its caller the stack and the callee's locals back, through any number of builtins, for any interpreter that keeps what is saved |
| HostStack.HostCallGivesBack | src/vm/mod.rs:334-400 | with safe code, a host call gives back the local stack in use byte by byte and the callee's locals, by return, fault, abort or end of budget |
| StackGuard.GuardedCallGivesBack | src/vm/mod.rs:334-400 | so does a call of any code when statements that would write saved locals are stopped |
| StackGuard.RespectfulCallGivesBack | src/vm/mod.rs:334-400 | and so does a call of any code that comes to no such statement, pointer stores included |
| HostRun.HostVm.Execute | src/vm/mod.rs:503-568 | the loop in place is Host.ExecuteInner |
| HostRun.HostVm.Call | src/vm/mod.rs:334-387 | a call in place is Host.CallInner |
| HostRun.HostVm.CallFunction | src/vm/mod.rs:334-387 | a call restores frames, registers, argument count, nesting and entry depth |
| Threads.StepKeepsSited | src/vm/core.rs:382-468 | a step keeps every activation's locals those of its function |
| Suspension.RunKeepsSited | src/vm/core.rs:382-475 | so does every run |
| Suspension.BuiltinsSeeSuspendable | src/vm/threads.rs:62-65 | from an idle VM with one progs, every builtin a host call comes to, at any depth, sees QuakeC that can be captured whole from every boundary |
| Suspension.DirectBuiltinFitExactly | src/vm/mod.rs:369-375 | for a builtin the host calls itself, exactly when nothing runs or the builtin's progs has, under the running function's number, a function at the same address with as many words |
| Suspension.DirectBuiltinMissesThread | src/vm/mod.rs:369-375 | two progs and a running function that can be captured, but not from such a builtin |
| Threads.Rebuilds | src/vm/threads.rs:204-217 | entering a captured chain on an idle VM succeeds and rebuilds its frames |
| Resume.CaptureCovers | src/vm/threads.rs:93-108 | capturing saves the locals of every activation, each function's once |
| Resume.WriteBackByte | src/vm/threads.rs:226-233 | writing captured ranges back restores exactly their bytes |
| Resume.SnapshotTaken | src/vm/threads.rs:62-120 | a running thread is captured whole |
| Resume.ResumeRebuildsChain | src/vm/threads.rs:204-217 | resuming rebuilds every activation's function, place, pushed words, switch state and locals, up to one shift of the stack |
| Resume.ResumeRestoresStack | src/vm/threads.rs:218-225 | the captured stack segment is back at the shifted place |
| Resume.ResumeRestoresLocals | src/vm/threads.rs:226-233 | every captured local has its value back, for any recursion |
| Resume.ResumeSetsGlobals | src/vm/threads.rs:234-247 | the result is the resume value; self and other become the world exactly when their serial is no longer alive |
| Resume.FailedResumeUnwinds | src/vm/threads.rs:207-212 | a chain that cannot be entered leaves no frame behind |
| ResumeFails.FailedResumeResumes | src/vm/threads.rs:207-212 | and gives the registers and the stack accounting back, for any programs |
| ResumeFails.FailedResumeRestores | src/vm/threads.rs:207-212 | and every byte of region S: locals and stack in use, except what parameter copies write outside their function's locals |
| ThreadRun.TakeSnapshot | src/vm/threads.rs:62-120 | is Threads.Snapshot, built by pushing |
| ThreadRun.ResumeThread | src/vm/threads.rs:204-247 | is Threads.Resume in place, errors included |
| ThreadQueue.ByWakeSorts | src/vm/threads.rs:182 | the due threads are sorted by wake time, those of equal time in queue order |
| ThreadQueue.Queue.Suspend | src/vm/threads.rs:130-150 | queues a thread exactly when both limits admit it, and the queue is within them then |
| ThreadQueue.Queue.TakeDue | src/vm/threads.rs:172-181 | takes out exactly the due threads |
| ThreadQueue.Queue.RunThreads | src/vm/threads.rs:168-202 | runs due threads in wake order up to the first that fails, and puts the rest back behind those suspended meanwhile |
| ThreadQueue.QueueConserved | src/vm/threads.rs:168-202 | no thread is lost or duplicated, whatever the threads that run suspend |
| ThreadQueue.LimitsKeptExactly | src/vm/threads.rs:130-202 | from a queue within its limits, they hold after every run whose suspensions were all admitted if and only if at most one thread is due |
| ThreadQueue.NoFailureKeepsLimits | src/vm/threads.rs:130-202 | they hold after every such run in which no thread fails |
| ThreadQueue.LimitExceeded | src/vm/threads.rs:130-202 | with two threads due, such a run that leaves more asleep than the limit |
| Json.QcTextInverse | src/stdlib/json.rs:85-99 | the stored text, with NUL overlong, gives the text back |
| Json.QcLenIsLength | src/stdlib/json.rs:101-104 | the measured length is the stored length |
| Json.IndexDigitsIsLength | src/stdlib/json.rs:116-118 | the digits counted are the digits written |
| Json.Measure.Node | src/stdlib/json.rs:146-255 | counts the nodes and names of a tree; fails exactly when they exceed the limit |
| JsonTree.WriteLays | src/stdlib/json.rs:260-424 | writing a document into a block of the measured size lays it out: nodes and names apart, children contiguous, all space used |
| JsonTree.LaidStable | src/stdlib/json.rs:260-424 | a laid-out tree depends only on its own nodes and names |
| JsonRead.ReadsBack | src/stdlib/json.rs:450-455 | reading from the root gives the document, member order and duplicate keys kept |
| JsonWriter.Writer.Node | src/stdlib/json.rs:355-424 | the writer in place is that layout |
| JsonTree.WriteEnds | src/stdlib/json.rs:355-424 | writing ends with the tree exactly when the temp strings left suffice for its texts |
| JsonWriter.WriteTree | src/stdlib/json.rs:505-524 | the second pass writes the tree, or fails exactly when they do not |
| JsonWriter.Build | src/stdlib/json.rs:475-528 | both passes: a block of exactly the measured size that decodes to the document, or a refusal exactly above the limit, without a block, or when the temp strings run out |
| HexFloat.NearestIntUnique | src/stdlib/convert.rs:307-348 | only one integer is nearest with ties to even |
| HexFloat.RoundedUnique | src/stdlib/convert.rs:307-348 | correct rounding determines the double |
| HexFloat.RoundKeptIsNearest | src/stdlib/convert.rs:307-348 | rounding by the dropped bits is rounding to nearest, ties to even |
| HexFloat.FromTopRounds | src/stdlib/convert.rs:307-348 | 64 leading bits and a sticky bit decide the double, normal or subnormal |
| HexNearest.RoundedIsNearest | src/stdlib/convert.rs:225-348 | no double at all is nearer than the correctly rounded one (section 4.3.1 of IEEE 754-2008) |
| HexNearest.RoundedIsDouble | src/stdlib/convert.rs:307-348 | the rounded multiple is a double |
| HexParse.ToDoubleRounds | src/stdlib/convert.rs:307-348 | the conversion is correctly rounded, for any number of digits and any scale |
| HexParse.HexDigitsToF64 | src/stdlib/convert.rs:307-348 | the source's loop over the digits computes it |
| HexParse.CutSame | src/stdlib/convert.rs:225-229 | cutting at 40 digits with a sticky digit does not change the double |
| HexText.Mantissa | src/stdlib/convert.rs:231-262 | reads digits, point and scale as far as they go |
| HexText.Exponent | src/stdlib/convert.rs:263-285 | reads the exponent into the saturating scale |
| HexText.SaturationHarmless | src/stdlib/convert.rs:286-303 | the scale saturates only where the double is infinite or zero anyway |
| HexText.ParseHexFloat | src/stdlib/convert.rs:229-303 | the correctly rounded value of mantissa and exponent, for any digit count and exponent, and how far they reach |
| CInteger.Digits | src/stdlib/convert.rs:170-182 | sums the digits; overflow is flagged exactly when the number does not fit 64 bits |
| CInteger.ParseCInteger | src/stdlib/convert.rs:145-183 | sign, prefix, magnitude and end of the number in a text |
| CInteger.Strtol | src/stdlib/convert.rs:187-196 | the number clamped to 64 signed bits |
| CInteger.Strtoul | src/stdlib/convert.rs:200-210 | the number modulo 2^64, or all ones when its magnitude does not fit |
| CInteger.StrtolReadsText | src/stdlib/convert.rs:145-196 | what is written in a base is read back in it |
| Kmp.Failures | src/stdlib/string.rs:175-188 | the table holds the longest proper border of every prefix, in linear time |
| Kmp.FindByWindows | src/stdlib/string.rs:171-173 | the window scan finds the first occurrence |
| Kmp.FindByBorders | src/stdlib/string.rs:175-202 | so does the border search, in steps bounded by the lengths |
| Kmp.Find | src/stdlib/string.rs:167-202 | the first occurrence of any needle in any haystack |
| Glob.StarRow | src/stdlib/strbuf.rs:339-348 | one row for a star is the glob relation of one more pattern byte |
| Glob.ByteRow | src/stdlib/strbuf.rs:349-355 | so is one row for any other byte |
| Glob.Wildcmp | src/stdlib/strbuf.rs:331-359 | the row-by-row matcher is the declarative glob relation |
| Tokens.ParseCString | src/stdlib/tokenize.rs:103-152 | reads a C-escaped string as the specification does |
| Tokens.FindStart | src/stdlib/tokenize.rs:157-185 | the source's loop over white space and comments finds where the next token starts |
| Tokens.ParseToken | src/stdlib/tokenize.rs:156-221 | reads one token of any kind, or finds none |
| Tokens.Split | src/stdlib/tokenize.rs:224-244 | as many of the tokens of a string as the budget covers; exceeded exactly when there are more |
| Quote.Quoting | src/stdlib/format.rs:331-362 | the source's loop writes the quoted form |
| Quote.EscapedIsPrefix | src/stdlib/format.rs:331-350 | what the buffer holds is the escaped form of a prefix |
| Quote.QuoteTokenizeInverse | src/stdlib/format.rs:331-362 | quoting a list, joining and tokenizing it gives the list back, in either mode |
| Quote.ReadBackExactly | src/stdlib/tokenize.rs:103-242 | a list of strings is read back if and only if each fits and has no escaped NUL |
| Utf8.AppendUtf8 | src/stdlib/charset.rs:189-212 | the source's encoder appends the encoding |
| Utf8.DecodesAll | src/stdlib/charset.rs:52-140 | iterating over encoded code points yields each with its length and offset, surrogate pairs joined |
| Utf8.RoundTrip | src/stdlib/charset.rs:52-212 | code points come back if and only if no high surrogate directly precedes a low one (section 3 of RFC 3629, section 2 of RFC 2279) |
| Utf8.CharsTile | src/stdlib/charset.rs:127-140 | characters cover the bytes one after another, whatever the bytes |
| Utf8.OffsetsInverse | src/stdlib/charset.rs:150-165 | byte and character offsets are inverse on character boundaries |
| Calendar.CivilFromDaysInverse | src/stdlib/strftime.rs:46-59 | a date's day number converts back to it |
| Calendar.DaysFromCivilInverse | src/stdlib/mod.rs:157-187 | every day number is that of a valid date |
| Calendar.NextDay | src/stdlib/strftime.rs:46-59 | the next date of the Gregorian calendar has the next number |
| Calendar.DatesFollow | src/stdlib/mod.rs:157-187 | dates follow one another from 1970-01-01 |
| Calendar.WeekDaysFollow | src/stdlib/mod.rs:157-187 | weekdays follow one another; day 0 is a Thursday |
| Calendar.YearDayCounts | src/stdlib/mod.rs:157-187 | the day of the year counts from January 1st |
| Calendar.IsoWeekIsThursdays | src/stdlib/strftime.rs:63-88 | a week belongs to the year of its Thursday and is numbered by Thursdays |
| Calendar.UnixRoundTrip | src/stdlib/strftime.rs:264-274 | valid date and time for every second count, and %s gives it back |
| Calendar.UnixRoundTripExactly | src/stdlib/strftime.rs:264-274 | it does if and only if the year fits 32 bits |
| HashTable.PushRefines | src/stdlib/hash.rs:61-142 | adding pushes on one key's stack and no other, and counts its bytes |
| HashTable.PopRefines | src/stdlib/hash.rs:126-137 | removing pops one key's stack and no other |
| HashTable.AddRefines | src/stdlib/hash.rs:247-285 | adding or replacing is push, or pop and push, with the bytes counted |
| HashTable.Find | src/stdlib/hash.rs:289-311 | the n-th value of a key and type, newest first |
| StringSort.SortedMeans | src/stdlib/strbuf.rs:207-225 | the sorted strings are the same ones, in order, those that compare equal in their old order |
| Containers.SetEntryOk | src/stdlib/strbuf.rs:59-78 | setting an entry stores it, leaves the others, grows the buffer with holes and keeps its byte count true |
| Containers.FreeEntryOk | src/stdlib/strbuf.rs:80-86 | freeing an entry keeps it true |
| Containers.Containers.Charge | src/stdlib/util.rs:35-42 | charges exactly when the limit allows |
| Containers.Containers.Recharge | src/stdlib/util.rs:51-58 | charges the difference exactly when the limit allows |
| Containers.Containers.CreateTable | src/stdlib/hash.rs:194-226 | an empty table under the first unused handle, charged, or 0 exactly when the table limit or the storage limit is reached; others unchanged |
| Containers.Containers.DestroyTable | src/stdlib/hash.rs:230-243 | gives the table's storage back |
| Containers.Containers.Add | src/stdlib/hash.rs:247-285 | changes one key's stack as asked and charges the difference, or changes nothing |
| Containers.Containers.Get | src/stdlib/hash.rs:289-311 | reads a key's stack by index |
| Containers.Containers.Delete | src/stdlib/hash.rs:315-330 | pops a key's stack and releases its bytes |
| Containers.Containers.CreateBuf | src/stdlib/strbuf.rs:152-176 | an empty buffer in the first unused slot, or none exactly when the buffer limit is reached |
| Containers.Containers.DeleteBuf | src/stdlib/strbuf.rs:178-186 | releases a buffer's bytes |
| Containers.Containers.Store | src/stdlib/strbuf.rs:89-102 | stores exactly when the difference can be charged |
| Containers.Containers.FreeString | src/stdlib/strbuf.rs:80-86 | frees an entry and releases its bytes |
| Containers.Containers.SortBuf | src/stdlib/strbuf.rs:207-225 | drops the holes and sorts the strings; always fits |
| Containers.Containers.CopyBuf | src/stdlib/strbuf.rs:194-205 | copies a buffer over another exactly when the difference can be charged |
| Containers.Containers.Tokenize | src/stdlib/tokenize.rs:282-312 | the token list is what the budget left by the old one covers, and is charged |

## Left out

- The full opcode table: one family per shape of effect is modelled, and every opcode of version 6 but `STATE`. `RAND*`, `STATE*` and `THINKTIME`, compound stores other than those of floats through pointers, bit fields, byte and 16-bit accesses, converting moves, vectors times integers, 64-bit and double opcodes decode to `Bad` here; they would add easy cases.
- Exact float arithmetic: float opcodes are uninterpreted functions on words.
- Deadlines by wall clock: chunks of budget are modelled, the clock that ends a run between them is not.
- Warnings, backtraces and trace lines: a string `CASE` may warn before it is counted; memory, registers and exits do not depend on it.
- Host.NextOf: no deadline is looked at between chunks.
- Host.ExecuteInner: exits for `STATE`, tracing and deadlines are left out with what causes them.
- Host.RunBuiltin: FTE's developer mode, which turns a builtin's error into a warning, is left out.
- Host.CallInner: the return value read back after a call is left out.
- Entity spawn defaults, typed global relocation and extern linking of added progs: memory layout and bytes of strings and globals are modelled.
- Static string interning, which only appends to a table.
- Memory allocation failure of the host machine: only the configured limits are modelled.
- Parsing JSON text: both passes take a document tree. Numbers are kept as the words the writer stores.
- Decimal floats, `strftime` directives other than `%s` and the ISO week, `sprintf` arguments.
- The hash function of the tables: a parameter, so the refinement holds for any.
- `buf_implode` and file lines.
- Wake times are real numbers; NaN wake times are not modelled.
- Builtins are sequences of memory changes and calls back; a change that would break the memory layout or the saved contexts is ignored, as the source's interface to builtins does not offer one.
- Calls.CallIsNeutral: one progs, since a return to another progs copies shared globals over; and runs whose statements do not write the part of the local stack that holds saved locals, because such a store changes what a return restores. StackSafe.SafeCallIsNeutral replaces that condition by one on the code.
- StackSafe.SafeCallIsNeutral: code that stores through pointers is outside it, since a pointer may name any byte of region S. Calls.CallIsNeutral and StackGuard.RespectfulCallGivesBack cover it, run by run.
- Boot.SessionStaysReady: the same code is outside it; Boot.GuardedSessionStaysReady has no condition on the code.
- HostStack.ExecuteGivesBack: one progs, as Calls.CallIsNeutral.
- HostStack.HostCallGivesBack: one progs, as Calls.CallIsNeutral; builtins leave region S where it is and the local stack in use alone.
- Suspension.BuiltinsSeeSuspendable: one progs; with several, Suspension.RunKeepsSited and Suspension.DirectBuiltinFitExactly say when.
- ResumeFails.FailedResumeRestores: one progs; with several, entering copies parameters and shared globals between them.
- Boot.BootIsReady: pointer relocation and the special globals of the main progs are not part of the initial memory; they are writes, which Boot.ReachedIsReady covers.
- Resume.ResumeRestoresStack: the result slot and entity globals must lie outside the local stack, where the loader places them.
- WindowRun.WindowEquivalence: needs the PARM slots of `CALLnH` inside the window, because without them the runs differ (WindowRun.ParmSlotsExactly).
- HexText.ParseHexFloat: texts shorter than 2^57 bytes, so that digit positions cannot overflow 64 bits.
- Space.Space.MapFields: nothing is said about definitions that share words with others, which the source maps by whichever comes first.
- Space.Space.MapDefs: the same; Space.Space.Unify says where each definition's first word goes.
- Space.Space.AddProgs: typed globals are not relocated.
- Calendar.UnixRoundTrip: day numbers are unbounded; the source's saturation near the ends of 64 bits is not modelled.
