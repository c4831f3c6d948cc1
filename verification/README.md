# The Lua 5.3 core and parts of the engine of the server, in Dafny

The server embeds a patched Lua 5.3 and adds queues that hand database requests to worker
threads, and an allocator. This project models the parts in which most can go wrong, and proves what
their comments and documentation promise. Where the code does not keep a promise, the input
is given and the exact condition under which it does.

The model has the form of the code. What updates fields in place is a class whose methods
modify those fields, loops are loops, and each method is proved against a specification, about
which lemmas state what is promised.

- The compiler of expressions and the interpreter: `LuaVm` (instructions and what they do to
  registers), `Expressions` (a direct evaluator, and when code stands for an expression),
  `Simulation`, `Codegen`, `Conditions`, `Results`, `Sequencing` (laws about such code), `LuaK`
  (the class `FuncState` of `lcode.c`), `Chunks` (whole chunks), `Interpreter` (the loop of
  `lvm.c`), `Shifts` (laws of shifts), `Operators` (what every operator gives on integers, bit by
  bit or modulo 2^64). Jump lists are threaded through the code array, as in the source.
- The parser: `Precedence` (expressions by operator precedence, and a printer with the fewest
  parentheses), `OperatorLevels` (the levels of operators as the manual lists them), `Parsing`
  (`subexpr` as it is, which emits code while it reads), `Sources` (a text from its tokens to the
  values that running it leaves).
- The incremental collector: `GcHeap` (objects and marks), `GcBound` (what can be reached at
  all), `GcMark` (the class `GlobalState`, marking, traversals), `GcInvariant` (the tri-colour
  invariant), `GcPropagate`, `GcEntries` (which entries weak tables lose), `GcAtomic` (the atomic
  phase), `GcSweep` (the invariant of every state, and sweeping), `GcCycle` (steps of a cycle),
  `GcMutator` (stores and barriers), `GcObjects` (new objects and finalizers), `GcRuns` (full
  collections, and runs with a program), `GcLosses` (runs that break the invariant).
- Tables: `TableNodes` (the hash part), `TableSizes` (the optimal array size), `LuaTable` (the
  class `Table`, which refines a finite map), `LuaTraversal` (whole traversals).
- Pattern matching: `Patterns` (what a pattern means, and which outcome comes first), `LuaMatch`
  (the class `MatchState`), `LuaFind` (`find` and `match`).
- Precompiled chunks: `Precompiled` (encoder and decoder), `PrecompiledLaws` (round trips,
  truncation), `ChunkLayout` (the bytes of the format, field by field), `ChunkIO` (the writer,
  the buffered stream and the loader).
- `QuickSort` (`table.sort`), `Quoting` (`%q` and the lexer that reads it), `Escapes` (what
  escape sequences stand for), `Upvalues` (open upvalues and the stack they point into),
  `StringTable` (interned strings), `Packing` (`string.pack`, `string.unpack`,
  `string.packsize`), `PackedIntegers` (which byte carries which power of 256).
- `TaskQueues` and `TaskOrder`: the queues of `MongoTaskMgr` as a system of interleaved steps.
- `BlockSets` (the bytes of a block set, with the free list in them), `MemoryPools` (the class
  `MemoryPool`), `PoolManagers` (the class `MemoryPoolMgr`), `PoolRuns` (runs of requests, which
  refine memory in which every block stands alone).

Errors are results: `Fail`, `Err`, `Raised` and the like. Limits of the implementation are
named where a method may fail: `Exhausted` and `TooLarge` say that code, constants or registers
have run out.

In the collector, a ghost field `bound` of `GlobalState` holds a set of objects. It plays no
part in what the collector does: it is there to state that marking does not leave such a set,
so that what is unreachable is freed.

## Model

| member | source | states |
|---|---|---|
| Chunks.DoChunk | server/lua53/lib/lparser.c:1612-1623 | Compiling a chunk of local declarations and assignments and then interpreting it leaves in the registers of the locals what a direct evaluator of the statements gives, or ends with the same error; for all statements, values and metamethods. It is refused only if the chunk is too large: more instructions, constants, variables or registers than there may be, counted from its expressions |
| Chunks.Chunk | server/lua53/lib/lparser.c:1612-1623 | The finished code of a whole chunk has no pending jump, every instruction can be encoded, the frame is below the register limit, and the code implements the statements from every start; refused only if too large |
| Chunks.Statement | server/lua53/lib/lparser.c:1442-1459 | One more local variable or assignment: code that implemented the statements so far now implements them with this one, and has grown by at most 26 instructions for each node of the expression, and five |
| LuaK.FuncState.Compile | server/lua53/lib/lparser.c:1048-1075 | For every expression: the code emitted and the descriptor together stand for it from every start, registers of active locals are kept, code and constants grow in proportion to its size, and it fails only if that growth or its depth exceeds a limit |
| LuaK.FuncState.Exp2Reg | server/lua53/lib/lcode.c:675-696 | The value of the expression is in the register at the end of the code, along every jump too: those that carry it copy it, the others load `true` or `false` |
| LuaK.FuncState.Exp2NextReg | server/lua53/lib/lcode.c:703-708 | The same for the next free register, which is then reserved |
| LuaK.FuncState.Exp2AnyReg | server/lua53/lib/lcode.c:715-727 | The same for some register; an expression that has one already costs nothing |
| LuaK.FuncState.Exp2RK | server/lua53/lib/lcode.c:758-776 | The expression as an operand: a register, or a constant whose index fits |
| LuaK.FuncState.FixJump | server/lua53/lib/lcode.c:103-110 | The jump goes to the destination and nothing else changes; it fails exactly if the distance cannot be encoded |
| LuaK.FuncState.ConcatLists | server/lua53/lib/lcode.c:116-127 | Two disjoint acyclic lists of jumps become one whose elements are those of both, in order; only links of the first list change |
| LuaK.FuncState.JumpOut | server/lua53/lib/lcode.c:136-143 | A new jump without a target heads the list of all jumps that were pending to this place |
| LuaK.FuncState.PatchTestReg | server/lua53/lib/lcode.c:195-207 | Exactly the TESTSET that controls the jump gets the register, or becomes a TEST; it is found exactly if there is one |
| LuaK.FuncState.PatchListAux | server/lua53/lib/lcode.c:224-234 | Exactly the listed jumps are sent to a target: those whose test has a value to one, with the value in the register, the others to the other |
| LuaK.FuncState.CodeNil | server/lua53/lib/lcode.c:64-83 | Nils are loaded by a new instruction, or by widening the one before where that loads an adjacent range and no jump arrives in between |
| LuaK.FuncState.AddK | server/lua53/lib/lcode.c:428-452 | The index of a constant; one that the cache of constants leads to is used again, and as long as the cache leads to all of them no constant is there twice; earlier constants keep their indices |
| LuaK.FuncState.JumpOnCond | server/lua53/lib/lcode.c:839-851 | After it the code goes on exactly if the value is not the condition, and the new jump is taken exactly if it is; a `not` just emitted is taken back |
| LuaK.FuncState.GoIfTrue | server/lua53/lib/lcode.c:857-878 | The code goes on exactly if the expression is true; the list returned holds exactly the jumps taken if it is false |
| LuaK.FuncState.GoIfFalse | server/lua53/lib/lcode.c:884-904 | The code goes on exactly if the expression is false; the list returned holds exactly the jumps taken if it is true |
| LuaK.FuncState.CodeNot | server/lua53/lib/lcode.c:910-939 | The result stands for the negation: the two lists have changed places, and no jump on them carries a value any more |
| LuaK.FuncState.ConstFolding | server/lua53/lib/lcode.c:978-996 | Two numerals are folded if and only if they have no jumps, the operation can be folded on such values, and gives a number that may be folded; the numeral is what the operation gives, wrap-around included |
| LuaK.FuncState.CodeComp | server/lua53/lib/lcode.c:1037-1060 | The comparison and its pending jump stand for the comparison of the operands as written, `>` and `>=` with exchanged operands included |
| LuaK.FuncState.Prefix1 | server/lua53/lib/lcode.c:1066-1079 | A unary operator on any expression, folded or not |
| LuaK.FuncState.Infix | server/lua53/lib/lcode.c:1086-1115 | The first operand of any binary operator is brought to the place from which the second may be compiled |
| LuaK.FuncState.Posfix | server/lua53/lib/lcode.c:1124-1171 | With the second operand the whole expression is represented: `and`, `or`, concatenation, arithmetic, comparison |
| LuaK.FuncState.JoinAnd | server/lua53/lib/lcode.c:1127-1133 | `e1 and e2`: the false exits of the first operand join those of the second, in the code itself, and the result stands for the conjunction |
| LuaK.FuncState.JoinOr | server/lua53/lib/lcode.c:1134-1140 | `e1 or e2`: the true exits of the first operand join those of the second, and the result stands for the disjunction |
| Interpreter.Execute | server/lua53/lib/lvm.c:786-1319 | The interpreter loop on the instructions of chunks ends, and exactly as the relation of instructions to registers says |
| LuaVm.FloorDivision | server/lua53/lib/lvm.c:552-584 | Integer division and modulo, corrected from truncating operators, are the floor of the quotient, reduced to 64 bits, and its remainder, for every divisor but 0 |
| Shifts.LeftMultiplies | server/lua53/lib/lvm.c:593-602 | Shifting left by n multiplies by 2^n, modulo 2^64, for every n, those above 63 included |
| Shifts.RightDivides | server/lua53/lib/lvm.c:593-602 | Shifting by -n is the unsigned quotient by 2^n |
| Shifts.LeftThenRight | server/lua53/lib/lvm.c:593-602 | Shifting by n and back keeps exactly the low 64 - n bits |
| Shifts.RightThenLeft | server/lua53/lib/lvm.c:593-602 | Shifting by -n and back clears exactly the low n bits |
| Shifts.ShiftTwice | server/lua53/lib/lvm.c:593-602 | Two shifts in one direction are one shift by the sum |
| Operators.BitwiseBits | server/lua53/lib/lobject.c:91-93 | Bitwise and, or and exclusive or: each of the 64 bits of the result is the conjunction, disjunction or exclusive or of the operands' bits, for all 64-bit integers; a bit is a quotient by a power of two, modulo 2 |
| Operators.BitsOfInteger | server/lua53/lib/lobject.c:91-93 | Its bits decide an integer, so the row above says all about these operators |
| Operators.SumsReduced | server/lua53/lib/lobject.c:86-88 | Sum, difference and product are congruent to those of mathematics modulo 2^64, and in the range of 64 bits |
| Operators.ShiftsAre | server/lua53/lib/lobject.c:94-95 | The operators `<<` and `>>`: a product modulo 2^64 or a quotient of the unsigned number, and the other one for a negative count |
| Operators.UnaryIs | server/lua53/lib/lobject.c:96-97 | Unary minus is the negation modulo 2^64, and unary `~` complements every bit |
| Operators.BinaryDenotes | server/lua53/lib/lvm.c:889-1110 | Every binary operator of the language, between two operands that are integers, from the operator in the text to the value of the expression: what section 3.4 of the Lua 5.3 Reference Manual says it gives, division by zero included |
| Operators.UnaryDenotes | server/lua53/lib/lvm.c:1031-1066 | The same for the four unary operators |
| Sources.DoSource | server/lua53/lib/lparser.c:1612-1623 | From tokens to values: reading a text of local declarations and assignments statement by statement, emitting code at the same time, and then running that code leaves in the registers of the locals what a direct evaluator gives for the statements the text says, or the same error; a mistake is reported exactly as reading alone finds it; otherwise a name is not a local variable, or the text is too large, counted in tokens |
| Sources.StatList | server/lua53/lib/lparser.c:598-607 | The finished code of the whole text implements the statements that it says from every start; no jump is pending, every instruction can be encoded |
| Sources.Statement | server/lua53/lib/lparser.c:1537-1603 | The next statement: its tokens are consumed and no others, the code now implements one more statement, and a variable that it declares is active from there on |
| Sources.WrittenMeans | server/lua53/lib/lparser.c:1048-1075 | Statements written from trees, with the fewest parentheses and nothing between them, are read as a text whose execution is what the trees mean, with later variables hiding earlier ones of the same name |
| Parsing.SubExpr | server/lua53/lib/lparser.c:1048-1075 | `subexpr` in one pass: tokens are read by operator precedence and code is emitted for them before the next are read; code and descriptor stand for the tree that the precedences give, the rest of the tokens is left, and it fails exactly with the syntax error of reading alone, or for a name that is not a local variable, or if what it reads exceeds a limit, counted in tokens |
| Parsing.SearchVar | server/lua53/lib/lparser.c:244-251 | The innermost variable of that name, or -1 if there is none |
| Parsing.MeaningStripped | server/lua53/lib/lparser.c:874-881 | Parentheses do not change what an expression evaluates to |
| GcRuns.FullGc | server/lua53/lib/lgc.c:1174-1190 | A full collection in an emergency, from any state: everything strongly accessible stays; and if a set encloses all that can be reached, and all that has a finalizer, nothing outside it is left |
| GcRuns.StepsToPause | server/lua53/lib/lgc.c:1060-1123 | Emergency steps alone, from every state with slices of at least one object: after a bounded number of steps the cycle has ended; along the way the sweep begins, or has begun, and what is left at the end is exactly what was live when it did, everything strongly accessible at the start included; and if the start is in the mark phase, nothing is left outside a bound that holds what is marked, what marking still leads to, and what has a finalizer |
| GcRuns.StepsBounded | server/lua53/lib/lgc.c:1060-1123 | The bound on these steps: at most seven and four for each object |
| GcRuns.Run | server/lua53/lib/lgc.h:19-25 | Every run of collector steps and program steps (14 kinds), each possible and harmless, keeps the invariant; from one moment to the next live objects stay live, but for the atomic step, at which those stay that are strongly accessible; and every step does what it is for: stores store, new objects are there, and a step of the collector brings the end of the cycle nearer. Harmless is a condition for three kinds of steps only |
| GcRuns.DoStore | server/lua53/lib/lgc.h:19-25 | A store of the program in such a run changes exactly the slot, entries, metatable, mode, stack, cache or root that it names, and otherwise only marks |
| GcRuns.OutlivesAtomic | server/lua53/lib/lgc.c:997-1041 | In such a run an object that is strongly accessible at one atomic step is in the heap and live until the next |
| GcRuns.LivesOn | server/lua53/lib/lgc.c:208-216 | So is an object that is live, say because it is new, until the next atomic step |
| GcRuns.SingleStep | server/lua53/lib/lgc.c:1060-1112 | One collector step in any state keeps the invariant, and does its work: in GCSpause the roots are marked; in GCSpropagate the first gray object is traversed, with fewer objects white or gray, until none is left; in GCSatomic what is strongly accessible stays, and exactly those entries of weak tables go that are to; in the sweeping states exactly the dead of a slice are freed, and the sweep advances; in GCScallfin an object is taken for its finalizer as long as there is one, unless it is an emergency. Live objects stay, and the steps left to the end of the cycle get fewer |
| GcRuns.FinishCycle | server/lua53/lib/lgc.c:1119-1123 | Running until GCSpause ends, frees dead objects only, and finalizes nothing |
| GcRuns.AbandonMarking | server/lua53/lib/lgc.c:1178-1180 | Starting over in the middle of marking frees nothing |
| GcRuns.StartInv | server/lua53/lib/lstate.c:295-338 | A new state satisfies the invariant |
| GcRuns.AccessibleSwept | server/lua53/lib/lgc.c:750-767 | Freeing the dead does not change what is strongly accessible |
| GcCycle.AtomicStep | server/lua53/lib/lgc.c:1077-1084 | After `atomic` and the exchange of whites every object strongly accessible from the roots is live; only objects of the bound are live, if marking started within it; objects with finalizers outside it wait to be finalized; the invariant holds again, so nothing live refers to anything dead. Of the entries of live tables exactly these are gone: those whose weak values the marking before the finalizers had not reached, if it had reached the table, and those whose weak keys (or weak values, in a table reached later) are dead |
| GcCycle.GoneByAccess | server/lua53/lib/lgc.c:1014-1036 | Where the bound holds, strings apart, only what is strongly accessible, strong accessibility itself decides which values go: those only brought back for their finalizers go, while keys brought back stay |
| GcCycle.Restart | server/lua53/lib/lgc.c:337-344 | From a heap that is all white a new cycle starts with the roots marked, and within the bound if that encloses them |
| GcCycle.PropagateStep | server/lua53/lib/lgc.c:1069-1076 | The first gray object is traversed: the invariant holds, marking stays within the bound, and there is progress: fewer objects are white or in the gray list |
| GcCycle.FlipSound | server/lua53/lib/lgc.c:1038 | When nothing marked refers to anything unmarked, exchanging the whites makes exactly the unmarked objects dead, and no live object refers to one |
| GcAtomic.Atomic | server/lua53/lib/lgc.c:997-1041 | If the tables in `allweak` rightly wait there: every strongly accessible object is marked, nothing marked refers to anything unmarked, and exactly those entries of weak tables are gone whose values were not reached before the finalizers, or whose keys were not reached at all. In any case: unmarked objects with finalizers, and no others, move to the list of those to be finalized and are marked, and nothing outside the bound is marked |
| GcEntries.PurgedAt | server/lua53/lib/lgc.c:1014-1036 | Clearing in passes, values first, then keys, then values of tables found meanwhile: what is left of one table, by its mode and by when it was reached |
| GcAtomic.ConvergeEphemerons | server/lua53/lib/lgc.c:608-623 | It ends, and then every marked key of an ephemeron table that waits has a marked value, tables reached meanwhile included |
| GcAtomic.ClearList | server/lua53/lib/lgc.c:639-675 | Exactly the entries of the listed tables with unmarked objects as keys, or as values, are gone; strings are values and stay |
| GcAtomic.SeparateToBeFnz | server/lua53/lib/lgc.c:895-910 | Exactly the white objects of the list move to the end of the other, in order |
| GcAtomic.MarkedStronglyClosed | server/lua53/lib/lgc.c:997-1013 | When marking has converged, the marked objects are closed under strong references, ephemeron entries included |
| GcAtomic.AccessibleMarked | server/lua53/lib/lgc.c:997-1013 | So everything strongly accessible from the roots is marked then |
| GcAtomic.ClearedIsComplete | server/lua53/lib/lgc.c:1014-1036 | When all waiting tables have been cleared, no marked object refers to an unmarked one, not even weakly |
| GcPropagate.PropagateMark | server/lua53/lib/lgc.c:559-600 | Traversing the first gray object keeps the tri-colour invariant and the bound, for every kind of object and weakness; weak tables go to the lists of their modes |
| GcPropagate.PropagateTable | server/lua53/lib/lgc.c:451-471 | A table is traversed according to the `__mode` of its metatable at that time: the invariant and the bound are kept, an all-weak one does not get black, and what is put in `allweak` rightly waits there, its metatable marked |
| GcInvariant.TraversalKeeps | server/lua53/lib/lgc.h:19-25 | An object that has been traversed may be black and complete, or gray in one of the lists, and the invariant holds again |
| GcMark.ReallyMark | server/lua53/lib/lgc.c:235-283 | The object is marked and what marking it leads to is queued, each object once; nothing outside the bound is marked |
| GcMark.TraverseStrongTable | server/lua53/lib/lgc.c:433-448 | All contents get marked, and unmarked keys of empty entries are declared dead |
| GcMark.TraverseWeakValue | server/lua53/lib/lgc.c:361-381 | Keys get marked; the table goes to `weak` in the atomic phase unless no value may be cleared |
| GcMark.TraverseEphemeron | server/lua53/lib/lgc.c:394-430 | Values of marked keys get marked, and the table is linked where the rest of the cycle needs it: to `ephemeron` if a white key has a white value, to `allweak` if a white key has a marked one |
| GcMark.IsCleared | server/lua53/lib/lgc.c:139-146 | An unmarked object is cleared unless it is a string, which gets marked instead |
| GcSweep.SweepList | server/lua53/lib/lgc.c:750-767 | Of the next objects of a list exactly the dead ones are unlinked and freed, the others get the current white; objects further on, and in other lists, are as they were |
| GcSweep.SweepStep | server/lua53/lib/lgc.c:1044-1057 | A slice of the sweep keeps the invariant: of the next objects exactly the dead are freed and the others get the current white, and the sweep is at the place behind them, in the next state only at the end of the list |
| GcSweep.EnterSweep | server/lua53/lib/lgc.c:974-979 | The sweep begins, with the invariant |
| GcMutator.StoreForward | server/lua53/lib/lgc.c:155-164 | A store followed by the forward barrier keeps the invariant at any time, and but for marks changes that object only |
| GcMutator.SetTable | server/lua53/lib/lgc.c:171-176 | A store into a table with the backward barrier, with any rearrangement of its entries, keeps it too |
| GcMutator.SetMetatable | server/lua53/lib/lgc.c:155-164 | Setting a metatable, with the barrier that `lua_setmetatable` calls for it, keeps the invariant if and only if it is not the mark phase, or the table does not wait in `allweak`, or the new metatable is marked and says all-weak |
| GcMutator.SetGives | server/lua53/lib/lgc.c:451-471 | A change of the `__mode` of a metatable keeps the invariant if and only if it is not the mark phase, or the new mode is all-weak, or no table that has this metatable waits in `allweak` |
| GcMutator.CacheClosure | server/lua53/lib/lvm.c:648-649 | Caching a closure in a prototype that is not black needs no barrier |
| GcObjects.NewObject | server/lua53/lib/lgc.c:208-216 | An object made in any state is live, and the invariant holds, with the sweep pointing into the list or not |
| GcObjects.Resurrect | server/lua53/lib/lstring.c:177-179 | A dead string that is found again is live, with the invariant |
| GcObjects.CheckFinalizer | server/lua53/lib/lgc.c:917-936 | Moving an object to the list with finalizers, in any state, keeps the invariant: the sweep does not lose its place |
| GcObjects.SweepToLive | server/lua53/lib/lgc.c:773-779 | `sweepgc` moves on, past a live object or to the end |
| GcObjects.Udata2Finalize | server/lua53/lib/lgc.c:803-813 | Taking the first object to be finalized keeps the invariant if and only if the sweep does not stand at that object's link, or what follows in the list has been swept |
| GcLosses.MetatableLost | server/lua53/lib/lgc.c:451-471 | A run from a new state in which a live table keeps a metatable that has been freed |
| GcLosses.EntryLost | server/lua53/lib/lgc.c:451-471 | A run from a new state in which an object is freed that was strongly accessible at the atomic step |
| GcLosses.ModeLost | server/lua53/lib/lgc.c:451-471 | A run from a new state in which a table stops being weak before the atomic phase, and the value of one of its entries, strongly accessible now, is freed |
| GcLosses.FinalizerLost | server/lua53/lib/lgc.c:803-813 | For every length of the slices of the sweep, 85 in the source, a run from a new state in which an object is still marked when the sweep has ended |
| LuaTable.Table.RawSet | server/lua53/lib/ltable.c:610-615 | Setting any key, float keys with integer values included, updates the map that the table stands for; nil and NaN are refused; it fails only if the table has reached its largest size, and then changes nothing |
| LuaTable.Table.RawGet | server/lua53/lib/ltable.c:589-603 | Getting any key returns the value of that map |
| LuaTable.Table.Set | server/lua53/lib/ltable.c:610-615 | The map is updated; for a key that has a cell the cells of all keys stay where they are |
| LuaTable.Table.NewKey | server/lua53/lib/ltable.c:461-510 | A new key gets a cell and the map stays: Brent's variation keeps the chains acyclic, with one predecessor for each node, and every key can be reached from its main position |
| LuaTable.Table.Rehash | server/lua53/lib/ltable.c:395-412 | The map stays, the array part has the optimal size for the keys with the one to be added, and there is room for that one |
| LuaTable.Table.Resize | server/lua53/lib/ltable.c:347-384 | Other sizes of the two parts, the same map, if the hash part is to be large enough for the keys outside the array part |
| LuaTable.Table.Next | server/lua53/lib/ltable.c:186-203 | The present key with the next traversal number and its value, or the end if there is none; an error exactly for a key without a cell |
| LuaTable.Table.GetN | server/lua53/lib/ltable.c:660-676 | The length is a border, by binary search in the array part or by `unbound_search` beyond it |
| LuaTable.Table.NumUseArray | server/lua53/lib/ltable.c:259-282 | Every present key of the array part is counted in the slice of powers of two that it is in |
| LuaTable.Table.NumUseHash | server/lua53/lib/ltable.c:285-298 | So is every integer key of the hash part, and all keys are counted |
| LuaTraversal.Traverse | server/lua53/lib/ltable.c:186-203 | A whole traversal whose body assigns to fields that have cells, nil included, any assignments in any round: no key is visited twice, every key that is present all the time is visited, with the value it has at that moment, and the table ends up as the assignments say |
| LuaTraversal.VisitedOnce | server/lua53/lib/ltable.c:186-203 | The law behind it: steps to the next number visit every key that stays present exactly once |
| LuaTraversal.NumbersDiffer | server/lua53/lib/ltable.c:159-183 | Keys with cells have different traversal numbers, none of them 0, and every present key has a cell |
| TableSizes.ComputeSizes | server/lua53/lib/ltable.c:219-240 | From the counts of the slices: the largest power of two n such that more than n/2 of 1 to n are in use, 0 if there is none, and how many keys are at most n |
| TableSizes.CeilLog2 | server/lua53/lib/lobject.c:65-80 | The smallest exponent whose power of two is at least the argument, by the table of 256 entries |
| TableNodes.MovedOk | server/lua53/lib/ltable.c:486-497 | Moving a node that is outside its main position to a free one keeps all chains |
| LuaMatch.MatchState.Match | server/lua53/lib/lstrlib.c:425-524 | Unless it is "pattern too complex", the result is the first outcome in order of priority, as described by the repetitions that are possible and what the rest can match: the end with its captures, no match only if every way fails, or the error met first; a failed attempt gives back the captures there were; and the pattern is too complex only if what is left of it is longer than the remaining depth |
| Patterns.OutsComplete | server/lua53/lib/lstrlib.c:425-524 | The list of outcomes in order of priority has exactly the outcomes that the meaning of patterns allows (section 6.4.1 of the Lua 5.3 Reference Manual) |
| Patterns.FirstIsHead | server/lua53/lib/lstrlib.c:425-524 | The order of priority, by the repetitions that are possible and what the rest can match: for `*` and `+` the greatest number of repetitions at which the rest does not fail, for `-` the least, for `?` one before none; an error met before counts as an outcome. What is first by this description is what heads the list |
| Patterns.FirstIsOne | server/lua53/lib/lstrlib.c:425-524 | There is at most one first outcome, and it is one that the meaning of patterns allows |
| Patterns.ClassLetters | server/lua53/lib/lstrlib.c:282-300 | Which letter stands for which class of characters |
| Patterns.ItemCharacters | server/lua53/lib/lstrlib.c:425-524 | Which characters make a capture, an anchor, a balance, a reference, a frontier, and the four suffixes |
| LuaMatch.MatchState.MaxExpand | server/lua53/lib/lstrlib.c:361-373 | Greedy repetition: the result of the rest behind the greatest number of repetitions at which it does not fail, no match only if it fails behind every number |
| LuaMatch.MatchState.MinExpand | server/lua53/lib/lstrlib.c:376-386 | Lazy repetition: the result of the rest behind the least number of repetitions at which it does not fail, no match only if it fails behind every number |
| LuaMatch.MatchState.MatchBalance | server/lua53/lib/lstrlib.c:341-358 | The end of the shortest balanced stretch, or none; an error if the two delimiters are missing |
| LuaMatch.MatchState.MatchBracketClass | server/lua53/lib/lstrlib.c:302-322 | Membership in a set with ranges, classes and complement |
| LuaFind.StrFindAux | server/lua53/lib/lstrlib.c:607-651 | `find` and `match` return the first outcome at the leftmost start at which matching does not fail, every start before it failing, or what a plain search finds, with captures as values; patterns below 200 bytes are never too complex |
| LuaFind.MemFind | server/lua53/lib/lstrlib.c:528-547 | The first occurrence of a string, none only if there is none |
| LuaFind.NoSpecials | server/lua53/lib/lstrlib.c:580-588 | No special character anywhere, zeros in the pattern included |
| LuaFind.PlainSearchAgrees | server/lua53/lib/lstrlib.c:580-588 | For patterns without special characters the plain search that replaces matching agrees with it on all subjects if and only if the pattern has no `)` |
| ChunkIO.AnyCut | server/lua53/lib/lundump.c:258-278 | However a dump is cut into non-empty blocks, and whatever follows it, loading gives back an equal tree if and only if no nested function lacks a source that its parent has; a stripped dump gives the tree without sources and debug information |
| ChunkLayout.ChunkShown | server/lua53/lib/ldump.c:98-196 | The bytes of a dump, field by field, without the encoder: the 33 bytes of the header, the number of upvalues, the width and place of every field of a function, the tag and payload of every kind of constant, both forms of the size of a string, nested functions |
| ChunkLayout.ReadsChunk | server/lua53/lib/lundump.c:118-278 | Whatever bytes show a chunk in this layout, with the long form of sizes for short strings too, are loaded as that chunk, whoever wrote them |
| ChunkLayout.ReadsConst | server/lua53/lib/lundump.c:118-150 | So for one constant: the tags 0, 1, 3, 4, 19 and 20 are nil, booleans, floats, short strings, integers and long strings |
| PrecompiledLaws.RoundTrip | server/lua53/lib/lundump.c:202-216 | The same for the bytes in one piece |
| PrecompiledLaws.FunctionBack | server/lua53/lib/ldump.c:166-181 | Reading a written prototype consumes exactly its bytes and gives it back, with the parent's source where it has none |
| PrecompiledLaws.BackIsCopy | server/lua53/lib/lundump.c:203-205 | When that is an equal tree |
| PrecompiledLaws.StringBack | server/lua53/lib/ldump.c:73-87 | Strings of all lengths, and missing ones, are read back |
| PrecompiledLaws.ChunkLocal | server/lua53/lib/lundump.c:258-278 | On any bytes the loader looks at no more than it takes: more bytes behind change nothing but a report of truncation |
| ChunkIO.CutShort | server/lua53/lib/lundump.c:51-54 | A stream that stops anywhere behind the first byte of a dump is reported as truncated |
| ChunkIO.Zio.Read | server/lua53/lib/lzio.c:48-67 | The next n bytes of the stream, over the borders of blocks, or all there are and the number missing |
| ChunkIO.LoadState.Undump | server/lua53/lib/lundump.c:258-278 | The loader gives what the decoder gives on any input, errors included; and bytes in the layout of chunks give the chunk that they show |
| ChunkIO.LoadState.LoadFunction | server/lua53/lib/lundump.c:202-216 | So for one function with the functions nested in it |
| ChunkIO.Dump | server/lua53/lib/ldump.c:202-214 | The writer is given the encoding in non-empty blocks, all of it if it never fails, and is not called again once it has failed; the status is its last answer. What is written shows the function, in the layout of chunks |
| ChunkIO.Load | server/lua53/lib/ldo.c:766-780 | A chunk that begins with the signature byte is loaded as a binary one from the next byte on; if it is in the layout of chunks it gives the chunk that it shows |
| QuickSort.Sorter.AuxSort | server/lua53/lib/ltablib.c:357-408 | With a consistent comparison the interval is sorted and no error is raised; with any comparison, one that raises errors included, it ends, touches no other slot and leaves a permutation; activations are nested at most as deep as the logarithm of the length |
| QuickSort.Sorter.Partition | server/lua53/lib/ltablib.c:310-339 | The pivot ends up between elements not above and not below it; both loops stay inside the interval with any comparison, or an error is raised |
| QuickSort.Sorter.Sort | server/lua53/lib/ltablib.c:411-421 | `table.sort` of n elements; too many are refused, and an error in a comparison leaves a permutation |
| QuickSort.Sorter.SideDone | server/lua53/lib/ltablib.c:394-404 | Once one side of the pivot is sorted, the other side is all that is left to sort |
| QuickSort.ChoosePivot | server/lua53/lib/ltablib.c:346-351 | The pivot is taken from the two middle quarters |
| Quoting.QuoteRoundTrip | server/lua53/lib/lstrlib.c:908-928 | What `%q` writes is read by the lexer as the same bytes, and exactly the literal is consumed, for all strings if and only if the carriage return counts as a control character |
| Quoting.RestBack | server/lua53/lib/llex.c:366-426 | The same for one string and any text behind it, with the count of lines |
| Quoting.LexState.ReadString | server/lua53/lib/llex.c:366-426 | Reading a short string with all its escape sequences gives the text that is specified, on any input, errors included |
| Quoting.AddQuoted | server/lua53/lib/lstrlib.c:908-928 | The bytes that quoting appends |
| Escapes.CodePointRead | server/lua53/lib/llex.c:327-351 | `\u{...}` gives the form in UTF-8 (section 3 of RFC 3629) of the number between the braces, in base 16, and an error exactly above 10FFFF |
| Escapes.Utf8Is | server/lua53/lib/lobject.c:346-361 | The bytes made of a code point decode back to it, and are its shortest form |
| Escapes.HexRead | server/lua53/lib/llex.c:319-325 | `\x` with two digits is the byte of 16 times the first and the second |
| Escapes.LetterRead | server/lua53/lib/llex.c:381-395 | The letters and the characters that stand for themselves |
| Escapes.BreakRead | server/lua53/lib/llex.c:151-160 | A line break behind a backslash, of one or two bytes, is one newline and counts as one line |
| Upvalues.Thread.FindUpval | server/lua53/lib/lfunc.c:69-92 | The one open upvalue of a slot is returned, or a new one is linked in at its place, and the list stays strictly descending; others are untouched |
| Upvalues.Thread.Close | server/lua53/lib/lfunc.c:95-108 | Exactly the upvalues at or above the level leave the list; those that are referred to keep reading the same value, the others are freed |
| Upvalues.Thread.ReallocStack | server/lua53/lib/ldo.c:177-188 | When the stack moves, every open upvalue reads the same value as before, and all pointers into the stack keep their offsets |
| Upvalues.Thread.GrowStack | server/lua53/lib/ldo.c:191-207 | Growing leaves room for what was asked, or raises an overflow with room to handle it; an overflow while handling one is an error in the error handler |
| StringTable.Strings.Resize | server/lua53/lib/lstring.c:71-96 | Rehashing in place, growing or shrinking, keeps exactly the same strings, each in the bucket of its hash |
| StringTable.Strings.Intern | server/lua53/lib/lstring.c:167-193 | The one object of a text is returned, a dead one revived, or one is added; no text ever has two objects |
| StringTable.Strings.Remove | server/lua53/lib/lstring.c:154-161 | Exactly the one string leaves the table |
| StringTable.FiledRemove | server/lua53/lib/lstring.c:154-161 | Unlinking a string keeps all chains |
| StringTable.FiledPush | server/lua53/lib/lstring.c:79-90 | Linking a string in front of a chain keeps all chains |
| Precedence.ReadYield | server/lua53/lib/lparser.c:1048-1075 | Reading the tokens of a tree gives that tree if and only if the tree respects the priorities |
| Precedence.ReadIsWell | server/lua53/lib/lparser.c:1048-1075 | Whatever tokens are read, the tree is made of exactly these, and respects the priorities |
| Precedence.WellIsRead | server/lua53/lib/lparser.c:1048-1075 | Every tree that respects the priorities is read from its tokens, or too many calls are nested: exactly which |
| Precedence.PrintThenRead | server/lua53/lib/lparser.c:1025-1040 | Printing an expression with the fewest parentheses possible and reading it again gives it back |
| Precedence.WrapIsMinimal | server/lua53/lib/lparser.c:1025-1040 | No tree for the same expression has fewer parentheses |
| Precedence.LexState.SubExprTree | server/lua53/lib/lparser.c:1048-1075 | `subexpr` with its counter of nested calls reads what is specified |
| OperatorLevels.ReadAsListed | server/lua53/lib/lparser.c:1048-1075 | Reading the tokens of a tree gives that tree if and only if the operators are nested as the list of levels in section 3.4.8 of the Lua 5.3 Reference Manual says; the list stands by itself, without the numbers of the source |
| OperatorLevels.ReadIsListed | server/lua53/lib/lparser.c:1048-1075 | Whatever is read is nested as that list says |
| OperatorLevels.TwoBinary | server/lua53/lib/lparser.c:1025-1040 | `a op1 b op2 c`, for all pairs of binary operators, is read as `(a op1 b) op2 c` if and only if the first stands on a higher level, or on the same level and is neither `^` nor `..` |
| OperatorLevels.UnaryBinary | server/lua53/lib/lparser.c:1025-1040 | `u a op b`, for all pairs, is read as `u (a op b)` if and only if the binary operator is `^` |
| TaskQueues.AlwaysConserved | server/lua_service/engine/mongo/mongo_task_mgr.cpp:183-235 | In every interleaving each accepted item is in exactly one place (a queue, a worker, the done queue, a running `OnFrame`, deleted), so it is deleted at most once, and `SetId` never meets a deleted one |
| TaskQueues.HandledOnce | server/lua_service/engine/mongo/mongo_task_mgr.cpp:89-101 | In every run no item is handled twice |
| TaskQueues.KeepsConserved | server/lua_service/engine/mongo/mongo_task_mgr.cpp:61-87 | No single step of the main thread or of a worker, `Stop` included, loses or doubles an item |
| TaskOrder.HandledInOrder | server/lua_service/engine/mongo/mongo_task_mgr.cpp:89-101 | In every run in which no nested `OnFrame` takes over an item whose hash code an outer call still has to handle, results with equal hash codes are handled in the order of submission |
| TaskOrder.EnterDecides | server/lua_service/engine/mongo/mongo_task_mgr.cpp:89-101 | Whether order is kept in all such continuations of a call of `OnFrame` is decided exactly by that condition |
| TaskOrder.OvertakingReorders | server/lua_service/engine/mongo/mongo_task_mgr.cpp:89-101 | Where the condition fails, a continuation handles a later item first |
| TaskOrder.NestedReorders | server/lua_service/engine/mongo/mongo_task_mgr.cpp:89-101 | A run with three items of one hash code, handled in the order 0, 2, 1 |
| TaskOrder.KeepsLine | server/lua_service/engine/mongo/mongo_task_mgr.cpp:183-221 | Every step that meets the condition keeps the items of one hash code in line |
| Packing.RoundTrip | server/lua53/lib/lstrlib.c:1476-1537 | Unpacking what has been packed gives the arguments back and the position behind it, for all formats, arguments and following bytes; strings of fixed size come back filled up with zeros |
| Packing.RestBack | server/lua53/lib/lstrlib.c:1330-1414 | The same from any place in a format on, whatever stands in front |
| Packing.IntBack | server/lua53/lib/lstrlib.c:1450-1473 | Every integer that a size can hold comes back, negative ones by the extension of their sign, and sizes above 8 included |
| Packing.BackIsPrefix | server/lua53/lib/lstrlib.c:1476-1537 | What comes back is the arguments that were taken, unchanged, if and only if every string of fixed size fills that size |
| Packing.PaddingAligns | server/lua53/lib/lstrlib.c:1276-1284 | Padding puts an item at a multiple of its alignment, and no smaller padding does |
| Packing.SizeAgrees | server/lua53/lib/lstrlib.c:1417-1439 | The size computed is the length of what is packed, if and only if the format has only options of fixed size and the result is not too large |
| Packing.StrPack | server/lua53/lib/lstrlib.c:1330-1414 | `string.pack` on all formats and arguments, errors included |
| Packing.StrUnpack | server/lua53/lib/lstrlib.c:1476-1537 | `string.unpack` on all formats, bytes and positions, errors included |
| Packing.StrPackSize | server/lua53/lib/lstrlib.c:1417-1439 | `string.packsize` on all formats, errors included |
| Packing.PackInt | server/lua53/lib/lstrlib.c:1295-1309 | The loops over the buffer write the bytes of the integer in the order asked for, with its sign in the bytes beyond the eighth |
| PackedIntegers.IntegerPacked | server/lua53/lib/lstrlib.c:1221-1309 | For every option for integers, with the size that section 6.4.2 of the Lua 5.3 Reference Manual and the C types give it, under `<`, `>` or `=`: packing an integer gives exactly that many bytes, of which the byte for the power k of 256 is the digit of the number there, negative numbers in two's complement, at place k or at place k from the end; an error exactly if it does not fit |
| PackedIntegers.StringPacked | server/lua53/lib/lstrlib.c:1386-1396 | A string stands behind its length, in the bytes of an integer of that size, 8 bytes if none is given |
| PackedIntegers.FloatPacked | server/lua53/lib/lstrlib.c:1364-1374 | A float is 4 or 8 bytes, those in memory, turned round if another order is asked for |
| PackedIntegers.TextPacked | server/lua53/lib/lstrlib.c:1375-1405 | A string of fixed size is filled up with zeros, or refused if it is longer; a zero-terminated one gets a zero, or is refused if it has one |
| PackedIntegers.AlignmentSet | server/lua53/lib/lstrlib.c:1252-1252 | `!` sets the largest alignment to the number behind it, or to 8 |
| Packing.UnpackInt | server/lua53/lib/lstrlib.c:1450-1473 | The loop over the bytes gives the integer, or an error where the bytes beyond the eighth do not repeat its sign |
| Packing.CopyWithEndian | server/lua53/lib/lstrlib.c:1316-1327 | The bytes are copied in order, or in reverse order |
| Packing.Reader.GetOption | server/lua53/lib/lstrlib.c:1221-1256 | The option, its size, and the settings that it changes |
| Packing.Reader.GetDetails | server/lua53/lib/lstrlib.c:1268-1286 | The option with its padding; `X` takes the alignment of the option behind it |
| Packing.Reader.GetNum | server/lua53/lib/lstrlib.c:1182-1192 | A number in a format is read as far as it fits an `int` |
| PoolRuns.Run | server/lua_service/engine/memory_pool/MemoryPoolMgr.cpp:49-122 | After any legal requests for blocks, other sizes, releases and writes, the program finds at its pointers what it would find if every block were memory of its own; no block is lost |
| PoolManagers.MemoryPoolMgr.Malloc | server/lua_service/engine/memory_pool/MemoryPoolMgr.cpp:49-68 | A pointer that was not in use, from the pool with the smallest blocks that are large enough; the others keep their content |
| PoolManagers.MemoryPoolMgr.Realloc | server/lua_service/engine/memory_pool/MemoryPoolMgr.cpp:70-101 | What was there stays, at the same address or at another one, and is never cut; the others keep their content |
| PoolManagers.MemoryPoolMgr.Free | server/lua_service/engine/memory_pool/MemoryPoolMgr.cpp:103-123 | The size in front leads to the pool that the block is from; exactly this block is no longer in use |
| PoolManagers.MemoryPoolMgr.FillIndex | server/lua_service/engine/memory_pool/MemoryPoolMgr.cpp:26-35 | The table has for every size the first pool whose blocks are large enough |
| PoolManagers.FitsBest | server/lua_service/engine/memory_pool/MemoryPoolMgr.cpp:125-130 | Looking up the rounded size gives the pool with the smallest blocks that fit |
| MemoryPools.MemoryPool.Malloc | server/lua_service/engine/memory_pool/MemoryPool.cpp:44-120 | A block that was not in use, from the set used last, or the first one with a free block; only when there is none a set is added, with a number that is not in use; no content changes |
| MemoryPools.MemoryPool.Free | server/lua_service/engine/memory_pool/MemoryPool.cpp:122-145 | Exactly this block is given back; its set is given up if and only if it has no block in use any more and more sets than expected are working |
| MemoryPools.MemoryPool.AddSet | server/lua_service/engine/memory_pool/MemoryPool.cpp:60-110 | A set is added without changing what is in use |
| MemoryPools.MemoryPool.GenBlockId | server/lua_service/engine/memory_pool/MemoryPool.cpp:147-160 | The least number that can be used again, or a new one |
| MemoryPools.NoOverlap | server/lua_service/engine/memory_pool/MemoryPool.cpp:85-102 | Blocks in use do not overlap |
| MemoryPools.MemoryPool.Inside | server/lua_service/engine/memory_pool/MemoryPool.cpp:68-105 | A block in use lies in the bytes of its set if and only if one block has room behind the header of a set |
| MemoryPools.UnusedSet | server/lua_service/engine/memory_pool/MemoryPool.cpp:134-143 | The count of a set is 0 if and only if no block of it is in use |
| MemoryPools.SetNumber | server/lua_service/engine/memory_pool/MemoryPool.cpp:118-125 | In front of every block in use stands the number of its set |
| BlockSets.NewSet | server/lua_service/engine/memory_pool/MemoryPool.cpp:76-102 | The loop threads all blocks of a new set into its free list, through the memory of the blocks; it threads one block even where the set is too small for it, and none only in a set without any bytes |
| BlockSets.TakenOk | server/lua_service/engine/memory_pool/MemoryPool.cpp:115-119 | Taking the first free block leaves the rest of the list and the content of all other blocks |
| BlockSets.GivenOk | server/lua_service/engine/memory_pool/MemoryPool.cpp:124-132 | Giving a block back puts it in front of the list and changes no other block |
| BlockSets.CountsAll | server/lua_service/engine/memory_pool/MemoryPool.cpp:82-102 | Used and free blocks are `total_num` together if and only if that is not 0 and blocks do not fill the set up, or there is one only; otherwise one is missing, or there is one more |
| BlockSets.InsideExactly | server/lua_service/engine/memory_pool/MemoryPool.cpp:68-102 | For all sizes of blocks and pages and every least number of blocks: every block that is threaded lies inside the set if and only if one has room behind the header |
| BlockSets.RoomForOne | server/lua_service/engine/memory_pool/MemoryPool.cpp:68-74 | A least number of one or more gives that room |
| BlockSets.Overrun | server/lua_service/engine/memory_pool/MemoryPool.cpp:68-102 | A set in which it is not so: a program that fills the block that it was given writes 12 bytes behind the set |

## Findings

Promises that do not always hold, with an input and the exact condition. In the first three rows
the promise is the invariant of the collector; the inputs show what is lost without it.

| what | input | it holds if and only if |
|---|---|---|
| Setting a metatable keeps the invariant of the collector (`lua_setmetatable`, `server/lua53/lib/lapi.c:858-866`) | `GcLosses.MetatableLost`: table 1 is all-weak, has been visited in the mark phase and waits in `allweak`; it gets a new all-weak metatable that nobody else refers to. The metatable is freed at the end of the cycle. `GcLosses.EntryLost`: the same table loses its metatable; its value, strongly accessible now, is freed | `GcMutator.SetMetatable`: it is not the mark phase, or the table is not in `allweak`, or the new metatable is marked and all-weak |
| Changing `__mode` keeps the invariant of the collector (`traversetable`, `server/lua53/lib/lgc.c:451-471`, reads it when it visits the table, not when it clears it) | `GcLosses.ModeLost`: an all-weak table that has been visited in the mark phase waits in `allweak`; its metatable stops being weak; its value, strongly accessible now, is freed | `GcMutator.SetGives`: it is not the mark phase, or the new mode is all-weak too, or no table with this metatable is in `allweak` |
| Taking an object for its finalizer keeps the invariant of the collector, by which every object is white when the sweep has ended (`udata2finalize`, `server/lua53/lib/lgc.c:803-813`) | `GcLosses.FinalizerLost`: one unreachable userdata with a finalizer more than a slice of the sweep takes, 86 in the source; a slice stops before the last of them; the finalizers of the others are called, the last of these with `sweepgc` at the link of its object. `sweepgc` goes with that object into `allgc`, and the last userdata stays marked | `GcObjects.Udata2Finalize`: `sweepgc` does not stand at the link of the first object to be finalized, or what follows it has been swept |
| Results of requests with equal hash codes are handled in the order of submission (`OnFrame`, `server/lua_service/engine/mongo/mongo_task_mgr.cpp:89-101`) | `TaskOrder.NestedReorders`: three requests with one hash code; the callback of the first calls `OnFrame` again when the third is done, while the outer call still holds the second. They are handled in the order 0, 2, 1 | `TaskOrder.EnterDecides`: no result that a call of `OnFrame` takes over has the hash code of one that an outer call still has to handle |
| `find` gives the same for a pattern without special characters as matching it (`nospecials`, `server/lua53/lib/lstrlib.c:580-588`) | The pattern `)`: it is found as a plain string, while matching it raises an error | `LuaFind.PlainSearchAgrees`: the pattern has no `)` |
| Loading a dump gives an equal tree (`LoadFunction`, `server/lua53/lib/lundump.c:202-205`) | A nested function without a source in a function that has one: it gets that source | `PrecompiledLaws.RoundTrip`, `ChunkIO.AnyCut`: no nested function lacks a source that its parent has |
| `%q` can be read back (`addquoted`, `server/lua53/lib/lstrlib.c:908-928`) | A string with a carriage return, where the C library does not count it as a control character | `Quoting.QuoteRoundTrip`: `iscntrl` holds of the carriage return |
| The free blocks of a set and those in use are `total_num` (`MemoryPool::Malloc`, `server/lua_service/engine/memory_pool/MemoryPool.cpp:82-102`) | A set with exactly 2 blocks behind its header, such as blocks of 20 bytes on pages of 64: only one is ever given out | `BlockSets.CountsAll`: `total_num` is not 0, and the blocks do not fill the set up or the set has one block |
| The blocks of a set lie inside it (`MemoryPool::Malloc`, `server/lua_service/engine/memory_pool/MemoryPool.cpp:68-102`) | `BlockSets.Overrun`: 0 as the least number of blocks, blocks of 20 bytes on pages of 32: the set has 8 bytes for the block that is threaded anyway | `BlockSets.InsideExactly`, `MemoryPools.MemoryPool.Inside`: a block is not larger than the set behind its header; `BlockSets.RoomForOne`: a least number of 1 or more is enough |

The comment at `server/lua53/lib/lobject.c:66` says `log_2[i] = ceil(log2(i - 1))`; the table
itself has `ceil(log2(i + 1))`, which is what the code needs and the model follows.

## Left out

- LuaK.FuncState.Compile: expressions of literals, locals, parentheses, unary and binary operators; upvalues, indexing, calls, varargs, constructors and functions are not part of this model, nor are line information, the A field of OP_JMP (upvalues to be closed) and the limit of nested C calls.
- LuaK.FuncState.Compile: descriptors (`expdesc`) are values that methods take and return; the fields of `FuncState` are updated in place.
- Chunks.DoChunk: statements are local declarations with one variable and assignments to one local; blocks, loops and goto are not part of this model.
- Sources.DoSource: declarations of one local variable, with or without an expression, assignments to one local variable, and empty statements. Globals, calls (a string literal behind a name included) and other statements are not part of this model; what begins otherwise is `NotModelled`, whether it is a mistake or not.
- Sources.DoSource: tokens are given. An operand token is a literal or a name, as a function of its number says; names stand for the strings of names.
- Interpreter.Execute: the instructions that such chunks contain; arithmetic on floats, metamethods, string conversion, concatenation and comparison of non-integers are parameters, which give a value or an error.
- GcRuns.Run: finalizers are called between steps of the collector; what they do is steps of the program. Debt and the pace of collection are left out, so any step may come at any time.
- GcRuns.FullGc: finalizers are not called, as in an emergency; a collection with finalizers is a run of single steps.
- GcMark.GlobalState: open upvalues and their barrier, `remarkupvals`, stack shrinking, `luaC_fix` and the string cache are not part of this model. The content of strings is left out, so `__mode` is a field `gives` of the metatable, set by a step of its own.
- GcMutator.SetTable: the new contents of the table are given; that they are what `ltable.c` computes is the subject of `LuaTable`.
- LuaTable.Table.Resize: a hash part too small for the keys outside the array part is excluded; `rehash` never asks for one, and the other callers make a new table or a larger array part.
- LuaTable.Table: keys whose objects are dead, and hashing itself, are left out: the main position of a key is any function of the key. Floats without an integer value are opaque keys.
- LuaTraversal.Traverse: the body of the loop assigns to fields that have cells. What it assigns is any function of the number of the round, the key and the value; rounds have different numbers, so this includes assignments that depend on other fields.
- LuaMatch.MatchState.Match: `gmatch` and `gsub`, which call it, are not part of this model. Character classes of the C library are a parameter.
- ChunkIO.Load: prototypes are values; the identity of string objects, memory errors and reading beyond what C defines (`Undefined`) are left out.
- QuickSort.Sorter.AuxSort: the comparison does not change the table.
- StringTable.Strings.Intern: a collection in the middle of a resize and the cache of API strings are left out; the bucket is the hash modulo the size, which is the mask of the source for powers of two. Long strings are not interned.
- Quoting.LexState.ReadString: the limit of the size of the token buffer is left out; the file ends with the input.
- Upvalues.Thread: values on the stack are integers; what else refers to an upvalue is its `refcount`.
- Precedence.LexState.SubExprTree: calls, indexing and constructors are not part of this model (`NotModelled`); a simple expression is one token or a parenthesis.
- Packing.StrPack: arguments are integers, strings and floats of the type of the option; conversions between them are left out, a float being the bytes that it has in memory. The machine has 64-bit integers and sizes and 8 as its largest alignment, and strings are shorter than 2^63.
- Packing.StrUnpack: `strlen` gives a length that fits an `int`; the limit of the stack of results is left out.
- MemoryPools.MemoryPool.Malloc: numbers of sets and sizes of sets stay below 2^32, where the code wraps around; `malloc` never fails, and a set has at least one byte behind its header. Where a block is larger than that room, memory is modelled as far as the block reaches. Block sets are values in a sequence that the pool updates; an address is a set and a place in it.
- PoolManagers.MemoryPoolMgr.constructor: every pool has room for a block in its sets, by `MemoryPools.MemoryPool.Inside` exactly the case in which its blocks lie in its memory. The sizes come sorted and without repetition, which `std::sort` and the assertions see to; destruction is not part of this model.
- PoolManagers.MemoryPoolMgr.Malloc: a request is one step; the mutex of every pool is what makes it one. Sizes are positive, as the assertion asks.
- TaskQueues.AlwaysConserved: the database driver, `Process`, starting again after `Stop`, progress of the workers and the flags that are read without a lock are left out.
- TableSizes.CeilLog2: the argument 0, which the code never passes, is excluded.
