# Sedona VM and BACnet services: a verified model

This project models three parts of the Sedona/BACnet repository in Dafny and proves what each of
them keeps, over every input and every run.

**The Sedona virtual machine** (`src/vm/vm.c`). `Scode` decodes byte code and gives the effect of
each instruction on its operands; `OpcodeLaws` and `Arithmetic` say what those effects mean, and
`Assembler` that the interpreter decodes what the compiler (`src/sedonac`) writes. `FlatMachine` is the
interpreter as it is written: one stack of cells, registers moved by pointer arithmetic, natives
that may call back into `vmCall` to any depth. `FrameMachine` is the machine that stack stands for:
a list of frames with parameters, locals and operands. `MachineLaws` states what control instructions
do on the cells and registers themselves. `StackCheck` is a static check of a code
image (one operand depth per instruction) with its soundness, and `StackCheckExact` shows that it
rejects no instruction for less than it needs. `Simulation` and `WholeRuns` prove
that for checked code the flat machine follows the frame machine instruction by instruction, that
nested activations never touch the frames below them, and how far past the stack limit a cell can
be written. `Interpreter` is the dispatch loop with its stack and data memory in place, proved equal
to `FlatMachine`. `BranchRewrite`, `RewriteTurns` and `RewriteRuns` prove that near, far and fused
branches are interchangeable in programs that read no local before storing it: over whole runs of
`vmCall`, nested ones included, the old and the rewritten image answer alike when they are given the
same natives and the same words. `RewriteChecks` proves that the rewriting of a checked image is
checked. `StaleLocals` is a pair of images that shows why the condition is there, `Sample` a program
with direct and virtual calls that meets it, and `ForeachLoop` shows that a Foreach over an inline
array sees each object once and in order.

**The BACnet codec** (`temp/generic-unix/bacint.c`, `bacdcode.c`, `bacapp.c`,
`bacdevobjpropref.c`; sections 20.2.1 to 20.2.14 of ANSI/ASHRAE 135). `Octets`, `Tags` and
`Primitives` hold integers, tag headers and object identifiers; `AppData` and `AppEncode` the
application-tagged values and the buffer writes that produce them; `SafeDecoder` the resumable
decoder over octets that may be cut short; `DataLength` and `ConstructedData` the length of nested
constructed data; `PropertyReference` the references with optional fields. `WireFormat` states the
octets themselves, as a peer reads them.

**Two stateful services.** `AddressCache` and `CacheRuns` hold the device address binding cache
(`address.c`) and its invariants, `CacheLifetimes` how long its entries are found, `AddressList` its windowed encoding for ReadRange (section 15.8
of ANSI/ASHRAE 135). `AnalogInput`, `AlarmRuns` and `LimitEvents` hold intrinsic reporting of analog inputs
(`ai.c`, section 13.3.6 of ANSI/ASHRAE 135-2008).

Code that changes state is modelled by methods over arrays and object fields; each is proved equal
to a function on values, and the results below are about those functions.

## How the code is read

- Code, stack and data are separate memories, and a pointer is an offset into one of them. The
  target is 32 bits wide and little-endian; a long fills two cells.
- The modelled stack continues for 2048 cells beyond maxStackAddr, so that what is written past it can
  be stated.
- A stack access outside the modelled memory is `WildAccess`. `Undefined` is division by zero, a shift
  by more than the width, a data access out of range, and a virtual call that reaches a method of
  another arity or result than its call site. Signed overflow, which C leaves undefined too, is
  wrap-around here, in the virtual machine and in the codec and list code; data addresses are offsets
  that do not wrap.
- Words that do not come from the modelled memories are given from outside and may be anything: the
  results of float and double arithmetic, addresses of strings, types and slots in the code, and
  constant fields, which are such addresses. What these instructions take and leave on the stack, and
  the null tests and data reads they make, are modelled.
- A virtual table is a block of the image with a number of entries; a virtual call outside one is
  `Undefined`.
- A native is an event: the methods it calls back, and the heap and result it leaves. Its own body,
  and what the application does with a notification, are free choices.
- `SCODE_DEBUG`, `INTRINSIC_REPORTING` and the `BACAPP_*` switches are on.
- The codec sees a buffer as the octets from the current position on. Where a truncated header makes
  the code read past them, the model says so (`Short`, `Past`, `None`) or treats it as no tag.

## Where the code departs from its documentation

The model follows the code. These are the differences the proofs met; each has its exact condition
below, except the first, whose condition is sufficient.

- A call leaves its new locals as it finds them (vm.c:1025), and they may hold return addresses of
  earlier calls. So where branches are laid out anew, a method that reads a local it has not stored can
  answer differently. That every local is stored before it is read is enough to rule this out.
- Entry to `vmCall` has no overflow test (vm.c:428-441), unlike the instructions after it, so a callback
  can write up to maxStackAddr + 257.
- A signed -8388608 takes four octets, though three would do (bacdcode.c:1395).
- A date before 1900 and after 255 is written with a length of -1 (bacdcode.c:1637-1680).
- The first octet of an extended tag alone is taken for tag 15 (bacdcode.c:329-352).
- The safe decoder's false is not final: contents cut short are read as a tag by the next call
  (bacapp.c:355-374), which answers true exactly when they start a value themselves.
- `bacapp_data_len` counts open tags in eight bits and skips only the header of a context Boolean
  (bacapp.c:388-446), whose octet is then taken for a tag; the answer is right exactly for the octets
  of `PassesAlone`.
- `testDevIdPropRef` (bacdevobjpropref.c:297-330) expects a device identifier of type 28 back; such
  an identifier is not encoded and decodes as absent.
- The seek of `rr_address_list_encode` stops on the slot after the last one counted, bound or not
  (address.c:747-753), and an index of 2^31 or more wraps when a negative count is turned round, unless
  the count reaches back below 2^31.
- After a change of event state the time left is zero, so the next change does not wait for
  Time_Delay (ai.c:905-930). An acknowledgement accepted while one is still to be announced is not
  announced itself (ai.c:885-904, 1322-1325); each other one is, at the next evaluation with a limit enabled.

## Model

| member | source | states |
|---|---|---|
| OpcodeLaws.DivisionTruncates | src/vm/vm.c:568-569 | quotient and remainder recombine to the dividend, the remainder is smaller than the divisor and has the dividend's sign, and neither wraps wherever C defines them |
| OpcodeLaws.BitwiseBits | src/vm/vm.c:572-574 | every bit of an or, xor or and is that operation on the operands' bits |
| OpcodeLaws.LongsAreWhole | src/vm/vm.c:595-602 | a long operation on values split over two cells each leaves the split result |
| OpcodeLaws.WideningKeepsValue | src/vm/vm.c:693-697 | widening an int to two cells keeps its value and narrowing gives it back |
| OpcodeLaws.StoreThenLoad | src/vm/vm.c:913-962 | what a store of any width wrote the load of that width reads, narrowed and unsigned below 32 bits |
| OpcodeLaws.FieldsAreElements | src/vm/vm.c:913-962 | array and field instructions that address the same place store the same memory, and either load returns what was stored, narrowed to the width |
| OpcodeLaws.StoresStayInPlace | src/vm/vm.c:920-962 | a store leaves every octet it does not cover |
| OpcodeLaws.ShuffleCopiesBelow | src/vm/vm.c:713-718 | every dup instruction leaves its cells unchanged on top of a copy of the topmost one or two |
| Arithmetic.IntExact | src/vm/vm.c:567-571 | Add, Sub and Mul of every two ints are a + b, a - b and a * b up to a multiple of 2^32, a being the lower cell |
| Arithmetic.IntUndone | src/vm/vm.c:570-571 | Sub undoes Add and Add undoes Sub, through every overflow |
| Arithmetic.IntUnaries | src/vm/vm.c:575-580 | Neg is what Add takes to zero, Inc and Dec are Add and Sub of one and undo each other, Not is -1 less its operand and undoes itself |
| Arithmetic.IntShifts | src/vm/vm.c:577-578 | a shift by one more place doubles, wrapping, or halves, rounding down; by none it does nothing; outside 0 to 31 it is undefined |
| Arithmetic.IntBits | src/vm/vm.c:572-575 | every bit of Or, Xor, And and Not, from the bits of the operands |
| Arithmetic.IntOrder | src/vm/vm.c:557-564 | Lt is the order of the numbers with the lower cell on the left, Gt is Lt exchanged, the others are negations, and exactly one of Lt, Eq and Gt holds |
| Arithmetic.LongExact | src/vm/vm.c:595-602 | Add, Sub and Mul of longs in two cells each are exact up to a multiple of 2^64 |
| Arithmetic.LongDivisionTruncates | src/vm/vm.c:596-597 | quotient and remainder of longs, as of ints |
| Arithmetic.LongUnaries | src/vm/vm.c:603-604 | Neg and Not of longs are Sub from 0 and from -1 |
| Arithmetic.LongShifts | src/vm/vm.c:605-606 | shifts of longs by an int, as of ints, up to 63 places |
| Arithmetic.LongBits | src/vm/vm.c:600-602 | every bit of Or, Xor and And of longs |
| Arithmetic.LongOrder | src/vm/vm.c:587-592 | the six comparisons of longs, as of ints |
| Arithmetic.SplitIsLowFirst | src/vm/vm.c:595-606 | a long is its upper cell times 2^32 plus its lower cell read unsigned |
| Assembler.AssembledDecodes | src/sedonac/src/sedonac/gen/ImageGen.java:690-910 | what the compiler writes for an instruction, in the form its argument needs, decodes to that instruction, and the next one begins right behind it |
| Assembler.TableHolds | src/sedonac/src/sedonac/gen/ImageGen.java:656-665 | entry v of a written jump table reads back as the offset put there |
| Assembler.LiteralOpcodes | src/vm/vm.c:479-498 | literals without arguments push 0, 1, null and not-a-number of their type, wide ones low word first |
| Assembler.PooledLiterals | src/vm/vm.c:499-500 | int and float literals are the little-endian word of their block |
| Assembler.PooledLongs | src/vm/vm.c:501-502 | long and double literals are two such words |
| Assembler.FloatingCells | src/vm/vm.c:608-712 | floating-point instructions take and leave the cells of their operand and result types |
| Assembler.GivenOpcodes | src/vm/vm.c:503-506 | literals and constant fields that are addresses in the code |
| Assembler.OtherFields | src/vm/scode.h:827-1075 | reference opcodes decode like the 32-bit ones, static field opcodes to the data base and the offset |
| MachineLaws.BranchGoes | src/vm/vm.c:732-904 | JumpNonZero, JumpZero and the comparing jumps go to their offset exactly if the top cell is not zero, is zero, or the two top cells compare in that order, and take those cells |
| MachineLaws.SwitchGoes | src/vm/vm.c:1223-1240 | a Switch over a written table goes to the entry of the top cell, or behind the table if there is none |
| MachineLaws.VariableRemembers | src/vm/vm.c:513-550 | a load of a parameter or local pushes what the last store to it took |
| MachineLaws.OtherVariablesStay | src/vm/vm.c:521-550 | and a store leaves every other cell |
| MachineLaws.Param0CallIsBoth | src/vm/vm.c:1002-1015 | LoadParam0Call is LoadParam0 followed by Call |
| MachineLaws.CallEchoes | src/vm/vm.c:1006-1178 | a call of a method that returns its k-th parameter, or nothing, leaves the caller its registers and other cells, and the k-th argument in the order pushed, one cell or two, in place of the arguments |
| MachineLaws.ArgumentsEntered | src/vm/vm.c:416-441 | a method entered from outside finds its arguments in order, and a header without a caller |
| MachineLaws.EntryNamesBlock | src/vm/vm.c:95-114 | vmEntry enters the method whose little-endian block index is at its offset |
| MachineLaws.OutermostAnswers | src/vm/vm.c:1093-1178 | the outermost method answers its top cell, 0 for a wide result, or the cell below its arguments if it is void |
| MachineLaws.VirtualTarget | src/vm/vm.c:1030-1046 | a virtual call reaches the block in its slot of the table the receiver's first two octets name, little-endian |
| MachineLaws.NativeAnswers | src/vm/vm.c:1059-1091 | a native's word, or its low and above it its high word, takes the place of its arguments |
| MachineLaws.AddressIsTested | src/vm/scode.h:827-1075 | the null test looks at exactly the lowest cell of every instruction that takes an address |
| MachineLaws.NullFails | src/vm/vm.c:455-459 | so such an instruction with a null address fails with 100 |
| MachineLaws.OtherFailures | src/vm/vm.c:461-463 | the other instructions fail with 101 exactly from maxStackAddr on, with 12 for a missing native whose result is wanted, with 11 for a meaningless opcode, and never otherwise |
| MachineLaws.AddressesCompose | src/vm/vm.c:910-986 | field, element and inline-field instructions that lead to one address agree |
| MachineLaws.HeaderIsRead | src/vm/vm.c:1190-1201 | the block InitVirt or InitComp writes is what a 16-bit field load at that place reads |
| MachineLaws.StoredOctets | src/vm/vm.c:920-962 | stored words are little-endian, narrowed to the width |
| MachineLaws.AssertsCounted | src/vm/vm.c:1202-1222 | Assert counts zero as a failure and anything else as a success |
| StackCheck.StartIsTyped | src/vm/vm.c:416-441 | a method entered with the arguments it declares starts in a well-formed state |
| StackCheck.CallKeepsTyping | src/vm/vm.c:1006-1028 | a call in checked code pushes a frame that fits its method and a caller that resumes at the depth recorded for it |
| StackCheck.ReturnKeepsTyping | src/vm/vm.c:1093-1178 | a return at the declared result width ends the outermost method or resumes the caller well-formed |
| StackCheck.StepKeepsTyping | src/vm/vm.c:451-1178 | one instruction of checked code never reaches outside its operands, parameters or locals, never returns unbalanced, and fails only for a null pointer, an overflow or a missing native |
| StackCheck.RunKeepsTyping | src/vm/vm.c:451-1178 | the same over every run |
| StackCheck.RunEndsAsDeclared | src/vm/vm.c:1093-1178 | a finished run has a result exactly when the method that was entered declares one |
| StackCheckExact.CheckIsExact | src/vm/vm.c:451-1240 | an instruction that stays in its frame passes the check if and only if from every frame with the recorded depth it finds its operands and variables and arrives where the depth it leaves is recorded |
| Simulation.SimpleSimulates | src/vm/vm.c:479-502 | an instruction that works on the stack top changes the flat stack as it changes the operand list |
| Simulation.LoadVarSimulates | src/vm/vm.c:513-538 | loads through pp and lp read the frame's parameters and locals |
| Simulation.StoreVarSimulates | src/vm/vm.c:521-550 | stores through pp and lp change only that parameter or local of the top frame |
| Simulation.BranchSimulates | src/vm/vm.c:732-904 | near, far and fused branches pop and jump alike in both machines and write nothing |
| Simulation.ForeachSimulates | src/vm/vm.c:748-761 | Foreach counts, tests and pushes alike in both machines |
| Simulation.SwitchSimulates | src/vm/vm.c:1223-1240 | Switch selects the same target in both machines |
| Simulation.CallSimulates | src/vm/vm.c:1006-1028 | the cells pushed by a call encode the caller suspended without its arguments and a new frame whose parameters are those cells |
| Simulation.CallParam0Simulates | src/vm/vm.c:1002-1028 | the same after parameter 0 has been pushed, writing below maxStackAddr + 4 |
| Simulation.VirtualCallSimulates | src/vm/vm.c:1030-1046 | a virtual call finds its receiver among the operands and calls the same method in both machines |
| Simulation.NativeSimulates | src/vm/vm.c:1048-1091 | a native that leaves the stack up to vm->sp alone replaces its arguments by its result |
| Simulation.GivenSimulates | src/vm/vm.c:503-506 | an instruction whose word comes from outside takes and leaves the same cells in both machines |
| Simulation.CallerRestored | src/vm/vm.c:1110-1119 | the saved fp, cp and method address restore the caller's registers and its untouched operands |
| Simulation.ReturnSimulates | src/vm/vm.c:1093-1178 | each return pops exactly the top frame, gives the caller the result, and raises no imbalance warning |
| Simulation.TrapSimulates | src/vm/vm.c:455-465 | the null and overflow tests see the same cells in both machines |
| Simulation.StepSimulates | src/vm/vm.c:451-1178 | for checked code one turn of the dispatch loop is one step of the frame machine: no wild access, no imbalance, no cell written at or below the activation's base or from maxStackAddr + 4 on |
| WholeRuns.StepGrowth | src/vm/vm.c:455-465 | after any instruction that passed the guard the stack top is below maxStackAddr + 259, for any call depth |
| WholeRuns.EnterEncodes | src/vm/vm.c:416-441 | entry to vmCall from vm->sp encodes the start state and leaves every cell up to vm->sp |
| WholeRuns.CallsSound | src/vm/vm.c:1048-1091 | any sequence of callbacks from a native leaves every cell at or below the vm->sp it was given |
| WholeRuns.NestedSound | src/vm/vm.c:418-441 | so does one nested vmCall, however deeply its own natives call back, and none of them writes from maxStackAddr + 258 on |
| WholeRuns.EventSound | src/vm/vm.c:1048-1091 | an instruction with everything its native does follows the frame machine given the same heap and words, and preserves the cells below |
| WholeRuns.RunSound | src/vm/vm.c:396-1178 | every run of checked code follows the frame machine's run under the same heaps and words, one effect an event, with the same end, result, error and heap, and writes no cell at or below its base and none from maxStackAddr + 258 on |
| WholeRuns.RunKeepsGuard | src/vm/vm.c:455-465 | a run whose natives call nothing back writes no cell from maxStackAddr + 4 on |
| WholeRuns.VoidCallReturnsCellBelow | src/vm/vm.c:1166-1171 | a void method entered from vm->sp answers the cell at vm->sp |
| WholeRuns.VmEntryReturnsSentinel | src/vm/vm.c:95-114 | under vmEntry no stack access is wild, the sentinel survives, no imbalance is reported, and a void entry method returns -1 |
| WholeRuns.GuardBoundIsMet | src/vm/vm.c:1002-1015 | the bound on writes is reached: LoadParam0Call at the last allowed sp writes cell maxStackAddr + 3 and none above |
| WholeRuns.EntryIsUnguarded | src/vm/vm.c:428-441 | from any vm->sp entry writes up to cell vm->sp + argc + 3 and no further, and keeps the bound of the instructions exactly if vm->sp + argc is at most maxStackAddr |
| WholeRuns.WriteEndIsMet | src/vm/vm.c:428-441 | cell maxStackAddr + 257 is written by a method of 255 parameters entered from the last allowed vm->sp |
| Interpreter.SedonaVM.Shuffle | src/vm/vm.c:713-718 | the in-place cell moves leave the shuffled cells and no other change |
| Interpreter.SedonaVM.Arithmetic | src/vm/vm.c:557-606 | arithmetic leaves its result in the lowest cells it read |
| Interpreter.SedonaVM.InitArray | src/vm/vm.c:180-188 | the loop leaves the specified table of references |
| Interpreter.SedonaVM.Storage | src/vm/vm.c:910-986 | loads, stores and address computations change stack and data memory as specified |
| Interpreter.SedonaVM.LoadVariable | src/vm/vm.c:513-538 | a load through pp or lp pushes one or two cells |
| Interpreter.SedonaVM.StoreVariable | src/vm/vm.c:521-550 | a store through pp or lp pops them |
| Interpreter.SedonaVM.ForeachTurn | src/vm/vm.c:748-761 | the counter is raised in place, then compared with the length |
| Interpreter.SedonaVM.CallMethod | src/vm/vm.c:1015-1028 | the header pushed and the registers set by a call |
| Interpreter.SedonaVM.CallTurn | src/vm/vm.c:1002-1028 | LoadParam0Call and Call up to the first instruction of the callee |
| Interpreter.SedonaVM.CallVirtualTurn | src/vm/vm.c:1030-1046 | a virtual call through the receiver's vtable |
| Interpreter.SedonaVM.ReturnTurn | src/vm/vm.c:1093-1178 | the result, the restored registers and the balance test of the three returns |
| Interpreter.SedonaVM.CheckTraps | src/vm/vm.c:455-465 | the tests before an instruction |
| Interpreter.SedonaVM.NativeTurn | src/vm/vm.c:1048-1091 | a native call saves vm->sp, lets the native call back, and replaces the arguments by the result |
| Interpreter.SedonaVM.CallBacks | src/vm/vm.c:396-1270 | the calls a native makes, one after the other, going on after one that fails |
| Interpreter.SedonaVM.GivenTurn | src/vm/vm.c:972-975 | the cells taken, the data read and the word left by instructions whose word comes from outside |
| Interpreter.SedonaVM.ExecuteTurn | src/vm/vm.c:474-1270 | the dispatch of every instruction that calls no native |
| Interpreter.SedonaVM.Step | src/vm/vm.c:443-1178 | one turn of the loop is one event of the specification |
| Interpreter.SedonaVM.EnterMethod | src/vm/vm.c:416-441 | argument check, arguments, header and registers on entry |
| Interpreter.SedonaVM.DispatchLoop | src/vm/vm.c:443-1270 | the loop is the specified run |
| Interpreter.SedonaVM.VmCall | src/vm/vm.c:396-1270 | entry followed by the run |
| Interpreter.SedonaVM.EnterVm | src/vm/vm.c:95-114 | the sentinel, then the method whose block index the image holds |
| BranchRewrite.DispatchRewrites | src/vm/vm.c:1030-1046 | with the virtual tables in place and their entries rewritten, a virtual call reaches the rewritten method, whatever the receiver |
| BranchRewrite.PlainStepRewrites | src/vm/vm.c:728-904 | an instruction kept up to its length and offsets steps to states equal up to the code map and to locals not yet stored |
| BranchRewrite.LoadKeepsStatesIff | src/vm/vm.c:529-538 | of all pairs of states that agree on a set of locals, a load leaves states that agree if and only if what it loads is in the set |
| BranchRewrite.FusedFirst | src/vm/vm.c:557-564 | the comparison of a fused pair leaves its flag, or fails as the fused jump does |
| BranchRewrite.FusedSecond | src/vm/vm.c:740-747 | the JumpNonZero after it goes where the fused jump goes |
| RewriteTurns.PlainTurns | src/vm/vm.c:443-1178 | both interpreters take one turn and arrive at corresponding states, or end with the same result or error |
| RewriteTurns.FirstTurn | src/vm/vm.c:557-564 | at a fused pair the old interpreter compares while the new one waits, or both fail alike |
| RewriteTurns.SecondTurns | src/vm/vm.c:740-747 | then both jump to corresponding places |
| RewriteChecks.RewriteIsChecked | src/vm/vm.c:728-904 | a rewriting that lays out no two instructions at one place passes the static check if the old image does, with the old depths moved |
| RewriteChecks.ItselfRewrites | src/vm/vm.c:451-1240 | every checked image is a rewriting of itself, so no instruction is excluded |
| RewriteChecks.NoLoadsAssigned | src/vm/vm.c:1015-1028 | a checked image that loads no local meets the condition on locals |
| RewriteRuns.CallsAlike | src/vm/vm.c:1048-1091 | natives that call back the same methods with the same arguments, one for one, each given the same events, leave the same heap |
| RewriteRuns.RunAlike | src/vm/vm.c:396-1178 | a run of the old interpreter and one of the new, given the same native heaps, words and callbacks but for the comparisons fused away, end with the same result, error, heap and vm->sp, or go on from corresponding states |
| RewriteRuns.RunRewritten | src/vm/vm.c:396-1178 | every run of the old interpreter has its events for the new one, no more of them |
| RewriteRuns.RunBefore | src/vm/vm.c:396-1178 | and every sequence of events of the new one is that of an old run, at most twice as long |
| RewriteRuns.RewritingAnswersAlike | src/vm/vm.c:396-1178 | every call of vmCall in the old program and every call of the rewritten method with the same arguments, natives and words have the same result, error and heap, nested calls included, from stacks that agree in nothing but the cell at vm->sp |
| RewriteRuns.RewriteMatchesRun | src/vm/vm.c:396-1178 | every call of the old program has such a call of the new one, which answers alike |
| RewriteRuns.RunMatchesRewrite | src/vm/vm.c:396-1178 | and every call of the new program is such a call of an old one |
| RewriteRuns.VmEntryRewrites | src/vm/vm.c:95-114 | vmEntry, given the same arguments, natives and words, answers for the rewritten image what it answers for the old one |
| StaleLocals.MainReturnsStaleCell | src/vm/vm.c:1015-1028 | a method that loads a local it never stored answers the return address an earlier call left there |
| StaleLocals.StaleLocalsDiffer | src/vm/vm.c:1015-1028 | two images that pass the static check, one the rewriting of the other, answer 23 and 24 to the same call; the old one reads a local before storing it |
| Sample.SampleIsSound | src/vm/vm.c:728-1046 | a program with a comparison, a direct and a virtual call passes the static check, stores its locals first, and rewrites to its fused form with every later method and table entry moved |
| ForeachLoop.TableFilled | src/vm/vm.c:180-188 | reference i of an inline array points at object i |
| ForeachLoop.OnlyTableWritten | src/vm/vm.c:180-188 | initArray writes nothing but the table |
| ForeachLoop.ObjectsDisjoint | src/vm/vm.c:160-188 | the objects lie after the table, in order, without overlap |
| ForeachLoop.IterationStarts | src/vm/vm.c:748-761 | Foreach and LoadRefArray start the next iteration with its element |
| ForeachLoop.LoopVisitsAll | src/vm/vm.c:748-761 | the loop runs its body once per remaining index, in order, then leaves with its three control cells and everything below unchanged |
| ForeachLoop.LoopSeesObjects | src/vm/vm.c:748-761 | over an array laid out by initArray whose table the bodies leave alone, the k-th body gets object k |
| Octets.BigEndianRoundTrip | temp/generic-unix/bacint.c:44-114 | decoding an encoded unsigned value of any width gives it back |
| Octets.FromBigEndianRoundTrip | temp/generic-unix/bacint.c:44-114 | and encoding a decoded one gives back the octets |
| Octets.SignedRoundTrip | temp/generic-unix/bacint.c:117-227 | two's complement of any width a value fits in loses nothing |
| Octets.EncodeUnsigned16 | temp/generic-unix/bacint.c:44-52 | the two stores write the value's octets in order and nothing else |
| Octets.EncodeUnsigned24 | temp/generic-unix/bacint.c:66-75 | the three stores write the value's octets in order and nothing else |
| Octets.EncodeUnsigned32 | temp/generic-unix/bacint.c:90-100 | likewise for four |
| Tags.EncodeTag | temp/generic-unix/bacdcode.c:214-254 | the buffer writes of a tag are its header and no other change |
| Tags.EncodeOpeningTag | temp/generic-unix/bacdcode.c:258-278 | likewise for an opening tag |
| Tags.EncodeClosingTag | temp/generic-unix/bacdcode.c:282-302 | likewise for a closing tag |
| Tags.TagHeader | temp/generic-unix/bacdcode.c:214-254 | a header has one to seven octets |
| Tags.HeaderRoundTrip | temp/generic-unix/bacdcode.c:370-413 | number, class and 32-bit value of every header decode back, whatever follows |
| Tags.BracketRoundTrip | temp/generic-unix/bacdcode.c:258-302 | opening and closing tags decode to their number and are told apart |
| Tags.HeadersPrefixFree | temp/generic-unix/bacdcode.c:214-254 | no header is a proper prefix of another |
| Tags.SafeAgrees | temp/generic-unix/bacdcode.c:418-470 | on complete headers the safe decoder is the plain one |
| Tags.TruncationNoticed | temp/generic-unix/bacdcode.c:329-470 | a truncated header is noticed if and only if it is not the lone first octet of an extended tag with a short value |
| Primitives.UnsignedRoundTrip | temp/generic-unix/bacdcode.c:1117-1188 | every unsigned 32-bit value round trips |
| Primitives.SignedRoundTrips | temp/generic-unix/bacdcode.c:1331-1402 | every signed 32-bit value round trips |
| Primitives.UnsignedIsShortest | temp/generic-unix/bacdcode.c:1170-1188 | no shorter octet string carries the same unsigned value |
| Primitives.SignedIsShortest | temp/generic-unix/bacdcode.c:1380-1402 | the signed encoding is the shortest if and only if the value is not -8388608 |
| Primitives.PutUnsigned | temp/generic-unix/bacdcode.c:1170-1188 | the buffer writes are the encoding and no other change |
| Primitives.PutSigned | temp/generic-unix/bacdcode.c:1380-1402 | likewise for signed values |
| Primitives.ObjectIdBijection | temp/generic-unix/bacdcode.c:766-829 | packing is a bijection between 10-bit and 22-bit pairs and 32-bit values |
| Primitives.ObjectIdMasked | temp/generic-unix/bacdcode.c:813-829 | wider types and instances come back reduced |
| Primitives.ReverseBitsInvolution | temp/generic-unix/bacdcode.c:618-651 | reversing the bits of an octet twice gives it back |
| Primitives.ReverseAllInvolution | temp/generic-unix/bacdcode.c:653-729 | and so for every octet of a bit string |
| WireFormat.HeaderOctets | temp/generic-unix/bacdcode.c:214-257 | the first octet holds tag number, class and length or value apart; tag numbers above 14 and lengths above 4, 253 and 65535 take the further octets of section 20.2.1 |
| WireFormat.BracketOctets | temp/generic-unix/bacdcode.c:258-305 | opening tags have 6 and closing tags 7 in their low bits, and context class |
| WireFormat.TagNumbers | temp/generic-unix/bacdcode.c:587-1740 | each type of value is sent under its number of section 20.2.1.4 |
| WireFormat.BitsReversed | temp/generic-unix/bacdcode.c:618-651 | bit k of an octet becomes bit 7 - k |
| WireFormat.BitStringOctets | temp/generic-unix/bacdcode.c:700-729 | bit n of a bit string is bit 7 - n % 8 of contents octet 1 + n / 8, after the number of unused bits (section 20.2.10) |
| WireFormat.NumberOctets | temp/generic-unix/bacdcode.c:1117-1402 | octet k from the end of an integer's contents is its base-256 digit k, two's complement for signed ones |
| WireFormat.DateTimeOctets | temp/generic-unix/bacdcode.c:1519-1680 | the order of the octets of dates and times, years counted from 1900, and the encoding octet of a character string |
| WireFormat.ObjectIdOctets | temp/generic-unix/bacdcode.c:766-829 | an object identifier is type times 2^22 plus instance, most significant octet first |
| AppData.BitsRoundTrip | temp/generic-unix/bacdcode.c:653-729 | a bit string of up to 120 bits decodes to its bits and its bit count |
| AppData.DataRoundTrip | temp/generic-unix/bacapp.c:167-282 | the contents of every representable value decode to it whatever follows |
| AppData.ValueRoundTrip | temp/generic-unix/bacapp.c:284-318 | an encoded value followed by anything decodes to itself and consumes exactly what was written |
| AppData.OthersDoNot | temp/generic-unix/bacapp.c:56-165 | dates outside 1900 to 2155 and wider object identifiers never do |
| AppData.BadDateEncodes | temp/generic-unix/bacdcode.c:1637-1680 | a date from 256 to 1899 announces a length of 2^32 - 1 and decoding it reads past its octets |
| AppData.SurvivesIffRepresentable | temp/generic-unix/bacapp.c:56-318 | a value survives the round trip before every suffix if and only if it is representable |
| AppData.OddLengths | temp/generic-unix/bacapp.c:167-282 | contents of another length than their type has: zero and passed, left alone, or not decoded |
| AppEncode.PutBits | temp/generic-unix/bacdcode.c:704-729 | the loop writes unused-bit count and reversed octets and nothing else |
| AppEncode.EncodeScalar | temp/generic-unix/bacdcode.c:853-868 | contents written at the assumed header length, then the header, make one contiguous value |
| AppEncode.EncodeDate | temp/generic-unix/bacdcode.c:1637-1680 | likewise for dates, including the error year |
| AppEncode.EncodeString | temp/generic-unix/bacdcode.c:873-919 | likewise for octet, character and bit strings, whose size test never fails |
| AppEncode.EncodeApplicationData | temp/generic-unix/bacapp.c:56-165 | the octets written and the length answered, for every value the C types hold |
| SafeDecoder.Next | temp/generic-unix/bacapp.c:333-384 | a call never moves past the octets that remain, and moves whenever it answers true |
| SafeDecoder.DataWithin | temp/generic-unix/bacapp.c:167-282 | contents that are all there are never read past, whatever they hold |
| SafeDecoder.Decoder.Decode | temp/generic-unix/bacapp.c:333-384 | one call: its item, its new cursor, and consumed plus remaining equal to the length given, on arbitrary octets |
| SafeDecoder.Decoder.DecodeContents | temp/generic-unix/bacapp.c:364-372 | the part after a complete header: contents decoded, cursor moved in unsigned arithmetic |
| SafeDecoder.WholeIsMaximal | temp/generic-unix/bacapp.c:333-384 | the prefix in question is the longest whose encoding fits |
| SafeDecoder.WholeValueNext | temp/generic-unix/bacapp.c:333-384 | a whole value is decoded and passed exactly |
| SafeDecoder.CutValueNext | temp/generic-unix/bacapp.c:359-374 | a value cut anywhere answers false, and the cursor moves past its tag exactly if the tag is whole |
| SafeDecoder.CallAnswers | temp/generic-unix/bacapp.c:355-374 | on any complete primitive value a call answers true, with the value, with no tag, or for too long an octet string with the tag alone |
| SafeDecoder.TruncationYieldsWholeValues | temp/generic-unix/bacapp.c:333-384 | any truncation of encoded values yields exactly the maximal prefix of whole values, then false |
| SafeDecoder.TrueOnStartedValue | temp/generic-unix/bacapp.c:333-384 | a call answers true exactly on octets that hold a primitive tag and all it announces, or on the lone first octet of an extended tag announcing nothing |
| SafeDecoder.SecondCallAfterCut | temp/generic-unix/bacapp.c:355-374 | for every value and every cut, the call after false reads the contents there are, and answers true exactly when they start a value themselves |
| SafeDecoder.FalseMayBeFollowedByTrue | temp/generic-unix/bacapp.c:359-374 | a value for which it does |
| DataLength.MeasureData | temp/generic-unix/bacapp.c:905-967 | the loop computes the specified scan and terminates on arbitrary octets |
| DataLength.PassesAloneIff | temp/generic-unix/bacapp.c:388-446 | an octet taken for a tag is passed alone and not counted, whatever follows, if and only if its tag and length are not extended and it is a bracket of another number, announces nothing, or is of a type that is skipped without contents |
| DataLength.LeafTurn | temp/generic-unix/bacapp.c:388-446 | a legal element is skipped exactly, a context Boolean, whose octet is one of those, in two turns |
| DataLength.BracketSkipped | temp/generic-unix/bacapp.c:924-938 | a bracketed list is skipped exactly and the count comes back to what it was |
| DataLength.CountedUntilWrap | temp/generic-unix/bacapp.c:905-967 | the octets counted before the eight-bit count wraps are all of them if and only if at most 255 same-numbered tags are open at once |
| DataLength.ElementsSkipped | temp/generic-unix/bacapp.c:922-951 | any list of element trees below that nesting is skipped exactly |
| DataLength.ElementsWrap | temp/generic-unix/bacapp.c:922-951 | above it the scan stops where the count wraps |
| DataLength.DataLengthExact | temp/generic-unix/bacapp.c:905-967 | for every tree of legal elements between matching tags the answer is the exact length of the contents, -1 if the closing tag is beyond the limit, and too small exactly when more than 255 same-numbered tags are open |
| DataLength.EncodedValueIsLeaf | temp/generic-unix/bacapp.c:388-446 | every encoded application value is one legal element |
| DataLength.BooleanMeasured | temp/generic-unix/bacapp.c:905-967 | with one context Boolean between the brackets, for every continuation and limit the answer is right if and only if its octet is passed alone and not counted there |
| DataLength.BooleanMeasuredIff | temp/generic-unix/bacapp.c:905-967 | it is right before every continuation if and only if the octet is one of PassesAloneIff |
| DataLength.OddBooleanIsMisread | temp/generic-unix/bacapp.c:388-420 | a context Boolean holding another octet, here one counted as an opening tag, makes the answer wrong |
| ConstructedData.ContextSkipped | temp/generic-unix/bacapp.c:553-800 | every context element is skipped by the length it announces but for tags 7 and 8 of an action and 2 of COV subscriptions, of which only the header is |
| ConstructedData.StandardMeasured | temp/generic-unix/bacapp.c:905-967 | trees of elements as the standard has them, with no table of the code consulted, are measured exactly |
| ConstructedData.RefIsElements | temp/generic-unix/bacdevobjpropref.c:64-98 | a written reference is context elements 0, 1, 2 unless its index is 0xFFFFFFFF, and 3 if its device is one |
| ConstructedData.ReferenceMeasured | temp/generic-unix/wp.c:140-144 | a reference written between brackets is measured exactly, whatever follows, for the log device object property and every other but that of COV subscriptions |
| ConstructedData.NotOpening | temp/generic-unix/bacapp.c:905-967 | what does not start with an opening tag has length 0 |
| PropertyReference.PutRef | temp/generic-unix/bacdevobjpropref.c:64-98 | the fields written, the two optional ones only when present |
| PropertyReference.PutWrapped | temp/generic-unix/bacdevobjpropref.c:43-62 | the same between opening and closing tags |
| PropertyReference.GetRef | temp/generic-unix/bacdevobjpropref.c:100-145 | the decoder with its one-tag look-ahead |
| PropertyReference.RefRoundTrip | temp/generic-unix/bacdevobjpropref.c:64-145 | decoding an encoded reference gives it back, a device of another type as absent, if and only if its identifiers fit and what follows is not taken for an omitted field |
| PropertyReference.AbsentFields | temp/generic-unix/bacdevobjpropref.c:64-145 | every index below 0xFFFFFFFF is sent under tag 2 and that one is not; an index not sent decodes to it, a device not sent to type 0xFFFF and instance 0xFFFFFFFF |
| PropertyReference.OddNumbers | temp/generic-unix/bacdcode.c:1117-1168 | a number field of another length than 1 to 4 reads as zero and is skipped, and is refused only if that moves by -1 |
| PropertyReference.ShortWrap | temp/generic-unix/bacdevobjpropref.c:43-176 | the condition below for tags of one octet |
| PropertyReference.LongWrap | temp/generic-unix/bacdevobjpropref.c:147-176 | between tags above 14 nothing survives, above 15 decoding answers -1 |
| PropertyReference.WrappedRoundTrip | temp/generic-unix/bacdevobjpropref.c:43-176 | a wrapped reference survives if and only if the tag is at most 14, not 2 with index and device omitted and not 3 with the device omitted, and its identifiers fit |
| AddressCache.Oldest | temp/generic-unix/address.c:149-190 | the candidate of one pass is evictable and its time is the time to beat |
| AddressCache.Cache.Find | temp/generic-unix/address.c:116-124 | the first slot that is wanted |
| AddressCache.Cache.Pass | temp/generic-unix/address.c:149-163 | the specified candidate of one pass |
| AddressCache.Cache.RemoveOldest | temp/generic-unix/address.c:138-190 | the two passes reserve the specified victim |
| AddressCache.Cache.AddressAdd | temp/generic-unix/address.c:399-468 | the slot written and its time to live |
| AddressCache.Cache.AddressBindRequest | temp/generic-unix/address.c:472-523 | the answer and the request left waiting |
| AddressCache.Cache.AddressAddBinding | temp/generic-unix/address.c:526-551 | a binding for a known device only |
| AddressCache.Cache.AddressRemoveDevice | temp/generic-unix/address.c:111-127 | the device's slot is cleared |
| AddressCache.Cache.AddressSetDeviceTtl | temp/generic-unix/address.c:319-345 | static or timed, or the time of a waiting request |
| AddressCache.Cache.AddressCacheTimer | temp/generic-unix/address.c:820-837 | every slot that is held and not static loses the seconds or expires |
| AddressCache.Cache.AddressInit | temp/generic-unix/address.c:264-277 | all slots cleared, then the lines of the file |
| AddressCache.Cache.AddressInitPartial | temp/generic-unix/address.c:287-309 | unbound, expired and reserved slots cleared, then the lines of the file |
| AddressCache.Cache.AddressGetByDevice | temp/generic-unix/address.c:348-371 | the binding of a bound device |
| AddressCache.Cache.AddressGetDeviceId | temp/generic-unix/address.c:375-397 | the first bound device at an address |
| AddressCache.Cache.AddressCount | temp/generic-unix/address.c:577-593 | the number of bound slots |
| CacheRuns.ApplyKeepsGood | temp/generic-unix/address.c:111-837 | every call keeps the invariant of the next row |
| CacheRuns.RunKeepsGood | temp/generic-unix/address.c:111-837 | over every run: one slot at most per device, flags only none, in use, bind requested or static, a static slot bound with no expiry |
| CacheRuns.InitMakesGood | temp/generic-unix/address.c:264-277 | address_init establishes it from any memory |
| CacheRuns.OldestIsNearestExpiry | temp/generic-unix/address.c:149-163 | one pass finds the last of the entries nearest expiry, and none only if all have the longest time |
| CacheRuns.VictimIsFair | temp/generic-unix/address.c:138-190 | the victim is not static, nearest expiry of its kind, unbound only if no bound entry could go, and there is none exactly when nothing can expire |
| CacheRuns.AddThenLookup | temp/generic-unix/address.c:399-468 | after address_add lookup returns what was added, unless every slot is held by another device and is static or never expires, and then nothing has changed |
| CacheRuns.AddSparesOthers | temp/generic-unix/address.c:399-468 | every other device keeps its binding except the one displaced |
| CacheRuns.BindRequestAnswers | temp/generic-unix/address.c:472-523 | a bind request answers what lookup does, changes nothing for a bound device, and otherwise leaves a request waiting if and only if there is room |
| CacheRuns.BindSparesOthers | temp/generic-unix/address.c:472-523 | a request costs no other device its binding but the one displaced |
| CacheRuns.SameFreeSlot | temp/generic-unix/address.c:443-507 | the two searches for a free slot agree, no slot being reserved between calls |
| CacheRuns.RequestThenAnswerBinds | temp/generic-unix/address.c:472-551 | a request with room followed by the answer binds the device; an unasked answer changes nothing |
| CacheRuns.StaticSurvives | temp/generic-unix/address.c:138-345 | a static entry outlives every run without its removal, a change of its time to live or a reset |
| CacheRuns.EntryExpires | temp/generic-unix/address.c:820-837 | however the timer is called, an entry is gone exactly when more time has passed than it had to live |
| CacheRuns.FileSparesOthers | temp/generic-unix/address.c:201-256 | reading the file costs a device it does not name its binding exactly if one of its lines displaces it |
| CacheRuns.FileBinds | temp/generic-unix/address.c:201-256 | after the file is read the last line naming a device binds it, exactly if there was room for that line |
| CacheRuns.PartialKeepsBindings | temp/generic-unix/address.c:287-309 | a partial restart, its file included, keeps the binding of a device the file does not name unless no time was left or a line of the file displaced it |
| CacheLifetimes.AnswerLivesADay | temp/generic-unix/address.c:472-551 | after a request with room and the answer, lookup finds the device after timer calls that sum to at most 86400 seconds and not after more, a static one always |
| CacheLifetimes.AddedLives | temp/generic-unix/address.c:399-468 | what address_add adds is found for 3600 seconds, what it renews for 86400 |
| CacheLifetimes.RequestWaitsAnHour | temp/generic-unix/address.c:472-523 | a request for a device not held waits for 3600 seconds |
| CacheLifetimes.TtlLives | temp/generic-unix/address.c:319-345 | a time to live set without the static flag is how long a bound device is found, and how long a waiting request waits |
| CacheLifetimes.RestartDropsRequests | temp/generic-unix/address.c:264-309 | a restart drops every waiting request, a partial one also what is reserved or has no time left |
| CacheLifetimes.SameIsIdentity | temp/generic-unix/address.c:375-397 | addresses are compared by network, the address behind a router, and on the local network the MAC |
| CacheLifetimes.DeviceAtBound | temp/generic-unix/address.c:375-397 | the device found at an address is bound there, and none is found only if none is |
| AddressList.EntryFits | temp/generic-unix/address.c:660-667 | no encoded entry exceeds seventeen octets |
| AddressList.SeventeenNeeded | temp/generic-unix/address.c:755-766 | one more entry is written exactly while seventeen octets are left, which the longest entry fills |
| AddressList.FindBound | temp/generic-unix/address.c:740-744 | the next bound slot |
| AddressList.Seek | temp/generic-unix/address.c:740-753 | the seek stops one slot after the entry before the one wanted |
| AddressList.EncodeSlot | temp/generic-unix/address.c:767-788 | device, network and station address of one slot |
| AddressList.EncodeFrom | temp/generic-unix/address.c:755-800 | the encoding loop lists what fits of the slots it sees |
| AddressList.RangeRequest.TurnForwards | temp/generic-unix/address.c:698-733 | read-all and negative counts become a start and a positive count |
| AddressList.RangeListEncode | temp/generic-unix/address.c:669-811 | the octets, count and flags of one answer, never more than the space left |
| AddressList.SpanIsAsked | temp/generic-unix/address.c:698-739 | for every index and count the conversions select the entries asked for if and only if the request does not count back from 2^31 or more to 2^31 or more; otherwise nothing was asked for and the whole list is selected |
| AddressList.WindowSeen | temp/generic-unix/address.c:747-800 | from a bound slot exactly the window is seen, from an unbound one that slot first |
| AddressList.ListsWhatWasAsked | temp/generic-unix/address.c:669-811 | for every request what is listed is the asked window, or as much as fits with MORE_ITEMS, if and only if nothing is bound, wanted or fits, or the request is not such a one and the slot the seek stops on is bound |
| AddressList.FlagsTell | temp/generic-unix/address.c:790-811 | FIRST_ITEM and LAST_ITEM are set exactly if the first and the last entry listed are the first and the last bound device |
| AddressList.ContiguousIff | temp/generic-unix/address.c:747-753 | every seek stops on a bound slot if and only if no unbound slot lies between two bound ones |
| AddressList.PiecesMakeTheWindow | temp/generic-unix/address.c:669-811 | then a client that asks on while there are more gets the whole window once and in order |
| AddressList.ListDecodes | temp/generic-unix/address.c:767-788 | the safe decoder reads the list back as each entry's device, network and address |
| AddressList.SeekStopsOnFreeSlot | temp/generic-unix/address.c:747-753 | in a cache of 255 slots, after address_init, three additions and the removal of the second device, asking for the second entry lists the removed device |
| AddressList.HighIndexWraps | temp/generic-unix/address.c:722-733 | an index of 2^31 with count -1 asks for nothing, and the list is sent from its first entry on |
| AnalogInput.AnalogInputs.CheckLimits | temp/generic-unix/ai.c:905-994 | the switch over the event state |
| AnalogInput.AnalogInputs.IntrinsicReporting | temp/generic-unix/ai.c:858-1154 | one evaluation: state, time left, time stamps, acknowledgement flags and the notification sent |
| AnalogInput.AnalogInputs.AlarmAck | temp/generic-unix/ai.c:1230-1328 | one acknowledgement: its answer, error code and effect |
| AnalogInput.AnalogInputs.WriteProperty | temp/generic-unix/ai.c:724-733 | a write of Time_Delay restarts the time left |
| AlarmRuns.RunKeepsSane | temp/generic-unix/ai.c:858-994 | over every run of evaluations, writes and acknowledgements the time left never exceeds Time_Delay and the state is normal, high or low |
| AlarmRuns.NormalLiesBetween | temp/generic-unix/ai.c:905-994 | a run from high to low or back passes through normal |
| AlarmRuns.AtMostTwoChanges | temp/generic-unix/ai.c:858-994 | while value and configuration stay and are not restless the state changes at most twice |
| AlarmRuns.SettledAfterDelay | temp/generic-unix/ai.c:858-994 | and is settled once the limits have been looked at Time_Delay + 2 times |
| AlarmRuns.TwoChangesIffNotRestless | temp/generic-unix/ai.c:858-994 | it changes at most twice in every such run if and only if it is not restless, which a deadband of zero or more ensures whatever the limits |
| AlarmRuns.RestlessChatters | temp/generic-unix/ai.c:905-994 | a restless object changes at every evaluation once the first delay is over |
| AlarmRuns.QuietCountsDown | temp/generic-unix/ai.c:905-994 | the time left is the delay less the evaluations in a row that ask for a change |
| AlarmRuns.ChangesAfterTheDelay | temp/generic-unix/ai.c:905-994 | from rest the state changes exactly at the evaluation where the value has asked for it Time_Delay + 1 times in a row |
| AlarmRuns.NextChangeIsImmediate | temp/generic-unix/ai.c:905-930 | after a change the next one comes at the first evaluation that asks for it |
| AlarmRuns.CompareIsOrder | temp/generic-unix/datetime.c:311-370 | the comparison of dates and times is a total order up to the day of the week |
| AlarmRuns.TransitionIsAcknowledged | temp/generic-unix/ai.c:1118-1152 | a notified transition is acknowledged by exactly the dated stamps not before its own |
| AlarmRuns.RefusedAckChangesNothing | temp/generic-unix/ai.c:1230-1328 | a refused acknowledgement changes nothing, an accepted one neither state nor time left |
| AlarmRuns.AckIsNotifiedOnce | temp/generic-unix/ai.c:885-904 | the next evaluation sends one acknowledgement notification and looks at no limit |
| AlarmRuns.AcknowledgedOnce | temp/generic-unix/ai.c:1250-1318 | an acknowledged transition is refused until an evaluation requires acknowledgement again, in every run |
| AlarmRuns.AcknowledgementsBalance | temp/generic-unix/ai.c:885-904 | over every run, announcements sent, acknowledgements accepted while one waits and the one waiting at the end are together the acknowledgements accepted and the one waiting at the start |
| AlarmRuns.AllAnnouncedIff | temp/generic-unix/ai.c:885-904 | every accepted acknowledgement is announced by one of its own if and only if none is accepted while another waits and none waits at the end |
| AlarmRuns.OneAckIsLost | temp/generic-unix/ai.c:858-1328 | from initialisation on an object goes to high limit and back, both transitions are acknowledged, and one is announced |
| AlarmRuns.AcksCoalesce | temp/generic-unix/ai.c:1322-1325 | two acknowledgements before an evaluation are announced once |
| LimitEvents.StateChanges | temp/generic-unix/ai.c:905-994 | one evaluation goes from normal to high or low limit, or back, if and only if the value passes that limit, or its deadband, the limit and the event are enabled, the high limit does not come first, and no time is left |
| LimitEvents.TimeCounts | temp/generic-unix/ai.c:905-994 | the time left counts down while a change is due and starts again as soon as none is |
| LimitEvents.ChangeIsNotified | temp/generic-unix/ai.c:995-1152 | a change is notified with its two states, the value and the limit passed, stamped, and outstanding if required; without one nothing is |
| LimitEvents.ConfigurationStays | temp/generic-unix/ai.c:858-1154 | an evaluation changes neither limits nor value, and nothing if no limit is enabled |
| LimitEvents.AckAnswers | temp/generic-unix/ai.c:1230-1328 | the answer and error code to every acknowledgement |
| LimitEvents.CompareIsSerial | temp/generic-unix/datetime.c:311-370 | dates and times compare by year, month, day, hour, minute, second and hundredth |
| LimitEvents.WritesTake | temp/generic-unix/ai.c:640-850 | a write changes the property it names, Time_Delay the time left too, and nothing else |

## Left out

- What float and double instructions compute, and the addresses and constants of the code image: any word stands for them.
- RewriteRuns.RewriteMatchesRun: asks that locals be stored before they are read, which is sufficient; which programs answer alike without it depends on the cells that happen to be read.
- RewriteRuns.RunMatchesRewrite: the same; and the data of the code image, virtual tables included, stays where it is, so that words given from outside are the same for both images.
- Bodies of natives, including stores a native makes into its own parameter cells, which lie at or below the `vm->sp` it was given.
- Calls of methods other than those a virtual call site was compiled for: undefined here.
- Heap allocation: the data memory has a fixed size and objects are offsets into it.
- vmInit, file loading, debug printing, qnames and the resume loop around vmEntry.
- Octets beyond the buffer that the source may read when a header is cut short: the model stops there.
- DataLength.LeafTurn: a context element typed Boolean has one octet, as the standard has it, and that octet passes alone; after another the scan goes astray in a way that depends on what follows.
- Context-tagged values other than the fields of property references, and decoding of context data: easier forms of the same field codecs.
- Device object references (bacdevobjpropref.c:180-290): their optional field comes first, so nothing can be confused.
- Contents of reals: four or eight octets are carried as they are, in the order of the wire.
- Character sets: a character string is an encoding octet and its octets.
- AddressList.ListsWhatWasAsked: asks for an index of at least 1, which the ReadRange handler guarantees (h_rr.c:67).
- Scans of rr_address_list_encode past the last slot: the model stops at the end of the array.
- Parsing of the address file: a line is an addition followed by making it static.
- Rounding: limits and present values are real numbers, so infinities and not-a-number do not occur.
- Reliability, change-of-value detection, GetEventInformation and alarm summaries of analog inputs.
- Notification classes: whether a transition requires acknowledgement is a free choice at each evaluation.
- Analog values (av.c), priority arrays, file services and the PDU dispatch tables.
- Threads: each object is used by one caller at a time.
