# Aikido: compiler, virtual machine and value graphs, verified

Aikido compiles a scripting language to the code of a register machine and interprets that code. This
project models the parts of the implementation where the arguments are long, and proves what they are
for.

- **Compiler.** `Source` has the parse trees of a core language (integral values, `&&`, `||`, `?:`,
  chained assignments, `if`, `while`, `do`, `for`, `switch`, `foreach`, compounds, `break`, `continue`,
  `return`, `throw`, `try`/`catch`) and their meaning. `IntermediateForm` is the list of IF nodes a tree
  becomes and `Generator` the class that issues it; `StmtSim` runs the list on a machine with one slot
  per node, `RegAlloc` gives nodes registers, `Emission` and `Emitter` produce code and patch labels, and
  `Lockstep` shows that the code with registers does what the list does. `Compiler` puts the passes
  together. `Semantics` says where the compiled meaning differs from the written one, `Arithmetic` what the
  operators compute and `Answers` what compiled code leaves in the store, both in integers.
- **Interpreter.** `Machine` is the flat transition system, `Calls` adds routines that call each other,
  and `Interpreter` is the loop as it is written: `execute`, `dotry` and `callFunction` nest, and
  POPSCOPE throws an int. `Nesting` is about code whose loops and try blocks nest properly, and
  `Plans` and `CompiledNesting` show that compiled code does. `Levels` is the packed depth word, and
  `OperandStack` what calls and literals do to the operand stack.
- **Code that moves.** `Relocation` and `CodeSequences` move code in place and append extensions to it
  while instructions share operand objects; `Ownership` counts the references to operands.
- **Value graphs.** `Cloning` copies object graphs, `Leb128`, `BinaryForm`, `BinaryRoundTrip` and
  `BinaryStreams` are the binary form, `Strings` is split and replace.
- **Bits and breakpoints.** `BitRanges` and `Breakpoints`.

Every class has the fields and loops of the C++ it models; its methods are specified by functions, and the
lemmas are about those functions.

## Model

| member | source | states |
|---|---|---|
| Compiler.Compile | src/codegen.cc:847-866 | Generator, register allocation and emission together: for every accepted program, store, register contents and amount of fuel, the emitted code ends as the program does, with its store, or is still running when the fuel is used up; it uses only the registers that were allocated |
| Compiler.Preservation | src/codegen.cc:2405-2435 | The emitted code halts the way the program ends, with the store of the program, or executes at least as many instructions as there was fuel |
| Compiler.Reflection | src/codegen.cc:2405-2435 | The converse: when the emitted code halts, the program ends in that way with that store, so it runs for ever exactly when the program does |
| Compiler.IntendedPreservation | src/codegen.cc:1225-1290 | A harmless program (see Semantics.Same) compiles to code with the meaning its text has |
| Compiler.CompileAndRun | src/interpret.cc:2428-3083 | Compiled code in the nested interpreter comes back the way the program ends, with its store |
| Compiler.KeepsToRegisters | src/codegen.cc:2353-2401 | No emitted instruction names a register beyond the count stored with the code |
| Arithmetic.Arithmetics | src/interpret.cc:888-1358 | Sum, difference, product and negation are the integer results, reduced to the one INTEGER of 64 bits congruent to them |
| Arithmetic.Exact | src/interpret.cc:2538-2583 | A result that fits 64 bits is stored as it is |
| Arithmetic.Division | src/interpret.cc:1367-1440 | Quotient and remainder satisfy a = q * b + r, the remainder is less than the divisor in size and has the sign of the dividend; a divisor 0 is an error |
| Arithmetic.Comparisons | src/interpret.cc:333-887 | Comparisons and ! yield true or false as the integers compare, whatever the types |
| Arithmetic.OnNothing | src/interpret.cc:333-530 | none equals none only, and every other operator rejects it |
| Arithmetic.Complement | src/interpret.cc:1727-1740 | ~ inverts each of the 64 bits |
| Arithmetic.Tests | src/interpret.cc:1875-1893 | A branch takes every number but 0 for true and none for false; the comparison with 0 takes none for true |
| Answers.BinaryStored | src/codegen.cc:1009-1290 | The compiled code of x = y op z leaves in x the sum, difference, product, quotient, remainder or comparison of the numbers in y and z, or ends with the division by zero, and changes nothing else |
| Answers.UnaryStored | src/codegen.cc:1009-1290 | The same for x = -y, x = ~y and x = !y |
| Answers.BranchStored | src/codegen.cc:1671-1750 | The compiled if takes its first branch unless the value is the number 0 |
| Answers.ClauseStored | src/codegen.cc:1861-1955 | The compiled switch takes a clause exactly when the number compares as its operator says, with > for >= |
| IntermediateForm.Tested | src/codegen.cc:1471-1489 | Before a branch on a value "!= 0" is issued unless the value is one of the six comparisons |
| IntermediateForm.Accepts | src/aikidocodegen.h:903-907 | The statements the compiler is proved for are the parsed ones whose depths fit the packed int; any that is nested up to 255 deep is among them |
| StmtSim.StmtCode | src/codegen.cc:1671-2101 | The node list of any statement, started in its context, falls out at its end, at the target of break or continue, at the return, or at the exception, with scopes, try blocks and foreach records exactly those of the target |
| StmtSim.TrySim | src/codegen.cc:2194-2244 | The same for try/catch: an exception of the body comes to the handler with the depths of TRY |
| StmtSim.ForeachSim | src/codegen.cc:1957-1994 | foreach goes through its values; continue keeps the record that break and the end of the loop take off |
| StmtSim.SwitchSim | src/codegen.cc:1861-1955 | The comparisons lead to the first matching clause or the default, and bodies fall through |
| ExprSim.ExprCode | src/codegen.cc:1009-1290 | The nodes of an expression deliver its value in its result operand, or its exception, and change nothing else but the destination |
| ExprSim.LogicalCode | src/codegen.cc:1618-1640 | && and \|\| yield an operand, kept in the TEMP or in the destination variable while the other operand is evaluated |
| Generator.CodeGenerator.Build | src/codegen.cc:908-1007 | The generator, working on its label and nesting stacks, appends exactly the node list of the statement and leaves the stacks as they were |
| Generator.CodeGenerator.Expression | src/codegen.cc:1009-1290 | The same for expressions |
| Generator.DestinationSet | src/codegen.cc:1225-1290 | Setting the destination of an expression afterwards gives the list generated for that destination |
| Semantics.InPlaceExactly | src/codegen.cc:1236-1240 | x = a && b and x = a \|\| b compiled in place mean what they say if and only if b is not reached or does not notice that x already holds a |
| Semantics.ReadsItsDestination | src/codegen.cc:1618-1640 | A program for which they do not: x = y && x |
| Semantics.CaseOperators | src/codegen.cc:1873-1897 | The comparison of a case is the one written if and only if it is not >= between equal numbers |
| Semantics.FirstClause | src/codegen.cc:1873-1897 | What is written takes a clause exactly when the integers are ==, !=, <, <=, > or >= as it says; what is compiled does so with > for >= |
| Semantics.ChoiceExactly | src/codegen.cc:1873-1930 | A switch chooses the clause its text says if and only if its comparisons do not come to a >= between equal numbers |
| Semantics.DoRoundExactly | src/codegen.cc:1810-1827 | A round of a do-loop is followed by what the text says if and only if it did not end with continue while the condition fails |
| Semantics.DoContinueExactly | src/codegen.cc:1813-1813 | do continue while (c) means what it says if and only if c holds |
| Semantics.Same | src/codegen.cc:1225-1290 | Without right sides that read their destination, cases with >= and continue in do-loops, compiled and written meaning agree |
| Semantics.RangeExactly | src/interpret.cc:6923-7088 | Where the end of the range can be stepped over without overflow, foreach visits all of it if and only if both ends fit 32 bits |
| Semantics.EndOverflows | src/interpret.cc:6958-6965 | The step overflows, which C++ leaves undefined, if and only if the range goes up to the greatest 32-bit integer or down to the least |
| Semantics.RangeWrapped | src/interpret.cc:6923-7088 | When the step wraps around instead, foreach visits the whole range if and only if both ends fit 32 bits and the range is not all of them |
| RegAlloc.Allocator.AllocateRegisters | src/codegen.cc:2394-2401 | Values needed at the same time are in different registers, a write clobbers nothing needed later, late operands and result differ, every register is free at the end and their number is the peak in use |
| RegAlloc.Allocator.FreeReg | src/codegen.cc:2385-2392 | Takes only a register that is not free, so that no register is freed twice, and keeps the free list without repeats |
| RegAlloc.UseOne | src/codegen.cc:138-179 | The last use of a node frees its register, which was not free, and any other use frees none |
| Emission.RegisterGiven | src/codegen.cc:163-179 | A value gets a register if and only if it has no variable for a destination |
| RegAlloc.SoundApart | src/codegen.cc:138-179 | From the counts of uses and the free list alone: live nodes hold pairwise different registers |
| Lockstep.RunSame | src/codegen.cc:2541-2813 | Along every path, the code with registers and the list with node values do the same, one instruction for each node that is not a label or TEMP |
| Lockstep.WriteHolds | src/codegen.cc:165-179 | A write to a register leaves every value that is still needed in its register |
| Jumps.StmtJumps | src/codegen.cc:1751-1947 | No jump, forward or back, skips the node that computes a value needed at its target |
| NodeForm.FormStmt | src/codegen.cc:1751-1947 | Nodes refer to earlier nodes of the same statement, and each label is issued once |
| Emitter.CodeEmitter.Emit | src/codegen.cc:2405-2435 | Emission with fixup lists yields for each node its instruction with final addresses |
| Emitter.IFLabel.Define | src/codegen.cc:227-232 | Defining a label patches exactly the operands that waited for it |
| Emitter.Backpatched | src/codegen.cc:212-232 | A label operand, forward or backward, is the address of the first instruction after the label; it stays -1 if and only if the label is never issued |
| Levels.PackRoundTrip | src/aikidocodegen.h:903-907 | The four depths survive the packed int if and only if each is below its bound (monitors also by sign extension) |
| InterpreterLoop.VirtualMachine.Execute | src/interpret.cc:2428-2500 | The fetch loop with its nested calls does what the flat machine does, and comes back, whatever the signal, with frame, registers, static link and code as at its start and the registers of all callers untouched |
| InterpreterLoop.VirtualMachine.DoTry | src/interpret.cc:4816-4868 | An exception out of the protected code, from any depth of calls, scopes and loops, goes on at the handler with scopes, frame, registers and static link of TRY, and with the lesser of the two numbers of foreach records |
| InterpreterLoop.VirtualMachine.PopScope | src/interpret.cc:2914-2933 | Scopes and records are popped, and an int is thrown when try blocks are left |
| InterpreterLoop.VirtualMachine.Advance | src/interpret.cc:6856-6867 | The record on top advances or leaves the stack |
| InterpreterLoop.VirtualMachine.CallFunction | src/interpret.cc:3604-3700 | A call is the flat machine's call: the routine starts in a new frame whose k-th variable is the k-th argument as the caller reads it, its result goes into the destination, exceptions and ints go on in the caller |
| InterpreterLoop.VirtualMachine.AssignParameters | src/interpret.cc:4360-4374 | The loop gives the k-th variable the k-th value |
| InterpreterLoop.VirtualMachine.LinkFor | src/interpret.cc:3526-3532 | The static link is followed once for each level between caller and routine |
| Calls.CallPasses | src/interpret.cc:3604-3645 | After a call instruction variable k of the routine is argument k, every other variable is none, nothing is caught, and the caller waits with everything of its own |
| Calls.ReturnDelivers | src/interpret.cc:3690-3700 | RETVAL puts the value it reads into the destination of the call, RET and END put none there, and the rest of the caller is as it was |
| InterpreterLoop.VirtualMachine.ExecuteCode | src/interpret.cc:2373-2422 | Registers, frame, static link, code and position are given back on every way out |
| InterpreterLoop.VirtualMachine.ExecuteBlock | src/interpret.cc:2320-2350 | The scope stack is given back on every way out |
| InterpreterLoop.CameBack | src/interpret.cc:2398-2422 | What comes out of a call, taken on from the caller's state, is what came out in the callee |
| Calls.RunAlone | src/interpret.cc:2316-2422 | A program without calls runs as on the machine without callers |
| CompiledNesting.Nests | src/codegen.cc:2405-2435 | Every compiled program nests properly: its code has a plan of depths that each instruction keeps to |
| CompiledNesting.AddressTells | src/codegen.cc:1957-1994 | In compiled code the address alone says how many foreach records and pending try blocks there are, on every run |
| CompiledNesting.HandlerRecords | src/interpret.cc:4848-4868 | In compiled code there are as many of both at a handler as at its TRY |
| CompiledNesting.Protected | src/interpret.cc:4816-4868 | An exception out of a try block of compiled code finds everything at the handler as at TRY, the number of foreach records included |
| Plans.StmtKeeps | src/codegen.cc:1671-2101 | Every node of a statement, branches, break, continue, return and handlers included, leads to nodes at the depth it leaves behind |
| Nesting.Protected | src/interpret.cc:4859-4868 | The same for any program that nests properly, with calls between its routines |
| Nesting.StepFits | src/interpret.cc:2316-2422 | Every instruction, call, return and exception keeps the running routine and all its callers where the plan of depths says |
| Nesting.RecordLost | src/interpret.cc:4848-4868 | Code without a plan: a record taken off after TRY is missing at the handler |
| Nesting.ThrownAcrossCall | src/interpret.cc:4848-4868 | A program with a plan, in which an exception leaves a foreach and a call: at the handler nothing of them is left |
| Relocation.RelocationPreserves | src/codegen.cc:3104-3153 | When no branch crosses the gap the wrong way, relocated code halts if and only if the old code does, in the same way with the same store |
| Relocation.AppendedRuns | src/codegen.cc:3156-3242 | The appended sequence runs the old code, the parameter code, the old code up to its END, then the extension |
| Relocation.EndNeverReached | src/codegen.cc:3218-3231 | Old code that never comes to its END halts or diverges in the appended sequence if and only if it did before |
| Relocation.StartNeverReached | src/codegen.cc:3156-3200 | Old code that never comes to the start of the inserted code runs as before |
| CodeSequences.CodeSequence.Relocate | src/codegen.cc:3104-3153 | In place, with operand objects shared between the old and new places, each moved address is bumped once, the prefix stays and the hole is filled with NOP |
| CodeSequences.CodeSequence.Append | src/codegen.cc:3156-3242 | The code vector and its operands become the appended list |
| Ownership.Instructions.Assign | src/codegen.cc:2943-2965 | Counts stay exact and nothing is freed early; after self-assignment the counts are right if and only if the instruction had no operands |
| Ownership.Instructions.Copy | src/codegen.cc:2901-2921 | Each operand is counted once more |
| Ownership.Instructions.Destroy | src/codegen.cc:2923-2941 | Each operand is counted once less and freed exactly when nothing holds it |
| Ownership.Instructions.SetOperand | src/codegen.cc:2967-2990 | Setting an operand uses a freed operand if and only if it is the one already there, held nowhere else |
| Ownership.LeakedTransit | src/codegen.cc:2943-2965 | References lost in self-assignment leave wrong counts unless there were none |
| Cloning.Clone | src/native.cc:1641-1732 | Deep cloning of any object graph, cycles included, ends with a copy of each object, one copy per object, the original untouched; map keys keep their number or text, and of keys that are then equal the first stays |
| Cloning.FinishedDeclared | src/native.cc:1617-1639 | A clone holds copies of the variables that are neither tags nor static, of its class and all superclasses, itself as "this", and nothing else |
| Cloning.KeysKept | src/native.cc:1671-1686 | A cloned map has a copy of the value of each number and each text, and no other keys, when no keys clash |
| Cloning.EntriesExactly | src/native.cc:1671-1686 | It has every entry if and only if no key is the number that another one spells out |
| Cloning.DecimalReads | src/value.cc:508-529 | The text by which a number is compared with a text is its decimal numeral, without leading zeros |
| Cloning.KeyLost | src/native.cc:1671-1686 | A map with the keys 'a' and "97" whose clone has one entry, which "a" does not find |
| Cloning.CloneBlock | src/native.cc:1617-1639 | The members of an object and of its superclasses are copied |
| Cloning.CloneValue | src/native.cc:1737-1743 | Both forms of the native function; the shallow one copies one level |
| Cloning.SamePaths | src/native.cc:1641-1732 | When no keys clash, every path of indices, numbers, texts and members through the original leads to the corresponding value of the copy |
| Cloning.SharingPreserved | src/native.cc:1601-1615 | Two paths meet in the copy if and only if they meet in the original, and the graphs have no object in common |
| Leb128.RoundTrip | src/native.cc:3337-3349 | Decoding inverts encoding and leaves what follows (section 7.6 of DWARF Version 4) |
| Leb128.Length | src/native.cc:3337-3349 | How many bytes an encoding has, exactly |
| Leb128.Examples | src/native.cc:3337-3349 | The encodings listed in section 7.6 of DWARF Version 4 |
| Leb128.AtMostTen | src/native.cc:3337-3349 | A 64-bit integer takes at most ten |
| Leb128.Serialize | src/native.cc:3337-3349 | The writing loop emits the encoding |
| Leb128.Deserialize | src/native.cc:3809-3827 | The reading loop consumes one encoding and returns its value modulo 2^64 |
| BinaryForm.NamesDiffer | src/native.cc:3313-3317 | Generated object names never collide |
| BinaryForm.NameReads | src/native.cc:3313-3317 | They are "object-" and the number in decimal |
| BinaryForm.ScalarLayout | src/native.cc:3320-3335 | The type byte of each scalar and what follows it |
| BinaryForm.SequenceLayout | src/native.cc:3455-3640 | The same for vectors and maps |
| BinaryForm.ObjectLayout | src/native.cc:3640-3740 | The same for objects and references to them |
| BinaryForm.MemberAssigned | src/native.cc:3829-3890 | A member comes back as it was read if and only if it is not a text with the mark of a reference; a text that begins with the mark becomes the object it names or null |
| BinaryForm.PutKeeps | src/native.cc:4222-4231 | Of equal keys that are read the last wins, the other entries stay |
| BinaryForm.PutMemberKeeps | src/native.cc:4246-4256 | The same for members |
| BinaryRoundTrip.SerializedBack | src/native.cc:4189-4282 | Any supported graph reads back, leaving exactly what follows; shared objects stay shared, and only a reference to an object that leads back to its holder may have become null |
| BinaryRoundTrip.RoundTripExactly | src/native.cc:3455-3751 | Value and graph come back whole if and only if the part of the graph that the value reaches has no cycle |
| BinaryRoundTrip.Supported | src/native.cc:3455-3640 | Which scalars, strings and sequences can be written: all of their types, below 2^31 elements |
| BinaryRoundTrip.BackReferenceLost | src/native.cc:3841-3890 | An object that refers to itself comes back with null |
| BinaryStreams.Serializer.Serialize | src/native.cc:3455-3751 | The writer appends the specified bytes and extends the table of names |
| BinaryStreams.Deserializer.Deserialize | src/native.cc:4189-4282 | The reader builds the specified value and objects |
| BitRanges.RangeRead | src/interpret.cc:7397-7417 | Bit i of a range is bit lo + i of the value |
| BitRanges.RangeWritten | src/interpret.cc:7460-7482 | A range write stores the low bits of the value and leaves all other bits |
| BitRanges.ReadAfterWrite | src/interpret.cc:7397-7482 | Reading the range written gives the low bits of the value |
| BitRanges.BitReadAfterWrite | src/interpret.cc:7184-7290 | A bit reads back as written, the others as before |
| BitRanges.SwappedBounds | src/interpret.cc:7397-7407 | Swapped bounds mean the same range |
| BitRanges.RangeIsBits | src/interpret.cc:7277-7482 | A range write is the sequence of its single-bit writes |
| BitRanges.RangeOutcomes | src/interpret.cc:7104-7108 | Reading or writing a range is an error if and only if a bound is below 0 or above 63, above 7 for chars and booleans, and undefined if and only if it is all 64 bits of an integer |
| BitRanges.RangeNarrowed | src/interpret.cc:7397-7407 | Bounds beyond 32 bits are reduced first |
| BitRanges.RangeAccess | src/interpret.cc:7397-7482 | Reading delivers bits lo to hi, writing replaces exactly these |
| BitRanges.BitOutcomes | src/interpret.cc:7184-7290 | A bit is an error if and only if it is below 0 or above 63, above 7 for chars and booleans; otherwise it reads as 1 or 0, and writing changes it alone |
| BitRanges.Variable.SetSub | src/interpret.cc:7460-7482 | The variable has the low bits of the value inside the range and its old bits outside; it is unchanged when the range does not fit |
| OperandStack.Balanced | src/codegen.cc:1397-1467 | For every nesting of calls, constructions, vector and map literals the code leaves the operand stack as it was and delivers the value, elements and arguments in source order although evaluated last first |
| OperandStack.CallBalancesExactly | src/interpret.cc:3573-3641 | A call puts the stack back if and only if it is not a call by name of a native function or builtin method |
| OperandStack.NativeByName | src/interpret.cc:3573-3576 | A native function called by name leaves its arguments on the stack |
| OperandStack.BuiltinByName | src/interpret.cc:3617-3634 | A builtin method called by name takes one value too many |
| OperandStack.FirstKeyWins | src/interpret.cc:4896-4911 | Of map keys that count as equal the first in source order wins |
| OperandStack.StackMachine.MakeVector | src/interpret.cc:4876-4889 | The loop down the stack builds the vector |
| OperandStack.StackMachine.MakeMap | src/interpret.cc:4896-4911 | The loop down the stack builds the map |
| OperandStack.StackMachine.Execute | src/interpret.cc:2996-3019 | The array with its growth implements the stack of the specification |
| Strings.SplitString | src/native.cc:2217-2234 | The loop ends with the pieces between the separators |
| Strings.JoinSplit | src/native.cc:2217-2234 | Joining the pieces gives the string back |
| Strings.PiecesFree | src/native.cc:2217-2234 | No piece contains the separator |
| Strings.SplitJoin | src/native.cc:2217-2234 | Splitting a join gives the pieces back if and only if they are separable |
| Strings.Replace | src/native.cc:2673-2688 | Replacing all is joining the pieces with the replacement |
| Strings.ReplacedByItself | src/native.cc:2673-2688 | Replacing a pattern by itself changes nothing |
| Strings.SplitCharacter | src/native.cc:2194-2216 | With a character as separator, runs of it separate |
| Strings.RunsRemoved | src/native.cc:2194-2216 | Those pieces contain every other character in order and no separator |
| Breakpoints.Debugger.Fetch | src/interpret.cc:2481-2499 | The opcode executed is the compiled one, breakpoint or not |
| Breakpoints.DebuggedRun | src/interpret.cc:2481-2499 | With any commands entered before any instruction, a run does what the compiled program does |
| Breakpoints.Obey | src/debug.cc:815-875 | Each command sets, enables, disables or clears the breakpoint with its number, or all of them for 0, and leaves the others as they were |
| Breakpoints.Debugger.SetBreakpoint | src/debug.cc:63-72 | Refused exactly where one is in place; no instruction gets a second breakpoint if and only if none stands there |
| Breakpoints.Debugger.Disable | src/debug.cc:80-85 | All enabled breakpoints stay in place if and only if it was disabled or no other enabled one stands there |
| Breakpoints.Debugger.Enable | src/debug.cc:87-92 | Puts the patch in |
| Breakpoints.Debugger.DeleteBreakpoint | src/debug.cc:74-78 | As for Disable |
| Breakpoints.Debugger.Clear | src/debug.cc:859-875 | Clearing all restores the compiled program |
| Breakpoints.LostPatch | src/debug.cc:74-92 | A history after which an enabled breakpoint is not in place |

## Findings

What the models show about the code, each with its exact condition in the table above.

- `x = a && b` and `x = a || b` write `x` before `b` is evaluated (src/codegen.cc:1236-1240): Semantics.InPlaceExactly.
- A case with `>=` is compiled as `>` (src/codegen.cc:1886-1888): Semantics.CaseOperators, Semantics.ChoiceExactly.
- `continue` in a do-loop goes to the start of the body, not to the condition (src/codegen.cc:1813): Semantics.DoRoundExactly.
- `foreach` over a range runs on a 32-bit index (src/interpret.cc:6923-7088): Semantics.RangeExactly, and for the ends that overflow Semantics.EndOverflows.
- Assigning an instruction to itself leaks its operands, and setting an operand to the one already there frees it (src/codegen.cc:2943-2990): Ownership.Instructions.Assign, Ownership.Instructions.SetOperand.
- Native functions and builtin methods called by name leave the operand stack unbalanced (src/interpret.cc:3573-3634): OperandStack.CallBalancesExactly.
- References back to an object that is still being read are lost (src/native.cc:4189-4282): BinaryRoundTrip.RoundTripExactly.
- Cloning a map turns chars and booleans among its keys into integers (src/native.cc:1643-1649), so that an entry whose text is such a number is lost: Cloning.EntriesExactly, Cloning.KeyLost.
- With two breakpoints at one instruction, disabling or deleting one takes the other out (src/debug.cc:74-92): Breakpoints.Debugger.Disable, Breakpoints.Debugger.DeleteBreakpoint.
- A bit range of all 64 bits shifts by 64, which C++ leaves undefined (src/interpret.cc:7411): BitRanges.RangeOutcomes.
- Foreach records are cut back, never restored, when an exception is caught (src/interpret.cc:4852-4855). Code that takes off a record after TRY loses it (Nesting.RecordLost); code that nests properly does not (Nesting.Protected), and compiled code always nests properly (CompiledNesting.Nests).

## Left out

- Exceptions with `finally`, coroutines and `yield`, monitors and synchronized blocks, threads, signals and interrupts.
- Typed opcodes, operator overloading, reals, strings, enumerations and casts as operands of instructions; shifts and bit operators; the byte type as a kind of compiled values.
- Arithmetic.Arithmetics: sums, differences, products and the quotient of the least INTEGER by -1 that do not fit 64 bits are reduced, where C++ leaves the overflow of a signed integer undefined.
- Constants and stored values are unbounded integers in the core language; results of arithmetic are reduced to 64 bits where the interpreter computes them.
- Source.ForValues: where the end of a range overflows an int (Semantics.EndOverflows) the models take the wrapped value, where C++ defines none.
- IN cases in switch, `foreach` over containers and objects, macros, enumerations, foreign code and type-checked variables.
- STATEMENT flags, source positions and the pools of value and variable nodes, which emission shares and the model does not.
- Exec: a bound on loop rounds stands for time; Preservation and Reflection together quantify over all bounds.
- The variable of a catch clause is kept apart from other variables.
- Semantics.Same: excludes every case with >=, although ChoiceExactly shows that only equal numbers matter, because which numbers meet is known only at run time.
- InterpreterLoop.VirtualMachine.CallFunction: calls of interpreted functions by position; objects, closures, varargs, defaults and the checks of the number of arguments are left out, and a routine reads only its own frame (the static link is computed, kept and restored, but no variable is reached through it).
- InterpreterLoop.VirtualMachine.DoTry: the operand stack is not restored by the code, so nothing is said about it; a RETVAL that the generator never emits inside a pending try block would leave its value behind, which the model drops.
- OperandStack.Balanced: the functions called are arbitrary functions of their arguments and of all calls before; which map keys count as equal is an arbitrary relation; their own code is not part of the model, nor are branches and exceptions between the pushes of one call.
- Relocation.RelocationPreserves: INLINE, MACRO, NEWVECTOR and the third address of TRY are not among the instructions; parameter code with branches, which is copied unrelocated, is excluded.
- Ownership.Instructions.Assign: counts of operands are modelled apart from relocation.
- Cloning.Clone: vectors and maps are trees, so a vector that contains itself is not covered; map keys are integral values or strings.
- Cloning.SamePaths: asks that no map has keys that clash; where they do, EntriesExactly says that entries are lost.
- BinaryRoundTrip.SerializedBack: supported values only; none, streams and callables write nothing, map keys are scalars or strings, told apart as values (a map never holds both 1 and true, or 1 and "1", as keys), and member strings with the reference mark, which do not come back (BinaryForm.MemberAssigned), are excluded.
- BinaryStreams.Deserializer.Deserialize: input that ends early or holds a negative length is undefined; constructors and superclasses are reduced to assigning members.
- The XML and JSON forms, the bytecode file format, dates, globbing, formatting, raw memory, network and terminal code.
- Breakpoints.DebuggedRun: block extension while breakpoints are set, the prompt, threads and conditions.
