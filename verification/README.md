# A verified model of the MiniJava compiler

The repository compiles MiniJava to a stack machine: lexer and Pratt parser, type checker, generation of
three-address code into a control-flow graph, two optimisation passes, emission of basic blocks as bytecode, a binary
file format, and the virtual machine that runs the file. This project models each of these stages as the code has them
and proves, over all programs and all runs, that together they do what the source program says. Each stage is also held
against a description that does not share its functions: rules for tokens and for the texts of an expression, typing
rules, the meaning of parse trees, laws of the heap, and the layout of the file.

The main theorem is `EndToEnd.AcceptedUnitRuns`. Take any unit that the type checker accepts; generate it, run any list
of passes over it, emit it, write it to a file and read the file back. The virtual machine then prints nothing that the
unit does not print, and one thing only can go wrong: the code may jump to a block that was not emitted, and the machine
fails there. If all labels in the emitted code name blocks emitted with it, the machine stops exactly when the unit does,
in the same way and with the same output, and never misses a block or a method, runs off a block's end, pops an empty
stack or returns without a caller. What the unit does is defined on its parse trees (`UnitMeaning`): what each operator,
literal and statement means, which method a call runs, and which fields an object has.

Which programs have such labels is known exactly. In the code emitted for a generated program every label names an
emitted block if and only if no `&&` or `||` stands inside the right operand of another one
(`EmittedLabels.ProgramLabelsExactly`); this is about code on which no pass has run. With any list of passes the
condition still suffices (`Pipeline.PlainLabelsNamed`, `EndToEnd.PlainUnitRuns`), and it cannot be dropped: with the two
passes of the compiler `print(true && (true && true))` still fails on the machine
(`NestedShortCircuit.NestedOperandStillBreaks`). It is not necessary any more, since a pass may remove a right operand:
`print(false && (true && true))` violates it and is compiled correctly (`NestedShortCircuit.FalseOperandRuns`). The
reason for the failure is in `src/ir/IRGenerationVisitor.cpp:392-398`: the branch after the right operand goes into the
current block, while the exits are set on the block where the right operand started.

Acceptance is exact as well: in every scope the type checker returns a type and reports nothing if and only if the
expression has that type by the rules of `TypingRules`, and likewise for statements, methods and units
(`TypingRules.UnitExactly`). The expression parser takes exactly the texts that the grammar allows
(`ExpressionTexts.ParserExactly`), the lexer exactly the tokens, blanks and comments that its rules give
(`Lexing.TokenExactly`, `Lexing.TriviaExactly`), the writer produces exactly the file that the layout describes
(`FileFormat.FileExactly`), and the reader takes exactly what was written (`FileReading.ReadProgramExactly`).

A second theorem, `EndToEnd.AcceptedUnitNeverGoesWrong`, rests on type soundness (`TypeSoundness`): while an accepted
program runs, every value has its static type, so the machine never misses a variable or a field either. Its one further
hypothesis is that identifiers resolve to variables. The type checker does not establish it: it also accepts the names of
classes and methods, and `TypeSoundness.ClassNameAccepted` gives a program that it accepts and that fails.

The meaning of a unit is an evaluator with fuel for loop iterations and calls, in two orders of reading. Late, as the
code has it, an identifier denotes its variable until an operator, test, argument or statement reads it; at once is the
left-to-right order of section 15.7.1 of the Java Language Specification. `Source` and `EagerReads` are the same two
orders on the abstract syntax that generation gets (`UnitMeaning.CompiledMeaning`). The two differ:
`FieldBeforeCall.LateIsNotEager` is an accepted program that prints 2 where the language asks for 1. They agree if no
field stands unread across a call (`EagerPrograms.RunsAlike`), which can be read off the expressions and the signatures,
and `EndToEnd.OrderlyUnitRuns` says so of the machine. For a field left of a call the lemmas `OperatorExactly`,
`AccessExactly`, `ReceiverExactly` and `ArrayAssignExactly` of `EagerReads` say exactly when they agree.

Where the code updates objects in place there are classes: the graph (`FlowGraph.Cfg`), the generating visitor
(`IrVisitor.IrGenerationVisitor`), the method being emitted (`Emission.BytecodeMethod`), its blocks
(`Bytecode.BytecodeMethodBlock`), the machine (`Vm.VirtualMachine`), the parser and its token buffer (`Parsing.Parser`),
the lexer and its stream (`Lexing.Lexer`, `Lexing.StringViewStream`), the type checker (`TypeChecking.TypeCheckVisitor`)
and the two file streams (`Serialization.Serializer`, `Serialization.Deserializer`). Their methods are proved equal to
functions on values, and the theorems are about those functions.

## Modules

From front to back:

- `Lexing`, `Parsing`, `ExpressionTexts`, `SourceText`: text to tokens to expression trees and back, and the rules for
  them.
- `TypeChecking`, `TypingRules`, `TypedStores`, `TypeSoundness`: error counting, the typing rules, what an accepted unit
  guarantees, and that its values keep their types while it runs.
- `Ast`, `Source`, `SourceSafety`, `UnitMeaning`: the programs that generation gets, their meaning, what cannot go wrong in
  them, and the meaning of checked units.
- `EagerReads`, `EagerPrograms`, `FieldBeforeCall`: the order in which the language reads variables, when the compiled
  code keeps it, and a program where it does not.
- `Names`, `Tac`, `FlowGraph`, `IrGeneration`, `IrVisitor`: generated names, instructions, the graph, and generation.
- `GraphGrowth`, `CallCounts`, `WellFormed`, `ExitTargets`, `DefiniteAssignment`, `DefinitePaths`: what generation keeps.
- `DanglingLabels`, `EmittedLabels`, `NestedShortCircuit`: which programs are emitted with labels that name no block, and
  what becomes of them.
- `Machine`, `IrMachine`, `Simulation`, `GenerationCorrect`, `ProgramGeneration`: runs of three-address code, and the
  correctness of generation.
- `ConstantFolding`, `JumpFolding`, `Reachability`, `Passes`, `PassesCorrect`: the optimiser.
- `Bytecode`, `Emission`, `LoweringSteps`, `Lowering`, `Loading`, `Vm`: bytecode, its emission and the machine.
- `Serialization`, `FileFormat`, `FileReading`, `Pipeline`, `EndToEnd`: the file, its layout, which files can be read, the
  whole compiler, and the main theorem.

## Model

| member | source | states |
|---|---|---|
| EndToEnd.AcceptedUnitRuns | src/main.cpp:291-339 | whatever unit the type checker accepts: compiled with any list of passes, written to a file and read back, it prints on the VM nothing that the unit does not print by its meaning on parse trees (`UnitMeaning.UnitRun`), stops as the unit stops or fails for want of a block, and shows all that the unit shows unless it fails so before; if all labels in its code name emitted blocks it stops iff the unit stops, in the same way and with the same output, and is never stuck |
| EndToEnd.PlainUnitRuns | src/main.cpp:291-339 | in particular it runs exactly as the unit means if no `&&` or `||` stands inside the right operand of another one |
| EndToEnd.AcceptedUnitNeverGoesWrong | src/main.cpp:291-339 | if the identifiers of the unit also resolve to variables, the VM only ever fails with a fault of the language (division by zero, null or index errors, negative lengths, a field without an object), or for want of a block when some label names none that was emitted |
| EndToEnd.OrderlyUnitRuns | src/ir/IRGenerationVisitor.cpp:462-467 | if moreover all emitted labels name emitted blocks and no field stands unread across a call, the VM does what the meaning of the unit with every variable read where it stands asks for, as section 15.7.1 of the Java Language Specification does: same endings and outputs; only where the language fails for want of an object may the fault be another one |
| UnitMeaning.CompiledMeaning | src/ir/IRGenerationVisitor.cpp:211-817 | for every accepted unit and any fuel, the program that IR generation gets has the outcome of the unit itself, evaluated on its parse trees: each operator by name, literals in decimal from the left, branches and loops, the method that the receiver's class declares, the fields of an object as its class declares them; with variables read late as the code does or at once as the language does |
| UnitMeaning.ExprMeaning | src/ir/IRGenerationVisitor.cpp:231-627 | the same for every accepted expression, frame and store |
| UnitMeaning.StmtMeaning | src/ir/IRGenerationVisitor.cpp:629-784 | the same for every accepted statement |
| UnitMeaning.LiteralMeaning | src/ast/IntegerNode.hpp:13-14 | an integer literal has the value of its digits read from the left |
| UnitMeaning.ClassFieldsMeaning | src/vm/vm.cpp:131-141 | an object gets exactly the fields that the unit declares for its class, `this` excepted |
| Pipeline.CompilerCorrect | src/main.cpp:316-333 | for any list of passes and any emission of a well-formed program whose emitted labels all name emitted blocks, the VM stops exactly when the source does, with the same output and the same ending or fault; it prints whatever an unfinished source run has printed and goes on, and prints nothing else |
| Pipeline.CompiledOrMissing | src/main.cpp:316-333 | for every well-formed program, nested short circuits included, a missing block is the only thing that goes wrong in compiled code, and until then the VM prints what the source prints |
| Pipeline.PlainLabelsNamed | src/ir/IRGenerationVisitor.cpp:368-459 | after any list of passes all emitted labels name emitted blocks if no short circuit is nested in a right operand |
| Pipeline.VmNeverStuck | src/vm/vm.cpp:90-101 | in no state of any run of a compiled program does the VM run off a block, pop an empty data stack, return without a caller, or miss a method; nor miss a block if all emitted labels name emitted ones |
| Pipeline.LoweringPreservesBehaviour | src/vm/vm.cpp:317-479 | three-address code and loaded bytecode show the same outputs and endings, except that the VM fails where the code jumps to a block that was not emitted; without exception, in both directions, if labels lead only where exits lead |
| Pipeline.Compile | src/main.cpp:316-333 | generate, optimise, emit: the result is the emission of the optimised code of the program |
| ProgramGeneration.GenerationPreservesMeaning | src/ir/IRGenerationVisitor.cpp:211-817 | for every well-formed program and every amount of fuel, nested short circuits included, the generated code reaches the outcome of the source program: the same output when it ends, the same fault, or at least as many steps as the fuel when it is still going |
| ProgramGeneration.UpToGrows | src/ir/CFG.cpp:87-104 | generating a method never changes a block generated earlier, and its root block is new |
| GenerationCorrect.SimExpr | src/ir/IRGenerationVisitor.cpp:231-585 | the code of an expression, run from its entry, leaves in the returned operand the value the source semantics gives, reaches the final current block, keeps all source variables, the caller's pending arguments and older temporaries, and faults or times out as the source does |
| GenerationCorrect.SimShortCircuit | src/ir/IRGenerationVisitor.cpp:368-459 | short-circuit operators evaluate the right operand only when the left one requires it and deliver 0 or 1, through the four blocks and two arms |
| GenerationCorrect.SimArgs | src/ir/IRGenerationVisitor.cpp:571-574 | arguments are pushed in order above whatever was pending, each with the value read at its own turn |
| GenerationCorrect.SimCall | src/ir/IRGenerationVisitor.cpp:537-627 | receiver, arguments and call: the callee runs with the receiver in `this` and argument i in parameter i, its result comes back in the temporary, and what was pending below is untouched |
| GenerationCorrect.SimMethod | src/ir/IRGenerationVisitor.cpp:786-813 | the body and the return expression of a method, from its root to the return instruction |
| GenerationCorrect.SimStmt | src/ir/IRGenerationVisitor.cpp:629-784 | the code of a statement takes every state to the state the source statement gives, from entry to final current block |
| GenerationCorrect.SimLoop | src/ir/IRGenerationVisitor.cpp:747-784 | a while loop, for any number of iterations |
| IrVisitor.IrGenerationVisitor.VisitExpr | src/ir/IRGenerationVisitor.cpp:231-627 | the visitor over a mutable graph builds exactly the graph and operand that the generation function gives |
| IrVisitor.IrGenerationVisitor.VisitStmt | src/ir/IRGenerationVisitor.cpp:629-784 | the same for statements |
| IrVisitor.IrGenerationVisitor.Open | src/ir/IRGenerationVisitor.cpp:376-392 | the first half of a short circuit: temporary, four blocks, branch on the left operand |
| IrVisitor.IrGenerationVisitor.Close | src/ir/IRGenerationVisitor.cpp:394-410 | the second half: the branch goes into the current block, the exits into the block where the right operand started |
| IrVisitor.IrGenerationVisitor.VisitMethod | src/ir/IRGenerationVisitor.cpp:145-176 | a method is generated from a fresh root, with its own scope |
| IrVisitor.GenerateIr | src/ir/IRGenerationVisitor.cpp:819-828 | a whole program: main first, then the methods in order |
| FlowGraph.Cfg.GetTemporaryName | src/ir/CFG.cpp:41-45 | the next temporary, entered into the scope |
| FlowGraph.Cfg.MakeBlock | src/ir/CFG.cpp:47-91 | a new empty block under the next name |
| FlowGraph.Cfg.SetBlocks | src/ir/BBlock.hpp:20-45 | both exits of a block; everything else stays |
| FlowGraph.Cfg.AddMethodRoot | src/ir/CFG.cpp:99-104 | a root block becomes the last of the roots and the current block |
| GraphGrowth.ExprGrows | src/ir/IRGenerationVisitor.cpp:231-627 | generating an expression only appends to the current block and to new blocks, only takes fresh names, and ends in the current block or a new one |
| GraphGrowth.StmtGrows | src/ir/IRGenerationVisitor.cpp:629-784 | the same for statements |
| CallCounts.CallsCounted | src/ir/IRGenerationVisitor.cpp:537-627 | in the code generated for a well-formed program every call names a method of the program and carries the number of its parameters |
| Names.TempNameInjective | src/ir/CFG.cpp:41-45 | temporaries with different numbers have different names |
| Names.BlockNameInjective | src/ir/CFG.cpp:47-51 | blocks with different numbers have different names |
| Lexing.IdentifierIsSource | src/lexing/Lexer.cpp:283-294 | no identifier of a source text is the name of a temporary, `this` or `main`, or contains a dot |
| WellFormed.ExprAgrees | src/ir/IRGenerationVisitor.cpp:368-459 | the blocks an expression adds end in a jump, a branch, a return or nothing that agrees with their exit pointers, if and only if no short-circuit operator stands inside the right operand of another one, arguments of calls included; and a new block is opened iff the expression contains one at all |
| WellFormed.StmtAgrees | src/ir/IRGenerationVisitor.cpp:629-784 | the same if-and-only-if for statements |
| ExitTargets.ProgramAgrees | src/ir/IRGenerationVisitor.cpp:368-784 | all blocks of a generated program have exits that agree with their labels if and only if no short circuit is nested in a right operand anywhere in main or the methods |
| ExitTargets.ProgramShaped | src/ir/IRGenerationVisitor.cpp:211-817 | in any generated program every block is straight code up to a final branch, jump or return, and one that has exits ends in a branch or jump |
| EmittedLabels.ProgramLabelsExactly | src/ir/IRGenerationVisitor.cpp:392-398 | in the code emitted for a generated program, no pass having run, every label names a block emitted with it if and only if no short circuit is nested in a right operand of main, a method or a result |
| EmittedLabels.LabelsReachedExactly | src/ir/IRGenerationVisitor.cpp:392-398 | the same for the generated graph: labels lead only where exits lead, exactly then |
| EmittedLabels.LabelsNamedExactly | src/ir/BBlock.cpp:32-53 | for any graph: all emitted labels name emitted blocks if and only if the labels of the blocks that exits lead to from each root name such blocks |
| DanglingLabels.FirstBranch | src/ir/IRGenerationVisitor.cpp:376-392 | the first branch in an operand that contains a short circuit stands in the block where the operand starts, and leads to a block that nothing else leads to |
| DanglingLabels.ExprHits | src/ir/IRGenerationVisitor.cpp:392-398 | an expression with a nested short circuit reaches, along labels, a block that no exit leads to |
| DanglingLabels.StmtHits | src/ir/IRGenerationVisitor.cpp:629-784 | the same for statements |
| ExitTargets.ProgramOwned | src/ir/IRGenerationVisitor.cpp:128-176 | every exit leads to a block of the same method that is no root, so a prologue runs once per call; the roots are main and the methods in order; all immediates are C++ ints and nothing assigns to `this` |
| NestedShortCircuit.NestedOperandBreaks | src/ir/IRGenerationVisitor.cpp:392-398 | what is emitted for `print(true && (true && true))` without passes fails on the VM with a missing block after seven instructions and no output |
| NestedShortCircuit.NestedOperandStillBreaks | src/main.cpp:316-319 | with the two passes that the compiler runs it fails as well, after three instructions, although the source prints 1: the hypothesis on right operands cannot be dropped |
| NestedShortCircuit.FalseOperandRuns | src/ir/passes/ConditionalJumpFoldingPass.cpp:79-120 | `print(false && (true && true))` violates the hypothesis, and without passes its code has a dangling label; the compiler's passes remove the right operand, all labels name emitted blocks, and the VM prints 0 |
| NestedShortCircuit.SourcePrints | src/ir/IRGenerationVisitor.cpp:368-413 | the source of the two programs prints 1 and 0 |
| EagerPrograms.RunsAlike | src/ir/IRGenerationVisitor.cpp:462-467 | in an accepted program whose identifiers resolve and in which no field stands unread across a call (left of it in an operator, array access or array assignment, or as a receiver), every run is the one that left-to-right evaluation gives (section 15.7.1 of the Java Language Specification), or both fail after the same output, the language for want of an object |
| EagerPrograms.EvalAlike | src/ir/IRGenerationVisitor.cpp:231-585 | the same for every expression and store of such a program |
| EagerPrograms.StmtAlike | src/ir/IRGenerationVisitor.cpp:629-784 | the same for every statement |
| EagerReads.OperatorExactly | src/ir/IRGenerationVisitor.cpp:462-467 | a field to the left of any operand r: late and eager evaluation agree if and only if the operator gives the same on the values of the field before and after r |
| EagerReads.AccessExactly | src/ir/IRGenerationVisitor.cpp:507-526 | the same for an array access |
| EagerReads.ReceiverExactly | src/ir/IRGenerationVisitor.cpp:566-585 | the same for a receiver and the arguments of its call |
| EagerReads.ArrayAssignExactly | src/ir/IRGenerationVisitor.cpp:645-661 | the same for the array of an array assignment |
| EagerReads.LateIsEager | src/ir/IRGenerationVisitor.cpp:462-467 | for call-free expressions of any program, accepted or not, whose variables resolve, reading an identifier only when its operator runs gives the same outcome as left-to-right evaluation |
| FieldBeforeCall.LateIsNotEager | src/ir/IRGenerationVisitor.cpp:462-467 | an accepted program with all identifiers resolved, whose method returns `x + this.f()` where f sets the field x: its run prints 2, left-to-right evaluation prints 1 |
| DefinitePaths.GeneratedSetBeforeUse | src/ir/IRGenerationVisitor.cpp:231-813 | along every path of control from every method root of generated code, nested short circuits included, each temporary is set before it is read |
| DefinitePaths.OptimisedSetBeforeUse | src/ir/passes/ConditionalJumpFoldingPass.cpp:122-175 | after any list of passes as well, for every program |
| DefiniteAssignment.ExprDefines | src/ir/IRGenerationVisitor.cpp:231-627 | an expression keeps everything defined before it and defines its result, whichever arms are taken |
| DefiniteAssignment.StmtDefines | src/ir/IRGenerationVisitor.cpp:629-784 | a statement keeps everything defined before it, around loops too |
| SourceSafety.RunSafe | src/vm/vm.cpp:286-293 | no run of a well-formed source program meets a fault that could only come from the machine (missing block or method, empty stack) |
| ConstantFolding.FoldingPreservesProgram | src/ir/passes/ConstantFoldingPass.cpp:230-307 | folding any choice of blocks changes no configuration of any run: same state, output, fault and successor after every step |
| ConstantFolding.FoldingPreservesRuns | src/ir/passes/ConstantFoldingPass.cpp:230-283 | the same from any configuration in which each entry of the environment is the current value of its variable |
| ConstantFolding.StepKeepsEnv | src/ir/passes/ConstantFoldingPass.cpp:255-279 | each step keeps every environment entry equal to its variable: entries are dropped at redefinition, and all of them at a call |
| ConstantFolding.FoldedDefine | src/ir/passes/ConstantFoldingPass.cpp:163-252 | substituting and folding an instruction changes neither what it computes nor the variable it defines; a folded value is the value computed at run time |
| ConstantFolding.FoldBinaryIsApply | src/ir/passes/ConstantFoldingPass.cpp:94-161 | compile-time and run-time operators agree; only division by zero is left unfolded |
| ConstantFolding.FoldBlockIdempotent | src/ir/passes/ConstantFoldingPass.cpp:230-283 | folding a folded block changes nothing |
| ConstantFolding.EnvStaysInInt | src/ir/passes/ConstantFoldingPass.cpp:241-273 | every environment value and every immediate stays in the range of int |
| ConstantFolding.FoldFitsInt64 | src/ir/passes/ConstantFoldingPass.cpp:80-121 | so no folded operation overflows 64 bits, INT_MIN / -1 included |
| ConstantFolding.ProcessBlock | src/ir/passes/ConstantFoldingPass.cpp:230-283 | the loop over the instruction array folds the block in place and returns true iff it changed |
| ConstantFolding.ProcessInstruction | src/ir/passes/ConstantFoldingPass.cpp:235-279 | one round of the loop: the instruction, the next environment, and whether it changed; no other instruction is touched |
| ConstantFolding.NothingFoldableLeft | src/ir/passes/ConstantFoldingPass.cpp:80-161 | after the pass no operator has only immediate operands, but for a division by zero or a result that is no C++ int |
| ConstantFolding.NoKnownNameLeft | src/ir/passes/ConstantFoldingPass.cpp:163-228 | nor is a variable read whose last change in the block, with no call since, was to copy a constant into it |
| JumpFolding.JumpFoldingPreservesRuns | src/ir/passes/ConditionalJumpFoldingPass.cpp:122-163 | n steps of the original are m steps of the folded code, m <= n and n <= 2m + 1, to the same configuration or to the one just before an erased jump |
| JumpFolding.JumpFoldingAddsNoRuns | src/ir/passes/ConditionalJumpFoldingPass.cpp:122-163 | and every run of the folded code comes from a run of the original |
| JumpFolding.FoldJumpsShaped | src/ir/passes/ConditionalJumpFoldingPass.cpp:65-163 | whatever its exits say, the loop replaces exactly a final branch on a constant by a jump to the arm it takes, and the true exit becomes the exit on that side, or without one the collected block of that name; without either the block is left alone |
| JumpFolding.FoldJumpsSimplifies | src/ir/passes/ConditionalJumpFoldingPass.cpp:65-163 | on a block whose exits agree with its labels the loop replaces exactly a final branch on a constant by a jump to the arm it takes; the collected names are never consulted |
| JumpFolding.SimplifiedAgrees | src/ir/passes/ConditionalJumpFoldingPass.cpp:122-133 | folding keeps agreement, only drops exits, leaves no branch on a constant and is idempotent |
| JumpFolding.ProcessBlock | src/ir/passes/ConditionalJumpFoldingPass.cpp:135-163 | the loop that replaces and erases instructions equals the specification function, and returns true iff the block changed: then some branch has become a jump |
| Reachability.CollectMethodBlocks | src/ir/passes/ConditionalJumpFoldingPass.cpp:26-49 | the worklist terminates and collects exactly the blocks that exits lead to, each once |
| Reachability.ReachLeast | src/ir/passes/ConditionalJumpFoldingPass.cpp:26-49 | the reachable set is the least set that holds the root and is closed under exits |
| Reachability.ReachClosed | src/ir/passes/ConditionalJumpFoldingPass.cpp:42-47 | and it is closed |
| Passes.FoldConstantsFrom | src/ir/passes/ConstantFoldingPass.cpp:285-307 | processes exactly the blocks reachable from the root, and returns true iff the graph changed |
| Passes.RunConstantFolding | src/ir/passes/ConstantFoldingPass.cpp:311-320 | the pass over all roots, with its exact flag |
| Passes.FoldJumpsFrom | src/ir/passes/ConditionalJumpFoldingPass.cpp:165-175 | processes exactly the blocks collected from the root, and returns true iff the graph changed |
| Passes.RunJumpFolding | src/ir/passes/ConditionalJumpFoldingPass.cpp:179-188 | the pass over all roots, with its exact flag |
| Passes.RunPasses | src/ir/passes/IRPassManager.cpp:13-19 | the passes one after the other; true iff one of them changed what its predecessors had left |
| PassesCorrect.PassesPreserveBehaviour | src/ir/passes/IRPassManager.cpp:13-19 | for the graph of any program: after any list of passes exits still stay inside their method and blocks keep their shape, and the code shows exactly the outputs, endings and faults it showed before |
| PassesCorrect.PassesKeepAgreement | src/ir/passes/IRPassManager.cpp:13-19 | where exits agree with labels, they still do after any list of passes |
| PassesCorrect.NoConstantBranchLeft | src/ir/passes/ConditionalJumpFoldingPass.cpp:165-188 | after conditional-jump folding no reachable block branches on a constant, and nothing new has become reachable |
| PassesCorrect.SecondJumpFolding | src/ir/passes/ConditionalJumpFoldingPass.cpp:179-188 | a second run of the pass changes nothing |
| PassesCorrect.SecondConstantFolding | src/ir/passes/ConstantFoldingPass.cpp:311-320 | nor does a second run of constant folding |
| Emission.GenerateBytecode | src/ir/CFG.cpp:113-160 | emission is exact: main first and the roots in order; each method holds exactly the blocks its root leads to, once each, with their lowered instructions, the root behind its prologue, and in main each reachable leaf ends in one STOP; the blocks stand in the order of the walk from the root |
| Emission.GenerateBlock | src/ir/BBlock.cpp:32-53 | the recursive walk guarded by the generated flag terminates, emits only blocks not yet generated, in the order of a depth-first walk, true exits first, and leaves behind a set closed under exits |
| Emission.TrueExitNext | src/ir/BBlock.cpp:32-53 | in the order of the walk every block is followed by its true exit, unless that has come before |
| Emission.VisitApart | src/ir/CFG.cpp:113-142 | blocks that a root does not lead to, such as those of the methods before, do not matter to the order of its own |
| Emission.GenerateMethod | src/ir/CFG.cpp:117-154 | one method: its prologue and its blocks, none of which an earlier method has generated |
| Emission.AppendStopToLeafBlocks | src/ir/CFG.cpp:12-38 | exactly the reachable blocks without exits get one STOP, at their end |
| Emission.BytecodeMethod.GetBlock | src/bytecode/BytecodeMethod.cpp:6-18 | the block of that name, found or appended; no other block changes |
| Bytecode.BytecodeMethodBlock.Generate | src/ir/Tac.cpp:17-96 | each instruction appends its own bytecode |
| Bytecode.BytecodeMethodBlock.PushOperand | src/bytecode/BytecodeMethodBlock.cpp:19-28 | an immediate is pushed as a constant, a name is loaded |
| Lowering.LoweringSimulates | src/ir/Tac.cpp:17-96 | every run of the three-address code is matched by a run of the VM in corresponding states (same block, frames, callers, pending arguments and store), or the VM has failed where the code jumped to a block that was not emitted |
| Lowering.StepFollows | src/ir/Tac.cpp:17-96 | one step of the three-address code is matched by the instructions it was lowered to |
| Lowering.InvokeFollows | src/ir/Tac.cpp:73-80 | a call: CALL, then the callee's prologue |
| Lowering.ReturnFollows | src/ir/Tac.cpp:85-87 | a return: RET, then the caller's STORE of the result |
| LoweringSteps.DefineRuns | src/ir/Tac.cpp:17-56 | the code of an instruction that defines a variable computes its value and stores it, and leaves the data stack as it was |
| LoweringSteps.OperatorIsApply | src/ir/ArithmeticTac.cpp:3-14 | operand order: popping right before left gives the operator on left and right, for the non-commutative ones too |
| LoweringSteps.TwoOperandRuns | src/ir/LogicalTac.cpp:3-11 | two loads and an operator push the value of the operation, or fail with its fault |
| LoweringSteps.ArrayCopyRuns | src/ir/Tac.cpp:25-27 | an array write, in the order reference, index, value |
| LoweringSteps.CondJumpRuns | src/ir/Tac.cpp:65-67 | a conditional jump goes to its label iff the condition is 0 |
| LoweringSteps.CallRuns | src/ir/Tac.cpp:73-75 | a call enters the method with the receiver on top of the arguments |
| LoweringSteps.PrologueRuns | src/ir/CFG.cpp:144-151 | the prologue stores `this` and the parameters from the last to the first, and pops exactly argc + 1 values |
| LoweringSteps.ReturnRuns | src/ir/Tac.cpp:85-87 | a return leaves its value on the stack of the caller |
| Machine.EnterBinds | src/ir/CFG.cpp:144-151 | argument i is in parameter i and the receiver in `this`, every other local is 0, nothing below the arguments is touched, and the store is unchanged |
| Machine.BindParamsFrame | src/ir/CFG.cpp:148-151 | storing the parameters takes exactly their number of values off the stack |
| Machine.SetVarThenGet | src/vm/vm.cpp:242-282 | a variable reads back what was stored in it, locals before fields, and no other variable changes |
| Machine.GetExactly | src/vm/vm.cpp:262-282 | what a variable reads as, and which fault when the variable, the receiver, its object or its field is missing |
| Machine.FieldWrite | src/vm/vm.cpp:242-261 | assigning to a field changes that field of the current object and no other, no other object, array or output; assigning to a local changes nothing in the store |
| Machine.StoreThenLoad | src/vm/vm.cpp:385-395 | an array write succeeds exactly where a read does; then the element at that reference and index reads as the value written, every other element of every array as before, and lengths, objects and output stay |
| Machine.AllocThenLoad | src/vm/vm.cpp:366-374 | a new array has a fresh reference and the length asked for, reads 0 at every index, and leaves all other arrays as they were; a negative length fails |
| Machine.LoadExactly | src/vm/vm.cpp:375-384 | reading succeeds exactly for a valid reference and an index inside the array, and otherwise says which of the two is wrong |
| Machine.AllocThenFields | src/vm/vm.cpp:229-240 | a new object has a fresh reference, its class and exactly the fields of its class, each 0 |
| Machine.TruncDivRemainder | src/vm/vm.cpp:420-425 | division truncates toward zero: the remainder is smaller than the divisor and has the sign of the dividend |
| Loading.EmittedLinked | src/vm/vm.cpp:154-162 | what the VM loads from emitted methods is linked with the code they were emitted from |
| Loading.AllocationLoaded | src/vm/vm.cpp:131-141 | the fields the VM collects per class are those of the class's methods |
| Vm.VirtualMachine.StepOnce | src/vm/vm.cpp:317-479 | one round of the loop in place is one step of the machine's transition function, in all fields of the machine |
| Vm.VirtualMachine.RunFor | src/vm/vm.cpp:317-479 | any number of rounds |
| Vm.StuckExactly | src/vm/vm.cpp:286-293 | a round fails with a fault of the machine exactly when the block, the code, an operand, the caller or the method is missing, with the fault of the first that is, and prints nothing |
| Vm.VirtualMachine.Pop | src/vm/vm.cpp:286-293 | the top value, or an error on an empty stack |
| Vm.VirtualMachine.TwoOperands | src/vm/vm.cpp:402-455 | the two-operand opcodes |
| Vm.VirtualMachine.ArrayLoad | src/vm/vm.cpp:375-384 | the two operands are replaced by that element of the arrays, or the fault says which check failed; nothing else changes |
| Vm.VirtualMachine.ArrayStore | src/vm/vm.cpp:385-395 | the element at the index below the top, of the array below that, becomes the value at the top; every other element of every array, objects, output and activations stay, and the three operands are gone |
| Vm.VirtualMachine.NewArray | src/vm/vm.cpp:366-374 | a last array of zeros of that length, its number on the stack, all else as it was; or an error for a negative length |
| Vm.VirtualMachine.ArrayLength | src/vm/vm.cpp:396-401 | the length of the array in place of its reference, or an error for a bad one |
| Vm.VirtualMachine.SetVariable | src/vm/vm.cpp:242-261 | locals first, then `this`, then the fields of the object |
| Vm.OutputGrows | src/vm/vm.cpp:357-361 | output is never taken back |
| Vm.LogicalOpcodes | src/vm/vm.cpp:438-449 | AND is conjunction on all integers; OR is disjunction exactly when the operands are not opposite non-zero numbers |
| Parsing.ParseOfPrint | src/parsing/Parser.cpp:1039-1306 | parsing an expression that was printed with parentheses only where binding powers require them, followed by anything that cannot continue an expression, gives back exactly the tree and the rest |
| Parsing.ParensExactly | src/parsing/Parser.cpp:211-235 | and parentheses are printed exactly where they are required: where the text without them, before something that binds at most as strongly as what follows, would not be parsed as that expression |
| Parsing.OperatorsGroup | src/parsing/Parser.cpp:211-235 | for any two operators, the second takes the middle operand exactly when its left power reaches the right power of the first |
| Parsing.NamedOperatorsGroup | src/parsing/Parser.cpp:211-235 | of `a op1 b op2 c` with b to the left of op2 exactly in these cases: op2 is `*` or `/` and op1 neither; op2 is `+` or `-` and op1 a comparison, `&&` or `||`; op2 a comparison and op1 `&&` or `||`; op2 `&&` and op1 `&&` or `||`; both `||`: it is op1(a, op2(b, c)), and otherwise op2(op1(a, b), c) |
| Parsing.NamedNotGroups | src/parsing/Parser.cpp:1077-1084 | `!a op b` is `!(a op b)` for `+ - * /`, and `(!a) op b` for all other operators |
| Parsing.NamedMinusGroups | src/parsing/Parser.cpp:1085-1094 | `-a op b` is `(0 - a) op b` for every operator |
| Parsing.PostfixGroups | src/parsing/Parser.cpp:1207-1306 | an index, a length or a call behind the right operand of an operator belongs to that operand, and behind `!` or a prefix minus to their operand |
| ExpressionTexts.ParserExactly | src/parsing/Parser.cpp:1039-1306 | the parser takes an expression from the tokens if and only if what it has taken is a text of that expression by the rules of the grammar, parentheses around any part included, and what is left cannot continue it |
| Parsing.NotGroups | src/parsing/Parser.cpp:1077-1084 | `!` takes a following operand together with every operator that binds as strongly as `+` |
| Parsing.MinusIsSubtraction | src/parsing/Parser.cpp:1085-1094 | a prefix minus is `0 - e` and binds more strongly than every binary operator |
| Parsing.Parser.ParseExpression | src/parsing/Parser.cpp:1039-1306 | the parser over its token buffer gives the result of the specification function (by `ExpressionTexts.ParserExactly` the expression of which the tokens are a text), consumes exactly what that leaves out, and counts an error iff it fails for the first time |
| Parsing.Parser.ParseExpressionList | src/parsing/Parser.cpp:964-982 | the loop over a list of arguments |
| Parsing.Parser.PeekToken | src/parsing/Parser.cpp:271-283 | the next valid token; invalid ones are skipped and nothing else is lost |
| Parsing.Parser.Consume | src/parsing/Parser.cpp:285-290 | takes exactly that token |
| SourceText.TextRoundTrip | src/lexing/Lexer.cpp:134-309 | lexing and parsing the source text of an expression gives back exactly that expression, up to the end of file |
| SourceText.LexOfText | src/lexing/Lexer.cpp:134-309 | the text of a list of tokens lexes to exactly those tokens and Eof |
| Lexing.LexTiles | src/lexing/Lexer.cpp:134-309 | tokens and the trivia in front of them are the source, in order and without gaps; every token but Eof has at least one character |
| Lexing.LexAgain | src/lexing/Lexer.cpp:134-309 | lexing the lexemes joined by single spaces gives the same kinds and lexemes |
| Lexing.TriviaExactly | src/lexing/Lexer.cpp:159-178 | what is skipped are exactly the spaces, tabs, newlines and comments in front, each comment from two slashes to the end of its line, up to the end or something that starts neither |
| Lexing.TokenExactly | src/lexing/Lexer.cpp:134-309 | the first token has exactly the length and kind that the rules give: a fixed text, a whole number, or a whole word that is a keyword or an identifier |
| Lexing.Lexer.LexOne | src/lexing/Lexer.cpp:134-309 | blanks and comments are skipped and then the token that the rules give is taken, or Eof at the end; the rest stays |
| Lexing.Lexer.LexSolid | src/lexing/Lexer.cpp:180-309 | the token in front, by its first characters: a fixed text, digits, a word, or one invalid character |
| Lexing.Lexer.TakeWord | src/lexing/Lexer.cpp:283-294 | the loop over the characters of a word takes all of them |
| Lexing.Lexer.Next | src/lexing/Lexer.cpp:102-109 | tokens looked at come first, then new ones |
| Lexing.Lexer.Peek | src/lexing/Lexer.cpp:111-132 | the lookahead grows by exactly the tokens needed, and Eof repeats |
| Lexing.Lexer.SkipTrivia | src/lexing/Lexer.cpp:159-178 | exactly the blanks and comments in front are skipped, comments up to the end of their line, and what is ahead then starts with neither |
| Lexing.StringViewStream.Get | src/lexing/StringViewStream.cpp:19-33 | one character further, with line and column counted |
| TypeChecking.ErrorsExactly | src/semantic/TypeCheckVisitor.cpp:226-598 | visiting an expression reports an error if and only if it returns the error type |
| TypeChecking.StmtErrorsExactly | src/semantic/TypeCheckVisitor.cpp:600-721 | a statement is valid if and only if nothing was reported in it |
| TypeChecking.AcceptedIsGood | src/ir/IRGenerationVisitor.cpp:548-566 | in an accepted expression each receiver has a remembered type whose class declares the method with as many parameters as arguments, so generation takes none of its fallbacks |
| TypeChecking.AcceptedUnitIsGood | src/semantic/TypeCheckVisitor.cpp:87-198 | a unit accepted without error is a well-formed program |
| TypeChecking.TypeCheckVisitor.VisitExpr | src/semantic/TypeCheckVisitor.cpp:226-598 | the visitor returns the type of the specification function, which is that of the typing rules (`TypingRules.TypedExactly`), and adds exactly its errors to the counter (`TypingRules.ReportsExactly`) |
| TypeChecking.TypeCheckVisitor.VisitCall | src/semantic/TypeCheckVisitor.cpp:471-598 | calls: receiver, number and types of arguments |
| TypeChecking.TypeCheckVisitor.CompareArgs | src/semantic/TypeCheckVisitor.cpp:510-552 | argument by argument; an argument that is already an error is not reported again |
| TypeChecking.TypeCheckVisitor.VisitStmt | src/semantic/TypeCheckVisitor.cpp:600-721 | the same for statements |
| TypeChecking.TypeCheckVisitor.VisitMethod | src/semantic/TypeCheckVisitor.cpp:147-198 | the body, the result, and its agreement with the declared type |
| TypeChecking.TypeCheckVisitor.Run | src/semantic/TypeCheckVisitor.cpp:898-912 | the number of errors of a whole unit, which is 0 iff the unit is valid by the rules (`TypingRules.UnitExactly`) |
| TypingRules.TypedExactly | src/semantic/TypeCheckVisitor.cpp:226-598 | in every scope: the checker returns a type and reports nothing if and only if the expression has that type by the rules, which name the operators, `!`, arrays, `new`, identifiers and calls and know no error type |
| TypingRules.StmtExactly | src/semantic/TypeCheckVisitor.cpp:600-721 | a statement is accepted without a report if and only if it is valid by the rules |
| TypingRules.MethodExactly | src/semantic/TypeCheckVisitor.cpp:147-198 | a method, in its locals and the fields that they do not hide: body and result type |
| TypingRules.UnitExactly | src/semantic/TypeCheckVisitor.cpp:87-198 | a unit is accepted if and only if it is valid by the rules |
| TypingRules.ReportsExactly | src/semantic/TypeCheckVisitor.cpp:226-598 | each fault is reported once: where the parts of an expression have types and it has none; in a call, a wrong number of arguments and each argument of another type |
| TypingRules.CheckTypes | src/semantic/TypeCheckVisitor.cpp:898-912 | a fresh visitor over a unit returns 0 iff the unit is valid by the rules, and otherwise the number of its faults |
| TypeSoundness.AcceptedNeverGoesWrong | src/semantic/TypeCheckVisitor.cpp:226-721 | type soundness: no run of an accepted source program in which identifiers resolve to variables fails because a name is missing |
| TypeSoundness.EvalTyped | src/semantic/TypeCheckVisitor.cpp:226-598 | an accepted expression evaluates to a value of its inferred type (0 or 1 for boolean, null or a valid reference for arrays and for objects of that very class), keeps all objects typed, and fails only with a fault of the language |
| TypeSoundness.ExecTyped | src/semantic/TypeCheckVisitor.cpp:600-721 | an accepted statement keeps every local and every field a value of its declared type, over any number of loop iterations |
| TypeSoundness.MethodTyped | src/semantic/TypeCheckVisitor.cpp:147-198 | a call with arguments of the parameter types returns a value of the declared type |
| TypeSoundness.OperatorTyped | src/semantic/TypeCheckVisitor.cpp:263-369 | each operator maps values of its operand types to a value of its result type |
| TypeSoundness.MissingExactly | src/semantic/TypeCheckVisitor.cpp:231-249 | an identifier is missing at run time if and only if it does not name a variable, which the type checker does not demand |
| TypeSoundness.ClassNameAccepted | src/semantic/TypeCheckVisitor.cpp:238-243 | so the type checker accepts a program that prints the name of its class, and the program fails |
| TypedStores.GetTyped | src/vm/vm.cpp:262-282 | a variable reads as a value of its type, or there is no object to read it from |
| TypedStores.SetTyped | src/vm/vm.cpp:242-261 | writing a value of the right type keeps locals, fields and all objects typed |
| TypedStores.NewObjectTyped | src/vm/vm.cpp:229-240 | a new object has exactly the fields of its class, all 0, and 0 has every type |
| TypedStores.FieldsOfClass | src/vm/vm.cpp:131-141 | the fields that the machine registers for a class are those of its methods' scope |
| Serialization.ReadProgramBack | src/vm/vm.cpp:534-548 | reading what was written, whatever follows it, gives the same main name, variable lists and code by name, and consumes exactly the bytes written |
| Serialization.FileLoads | src/vm/vm.cpp:550-565 | so the VM that reads the file runs the emitted program |
| FileFormat.FileExactly | src/bytecode/BytecodeProgram.cpp:49-61 | a file is exactly the main method, the number of the others in eight bytes, lowest first, and those; each method its name, variables, fields and blocks; each block its name and its instructions, opcodes by their numbers |
| FileFormat.NumberExactly | src/util/serialize.cpp:6-8 | a size is eight bytes by place value, the lowest first, and nothing else is |
| FileFormat.InstructionExactly | src/bytecode/BytecodeInstruction.cpp:13-23 | an instruction is its opcode number and its constant, in two's complement, or its name |
| FileReading.ReadProgramExactly | src/vm/vm.cpp:534-548 | the reader returns a program if and only if the bytes start with a written one, whose program it is (the first of repeated names counting), and leaves what follows; it refuses all other inputs |
| FileReading.ReadInstructionExactly | src/vm/vm.cpp:481-505 | an instruction is read if and only if it has been written there |
| Serialization.ReadSignedBack | src/util/serialize.cpp:31-35 | every 64-bit constant survives, negative ones included |
| Serialization.ReadInstructionBack | src/vm/vm.cpp:481-505 | every kind of instruction is read back with its parameter |
| Serialization.ReadMethodBack | src/vm/vm.cpp:518-532 | variables, fields and blocks of a method |
| Serialization.ReadStringsBack | src/util/serialize.cpp:46-55 | a vector of strings |
| Serialization.Serializer.PutInstruction | src/bytecode/BytecodeInstruction.cpp:13-23 | an opcode and its parameter |
| Serialization.Serializer.PutMethod | src/bytecode/BytecodeMethod.cpp:26-35 | name, variables, fields, blocks |
| Serialization.Serializer.PutProgram | src/bytecode/BytecodeProgram.cpp:49-61 | main, the number of the other methods, and those |
| Serialization.Deserializer.TakeInstruction | src/vm/vm.cpp:481-505 | the reader over the stream gives the value of the specification function and leaves the rest |
| Serialization.Deserializer.TakeMethod | src/vm/vm.cpp:518-532 | a method from the stream |
| Serialization.Deserializer.TakeProgram | src/vm/vm.cpp:534-548 | a program from the stream |

## Left out

- Symbol-table building: scopes, class tables and the listing order of variables are inputs
  (`TypeChecking.WellDeclared`, `TypedStores.Tabled`, `Loading.ScopesFit`); duplicate declarations, and with them repeated
  method roots, are excluded there.
- The type checker visits a class's variables before its methods, class by class; the model visits the variables of all
  classes first. The number of errors is the same.
- Nested short circuits after passes: the exact condition (`EmittedLabels.ProgramLabelsExactly`) is for code on which no
  pass has run; for optimised code the condition on emitted labels, which `EndToEnd.AcceptedUnitRuns` uses, is checked on
  the code itself. That a label names no block does not mean that a run gets there.
- Statements and declarations in the parser: long and easier than expressions, no binding powers. The type checker and
  the generator take statement trees.
- The two call nodes (with and without arguments) are one constructor; closed datatypes replace the dynamic casts, and
  missing children are not part of the model.
- The map from nodes to remembered types (`TypeInfo`): the remembered type is a component of the call node.
- Owner pointers, block objects and the vector of all blocks: a block is identified by its name, which generation keeps
  unique, and the graph is a map from names to blocks. Memory management and aliasing are not modelled.
- 64-bit wrap-around in the machine (undefined in C++): machine values are unbounded integers; only compile-time
  folding is shown to stay within 64 bits. Literals that `std::stoi` rejects are excluded by `TypeChecking.Lexed`.
- Division by zero in the machine is a fault of its own; in C++ it is undefined and traps on the usual hardware. The
  same holds for a return without a caller.
- `AndTac` and `OrTac`: generation never emits them. Their opcodes are in the machine (`Vm.LogicalOpcodes` says where OR
  differs from disjunction), their folding and lowering are not modelled.
- Which number a temporary or a block gets is fixed by the generation function, and stated otherwise only in so far as
  numbers are never reused.
- After a fault only the output and the fault are kept, not the operands already popped.
- Vm.VirtualMachine.RunFor: the unbounded loop of the machine is modelled by runs of any given length, which is all that
  statements about every reachable state need.
- Malformed files and stream failures: the readers return one error for an input that is too short or has an unknown
  opcode, where the code goes on with whatever was read. Which inputs are refused is exact
  (`FileReading.ReadProgramExactly`).
- The file format is that of a little-endian platform with 8-byte sizes; strings are bytes.
- TypeSoundness.AcceptedNeverGoesWrong: only when identifiers resolve to variables, because it is false otherwise
  (`TypeSoundness.ClassNameAccepted`); which null references and bounds errors occur is not predicted.
- EndToEnd.AcceptedUnitRuns: takes as a hypothesis that sizes fit 64 bits and that names consist of bytes
  (`Serialization.AllNamesFit`); that constants fit is derived (`EndToEnd.CompiledFits`).
- EagerPrograms.RunsAlike: where the language fails for want of an object to read a field from, the compiled code may fail
  with another fault, since it reads the field later; both fail, after the same
  output.
- EagerReads.LateIsEager: only for call-free expressions, since it assumes nothing of the program; with calls see
  `EagerPrograms.RunsAlike`.
- ConstantFolding.FoldBinaryIsApply: the folding of `AndTac` and `OrTac`, which generation never emits, is not modelled.
- Parsing.Parser.PeekToken: looking further ahead than the next token, which only the parsing of statements does, is not
  modelled.
- Lexing.Lexer.LexOne: the spans of tokens and the values of integer tokens are not modelled; the lexeme is kept, and
  `TypeChecking.NumberOf` reads the value.
- ExpressionTexts.ParserExactly: says which inputs are refused, not with which of the two errors.
- Source positions of tokens, diagnostic texts, graph drawings, printing of programs, and the command-line drivers:
  presentation and input/output only.
