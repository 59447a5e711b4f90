# Nur, verified

Nur is a small scripting language. Its interpreter reads a file, parses it with a Pratt parser into an arena of
nodes, compiles the tree in a single pass to bytecode with back-patched jumps, runs a peephole pass over the bytes
and executes them on a stack machine with closures, hash maps, interned strings and a mark-and-sweep collector.
This project models that interpreter in Dafny and proves what its parts are for. Verify with
`dafny verify dfyconfig.toml`.

The modules follow the stages of the program.

- **Front end.** `Spelling` says how a program is written in bytes, with the ASCII codes of all tokens written out.
  `Lexing` is the lexer as a class that advances an index; `Tokens` reads written-out tokens back; `Meanings` and
  `Scanning` prove that the tokens of a text are exactly those it is written as; `Literals` has string escapes in both
  directions. `Grammar` states what the parser reads as functions on tokens, with the tokens it leaves where it fails
  and with what it makes of an error inside brackets; `Pratt` and `Recognition` prove what it reads without an error
  equal to an ordinary grammar of expressions, functions, statements and files; `Strength` says, with the operators
  named, which of them takes its operands first; `Printing` prints programs with the parentheses that the grammar calls
  for. `Arena` and `Building` say which tree a node stands for, `Parser` is the recursive-descent parser that fills the
  arena, and `Walking` is the compiler's walk over it.
- **Compiler.** `Codegen` lists the code of every construct with symbolic jumps, `Assembly` turns a listing into
  bytes and a constant pool, `Compiler` is the compiler of the source: a class that appends bytes, emits 0xffff
  placeholders and patches them in place (`Patching`), proved to leave exactly the bytes of the listing. `Folding`
  is constant folding.
- **Machine.** `Bytecode` is the instruction format, `Vm` a step function over bytes, `Interpreter` the dispatch
  loop that changes frames, stack, globals and heap in place, `Primitives` and `Utf8` what instructions compute. The
  semantics and the machine share `Primitives`; `Laws` and `Equality` fix it on its own, by what can be seen of arrays,
  maps, slices, operators and comparisons.
- **Correctness.** `Semantics` is a big-step semantics of the source with the outcomes normal, break, continue,
  return and failure; `Domain` the programs in question; `Scoping`, `Machine`, `Instructions`, `Runs`, `Operands` and
  `Simulation` build the proof, `Correctness` has the theorems. `Formats` proves that the limits of the bytecode format
  are the only condition that the domain puts on the code itself, and `Sample` has a program of the domain with every
  kind of statement; `Example` takes one text through all stages. `Jumps` places every jump; `Peephole` and `Bisimulation` are the peephole pass; `Pipeline` and
  `Nur` put the stages together. `Layout` counts the locals and pending values at every instruction, `Settled` proves
  that the domain's conditions on statements are exactly those under which the count agrees along every edge of the
  code, and `Heights` that every frame has these values at every step of a run. `Departures` and `Misplaced` show where
  the code does not do what its source says, the latter by runs that `Traces` follows step by step.
- **Run time.** `Lexical` and `Upvalues` are captured variables at compile time and at run time, `HashMap` and
  `Interning` the string table, `Gc` the collector.

Arithmetic on doubles, the text form of a number, native functions and the conversion of a number token are
parameters. Every theorem holds for all of them; where constant folding needs it, for all arithmetic that is exact
on integers of magnitude up to 2^53, as IEEE 754 is. `Correctness.IntegerArithmeticExact` shows one such arithmetic.

## What the proofs found

The code and the ideal part in these places. The model follows the code.

- `n % 0` with two integer literals is compiled to nothing, and the statement then pops a value that is not there
  (`Departures.LiteralsVanish`, `Departures.RemainderByZero`).
- The negation of an integer literal is folded to what the machine computes exactly if the literal is at most 2^63,
  above which it loses its sign, and is not 0, for which the folding gives +0 (`Departures.NegatedLiteral`).
- The peephole pass copies jump operands as they are. A jump survives exactly when no dropped pair lies between it
  and its target; a loop or conditional around a first assignment is broken by it (`Bisimulation.JumpKept`,
  `Departures.FirstAssignmentInLoop`). Code at the top level has no such pair (`Pipeline.ProgramUnchanged`).
- A constant is loaded as itself exactly if the first constant of the pool that compares equal to it is itself:
  a literal 0.0 and then -0.0 load the same one (`Departures.LiteralsMerge`, `Departures.ZerosMerge`).
- A compound assignment to a variable ignores an operator that refuses its operands: both stay on the stack and the
  right one is stored. The guard is `Departures.Refuses` (`Departures.GlobalKeepsHeight`,
  `Departures.LocalKeepsHeight`); in `x = null x += 1` the name becomes 1 and a value too many is left
  (`Departures.NullPlusOneRuns`). The semantics gives such a program no meaning, so the theorems on compiled code say
  nothing of it.
- A compound assignment is compiled as a plain one exactly if it is inside a function and no function declares the name
  (`Departures.CompoundDeclares`).
- A `break` or `continue` leaves the locals declared since the loop began on the stack. Its jump arrives at the height
  of the loop exactly if there are none (`Layout.OpenArrives`, `Layout.LoopFlows`, `Layout.BreakAtEnd`);
  `fn { while true { x = 1 break } y = 2 return y }` means 2 and its bytes return 1 (`Misplaced.BreakReturnsWrong`).
- A local that an arm or loop body without braces declares, or a loop condition, stays in the compiler's scope whether
  or not the machine has a value for it. A conditional keeps the layout of the stack exactly if neither arm declares
  a local (`Settled.IfFlows`), a loop exactly if its condition and body declare none and no jump leaves one behind
  (`Settled.WhileFlows`), and a whole function exactly if this is so for all its statements
  (`Settled.FunctionLayoutExact`). `fn { if null => x = 1 y = 1 z = 2 return y }` means 1 and its bytes return 2
  (`Misplaced.ArmReturnsWrong`).
- The value of a first assignment stands in the slot the compiler gives the name exactly if the machine has as many
  values for the locals and operands before it as the compiler counts locals (`Misplaced.SlotOfFirstAssignment`):
  where each local has its value, exactly if no operand is pending. `fn { 1 + (x = 2) return x }` means 2 and its
  bytes return 1 (`Misplaced.PendingReturnsWrong`).
- The exit of a block that has captured locals and others closes all of their upvalues exactly if the indices of the
  first and the last captured one add up to at least the number of locals minus one
  (`Upvalues.Machine.ExitBlock`, `Upvalues.MixedBlockCloses`).
- `s[:j] + s[j:]` is s exactly for -len <= j < len: at j == len the right half is an error (`Utf8.SlicesPartition`).
- `=` and `**` group to the left like every other operator (`Recognition.GroupsLeft`), so the multiple assignment
  `a = b = c` of docs/syntax.md:80-88 assigns to an assignment, which the compiler rejects
  (`Departures.ChainedAssignment`).
- An error inside the brackets of a subscript goes unnoticed: the subscript is accepted if and only if what must
  follow comes next where the parser stopped (`Departures.MissingIndex`). `a[]` and `a[-]` are accepted, `a[+]` is not
  (`Departures.EmptySubscript`). A failed index leaves a node with INVALID for its index and no tree
  (`Parser.Parser.ParseSubscript`). A failed bound of a slice looks like one that is absent, so `a[:-]` is parsed, and
  then compiled, as `a[:]` (`Departures.FailedBound`).
- A string with bytes outside printable ASCII and \n \r \t \b \f is displayed with \x escapes that the parser
  refuses (`Literals.EscapeRoundTrip`).
- An array index below -len is neither an element nor an error (`Departures.IndexBelowArray`); a string gives its
  first character there, and the empty string is read where it has no bytes (`Utf8.GetCharacter`).

## Model

| member | source | states |
|---|---|---|
| Nur.RunText | src/vm.c:56-107 | From the text of a file in the domain: lexing, parsing, walking the arena, compiling, optimizing and running the bytes ends with the result, globals and heap that the source semantics gives, or with an error where it fails; a program the compiler rejects is not run. |
| Example.SevenFromText | src/vm.c:56-107 | For the bytes of `return 1+2*3` every premise of RunText holds, with the result 7 and globals and heap as before. |
| Nur.RunFile | src/vm.c:56-107 | The same from the tokens. The machine runs the chunks that were compiled and optimized from the file, its function literals included. |
| Nur.ParseFile | src/parser.c:862-887 | The tree found by walking the arena that the parser built is the tree of the grammar, also for a file with errors inside brackets that has one. |
| Scanning.Scan | src/lexer.c:28-290 | The text is written, in the sense of Spelling.Written, as the tokens that are returned; it fails exactly if the text is not written as any tokens, because a comment or a string literal does not end. |
| Meanings.TokenMeans | src/lexer.c:28-290 | A token that the lexer finds is spelled, byte by byte, as what it means, and what follows it does not belong to it. |
| Meanings.TokenFor | src/lexer.c:28-290 | Whatever is spelled, with a byte after it that does not belong to it, is found by the lexer as one token with that meaning: the seven keywords, all other words, numerals, strings in either quotes, the operators and brackets, and bytes that begin no token. |
| Meanings.WrittenOne | src/lexer.c:28-290 | No text is written as two sequences of tokens. |
| Meanings.LiteralSpelled | src/ast.c:33-66 | A string as it is printed, between quotes, is a spelling of that string. |
| Spelling.SpacedWritten | src/lexer.c:28-290 | Spellings with a blank after each are a text of these tokens. |
| Nur.FormatText | src/parser.c:862-887 | Whatever was parsed, printed and written out with a blank after each token is a text of the same program and of no other. |
| Correctness.CompilerCorrect | src/compiler.c:857-1006 | For every program in the domain and every final outcome: the machine reaches that outcome on the emitted bytes if and only if the source has it. |
| Correctness.DivergencePreserved | src/compiler.c:857-1006 | The machine runs for ever exactly when the source never ends. |
| Correctness.ProgramRun | src/compiler.c:857-889 | For any fuel the machine needs some number of steps to the outcome the source has with that fuel, and when the fuel is used up it has made at least that many steps and still runs. |
| Correctness.IntegerArithmeticExact | src/compiler.c:719-792 | The assumption on arithmetic that folding makes can be met. |
| Correctness.IntegerArithmeticSigned | src/compiler.c:660-687 | The same arithmetic meets the assumption on signs that Departures.NegatedLiteral makes. |
| Formats.FaithfulIs | src/vm_util.c:342-380 | What the compiler emits keeps to the format if and only if it has fewer than 65536 bytes, at most 65536 constants, and no two different constants that compare equal. |
| Formats.ShortFaithful | src/vm_util.c:342-380 | Code of fewer than 10000 instructions does, where doubles are equal only if they are the same. |
| Sample.InDomain | src/compiler.c:857-1006 | A program with every kind of statement, functions, calls, loops with break and continue, maps, arrays, slices and folded constants is in the domain of CompilerCorrect. |
| Simulation.SimE | src/compiler.c:891-1006 | From any configuration in which the code of an expression stands, with any values pending below, the machine arrives just past it with exactly the value on top, the same store as the source, and every local in its slot; or it fails where the source fails. |
| Simulation.SimS | src/compiler.c:857-889 | The same for statements with their five outcomes: a normal end just past the code, break at the exit of the innermost loop, continue at its condition, return with the value on top of the frame, failure as an error. |
| Simulation.SimWhile | src/compiler.c:561-595 | A loop run by its emitted jumps repeats as the source loop does, and leaves the height of the stack unchanged. |
| Simulation.SimCall | src/compiler.c:824-855 | Arguments, then callee, then a call: a function runs in a frame whose slots are its parameters and returns its value in their place. |
| Simulation.SimBlock | src/compiler.c:32-54 | A block takes back exactly the locals it declared. |
| Heights.RunLaidOut | src/vm.c:913-1410 | At every step of every run of a program, each frame has above its base exactly the locals and pending values that the compiler counts for its own function at the instruction where it is, unless the operator of a compound assignment to a variable has failed before. |
| Heights.StepLaidOut | src/vm.c:934-1407 | Every instruction keeps this, for suspended frames too; a call puts a frame of the function that was called on top, a return takes the top one away. |
| Heights.OperandsThere | src/vm.c:934-1407 | At every step the next instruction finds all the values that it needs above the base of its frame: it never reads or drops a value of a caller. |
| Heights.NeedIsLeast | src/vm.c:913-1400 | With fewer values than OperandsThere promises, an instruction has no operands to run with. |
| Heights.NeedIsEnough | src/vm.c:913-1400 | With as many, the instructions that take a fixed number of values from the top run. |
| Layout.FlowsE | src/compiler.c:891-1006 | The layout of an expression agrees from each instruction to the next; it leaves one value more and the locals it declared. |
| Layout.FunctionKeepsLayout | src/compiler.c:227-296 | In a function of the domain the layout agrees along every edge, jumps included, and starts with the parameters. |
| Layout.OpenArrives | src/compiler.c:794-822 | The jump of a break or continue arrives at the height of its loop if and only if no local was declared since the loop began. |
| Layout.LoopFlows | src/compiler.c:561-595 | A loop whose parts keep their layouts keeps its own if and only if that is so for all of its breaks and continues. |
| Layout.BreakAtEnd | src/compiler.c:794-808 | For a loop around a block that ends in a break: if and only if the block declares no local. |
| Settled.IfFlows | src/compiler.c:597-626 | A conditional whose parts keep their layouts keeps its own if and only if neither arm declares a local. |
| Settled.WhileFlows | src/compiler.c:561-595 | A loop whose parts keep their layouts keeps its own if and only if its condition and body declare no local and every break and continue stands at the height where it began. |
| Settled.LayoutExact | src/compiler.c:857-889 | For a statement with expressions of the domain: the layout agrees along every edge of its code, open jumps included, if and only if it meets the conditions of the domain on statements. |
| Settled.FunctionLayoutExact | src/compiler.c:227-296 | The same for the whole code of a function, from its parameters to its final return. |
| Scoping.ScopeOfS | src/compiler.c:400-479 | After every statement the run-time environment has exactly the locals that the compiler counts, in order. |
| Scoping.ScopeOfE | src/compiler.c:400-479 | The same for expressions, which declare locals by assigning to new names. |
| Instructions.EnterStep | src/vm.c:299-320 | A call moves to the first byte of the callee with the arguments as its slots. |
| Instructions.LeaveStep | src/vm.c:1387-1407 | A return drops the frame's slots and leaves the value to the caller. |
| Folding.FoldBinaryCorrect | src/compiler.c:719-792 | The constant that replaces an operator on two literals is what the machine would compute, for every operator and all literals in the exact range. |
| Folding.FoldUnaryCorrect | src/compiler.c:660-687 | The same for negation of a literal other than the integer 0, in the exact range; Departures.NegatedLiteral has the condition for all integers. |
| Folding.SafeRange | src/compiler.c:689-792 | The literals on which FoldBinaryCorrect and FoldUnaryCorrect speak: up to 2^53, with a sum, product or power up to 2^53; for negation not 0. |
| Folding.WrapMeans | src/compiler.c:689-792 | A folded result is congruent to the exact one modulo 2^64 and in the range of 64 bits; so is a literal. |
| Folding.DivisionMeans | src/compiler.c:689-792 | Folded division rounds towards zero, and the remainder has the sign of the dividend. |
| Folding.FoldIntMeans | src/compiler.c:689-792 | On all 64-bit integers: sum, difference and product wrap around, a division that comes out is exact and any other is left to doubles, a power is that of doubles, cut to an integer where the exponent is not negative. |
| Folding.FoldUnaryMeans | src/compiler.c:660-687 | The negation of an integer literal wraps around, that of a float literal is the double's. |
| Arithmetic.RemainderIsEuclidean | src/vm.c:246-249 | rem_euclid gives a remainder r with a = b*k + r and 0 <= r < abs b, for every nonzero divisor of either sign. |
| Bytecode.DecodeEncode | src/vm_readers.h:3-16 | Where the bytes of an instruction stand, the dispatch loop reads that instruction: opcodes, operand widths and byte order agree between emitter and machine. |
| Bytecode.OperatorCodes | src/vm.h:138-149 | The opcodes of the binary operators, in the order of the enumeration. |
| Assembly.ConstantsShared | src/vm_util.c:342-354 | Equal strings share a constant, and so do numbers that compare equal; a string and a number do not, nor do two function constants. |
| Assembly.FetchItem | src/compiler.c:80-84 | In the bytes assembled from a listing, the instruction at the address of item k is item k, with a constant index that finds its constant. |
| Assembly.AssembleAppend | src/vm_util.c:342-380 | Emitting two listings one after the other is emitting their concatenation: bytes and constants only grow. |
| Compiler.Compiler.AddConstant | src/vm_util.c:342-354 | A number or string equal to one in the pool is not added again; any other constant goes to the end, and the index given finds it. |
| Compiler.Compiler.EmitShort | src/compiler.c:66-70 | Two bytes, the high one first. |
| Compiler.Compiler.EmitWord | src/compiler.c:72-78 | Four bytes, the highest first. |
| Compiler.Compiler.FindLocal | src/compiler.c:86-101 | The first local with the name, or none if there is none. |
| Compiler.Compiler.CompileIdentifier | src/compiler.c:170-201 | Emits the load of a reserved name, a local or a global, as the scope says. |
| Compiler.Compiler.CompileExpr | src/compiler.c:891-1006 | Leaves exactly the bytes and constants of the expression's listing and the locals it declares, and succeeds exactly on the accepted expressions. |
| Compiler.Compiler.CompileFunction | src/compiler.c:227-296 | Compiles the body in a compiler of its own and emits the closure; the function object made holds the code of its function. |
| Compiler.Compiler.CompileCall | src/compiler.c:824-855 | Arguments before the callee, then the call with their number. |
| Compiler.Compiler.CompileSubscript | src/compiler.c:324-337 | Index before target. |
| Compiler.Compiler.CompileSlice | src/compiler.c:339-377 | End, start and target in this order, then the instruction for the bounds that are present. |
| Compiler.Compiler.CompileMember | src/compiler.c:379-398 | A member is a subscript by the name as a string. |
| Compiler.Compiler.CompileStore | src/compiler.c:400-479 | Assignment to a name: a global at the top level; in a function the local, or a new local by duplicating the value. |
| Compiler.Compiler.CompileStoreSubscript | src/compiler.c:481-505 | Value, index, target, then the store. |
| Compiler.Compiler.FoldConstants | src/compiler.c:689-777 | Folds exactly the foldable operators to the folded constant and leaves all others alone. |
| Compiler.Compiler.EmitJump | src/compiler.c:534-543 | The opcode with the placeholder 0xffff, and the address of the placeholder. |
| Compiler.Compiler.PatchJump | src/compiler.c:545-550 | Writes the distance from the placeholder to the end of the code in place, cut to 16 bits, and nothing else. |
| Compiler.Compiler.EmitLoop | src/compiler.c:552-559 | A loop instruction back to the start of the loop. |
| Compiler.Compiler.CompileWhile | src/compiler.c:561-595 | Condition, exit jump, body and loop are emitted, the exit and every break are patched, and the fields of the enclosing loop are restored: the bytes are those of the listing with resolved jumps. |
| Compiler.Compiler.CompileIf | src/compiler.c:597-626 | The same for conditionals with and without an else. |
| Compiler.Compiler.CompileBreak | src/compiler.c:794-808 | A placeholder that the innermost loop will patch; an error outside of loops. |
| Compiler.Compiler.CompileContinue | src/compiler.c:810-822 | A loop instruction to the condition of the innermost loop; an error outside of loops. |
| Compiler.Compiler.CompileBlock | src/compiler.c:32-54 | The statements in order, then one pop for each local of the block, and the scope of before. |
| Compiler.Compiler.CompileStmt | src/compiler.c:857-889 | Leaves the bytes of the statement's listing, up to breaks that are still placeholders and whose addresses are recorded; succeeds exactly on the accepted statements. |
| Patching.PatchForward | src/compiler.c:545-550 | Patching the placeholder before some code gives the bytes assembled with the resolved jump. |
| Patching.PatchBreaks | src/compiler.c:561-595 | Patching all recorded breaks gives the bytes of the body with every break resolved to the exit. |
| Patching.ResolveInTwoSteps | src/compiler.c:561-595 | Resolving continues while emitting and breaks at the end of the loop is resolving both. |
| Compiler.HoleFreeS | src/compiler.c:794-822 | No placeholder survives in the code of an accepted statement outside of loops. |
| Jumps.JumpsLand | src/compiler.c:534-626 | In the code of a statement without open breaks every jump, also those of break and continue, lands on the start of an instruction or at the end of the code. |
| Jumps.BreakLands | src/compiler.c:794-808 | A break of the body of a loop lands just past the loop instruction. |
| Jumps.ContinueLands | src/compiler.c:810-822 | A continue of the body of a loop lands on the first instruction of the condition. |
| Jumps.OpenJumpsAreHoles | src/compiler.c:794-822 | The open jumps of a statement's code are, in order, its breaks and continues that no inner loop has. |
| Jumps.LoopJumpsLand | src/compiler.c:561-595 | In the code of every loop of the source all breaks and continues of its body land so, and none is left open. |
| Jumps.FunctionJumpsLand | src/compiler.c:227-296 | Every jump of a compiled function is well placed; in safe code none passes over or into a pair DUP POP. |
| Jumps.ProgramJumpsLand | src/vm.c:56-107 | The same for a whole file. |
| Jumps.NoDupTopS | src/compiler.c:443-460 | Code at the top level never duplicates a value. |
| Peephole.Optimize | src/compiler.c:1008-1156 | The pass over the bytes never loses alignment and leaves exactly the instructions without the pairs DUP POP, and the same constants. |
| Peephole.CopiedWidth | src/compiler.c:1018-1148 | The widths that the pass knows are the widths that the emitter writes and the machine reads, for every instruction. |
| Peephole.SquashedLength | src/compiler.c:1008-1156 | The output is two bytes shorter for every pair. |
| Peephole.DistanceKept | src/compiler.c:1076-1088 | Between two addresses the distance shrinks by two bytes for every pair between them. |
| Pipeline.SquashSame | src/compiler.c:1008-1156 | Code without DUP is unchanged. |
| Bisimulation.JumpKept | src/compiler.c:1076-1088 | An unrelocated jump still reaches its target if and only if no dropped pair lies between. |
| Bisimulation.StepBoth | src/compiler.c:1008-1156 | One step of the original, after the pairs it skips, is one step of the optimized code, for every instruction, frames included. |
| Bisimulation.RunBoth | src/compiler.c:1008-1156 | Runs of any length correspond. |
| Bisimulation.OptimizePreserves | src/compiler.c:1008-1156 | For code in which no jump spans a pair: the optimized machine ends in an outcome exactly when the original does. |
| Pipeline.PipelineCorrect | src/vm.c:56-107 | Compiled, optimized and run, a program ends in an outcome exactly when its source means it. |
| Pipeline.TameIsSupported | src/compiler.c:1076-1088 | A function of the domain in which no loop or conditional assigns a name for the first time is safe to optimize: no jump of its code passes over a dropped pair. |
| Pipeline.LoadFile | src/vm.c:56-107 | Compiling a file, optimizing it and every function literal in it and adding the final PUSH_NULL and RETURN gives the optimized code of the program and a chunk of optimized code for exactly its function literals; it fails exactly on programs that are not accepted. |
| Pipeline.OptimizeFunctions | src/compiler.c:1144-1153 | Every function object gets the optimized code of its function. |
| Pipeline.ProgramUnchanged | src/vm.c:91-98 | The pass is the identity on the code of a file's top level. |
| Pipeline.SpelledCode | src/compiler.c:1008-1156 | The bytes of a listing are the encodings of its instructions, all of which the pass knows. |
| Interpreter.Interpreter.Run | src/vm.c:913-1410 | Wherever the step semantics ends after some number of steps, the dispatch loop ends with the same result, globals and heap, or with an error. |
| Interpreter.Interpreter.Dispatch | src/vm.c:934-1407 | One turn of the loop, with its byte-by-byte reads, pushes, pops and pokes, is one step. |
| Interpreter.Interpreter.ExecuteMath | src/vm.c:856-911 | On success the two operands give way to the result; on failure both stay. |
| Interpreter.Interpreter.AddTop | src/vm.c:150-212 | Numbers, strings with anything that has a text form, and arrays are added; everything else is refused. |
| Interpreter.Interpreter.UpdateElement | src/vm.c:1105-1127 | The element is read, combined with the operand and written back, and the value written stays on the stack. |
| Interpreter.Interpreter.PushSlice | src/vm.c:571-854 | An array or string slice with its bounds counted from either end is pushed, or the slice is refused. |
| Interpreter.Interpreter.CallClosure | src/vm.c:299-320 | A new frame over the arguments if their number fits and a frame is left. |
| Vm.RunAdd | src/vm.c:913-1410 | Runs compose. |
| Vm.RunOnce | src/vm.c:913-1410 | The outcome of a run does not depend on how many steps are allowed. |
| Laws.ArrayReads | src/vm.c:380-406 | a[k] is item k, from the end if k is negative; k at or behind the end fails. |
| Laws.NewArrayReads | src/vm.c:1129-1139 | A new array reads as its items, at a new address, and everything else as before. |
| Laws.ArrayStores | src/vm.c:480-506 | After a store at k, k reads as the value stored and every other position and object as before. |
| Laws.BadSubscripts | src/vm.c:380-534 | An index that is no integer number fails, and so does a subscript on what has no items or a store to a string. |
| Laws.MapReads | src/vm.c:448-470 | m[s] is the value of the key s; a missing key or one that is no string fails. |
| Laws.MapStores | src/vm.c:511-526 | After a store at a key, that key reads as the value stored, every other key and object as before. |
| Laws.NewMapReads | src/vm.c:1188-1213 | A map literal has the last value of each of its keys and no other keys, and fails exactly if a key is no string. |
| Laws.TextReads | src/vm.c:407-447 | s[k] is character k, from either end; behind the end it fails. |
| Laws.ArraySlices | src/vm.c:571-632 | a[i:j] is a new array of the items from i up to j, for i before the end, j at most the end and i <= j, counted from the end where negative; otherwise it fails. |
| Laws.TextSlices | src/vm.c:637-708 | s[i:j] is the string of the characters from i up to j, under the same conditions. |
| Laws.BadSlices | src/vm.c:571-854 | A bound that is no integer number fails, and so does a slice of anything but an array or a string. |
| Laws.ComparisonMeans | src/vm.c:358-378 | Where comparing two doubles is comparing the numbers they stand for, so are the six comparisons of the language. |
| Laws.ArithmeticMeans | src/vm.c:109-297 | The same for sum, difference, product, quotient, power and negation. |
| Laws.RemainderMeans | src/vm.c:267-281 | a % b is at least 0 and smaller than the divisor without its sign, and differs from a by a multiple of b. |
| Laws.Refused | src/vm.c:109-297 | Which operands the operators refuse. |
| Laws.Joins | src/vm.c:150-180 | A string plus a string, number, null or truth value, and the other way round, is the left text followed by the right one. |
| Laws.JoinsArrays | src/vm.c:182-205 | The sum of two arrays is a new array, the items of the left one first; a string and a value without a text end the process. |
| Laws.Truth | src/vm_util.c:143-149 | null, false, zero and the empty string, array and map count as false, everything else as true, and `!` is the opposite. |
| Laws.ArrayUpdates | src/vm.c:1105-1127 | a[k] op= v stores a[k] op v, its result, and fails where the operator does. |
| Laws.MapUpdates | src/vm.c:1105-1127 | The same for the key of a map; a missing key fails. |
| Laws.ReservedNames | src/compiler.c:170-225 | The three names with a value of their own. |
| Laws.FrameLimit | src/vm.c:299-320 | A call is refused exactly if 64 frames are in use. |
| Laws.TableLimits | src/compiler.c:103-142 | At most 255 locals and 255 captured variables in a function. |
| Laws.CompilerLimits | src/compiler.c:227-296 | At most 255 parameters and arguments; break and continue only in loops. |
| Equality.EqualMeans | src/vm_util.c:108-141 | Where == has an answer, it is whether the values are alike: equal numbers, texts and constants, one and the same object, or arrays of one length with items that are alike, to any depth. |
| Equality.AlikeIsEquivalence | src/vm_util.c:22-141 | Being alike is an equivalence, where equality of doubles is one. |
| Equality.EqualAnswers | src/vm_util.c:22-141 | == has an answer wherever the left operand is no map, no closure and no array that holds one or itself, to any depth. |
| Departures.LiteralsVanish | src/compiler.c:730-735 | An operation on two integer literals is compiled to no code if and only if it is a remainder by zero. |
| Departures.ChainedAssignment | src/compiler.c:530-532 | `a = b = c`, for any three operands, is parsed as an assignment to `a = b`, which the compiler rejects. |
| Departures.RemainderByZero | src/compiler.c:730-735 | `a % 0` as a statement has a meaning, and its code drops a value that was never pushed. |
| Departures.LiteralsMerge | src/vm_util.c:342-354 | On every pool: a constant is loaded as itself if and only if the first constant of the pool that compares equal to it is itself. |
| Departures.ZerosMerge | src/vm_util.c:342-354 | A literal zero and then a different zero: both load the first. |
| Departures.MissingIndex | src/parser.c:211-281 | A subscript or slice is rejected if and only if the closing bracket, or a colon and an accepted end, does not come next where parse_expr stopped inside it. It is accepted without an error if and only if its expressions are, and accepted with a tree if and only if no index failed and each expression that was accepted inside has a tree. |
| Departures.FailedBound | src/parser.c:211-281 | A slice with a bound that fails is rejected, or accepted with the tree, as the slice without that bound would be, and leaves the same tokens. |
| Departures.NothingInside | src/parser.c:211-281 | Where no expression starts inside the brackets, a subscript is accepted if and only if they are empty. |
| Departures.EmptySubscript | src/parser.c:211-281 | `a[]` and `a[-]` are accepted without a tree, `a[:-]` with the tree of `a[:]`, and `a[+]` fails at the plus. |
| Departures.NegatedLiteral | src/compiler.c:660-687 | For every 64-bit literal: folding its negation gives what the machine computes if and only if the literal is at most 2^63 and is not 0, or -0 is not told from 0; for all arithmetic that converts i and -i alike and tells signs apart. |
| Departures.IndexBelowArray | src/vm.c:389-406 | An array index is neither an element nor an error if and only if it is an integer below minus the length. |
| Departures.CompoundDeclares | src/compiler.c:462-478 | A compound assignment to a name that no enclosing function declares has the code of a plain one if and only if the name is unknown inside a function. |
| Departures.MathRefuses | src/vm.c:856-911 | The operator fails if and only if its operands are not both numbers and, for +, neither is a string and they are not both arrays. |
| Departures.GlobalKeepsHeight | src/vm.c:1056-1081 | A compound assignment to a global keeps the height of the stack if and only if its operator takes the operands; where it refuses them, one value more stays and the right operand is stored. |
| Departures.LocalKeepsHeight | src/vm.c:980-996 | The same for a local. |
| Departures.NullPlusOneRuns | src/vm.c:1056-1081 | `x = null x += 1` as a file: the machine ends with x holding 1. |
| Misplaced.BreakReturnsWrong | src/compiler.c:794-808 | `fn { while true { x = 1 break } y = 2 return y }` means 2 and its bytes return 1. |
| Misplaced.SlotOfFirstAssignment | src/compiler.c:462-478 | The value of a first assignment stands in the slot that the compiler gives the new local if and only if the run-time locals and pending operands are together as many as the locals of its scope; with every local in place and operands pending, the slot holds the first of these. |
| Misplaced.ArmReturnsWrong | src/compiler.c:597-626 | `fn { if null => x = 1 y = 1 z = 2 return y }` means 1 and its bytes return 2. |
| Misplaced.PendingReturnsWrong | src/compiler.c:462-478 | A function with a first assignment as the right operand of + means one number and its bytes return another. |
| Departures.FirstAssignmentInLoop | src/compiler.c:1076-1088 | In `while c { x = n }` with a new x the loop instruction passes over a dropped pair and then points before the code; so the function is not safe to optimize. |
| Lexical.ResolveFindsScope | src/compiler.c:144-168 | For any nesting of functions, a name is found exactly when an enclosing function declares it, and the index leads, through the descriptors from function to function, to the cell of the innermost declaration. |
| Lexical.CellStable | src/compiler.c:119-142 | An index leads to the same cell after more names were resolved and after the innermost function declared or dropped locals. |
| Lexical.StepGood | src/compiler.c:119-168 | Using a name, declaring a local, leaving a block, entering and leaving a function keep the records well-formed and without repeats. |
| Lexical.FoundStays | src/compiler.c:144-168 | The index that a use of a captured name got leads to the cell of its innermost declaration after everything that is compiled later inside the function. |
| Lexical.CloseOver | src/vm.c:1216-1238 | MAKE_CLOSURE, run over the slots and upvalues of the enclosing function, gives each upvalue the cell that lexical scope gives it and pushes the closure; a local function that uses its own name gets the cell of the slot it is pushed to. |
| Lexical.CloseOverItself | src/compiler.c:462-467 | `f = fn { f }` inside a function: the new local is declared before its value is compiled, the name is resolved to it, and the closure holds its cell, which contains the closure. |
| Lexical.ResolveNoRepeats | src/compiler.c:119-142 | No descriptor is recorded twice. |
| Lexical.UpvaluesDiffer | src/compiler.c:119-142 | Different upvalues of a function are different variables: deduplication merges nothing else. |
| Lexical.Scope.FindUpvalue | src/compiler.c:144-168 | The recursive search that marks locals as captured and adds descriptors in each compiler on the way computes the resolution. |
| Lexical.Scope.AddUpvalue | src/compiler.c:119-142 | An equal descriptor is reused, a new one goes to the end, and at 255 entries it fails, also for a descriptor that is there. |
| Upvalues.Machine.CaptureUpvalue | src/vm.c:536-560 | Keeps the open list strictly descending with one upvalue a slot; gives the existing upvalue of the slot or a fresh one, bound to the slot's variable, also for the slot at sp that is pushed next. |
| Upvalues.Machine.CloseUpvalues | src/vm.c:562-569 | Takes exactly the upvalues at or above the slot off the list; no variable changes its value and every upvalue keeps its variable. |
| Upvalues.Machine.GetUpvalue | src/vm.c:998-1001 | Reads the shared variable, on the stack or closed. |
| Upvalues.Machine.SetUpvalue | src/vm.c:1003-1007 | Writes the shared variable, seen by every other closure over it and by its slot. |
| Upvalues.Machine.CloseTop | src/vm.c:1026-1030 | Closes and pops the top slot. |
| Upvalues.Machine.Return | src/vm.c:1387-1407 | Closes every upvalue of the frame, drops its slots and pushes the value. |
| Upvalues.Machine.MakeClosure | src/vm.c:1216-1238 | Each descriptor gives the closure the variable of the slot, the slot the closure is then pushed to included, or the variable of the enclosing closure's upvalue. |
| Upvalues.Machine.ExitBlock | src/compiler.c:41-49 | The exit code of any block, captured locals and others mixed, leaves open exactly the upvalues that LeftOpen says; the machine is valid afterwards, with the locals gone and every variable kept, if and only if none is left open on a slot that is gone. |
| Upvalues.Machine.Do | src/vm.c:536-569 | Every action is one step of a machine whose closures and slots share cells. |
| Upvalues.Machine.Run | src/vm.c:536-569 | Over every run of pushes, pops, captures, reads, writes, closings, returns and closures made from slots, their own included, and from the upvalues of the running closure, every value seen is the one that shared cells give. |
| Upvalues.Machine.HoldClosure | src/vm.c:1216-1238 | A closure made by code that runs in a closure holds the cells that its descriptors name. |
| Upvalues.RunLast | src/vm.c:536-569 | A run of shared cells extended by an action is that run followed by the action. |
| Upvalues.LeftOpenIs | src/compiler.c:41-49 | Which slots the ascending exit code of Machine.ExitBlock leaves open. |
| Upvalues.MixedBlockCloses | src/compiler.c:41-49 | If exactly its captured locals are open, a mixed block closes all of them if and only if its first and last captured indices add up to at least the number of locals minus one. |
| HashMap.FindEntry | src/vm_map.c:6-27 | The probe ends, and gives the slot of the key, or if the key is absent a slot where it may be put. |
| HashMap.MaskIsModulo | src/vm_map.c:6-27 | Masking with capacity - 1 is the remainder by the capacity, a power of two. |
| HashMap.ContentsHas | src/vm_map.c:53-67 | A key is in the map exactly when some slot has it. |
| HashMap.ContentsSize | src/vm_map.c:109-128 | The number of taken slots is the number of keys. |
| HashMap.ContentsPut | src/vm_map.c:109-128 | Filling the slot of a key updates the map at that key and nowhere else. |
| HashMap.TablePut | src/vm_map.c:109-128 | Every key can still be found from its home slot after an insertion. |
| HashMap.FreeSlot | src/vm_map.c:6-27 | At a load of three quarters there is a free slot. |
| HashMap.Map.Lookup | src/vm_map.c:53-67 | Finds exactly the keys of the map, with their values. |
| HashMap.Map.Insert | src/vm_map.c:109-128 | The map afterwards is the old one with the key set, and the result says whether the key is new. |
| HashMap.Map.AdjustCapacity | src/vm_map.c:69-107 | Rehashing into a new table changes neither the map nor the count. |
| HashMap.Map.CountIsSize | src/vm_map.c:109-128 | The count is the number of distinct keys. |
| Interning.StringHash | src/vm_util.c:382-391 | The loop computes the hash of the content. |
| Interning.HashVectors | src/vm_util.c:382-391 | The published hashes of the empty string and of "a" in 32-bit FNV-1a. |
| Interning.Strings.FindString | src/vm_map.c:29-51 | A string is found exactly when its content is interned. |
| Interning.Strings.CopyString | src/vm_gc.c:342-368 | Gives the interned string of the content, a new one exactly when there was none. |
| Interning.Strings.ConcatStrings | src/vm_gc.c:370-401 | The same for the concatenation. |
| Interning.Strings.ReferenceIsContent | src/vm_util.c:35-38 | Two interned strings are the same object exactly when their contents are equal. |
| Gc.MarkObject | src/vm_gc.c:25-101 | Ends on every graph; the object is marked, marks only grow, and every newly marked object is reachable with all of its edges marked. |
| Gc.MarkRoots | src/vm_gc.c:109-119 | From a heap without marks exactly the objects reachable from the stack and the frames' functions are marked; these objects themselves are marked, and so is whatever a marked object refers to. |
| Gc.EdgesAre | src/vm_gc.c:25-101 | The edges that marking follows are exactly the references in the fields of a body. |
| Gc.ContainedFields | src/vm_gc.c:25-101 | What it is for a set of objects to have all references of its objects, field by field. |
| Gc.ReachedInside | src/vm_gc.c:25-101 | A set that has the roots and all references of its objects has everything reachable. |
| Gc.ClosedHasReached | src/vm_gc.c:25-101 | A set closed under edges that has the roots has everything reachable. |
| Gc.Vm.SweepObjects | src/vm_gc.c:219-242 | The list keeps exactly the marked objects in their order, without their marks. |
| Gc.Vm.Unlink | src/vm_gc.c:228-238 | Takes one object out of the list, at its head or behind another. |
| Gc.Vm.Collect | src/vm_gc.c:244-250 | A cycle keeps exactly the reachable objects in order, without marks: all objects on the stack and in frames, with every kept object all that its fields refer to (items of arrays, keys and values of maps, constants and globals of functions, functions and upvalues of closures, values and successors of upvalues), and nothing that is not in every set of objects with these properties. |
| Gc.StillHeap | src/vm_gc.c:244-250 | The reachable part of a heap is a heap. |
| Utf8.DecodeEncode | src/vm_util.c:418-481 | Decoding an encoded code point gives it back and takes as many bytes as were written, exactly for the scalar values. |
| Utf8.EncodeCharacter | src/vm_util.c:418-444 | Writes the encoding and returns its length. |
| Utf8.CharactersCount | src/vm_util.c:393-402 | Counts the characters. |
| Utf8.CharsOfEncoded | src/vm_util.c:393-416 | Walking over the encodings of any scalar values finds exactly those characters. |
| Utf8.GetCharacter | src/vm.c:407-447 | s[i] from either end, or out of bounds; the first character for an index below -len, and a byte outside exactly for a negative index of the empty string. |
| Utf8.MakeSlice | src/vm.c:637-708 | s[i:j] by walking characters, with the source's bounds. |
| Utf8.MakeSliceUnder | src/vm.c:741-779 | s[:j]. |
| Utf8.MakeSliceAbove | src/vm.c:814-846 | s[j:]. |
| Utf8.SliceOfEncoded | src/vm.c:637-708 | A slice of encoded code points is the encoding of the slice. |
| Utf8.CharAtOfEncoded | src/vm.c:407-447 | An element of encoded code points is the encoding of the element. |
| Utf8.SlicesPartition | src/vm.c:741-846 | s[:j] + s[j:] is s if and only if -len <= j < len. |
| Recognition.PrattParses | src/parser.c:702-714 | On all tokens and at any precedence, parse_expr returns the node of a tree, without an error inside brackets, and leaves a rest if and only if the tokens it took spell that tree in the grammar, functions with either body included, and the next token cannot go on. |
| Recognition.StmtParses | src/parser.c:841-860 | parse_stmt returns the node of a statement without an error inside brackets if and only if the tokens it took spell it before the next token. |
| Recognition.ProgramParses | src/parser.c:862-887 | A file is parsed to the tree of a program without an error inside brackets if and only if its tokens up to the end spell its statements. |
| Pratt.ReadBack | src/parser.c:702-714 | Every spelling of a tree is read back as that tree, whatever weaker operator follows. |
| Pratt.ReadStmt | src/parser.c:749-860 | Every spelling of a statement is read back as that statement: an else goes with the nearest if, and no separator is needed where the next token cannot go on. |
| Recognition.ExprSpelled | src/parser.c:702-714 | Every tree returned without an error inside brackets is spelled by the tokens taken, with its root at or above the precedence asked for, or in parentheses, or a prefix operator. |
| Recognition.SpellsOne | src/parser.c:25-64 | The grammar of expressions is unambiguous. |
| Recognition.ProgramOne | src/parser.c:841-860 | No token sequence spells two programs. |
| Recognition.GroupsLeft | src/parser.c:283-348 | Two operators of one precedence, `=` and `**` included, group to the left. |
| Strength.StrongerFirst | src/parser.c:25-64 | Of `x p y q z` the stronger operator takes its operands first, on either side; of two of one group the left one does. The groups are the comparisons; + and -; *, / and %; **; every two operators are of one group or of different strength. |
| Strength.AssignmentLast | src/parser.c:25-64 | Assignment, plain or compound, is weaker than every binary operator and groups to the left. |
| Strength.PrefixFirst | src/parser.c:660-670 | A prefix operator takes its operand before every binary operator, `**` included, and before assignment, on either side. |
| Strength.PostfixFirst | src/parser.c:660-714 | A member, a call, a subscript or a slice binds before a prefix operator; the result is an operand again. |
| Printing.PrintSpells | src/parser.c:25-64 | Printing with parentheses only around operands of a lower layer, and around arrow functions that something could go on from, spells the tree. |
| Printing.RoundTrip | src/parser.c:702-714 | Printing a tree and parsing it gives the tree back and takes exactly the printed tokens. |
| Printing.FormatProgram | src/parser.c:862-887 | Printing whatever was parsed from a file and parsing it again gives the same program. |
| Parser.Parser.ParseExpr | src/parser.c:702-714 | INVALID exactly where the grammar fails; otherwise a node of the arena, which stands for the tree of the grammar if there is one, also after an error inside brackets. In each case the tokens left are the grammar's, and the arena only grows. |
| Parser.Parser.ParseCall | src/parser.c:144-186 | The counted list of arguments in `extra`, or none, and the node of the call. |
| Parser.Parser.ParseSubscript | src/parser.c:211-281 | The forms a[i], a[:], a[:j], a[i:] and a[i:j], accepted exactly where the grammar does not fail; with a failed bound the node of the slice without it, and with a failed index a node with INVALID for its index. |
| Parser.Parser.ParseString | src/parser.c:350-417 | The unescaped characters at the end of `strings`, or an error. |
| Parser.Parser.ParseFunction | src/parser.c:495-565 | Parameters with optional commas, and a block or an arrow body. |
| Parser.Parser.ParseMap | src/parser.c:605-658 | The pairs as a list in `extra`. |
| Parser.Parser.ParseBlock | src/parser.c:96-129 | The statements up to the closing brace, in order, as a list in `extra`. |
| Parser.Parser.ParseConditional | src/parser.c:749-827 | Both cases in `extra`, with INVALID for a missing one. |
| Parser.Parser.ParseStmt | src/parser.c:841-860 | The same contract for statements. |
| Parser.Parser.Parse | src/parser.c:862-887 | The whole file as a block: INVALID exactly where the grammar fails, otherwise a node, which stands for the program if the grammar has one. |
| Building.BuildCall | src/parser.c:144-186 | The node pushed for a call stands for it, given what its children stand for. |
| Building.BuildIf | src/parser.c:815-827 | The same for a conditional. |
| Building.BuildFunction | src/parser.c:547-565 | The same for a function. |
| Arena.Grows | src/ast.c:7-31 | Pushing onto the arena changes the tree of no node. |
| Arena.GrowsS | src/ast.c:7-31 | The same for statements. |
| Arena.OneTree | src/ast.h:11-82 | A node stands for one tree at most. |
| Arena.OneStmt | src/ast.h:11-82 | The same for statements. |
| Walking.ReadStmt | src/compiler.c:857-889 | The recursion over node indices ends, because children have smaller ones, and it meets the tree that the node stands for. |
| Walking.ReadExpr | src/compiler.c:891-1006 | The same for expressions, with payloads and ranges in `extra` and `strings`. |
| Literals.LiteralRoundTrip | src/ast.c:33-66 | A printed string between quotes is one string token whose range is the printed text, and reading its escapes gives the string back if and only if all of its bytes are printable ASCII or \n \r \t \b \f. |
| Literals.EscapeRoundTrip | src/parser.c:350-417 | Reading the escapes of a printed string gives it back exactly for those strings, and an error for all others. |
| Literals.PrintEscaped | src/ast.c:33-66 | The loop prints the escaped string. |
| Literals.ReadEscapes | src/parser.c:350-417 | The loop with its flag computes the meaning of the literal. |
| Literals.EscapeMeans | src/parser.c:350-417 | At its first backslash a literal has one of nine escapes, \n 10, \r 13, \t 9, \e 27, \v 11, \b 8, \f 12, \\ 92 and \" 34, and means what is before it, that byte, and what the rest means; any other escape is an error. |
| Literals.PlainMeans | src/parser.c:350-417 | Without a backslash a literal means itself; a backslash at its very end is dropped. |
| Literals.PrintsPrintable | src/ast.c:33-66 | Only printable bytes are printed, and a byte without an escape as \x and its two hexadecimal digits, in capitals. |
| Lexing.Lexer.Next | src/lexer.c:28-290 | Gives the one token that stands at the next place that is no blank or comment, and fails exactly when the text ends inside a comment or just after a backslash. |
| Lexing.OperatorLongest | src/lexer.c:79-200 | The switch on characters finds the longest operator. |
| Lexing.OneToken | src/lexer.c:28-290 | One token at most stands at a place. |
| Tokens.TokensRoundTrip | src/lexer.c:28-290 | Tokens written out with a blank after each are what the lexer reads, and nothing else. |

## Left out

- Correctness.CompilerCorrect: functions that use a local of an enclosing function are outside its domain; captured variables are proved in Lexical (compile time) and Upvalues (run time) instead. Programs stay below 65536 bytes and constants per chunk, since offsets and indices are cut to 16 bits without a check; no local is declared with operands pending, by an unbraced arm or loop body or by a loop condition; break and continue leave no block with locals. Settled.LayoutExact and Misplaced.SlotOfFirstAssignment have what these conditions are exact for.
- Nur.RunText: has the same domain, and every function literal is safe to optimize (Pipeline.Supported); natives and numeral conversion are parameters. The source reads tokens while it parses; here they are read first.
- Nur.RunFile: the same. Closures that were in the globals before are outside its domain.
- Compiler.Compiler.CompileIdentifier: finds locals and globals; the search through enclosing functions is Lexical.Scope.FindUpvalue.
- Compiler.Compiler.AddConstant: two function constants are never merged; the source merges function objects that compare equal, as those of `fn {}` twice.
- Compiler.Compiler.CompileExpr: works on trees; that the walk over the arena meets these trees is Walking.ReadExpr.
- Pipeline.LoadFile: the source optimizes functions by recursion over the constants of their chunks. Running the pass twice over a function constant shared by two chunks is not modelled.
- Lexical.CloseOver: every local of the enclosing function has its slot, as where no operand is pending and no local was declared by code that did not run (Misplaced.SlotOfFirstAssignment).
- Lexical.Scope.AddUpvalue: indices are unbounded numbers; the source's byte is never exceeded at 255 entries.
- Gc.MarkRoots: follows the edges of the source, which starts from the functions of frames, not their closures; that the compiler's running closures are kept alive otherwise is not claimed.
- Gc.Vm.Collect: sweeping unlinks; freeing memory, the recursive freeing of maps and arrays and the removal of dead strings from the string table are not modelled, nor is collection in the middle of an allocation.
- HashMap.Map.Insert: maps from which nothing was deleted, as user maps are; vm_map_delete is not modelled. Capacities do not wrap at 32 bits.
- Interning.Strings.CopyString: without a collection in between.
- Parser.Parser.ParseExpr: of a node that is accepted without a tree, only what ParseSubscript says is known, and what the compiler does with it is not modelled. Indices do not wrap at 32 bits, and -1 stands for the invalid index.
- Parser.Parser.ParseString: characters pushed before an invalid escape is met are not kept; no node refers to them.
- Lexing.Lexer.Next: a comment or string that the text ends in makes it fail; the source reads past the text.
- Utf8.GetCharacter: malformed UTF-8, on which the source does not advance, is outside its domain.
- Interpreter.Interpreter.Run: the stack is unbounded, while the source's has a fixed size; Vm has no instructions on captured variables; they are in Upvalues. Steps that no compiled code takes are excluded.
- Folding.FoldBinaryCorrect: results outside the integers of a double are not compared; there the folded 64-bit integer and the machine's double can differ.
- Folding.FoldUnaryCorrect: the integer literal 0 and those above 2^53 are outside it; Departures.NegatedLiteral has both.
- Heights.RunLaidOut: programs without captured variables, as for CompilerCorrect; after a failed operator of a compound assignment the stack is one value higher than the layout (Departures.GlobalKeepsHeight).
- Layout.LoopFlows: for loops whose body keeps its layout apart from its own breaks and continues.
- Departures.CompoundDeclares: a name captured from an enclosing function is outside it, as for CompileIdentifier; the source emits SET_UPVALUE_WITH_MATH for it.
- Departures.GlobalKeepsHeight: the instruction on captured variables, SET_UPVALUE_WITH_MATH, is outside the machine of Vm.
- Equality of maps and of closures, and comparing arrays that contain themselves, which the source gets wrong or does not end on.
- IEEE rounding, the boxing of values in NaNs, and the number formats of the C library: parameters.
- Source positions, error messages and stack traces: every error is one outcome.
- Builtins, imports, files, the command line and the disassembler: input and output.
- JUMP_IF_FALSE is executed by the machine but never emitted, and the pass does not know it.
