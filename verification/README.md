# A verified model of the mixer core

This project models five parts of the mixer and proves what they promise, for all inputs and all runs.
All modules are in `model/`; `dafny verify dfyconfig.toml` checks the whole project.

**Expression compiler and virtual machine.** An expression tree is compiled to words by a recursive
generator that appends to a builder, allocates labels and back-patches jumps; the words are relocated
into a program and executed on an operand stack, a small heap and an interning string table.

- `Values`, `Words`, `StringTables`, `Opcodes`: values, word encodings, the string table, opcodes.
- `Expressions`: trees, type checking, the tree evaluator, and a strict reference evaluator `Strict`
  (both operands of LAND, the first present operand of OR, exact string equality). `Typing` and `TreeWalks`
  have the loops of the type checker over signatures and of the tree evaluator over arguments.
- `Code`, `CodeGen`: position-independent code, and the code of an expression as a function of it.
- `Builders`, `Patching`, `Placing`, `Compilers`: the builder and the generator as classes that mutate
  their fields; what back-patching does; the generator appends exactly the code that `CodeGen` specifies.
- `Programs`, `Compilation`: relocation, and compiling an expression into a program.
- `Machine`, `Interpreters`: the machine as a step function, and the interpreter loop over its arrays;
  `MachineLaws` ties the instructions that the compiler does not emit to the others.
- `Fragment`, `InstructionRuns`, `OperandLayouts`, `Simulation`, `Termination`, `Correctness`, `Agreement`:
  compiled code does what `Strict` does, always ends, and agrees with the tree evaluator, on values and on
  failures, exactly where the two are meant to coincide.
- `Evaluations`: compiling once and evaluating any number of bags, end to end; `Coverage` says in terms of the
  source which expressions that covers.
- `Matching`: equalities hoisted out of a match expression, and the rule filter that relies on them.

The main result holds for the expressions of the predicate `Fragment.ValueOK`: the left operand of an OR
is built from variables, `INDEX(variable, constant)` and ORs of those, and an OR nested on the right ends
in a constant or a boolean function. `Agreement.ConstantOrDiffers` shows, for any two strings, that an
OR with a constant on the left computes something else.

**In-memory quota.** `Windows` is the ring buffer of a rolling window, refined to a ledger of every tick;
`Quotas` is one request with deduplication; `QuotaRuns` is about whole runs of requests and reaps;
`QuotaRecovery` is about what a window forgets; `QuotaHandlers` is the handler over its maps and window objects.

**Configuration swap.** `HandlerTables` carries over, marks, builds and closes handlers; `ConfigSwap` is the
protocol as interleaved steps of requests and the controller, with panics and cleanup timeouts; `SwapProgress`
says when a publication can come to its end.

**Attribute codec.** `Dictionaries` assigns dictionary indices, `Codec` encodes a bag, `Decoders` decodes a
message at once, `ProtoBags` reads it lazily with a cache. Encoding and decoding are stated as relations,
because Go iterates over maps in any order.

**IL text.** `Keywords`, `Scanners`, `Parsing` and `Parsers` read text, `Assembly` gives functions as lists of
instructions with their words and their text, `Writing` writes them, `TextRoundTrip` reads what was printed with
any list of labels, and `WrittenText` says exactly when what was written reads back and what comes back otherwise.
`AcceptedText` is about every text that the parser accepts, `Disassembly` turns words into instructions again,
and `Rewriting`, `AcceptedFunctions` and `CompiledText` are about writing accepted and compiled functions.

Some properties do not hold of the code as one might state them. Each has an input that shows it and the exact
condition under which it does hold:

- The machine and the tree evaluator do not always have the same outcome (`Agreement.LandDiffers`,
  `EmptyStringDiffers`, `WildcardDiffers`, all on compiled programs). Where no string is special they do exactly
  if the tree evaluator does not pass over a failing operand of a LAND and go on to a value
  (`ProgramAgreesWithTree`, `LandFailsExactly`); without LAND they always do. For strings, `OrReadsExactly` and
  `EqReadsExactly` say exactly which ORs and comparisons read differently.
- A cleanup that times out closes nothing, but a later one can close a handler that a request still uses
  (`ConfigSwap.TimeoutIsUnsafe`). The close that cleanup is about to make is unsafe exactly if a resolver that was
  given up still counts a request and holds the handler (`ClosingIsUnsafeExactly`), and a run is safe exactly if it
  makes no such close (`SafeExactly`).
- Skipping rules tagged TCP loses a match exactly if the request's protocol attribute is itself a pattern
  that matches `tcp` (`Matching.SkippingLosesNothing`).
- A function written as text does not always read back, because the writer's scan for labels reads one word per
  operand and takes the high word of an integer for an opcode (`WrittenText.ScanGoesAstray`: the text is accepted
  and loops where the function returns). It reads back exactly if the scan finds the target of every jump and every
  target starts an instruction (`WrittenReadsBack`); `ReadsAsRedirected` says what is read in every other case.
- A run inside a program mirrors the run of the function's body, crashes included, exactly if it does not run past
  the end of the body into the Halt before another function (`Programs.MirrorsExactly`, `RunPastDiffers`).

## Model

| member | source | states |
|---|---|---|
| `Words.IntegerRoundTrip` | pkg/il/convert.go:20-27 | the two words of any int64, negative ones included, fit 32 bits and decode to it |
| `Words.WordsRoundTrip` | pkg/il/convert.go:20-27 | any two words of 32 bits are the words of the integer that they decode to |
| `Words.IntegerWordsInjective` | pkg/il/interpreter/interpreterRun.go:234-246 | comparing both words decides equality of integers |
| `StringTables.IdStable` | pkg/il/strings.go:50-80 | the id of a string never changes as the table grows |
| `StringTables.IdsDecideEquality` | pkg/il/interpreter/interpreterRun.go:219-232 | in a table without duplicates comparing ids decides equality of strings |
| `StringTables.StringTable.constructor` | pkg/il/strings.go:36-47 | a new table holds the null string at id 0 only |
| `StringTables.StringTable.GetID` | pkg/il/strings.go:50-80 | the table grows by exactly the new string, both maps stay mutually inverse, and the id is the string's position |
| `StringTables.StringTable.TryGetID` | pkg/il/strings.go:83-91 | the id of a known string, and 0 for an unknown one |
| `StringTables.StringTable.MapsAgree` | pkg/il/strings.go:28-33 | the dictionary holds exactly the strings in use, under their positions |
| `Opcodes.OnlyJumpsHoldAddresses` | pkg/il/opcode.go:702-722 | the three jumps and no other opcode have an address operand |
| `Expressions.EvaluatedType` | pkg/il/interpreter/interpreterRun.go:384-496 | a value of the strict evaluator, other than a string map, has the type that the type checker computed |
| `Agreement.TreeTyped` | pkg/expr/expr.go:97-134 | the tree evaluator gives a value of the type that the type checker computed, nil only for an OR that ends in a lookup, and never panics |
| `Typing.CheckCall` | pkg/expr/expr.go:226-270 | for any signature and arguments: accepted exactly if there are enough arguments, each of its type and those of unspecified type all of one; an unspecified result has that type |
| `Typing.CheckType` | pkg/expr/expr.go:97-108 | the checker walks the tree with that loop over the signatures of the functions |
| `Typing.TypingExact` | pkg/expr/func.go:71-266 | an expression is accepted with a type exactly if the typing rules of its operators give it that type |
| `Typing.ComparisonsTyped` | pkg/expr/func.go:71-94 | NEQ is accepted exactly where EQ is, and exactly for two operands of one type |
| `TreeWalks.Walk` | pkg/expr/expr.go:117-134 | the walk over the tree, with its loops, gives what the evaluator is defined to give |
| `TreeWalks.CallLogical` | pkg/expr/func.go:175-187 | the arguments in order up to the first that fails or decides |
| `TreeWalks.CallOr` | pkg/expr/func.go:229-251 | the first argument that is there and not empty, and an error only from the last |
| `CodeGen.ValueCodeClosed` | pkg/il/compiler/compiler.go:128-420 | code that pushes a value leaves no jump without a target, at any depth |
| `Builders.FreshLabel` | pkg/il/builder.go:226-230 | the label allocated next is neither set nor waiting, so labels are distinct |
| `Builders.Builder.AllocateLabel` | pkg/il/builder.go:226-230 | a new label waits at no place, and nothing else changes |
| `Builders.Builder.SetLabelPos` | pkg/il/builder.go:234-246 | for any label: every place that waits for it gets the current position, no other word changes, and setting it twice is refused |
| `Builders.Builder.SetAllocated` | pkg/il/builder.go:234-246 | on an allocated label the numbering of labels is kept as well |
| `Builders.Builder.Jump` | pkg/il/builder.go:263-275 | for any label: a set one gives its position, and one that is not set, or set at position 0, gets one more place that waits for it |
| `Builders.Builder.JumpTo` | pkg/il/builder.go:263-275 | on an allocated label exactly one more place waits |
| `Builders.Builder.Op0` | pkg/il/builder.go:278-280 | one word more, labels and strings as before |
| `Builders.Builder.Op1` | pkg/il/builder.go:283-286 | an instruction with one operand word more |
| `Builders.Builder.Op2` | pkg/il/builder.go:289-293 | an instruction with two operand words more |
| `Builders.Builder.Id` | pkg/il/builder.go:295-297 | the string is interned and its id returned, the body does not change |
| `Patching.PatchCloses` | pkg/il/builder.go:234-246 | back-patching turns code with open exits into the same code with its jumps resolved, and touches nothing else |
| `Patching.GenStable` | pkg/il/compiler/compiler.go:128-420 | code generated earlier stays the same as later code interns more strings |
| `Placing.SetPlaced` | pkg/il/builder.go:234-246 | setting a label resolves the jumps of the code placed since it was allocated |
| `Compilers.Generator.Generate` | pkg/il/compiler/compiler.go:128-139 | exactly the specified code and strings are appended, its exits wait for the given label, other waiting labels are untouched, and it fails exactly for comparisons it does not support |
| `Compilers.Generator.GenerateConstant` | pkg/il/compiler/compiler.go:400-420 | a constant of each type is pushed, whatever the mode |
| `Compilers.Generator.GenerateVariable` | pkg/il/compiler/compiler.go:141-192 | a variable is resolved, or in jump mode tested and left through the label |
| `Compilers.Generator.GenerateEq` | pkg/il/compiler/compiler.go:225-279 | operands and comparison by type, or a failure for a type that cannot be compared |
| `Compilers.Generator.GenerateNeq` | pkg/il/compiler/compiler.go:281-284 | the equality one level deeper, negated |
| `Compilers.Generator.GenerateLor` | pkg/il/compiler/compiler.go:286-303 | the right operand is jumped over, or at the root returned past, when the left one is true |
| `Compilers.Generator.GenerateLand` | pkg/il/compiler/compiler.go:305-311 | both operands and a conjunction |
| `Compilers.Generator.GenerateIndex` | pkg/il/compiler/compiler.go:313-330 | target, key and lookup in value mode |
| `Compilers.Generator.GenerateIndexJump` | pkg/il/compiler/compiler.go:331-373 | absent target or key leads past the lookup, a value to the outer label, with three labels set in turn |
| `Compilers.Generator.GenerateOr` | pkg/il/compiler/compiler.go:376-398 | the first operand with a value leaves the OR, through its own label or the one it was given |
| `Programs.Program.constructor` | pkg/il/program.go:80-90 | a program starts with one Halt word, no function and a new string table |
| `Programs.Program.AddFunction` | pkg/il/program.go:106-144 | earlier code is untouched, the body follows a Halt word relocated, and a truncated instruction is an error that registers nothing |
| `Programs.OnlyAddressesShift` | pkg/il/program.go:115-131 | relocation shifts the operand of a jump and copies every other word |
| `Programs.StepMirrors` | pkg/il/program.go:106-144 | one step of the relocated function is the step of the body, moved |
| `Programs.RunMirrors` | pkg/il/program.go:106-144 | a run that stays in the body is mirrored inside the program, crashes included, with the instruction pointer shifted |
| `Programs.RunLeaves` | pkg/il/program.go:106-144 | a run past the end crashes in the body alone, and inside the program goes on with the words that follow |
| `Programs.MirrorsExactly` | pkg/il/program.go:106-144 | for a function followed by nothing or by a Halt the runs are the same exactly if it does not run past its end into that Halt |
| `Programs.RunPastDiffers` | pkg/il/program.go:106-107 | a body without a return panics alone and halts when another function follows |
| `Programs.EmittedRelocates` | pkg/il/program.go:106-144 | compiled code is the same position-independent code wherever it is put |
| `Compilation.Compile` | pkg/il/compiler/compiler.go:60-97 | succeeds exactly for expressions that have a type and whose comparisons are supported, and then gives a new program that holds their code under "eval" and no other function |
| `InstructionRuns.WordsDecideEquality` | pkg/il/interpreter/interpreterRun.go:219-279 | two encoded values of a comparable type are equal exactly if their words are |
| `Simulation.ValueSim` | pkg/il/interpreter/interpreterRun.go:69-1019 | value code pushes exactly the encoded value on an otherwise unchanged stack, or fails as the strict evaluator does |
| `Simulation.JumpSim` | pkg/il/compiler/compiler.go:331-398 | jump code leaves through its label with exactly the value on top, or falls through with the stack unchanged |
| `Simulation.FallSim` | pkg/il/compiler/compiler.go:376-398 | an OR chain that ends in a constant or boolean function has a value on both ways out |
| `Correctness.CompiledCodeCorrect` | pkg/il/interpreter/interpreterRun.go:18-1019 | evaluating compiled code at any address gives the strict evaluator's value, or its failure |
| `Compilation.CompiledProgramCorrect` | pkg/il/compiler/compiler.go:60-97 | the same for the program that compiling returns, with any bag, in a string table that may have grown since |
| `Termination.BodyForward` | pkg/il/builder.go:226-275 | every jump of compiled code is patched to a later instruction boundary inside the body |
| `Termination.BodyStep` | pkg/il/interpreter/interpreterRun.go:763-790 | a step of compiled code stops or moves to a later boundary |
| `Termination.CompiledCodeTerminates` | pkg/il/interpreter/interpreterRun.go:69-79 | any run of compiled code ends within its length, and never on a Halt word or an invalid opcode |
| `Compilation.CompiledProgramTerminates` | pkg/il/compiler/compiler.go:60-97 | the same for every expression that compiles, whatever the bag, in or out of the fragment |
| `Interpreters.Activation.StepOnce` | pkg/il/interpreter/interpreterRun.go:69-1003 | one turn of the loop over the stack and heap arrays is one step of the machine |
| `Interpreters.Activation.DoPush` | pkg/il/interpreter/interpreterRun.go:199-217 | push of one or two words, with the overflow check |
| `Interpreters.Activation.DoBool` | pkg/il/interpreter/interpreterRun.go:219-246 | comparisons, and, not |
| `Interpreters.Activation.DoAEq` | pkg/il/interpreter/interpreterRun.go:248-279 | comparisons with an operand |
| `Interpreters.Activation.DoResolve` | pkg/il/interpreter/interpreterRun.go:384-496 | an attribute is loaded at its type, or the lookup, conversion or heap error reported |
| `Interpreters.Activation.DoTResolve` | pkg/il/interpreter/interpreterRun.go:498-625 | the same with a flag, and a lone 0 for an absent attribute |
| `Interpreters.Activation.DoJump` | pkg/il/interpreter/interpreterRun.go:763-790 | jumps and the words they pop |
| `Interpreters.Activation.DoRet` | pkg/il/interpreter/interpreterRun.go:824-876 | the result by return type |
| `Interpreters.Activation.DoLookup` | pkg/il/interpreter/interpreterRun.go:895-957 | lookups with the key on the stack |
| `Interpreters.Activation.DoANLookup` | pkg/il/interpreter/interpreterRun.go:981-1001 | lookup with the key as operand |
| `Interpreters.Activation.DoErr` | pkg/il/interpreter/interpreterRun.go:80-113 | raising an error always, on zero or on anything else, with the message from the string table |
| `Interpreters.Activation.DoStack` | pkg/il/interpreter/interpreterRun.go:78-146 | nop, pop and duplication of one or two words with their checks |
| `Interpreters.Activation.DoRLoad` | pkg/il/interpreter/interpreterRun.go:148-165 | one or two words popped into registers, and a panic past the last register |
| `Interpreters.Activation.DoALoad` | pkg/il/interpreter/interpreterRun.go:167-178 | one or two operand words stored in registers |
| `Interpreters.Activation.DoRPush` | pkg/il/interpreter/interpreterRun.go:180-197 | one or two registers pushed, and a panic where two words do not fit |
| `Interpreters.Activation.DoLogic` | pkg/il/interpreter/interpreterRun.go:281-324 | exclusive or, and or on the stack |
| `Interpreters.Activation.DoALogic` | pkg/il/interpreter/interpreterRun.go:326-372 | exclusive or, and, or with an operand |
| `Interpreters.Activation.DoSum` | pkg/il/interpreter/interpreterRun.go:627-658 | sum and difference of integers, wrapping at 64 bits |
| `Interpreters.Activation.DoASum` | pkg/il/interpreter/interpreterRun.go:660-691 | sum and difference with an operand |
| `Machine.SumExact` | pkg/il/interpreter/interpreterRun.go:627-691 | sum and difference are exact where they fit an int64, move by 2^64 otherwise, and undo each other |
| `Interpreters.Activation.DoMember` | pkg/il/interpreter/interpreterRun.go:918-937 | a lookup that reports a missing member |
| `Interpreters.Activation.DoAMember` | pkg/il/interpreter/interpreterRun.go:959-979 | the same with the key as operand |
| `MachineLaws.LogicOfBooleans` | pkg/il/interpreter/interpreterRun.go:281-372 | on the words of truth values the logic instructions are exclusive or, and, or |
| `MachineLaws.OperandForms` | pkg/il/interpreter/interpreterRun.go:326-372 | an instruction with an operand does what the plain one does with the operand pushed |
| `MachineLaws.IntegerOperandForms` | pkg/il/interpreter/interpreterRun.go:660-691 | the same for sums and differences of integers |
| `MachineLaws.SumOfIntegers` | pkg/il/interpreter/interpreterRun.go:627-658 | two integers on the stack are replaced by their sum, or by the lower one less the upper one |
| `MachineLaws.ErrAsJump` | pkg/il/interpreter/interpreterRun.go:80-113 | a conditional error is raised exactly where the jump with the same test is taken |
| `MachineLaws.DuplicateAndPop` | pkg/il/interpreter/interpreterRun.go:115-146 | a duplicated value is there twice, and popping it restores the stack |
| `MachineLaws.LoadAndPush` | pkg/il/interpreter/interpreterRun.go:148-197 | a value kept in registers and pushed again restores the stack, exactly if there are the registers |
| `MachineLaws.StoreAndPush` | pkg/il/interpreter/interpreterRun.go:167-178 | operand words stored in registers are kept in the order in which they are pushed |
| `MachineLaws.MemberFound` | pkg/il/interpreter/interpreterRun.go:918-957 | a lookup that must succeed gives what the lenient one gives, or names the missing member |
| `Interpreters.Activation.Run` | pkg/il/interpreter/interpreterRun.go:69-1019 | on compiled code the loop ends, with the outcome of the machine, and the string table only grows |
| `Interpreters.Interpreter.Eval` | pkg/il/interpreter/interpreter.go:64-71 | a compiled function gives the outcome of the machine whatever else the program holds, an unknown name is an error, and the string table only grows |
| `Evaluations.EvaluateOne` | pkg/il/interpreter/interpreter.go:64-71 | after any number of evaluations the next one has the outcome of the tree evaluator, under the exact condition |
| `Evaluations.EvaluateAll` | pkg/il/compiler/compiler.go:60-97 | compiling once and evaluating any sequence of bags: there are answers exactly if the expression compiles, and each is the tree evaluator's |
| `Coverage.SourceInFragment` | pkg/il/compiler/compiler.go:376-398 | every expression whose ORs associate to the left, over variables and constant lookups, is in the fragment |
| `Coverage.SourceIsEvaluable` | pkg/il/interpreter/interpreter.go:39-44 | and with plain constants and at most 21 nodes it fits the stack and the heap, so the end-to-end result covers it |
| `Agreement.ExactMatch` | pkg/expr/func.go:144-152 | pattern matching is equality for exactly the patterns without a star at either end |
| `Agreement.MatchesExactly` | pkg/expr/func.go:140-152 | a pattern that ends in a star matches exactly the texts that begin with the rest, one that only begins with a star those that end with the rest, any other itself |
| `Agreement.StrictAgrees` | pkg/expr/func.go:96-278 | where no string is special the strict evaluator fails exactly if the tree evaluator does or passes over a failing LAND operand, and otherwise they give the same value |
| `Agreement.AllPresentHasValue` | pkg/expr/expr.go:112-134 | with every named attribute present and well typed there is a value of the expression's type |
| `Agreement.OnlyAbsenceFails` | pkg/il/interpreter/interpreterRun.go:384-496 | on a well-typed bag the only failure is the lookup of an attribute that the expression names and the bag lacks |
| `Agreement.ProgramAgreesWithTree` | pkg/il/interpreter/result.go:97-118 | the compiled program has the outcome of the tree evaluator, failures included, exactly if the tree does not pass over a failing LAND operand and go on to a value; it only fails for want of a named attribute, and returns when every named one is present |
| `Agreement.ProgramAgreesWithoutLand` | pkg/expr/func.go:96-278 | without LAND the outcomes are always the same |
| `Agreement.LandFailsExactly` | pkg/expr/func.go:175-187 | a LAND over operands that agree on failure agrees on failure exactly if it is not a false left operand with a failing right one |
| `Agreement.ProgramLandFailsExactly` | pkg/il/compiler/compiler.go:305-311 | the same for the compiled LAND |
| `Agreement.OrReadsExactly` | pkg/expr/func.go:229-251 | an OR over operands that read alike does so exactly if no empty left operand comes before one that is not empty |
| `Agreement.EqReadsExactly` | pkg/expr/func.go:96-152 | a comparison of strings agrees exactly if the right one is not a pattern that matches a different text by its star |
| `Agreement.LandDiffers` | pkg/il/compiler/compiler.go:305-311 | compiled, LAND with a false left operand and an absent right one fails; on the tree it is false |
| `Agreement.EmptyStringDiffers` | pkg/expr/func.go:242-246 | a compiled OR returns an empty string that the tree skips |
| `Agreement.WildcardDiffers` | pkg/expr/func.go:144-152 | compiled, a star is compared literally; on the tree it is a pattern |
| `Agreement.ConstantOrDiffers` | pkg/il/compiler/compiler.go:130-131 | for any two strings, an OR with a constant left operand returns the right one |
| `Matching.ExtractionExact` | pkg/expr/expr.go:411-445 | an attribute is extracted exactly if some conjunct compares it with a literal, in either order, and with the literal of the last such conjunct |
| `Matching.CollectEqualities` | pkg/expr/expr.go:430-445 | the walk down the LANDs fills the map as specified |
| `Matching.ExtractionSound` | pkg/expr/expr.go:411-445 | if a match passes, the comparison behind every extracted pair is true, later pairs having replaced earlier ones |
| `Matching.TaggedExactly` | pkg/runtime/controller.go:335-355 | a rule is tagged exactly if the last of its conjuncts on the protocol compares it with tcp |
| `Matching.TaggedNeedsTcp` | pkg/runtime/controller.go:335-355 | a rule tagged TCP by its match only passes on a TCP request, unless the protocol attribute is a matching pattern |
| `Matching.SkippingLosesNothing` | pkg/runtime/resolver.go:202-242 | skipping tagged rules on a request that is not TCP loses no match, exactly when its protocol attribute is no such pattern |
| `Matching.FilterActions` | pkg/runtime/resolver.go:202-242 | the actions of exactly the selected rules in order, or an error exactly if a considered match cannot be decided |
| `Matching.TcpRuleSelected` | pkg/runtime/resolver.go:202-242 | on a TCP request the actions of every true rule whose last conjunct on the protocol asks for tcp are in the result |
| `Matching.OtherRuleSelected` | pkg/runtime/resolver.go:202-242 | on any other request the same for true rules that are neither labelled nor tagged |
| `Matching.OtherKindSkipped` | pkg/runtime/resolver.go:216-222 | a rule of the other kind is neither evaluated nor selected |
| `Matching.UndecidedFails` | pkg/runtime/resolver.go:224-228 | a rule of the right kind makes the filter fail exactly if its match does not evaluate to a truth value |
| `Matching.ActionsAreSelected` | pkg/runtime/resolver.go:202-242 | every action in the result comes from a selected rule |
| `Windows.RollingWindow.constructor` | adapter/memquota/rollingWindow.go:42-47 | a new window has its whole limit available at tick 0 |
| `Windows.RollingWindow.Roll` | adapter/memquota/rollingWindow.go:94-110 | the ring turns by the ticks passed, what falls out becomes available, and availability plus consumption stays the limit |
| `Windows.RollingWindow.Alloc` | adapter/memquota/rollingWindow.go:49-62 | grants exactly what fits, and books it on the current tick |
| `Windows.RollingWindow.Release` | adapter/memquota/rollingWindow.go:64-92 | takes back from the newest ticks around the ring, and availability plus consumption stays the limit |
| `Windows.TakeExact` | adapter/memquota/rollingWindow.go:64-92 | a release returns exactly the smaller of the amount and the consumption in the window, and the sums balance |
| `Windows.TakeNewestFirst` | adapter/memquota/rollingWindow.go:67-87 | each tick gives what the newer ticks did not cover |
| `Windows.WindowRefinesLedger` | adapter/memquota/rollingWindow.go:42-110 | for every run of allocs and releases the ring answers as a ledger that never forgets a tick, and ends up showing its last ticks |
| `Windows.NetBounded` | adapter/memquota/rollingWindow.go:49-110 | in every run the net consumption of any N ticks in a row is at most the limit |
| `Windows.RateLimited` | adapter/memquota/rollingWindow.go:49-62 | without releases the grants in any N ticks in a row total at most the limit |
| `Windows.IdleIsFresh` | adapter/memquota/memquota.go:190-202 | a window with nothing in use answers every future as a new one does |
| `Quotas.GrantRule` | adapter/memquota/memquota.go:116-158 | of either kind of quota a request gets all it asks for or nothing, or on best effort what is left, and exactly that much more is in use |
| `Quotas.FreeRule` | adapter/memquota/memquota.go:168-205 | a free returns the smaller of the amount and what is in use, and exactly that much less is in use |
| `Quotas.GrantValidity` | adapter/memquota/memquota.go:116-166 | a grant of an expiring quota is valid for its duration, and nothing else is |
| `Quotas.HandleKeeps` | adapter/memquota/memquota.go:105-209 | a request leaves other keys alone and its own key consistent for all later times |
| `QuotaRuns.AlwaysServes` | adapter/memquota/memquota.go:116-209 | in every reachable state every cell and window is within its limit |
| `QuotaRuns.DedupExact` | adapter/memquota/dedup.go:61-116 | an id is remembered, with the amount answered, exactly until the second reap after its execution |
| `QuotaRuns.ReplayChangesNothing` | adapter/memquota/dedup.go:75-86 | a replay gives the recorded amount and changes no cell, window or record |
| `QuotaRuns.ReplayValidity` | adapter/memquota/dedup.go:81-86 | a replayed grant is valid until the same time as when it was executed |
| `QuotaRuns.CellExact` | adapter/memquota/memquota.go:121-136 | a cell always equals executed grants minus executed frees, between 0 and the limit |
| `QuotaRuns.RealTimeRate` | adapter/memquota/memquota.go:137-154 | without frees, grants for a key within any span of its duration, rounded up to seconds, less a tenth of a second, total at most the limit |
| `QuotaRuns.DurationRate` | adapter/memquota/memquota.go:137-154 | the same within any span of the duration itself, less a tenth of a second |
| `QuotaRecovery.NothingInUse` | adapter/memquota/rollingWindow.go:94-110 | in every run, when nothing was granted for a key for its duration rounded up to seconds, nothing is in use |
| `QuotaRecovery.WholeLimitAgain` | adapter/memquota/memquota.go:137-154 | the next request for it that is executed then gets all that the limit allows |
| `QuotaRuns.DeletionUnobservable` | adapter/memquota/memquota.go:190-202 | a run that deletes idle windows answers as one that keeps them |
| `QuotaHandlers.Handler.HandleQuota` | adapter/memquota/memquota.go:105-114 | a request is answered and booked as specified, on maps and window objects |
| `QuotaHandlers.Handler.AllocFromWindow` | adapter/memquota/memquota.go:137-154 | a grant from a window made on first use, all there is on best effort |
| `QuotaHandlers.Handler.FreeToWindow` | adapter/memquota/memquota.go:190-202 | a release, and deletion of the window when nothing is in use |
| `QuotaHandlers.Handler.AllocFromCell` | adapter/memquota/memquota.go:121-135 | a grant that does not expire |
| `QuotaHandlers.Handler.FreeToCell` | adapter/memquota/memquota.go:173-184 | giving back, and deletion of the cell at zero |
| `QuotaHandlers.Handler.ReapDedup` | adapter/memquota/dedup.go:103-116 | the older generation of ids is forgotten, the younger becomes the older |
| `HandlerTables.InitializeSplits` | pkg/runtime/handlerTable.go:101-136 | after initialization every old handler is either marked or in the new table and never both, and no two names share one |
| `HandlerTables.CarriedOver` | pkg/runtime/handlerTable.go:106-125 | a handler is carried over and not marked exactly if its name is still configured with the same hash |
| `HandlerTables.BuiltAnew` | pkg/runtime/handlerTable.go:116-136 | a name that is new, or whose hash is, gets the handler built for it, under the new hash |
| `HandlerTables.Initialize` | pkg/runtime/handlerTable.go:101-147 | the entries of both tables are updated in place: an old one is marked exactly if its name is gone or its hash differs, a new one has the old handler exactly if the hashes are equal, and otherwise a built one |
| `HandlerTables.CloseMarked` | pkg/runtime/controller.go:552-563 | cleanup closes each marked handler once and no other |
| `ConfigSwap.StepKeepsInv` | pkg/runtime/dispatcher.go:128-176 | every step of a request or of the controller keeps the protocol's invariant |
| `ConfigSwap.Drained` | pkg/runtime/controller.go:535-549 | once the old resolver's count is zero no request is left on it |
| `ConfigSwap.CountIsInFlight` | pkg/runtime/resolver.go:110-168 | without panics a resolver's reference count is the number of its requests in flight |
| `SwapProgress.CountIsExact` | pkg/runtime/resolver.go:110-168 | in every run a resolver's reference count is the number of its requests in flight and of resolves lost to panics |
| `ConfigSwap.AlwaysSafe` | pkg/runtime/controller.go:112-174 | in every interleaving neither the installed configuration nor a request that cleanup waits for refers to a closed handler |
| `ConfigSwap.SafeWithoutTimeouts` | pkg/runtime/controller.go:112-174 | where no cleanup times out, no request in flight refers to a closed handler |
| `ConfigSwap.ClosingIsUnsafeExactly` | pkg/runtime/controller.go:535-563 | in every run, the close that cleanup is about to make hits a handler in use exactly if a resolver given up still counts a request and holds it; without panics the reference counts alone tell |
| `ConfigSwap.SafeExactly` | pkg/runtime/controller.go:112-174 | in every run, no state has a request on a closed handler exactly if no close is of that kind |
| `ConfigSwap.HandlerLifecycle` | pkg/runtime/controller.go:535-565 | each handler is closed at most once, and without timeouts every handler built is installed or closed between publications |
| `ConfigSwap.PublicationCloses` | pkg/runtime/controller.go:112-174 | in every run, when a publication and its cleanup are over, a handler is closed exactly if its name is gone or its hash changed, the others are installed, and changed names have the handlers built for them |
| `SwapProgress.CleanupCanFinish` | pkg/runtime/controller.go:535-565 | from every state of a run without panics the requests can finish and the publication can end without giving up |
| `SwapProgress.WaitingCanEndExactly` | pkg/runtime/resolver.go:117-123 | in every run, a cleanup that waits can end without a timeout exactly if no resolve on its resolver was lost to a panic |
| `SwapProgress.RequestsNeverBlocked` | pkg/runtime/dispatcher.go:128-176 | in every reachable state a request can start on the installed resolver, and any request can go on |
| `SwapProgress.PublishingNeverBlocked` | pkg/runtime/controller.go:112-174 | between publications any configuration can be published, whatever building its handlers gives |
| `SwapProgress.TimeoutExactly` | pkg/runtime/controller.go:535-549 | a wait can time out exactly while a request is counted, and drains exactly when none is |
| `ConfigSwap.TimeoutIsUnsafe` | pkg/runtime/controller.go:535-549 | there is a run with a timeout in which the handler of a request in flight is closed |
| `Dictionaries.LookupOfIndex` | pkg/attribute/mutableBag.go:407-418 | the index of a word leads back to the word |
| `Dictionaries.IndexInjective` | pkg/attribute/dictState.go:39-58 | no two words share an index |
| `Dictionaries.AllowedGlobals` | pkg/attribute/dictState.go:39-58 | a word whose global index is allowed is sent by it and costs no slot, any other word takes a slot once |
| `Dictionaries.MessageIndices` | pkg/attribute/dictState.go:74-82 | the words of a message are numbered -1, -2 and so on |
| `Dictionaries.DictState.AssignDictIndex` | pkg/attribute/dictState.go:39-58 | a word gets its global index if that is allowed, and otherwise a slot of the message that never changes |
| `Dictionaries.DictState.GetMessageWordList` | pkg/attribute/dictState.go:61-72 | the message words fill the slots from 0 on without gaps |
| `Codec.ToProto` | pkg/attribute/mutableBag.go:230-293 | the message carries exactly the bag's values of supported types, each under the index of its name in the map for its type |
| `Decoders.MutableBag.UpdateBagFromProto` | pkg/attribute/mutableBag.go:311-405 | an error exactly if an index is not defined, and otherwise every attribute mentioned has a value that the message gives it, the others as before |
| `Decoders.RoundTrip` | pkg/attribute/mutableBag.go:230-405 | decoding what was encoded gives no error and exactly the supported values of the bag |
| `Decoders.EncodeAndDecode` | pkg/attribute/mutableBag.go:230-405 | encoding any bag and decoding it gives no error and exactly its supported values |
| `ProtoBags.ProtoBag.constructor` | pkg/attribute/protoBag.go:45-61 | every word of the message is numbered by a slot that holds it |
| `ProtoBags.ProtoBag.Get` | pkg/attribute/protoBag.go:64-83 | reading gives what the message holds whatever was read before, caches stay conversions of the message, and the reference is recorded |
| `ProtoBags.ProtoBag.InternalGet` | pkg/attribute/protoBag.go:119-196 | strings, cached and converted string maps, then the other types in order |
| `ProtoBags.ProtoBag.ConvertStringMap` | pkg/attribute/protoBag.go:226-243 | a conversion of all entries, or none if an index is not defined |
| `ProtoBags.LazyReaderAgrees` | pkg/attribute/protoBag.go:64-243 | for any encoded bag and global word count, reading any name in any state gives the bag's value, or absence |
| `ProtoBags.EncodeAndRead` | pkg/attribute/protoBag.go:45-243 | encoding any bag and reading any names in any order, repeatedly, gives its supported values, or absence |
| `Keywords.OpcodeOfKeyword` | pkg/il/opcode.go:776-797 | looking up a text gives the opcode whose keyword it is, and no other text gives it |
| `Scanners.QuotedExactly` | pkg/il/text/scanner.go:332-338 | a string written as a literal reads back as itself exactly if it has no backslash, line break or NUL |
| `Scanners.LiteralIsQuotable` | pkg/il/text/scanner.go:332-338 | every string that a literal of any text reads as can be written again |
| `Scanners.IntegerScanned` | pkg/il/text/scanner.go:283-292 | any printed int64 reads back as itself |
| `Scanners.HexScanned` | pkg/il/text/scanner.go:283-292 | a hexadecimal literal reads as the value of its digits by their places, if it fits |
| `Scanners.OctalScanned` | pkg/il/text/scanner.go:283-292 | a literal of digits after a 0 is octal |
| `Scanners.WordScanned` | pkg/il/text/scanner.go:204-212 | a word up to a space, line break or parenthesis is one identifier |
| `Scanners.LabelScanned` | pkg/il/text/scanner.go:204-212 | a word and a colon is one label |
| `Scanners.Scanner.Next` | pkg/il/text/scanner.go:89-122 | the scanner's next token is the one that the rest of the text starts with, and at the end it stays |
| `Scanners.Scanner.Feed` | pkg/il/text/scanner.go:124-272 | one rune moves the scanner on, unless it only ends the token before it |
| `TextRoundTrip.OperandParsed` | pkg/il/text/read.go:200-288 | a printed operand of each kind is parsed to its words, strings interned and addresses left to be filled in |
| `TextRoundTrip.LinesParsed` | pkg/il/text/read.go:158-317 | the printed lines are parsed one by one, labels recorded where they stand |
| `TextRoundTrip.ResolvedExactly` | pkg/il/text/read.go:304-311 | the holes are filled with the function's own targets exactly if every target has a label and starts an instruction |
| `TextRoundTrip.PrintedReadsBack` | pkg/il/text/read.go:80-317 | a function printed with any list of labels reads back as itself exactly if every target is in the list and starts an instruction |
| `TextRoundTrip.PrintedIsParsed` | pkg/il/text/read.go:80-317 | parsing a printed function gives its name, types and code, with the string table grown by its strings |
| `AcceptedText.AcceptedIsWellFormed` | pkg/il/text/read.go:158-317 | whatever text is accepted, its body consists of complete instructions and its jumps lead to instructions or to its very end |
| `AcceptedText.AcceptedRunsAnywhere` | pkg/il/text/read.go:149-152 | inside a program the run of any accepted function mirrors the run of its body, crashes included, if it does not run past its end; before another function, exactly then |
| `Parsers.Parser.ParseFunctionBody` | pkg/il/text/read.go:158-317 | the parser loop over the scanner gives the body of the specification, or fails where it does |
| `Parsers.Parser.ParseFunctionDef` | pkg/il/text/read.go:80-156 | the parser accepts the definitions of the specification and no others, with its name, types, body and strings |
| `Parsers.FillHoles` | pkg/il/text/read.go:304-311 | every hole gets the position of its label, and a label that was never set is an error |
| `AcceptedFunctions.AcceptedIsReadable` | pkg/il/text/read.go:80-317 | any accepted function has a word for its name, known types, and a body of instructions that can be written |
| `AcceptedFunctions.AcceptedRewrites` | pkg/il/text/write.go:44-135 | any accepted function, put into a program and written, reads again as its own words exactly if the scan finds its targets and they start instructions; with harmless high words exactly if no jump leads to its end |
| `Writing.ScanFindsTargets` | pkg/il/text/write.go:46-61 | if no high word of an integer is an opcode with operands the scan stays within the code and finds the targets in the order of first use |
| `Writing.SmallIntegerOK` | pkg/il/text/write.go:46-61 | integers from -2^32 up to 2^32 meet that condition |
| `WrittenText.WrittenReadsBack` | pkg/il/text/write.go:44-135 | the text written for a function reads back as the function exactly if the scan finds every target and every target starts an instruction |
| `WrittenText.FoundIfHighWordsOK` | pkg/il/text/write.go:46-61 | with harmless high words that is exactly if every jump leads to an instruction |
| `WrittenText.ReadsAsRedirected` | pkg/il/text/write.go:97-98 | whatever the labels, the text reads as the function with its missed jumps redirected to the first label if then every jump leads to an instruction, and is rejected otherwise |
| `WrittenText.ScanGoesAstray` | pkg/il/text/write.go:46-61 | an integer whose high word is a jump hides the jump that follows; the text is accepted and reads as a function that loops |
| `WrittenText.WriteAndRead` | pkg/il/text/write.go:44-135 | writing and reading gives the function back exactly under that condition |
| `Writing.WriteFn` | pkg/il/text/write.go:44-135 | for any integers, strings and jumps: the text with the labels that the scan finds, label 0 for a target it missed, or a panic where it leaves the code |
| `Writing.CodePlaced` | pkg/il/text/write.go:79-135 | the words of a list of instructions at any address are those instructions |
| `Disassembly.DisassembleExact` | pkg/il/text/write.go:79-135 | the instructions read from a body, laid out at any address, are the body relocated there |
| `Disassembly.JumpsWithinExactly` | pkg/il/text/write.go:79-83 | all jumps lead to instructions exactly if none leads to the end of the body, where no label is written |
| `Rewriting.RewrittenExactly` | pkg/il/text/write.go:44-135 | any function with quotable strings, written out of a program, is read into it again as its own words exactly if its targets are found and start instructions |
| `CompiledText.CompiledRewrites` | pkg/il/compiler/compiler.go:60-97 | a compiled function with quotable strings is one that the text form can hold; it reads back exactly if the scan finds its targets, and always if no integer constant has a harmful high word |

## Left out

- uint32 and int32 wrap-around of string ids, code addresses and dictionary indices: words and indices are unbounded numbers; only the two words of an int64 are bounded.
- The functions `ip`, `timestamp` and `match`, and calls: they rest on library parsing and on extern functions.
- Doubles, timestamps and IP addresses as expression types; doubles in IL text.
- Parsing of expression text and the expression cache: the model starts from the tree, with two arguments per function.
- Calls, frames, and resolving and adding doubles: the step function reports these opcodes as invalid.
- Simulation.ValueSim: holds for the fragment of `ValueOK` and where the stack and the heap have room; outside it `Agreement.ConstantOrDiffers` is a counterexample, and a constant OR operand is not the only one.
- Programs.StepMirrors: a call or an operation on doubles only steps to an invalid-opcode failure.
- AcceptedText.AcceptedRunsAnywhere: the same, and text with operands that are doubles is not accepted by the model.
- Interpreters.Activation.Run: for compiled code; on other code the source's loop may not end.
- Interpreters.Interpreter.Eval: for a function that was compiled; the source evaluates any function without parameters.
- Agreement.StrictAgrees: for strings that neither evaluator treats specially; `OrReadsExactly` and `EqReadsExactly` are about the others, one operator at a time.
- Expressions.EvaluatedType: a string map is loaded without a check of its type.
- Matching.FilterActions: one template variety, and predicates evaluated on the tree.
- `makeKey`, overrides and dimension matching: a request comes with its key, and every key has one limit.
- Quota amounts and times as int64, the int32 conversion of a window's seconds (a limit of more than 68 years), and the mutex of the handler.
- Hash functions and handler construction: hashes are numbers, and a build gives a fresh handler or none.
- ConfigSwap.AlwaysSafe: requests on a resolver whose cleanup timed out are not covered; `TimeoutIsUnsafe` is why.
- The write lock is one step, taken when no reader holds the lock; rules, instances and the selection of actions are left out of the protocol, and a request is taken to refer to every handler of its resolver.
- Codec.ToProto: for a global dictionary that is the inverse of its word list, into an empty message.
- The parent of a mutable bag, merging, reference reports and concurrent readers of a lazy bag.
- Scanners.WordScanned: letters and digits are those of ASCII, and text is a sequence of characters rather than bytes; source positions are left out.
- Writing.WriteFn: for words that are instructions of known opcodes without doubles; the debugging tag is left out.
