# The intermediate-code compiler of VNPForth, and some of its runtime

VNPForth compiles Forth to x86 assembler by way of a table of simple opcodes: two registers, three
stacks, labels, branches and calls.  This project models that compiler from the parser's handlers to
the code it writes, and next to it the heap allocator, exceptions, name mangling, number output and
input, and double-cell division of the runtime library.

## What is modelled, and what is shown

**The machine** (`Cells`, `Letters`, `Options`, `Machine`, `Simulation`, `Shape`).  `Run` gives a meaning
to an opcode table.  Words and assembler outside the table are arbitrary functions of the whole state (`Env`); pops from empty
stacks trap; fuel bounds branches and nested calls, and an outcome is one that some fuel reaches.
Two tables are equivalent when every call can end with exactly the same outcomes in both.

**The optimizer** (`DeadCode`, `UselessJumps`, `UselessCalls`, `UnusedLabels`, `PushPop`, `Expansion`,
`Inlining`, `SmallWords`, `Relocation`, `PassPositions`, `ShapeKept`, `Optimizer`, `BranchesKept`, `NormalForm`,
`OpcodeTable`).  The class `OpcodeTable` runs the eight passes in place, as loops over the table with the same sets, maps
and counters.  Each is proved against a function on tables, each function is proved to keep all
outcomes in both directions and the shape of the table, and a table that no pass changes is in normal
form.  The passes of a round may come in any order: the compiler sums up their counts in one
expression, whose order of evaluation is open.

**The parser** (`Statements`, `Elements`, `AssemblerLines`, `ParserStates`, `Tokens`, `Reading`, `Grammar`,
`CleanSources`, `Parser`, `Layout`, `Definitions`, `Joined`).  The class `Parser` holds the label, break and
condition stacks and the label counter; its methods are the handlers and the run of the parser over the calls that
the grammar makes of them.  `Tokens` is the same as a fold over calls: handlers of conditions always run,
all others only while no condition is false.  `Grammar` reads statements and sources off that fold, and
`CleanSources` says which of them the parser takes without complaint.

**Conditional compilation** (`Conditions`, `Erasure`, `ConditionalSources`).  For every sequence of calls
with matched conditionals, wherever they stand, the fold with the condition stack leads to the same state
as the fold over what is left when inactive branches are deleted, complaints and giving up included.

**The meaning of statements** (`Statements`, `Stepping`, `Snippets`, `Compilation`, `CompiledStatements`,
`CompiledLoops`, `LoopCounts`).  `Statements` says what statements mean without labels, jumps or registers;
emitted code does what they mean, and loops run as often as they should.  `Programs` and `Compiler` put
everything together, from calls to optimized table.

**The generated code** (`X86`, `Codegen`, `GeneratedCode`).  The expansion of each opcode, the two stack
routines instruction by instruction, and jumps between labels; what arithmetic leaves in the flags is
arbitrary.

**The runtime** (`Arena`, `Allocator`, `Exceptions`, `Handlers`, `Structured`, `Mangler`, `MangledNames`,
`RestrictedNames`, `NumberIO`, `Maths`).

## Where the code and its description part

- `#s` tests for the end with a signed comparison, so a double number whose first quotient has its
  sign bit set gets one digit only: `NumberIO.Converter.HashS` says exactly when, and
  `NumberIO.SignEndsEarly` gives such a number.
- `CATCH` on an empty data stack catches the underflow of its own `EXECUTE`, restores a depth of zero,
  and then underflows again while an exception is on its way, which ends the program:
  `StructuredExceptions.EmptyCatch`.
- `fm/mod` wraps around when the truncated quotient fits and the floored one does not:
  `Maths.FmModFloors`, `Maths.LeastQuotient`.
- Names with an x and two digits, and some others, do not come back from mangling: `MangledNames.RoundTrip`
  gives the exact condition, `MangledNames.NotReadable` and `MangledNames.LongName` give names of each kind.
  A name that starts with `_x` and two digits does come back.  Names that start with two underscores come
  back only when there was nothing to encode: `RestrictedNames.RestrictedTrip`.
- The optimizer warns about its limit even when the 32nd round had nothing left to do: `OptimizeCode` returns both.
- The first header of the arena is never written: the zero meant for it is stored one cell further, at the
  new break, and the header reads as zero because a fresh break does (`Allocators.Allocator.Arena`).

## Assumptions

- Equivalence of optimized tables is stated for worlds in which the words for true and false, in the
  table or outside, have the meaning the library gives them; faithfulness to the source, for worlds
  whose outside words do not look at the registers.
- Break extension succeeds and addresses stay below 2^31; a fresh break reads as zero and is aligned.
- Programs between CATCH and THROW leave the exception frames on the return stack alone; what a data
  stack uncovers when its depth is raised again is arbitrary.

## Model

| member | source | states |
|---|---|---|
| `OpcodeTables.OpcodeTable.RemoveUnreachableCode` | compiler/optimize.cc:64-97 | blanks exactly the opcodes between an unconditional jump and the next label or definition end; reports work if and only if the count of real opcodes drops, by that much |
| `OpcodeTables.OpcodeTable.RemoveUnnecessaryJumps` | compiler/optimize.cc:99-137 | blanks exactly the branches whose target label follows with nothing but no-ops between |
| `OpcodeTables.OpcodeTable.RemoveUselessCalls` | compiler/optimize.cc:139-200 | blanks exactly the calls of words whose definition in the table holds no executable opcode |
| `OpcodeTables.OpcodeTable.InlineBooleans` | compiler/optimize.cc:203-257 | replaces exactly the calls of the mangled true and false words by load and push |
| `OpcodeTables.OpcodeTable.InlineSmallFunctions` | compiler/optimize.cc:259-365 | splices, at every call, a copy taken before any call is replaced of each branch-free, assembler-free word of at most ten executable opcodes; no work if and only if no such call exists |
| `SmallWords.SmallDefined` | compiler/optimize.cc:39-365 | which words those are, read off the table: a word with one definition is inlined if and only if between its start and its end there are neither branches nor assembler and from one to ten opcodes besides no-ops and labels, and then as exactly those opcodes in order |
| `OpcodeTables.OpcodeTable.ReplaceAdjacentPushPopPairs` | compiler/optimize.cc:367-416 | fuses exactly the pairs of a push and a pop of the same stack, left to right without overlap, into a register move or nothing |
| `OpcodeTables.OpcodeTable.RelocateSuboptimalLabels` | compiler/optimize.cc:418-535 | moves every label that is followed by a jump to a later label behind that label's final target, keeping first-to-last order in each group; the advancing loop ends because targets increase |
| `OpcodeTables.OpcodeTable.RemoveUnnecessaryLabels` | compiler/optimize.cc:537-591 | blanks exactly the labels that no branch names |
| `OpcodeTables.OpcodeTable.OptimizeCode` | compiler/optimize.cc:593-619 | the table is the one after n rounds, for an n from 1 to 32 that is 32 exactly when the limit is said to be reached, equivalent to the first one in every world with library booleans, well formed, and in normal form whenever the last round had nothing to do, as it always has when the limit was not reached |
| `PassPositions.DeadCodeAt` | compiler/optimize.cc:64-97 | what the dead-code pass puts at each position: a no-op if and only if some unconditional jump stands before it with no label and no definition end from there on, else what was there |
| `PassPositions.UselessJumpAt` | compiler/optimize.cc:99-137 | the same for branches: a no-op if and only if its label is the next opcode that is no no-op |
| `PassPositions.PairAt` | compiler/optimize.cc:367-416 | a push right before a pop of its stack becomes a register move, or a no-op when the registers are the same, and the pop a no-op |
| `PassPositions.UnpairedAt` | compiler/optimize.cc:367-416 | an opcode that is in no such pair stays |
| `PassPositions.InlinedParts` | compiler/optimize.cc:203-365 | a call that is inlined becomes a no-op and the code, any other opcode stays, and what comes before and after is inlined on its own |
| `PassPositions.RelocatedLabelAt` | compiler/optimize.cc:418-535 | a label right before an unconditional jump to a later label is blanked and ends where that label ends; any other label keeps its place, with the labels that move there before it in ascending order |
| `DeadCode.RemovedEquivalent` | compiler/optimize.cc:64-97 | every call ends with the same registers, stacks, memory or exception with and without the dead opcodes, and never ends exactly when it did not |
| `UselessJumps.RemovedEquivalent` | compiler/optimize.cc:99-137 | the same for jumps to what follows |
| `UselessCalls.RemovedEquivalent` | compiler/optimize.cc:139-200 | the same for calls of empty words |
| `SmallWords.BooleansSound` | compiler/optimize.cc:203-257 | the load and push put in for true and false does what the library words do, so that the general inlining theorem applies |
| `SmallWords.SmallWordsSound` | compiler/optimize.cc:259-365 | every snapshot of a small word does what a call of it does, calls inside it included |
| `Inlining.InlinedEquivalent` | compiler/optimize.cc:203-365 | inlining any set of sound snapshots, self calls, mutual calls and chains included, keeps every call's outcome in both directions |
| `PushPop.FusedEquivalent` | compiler/optimize.cc:367-416 | fusing keeps every call's outcome, the popped register included |
| `Relocation.RelocatedEquivalent` | compiler/optimize.cc:418-535 | relocating keeps every call's outcome: each branch gets to the same next opcode |
| `Optimizer.RelocatedLabels` | compiler/optimize.cc:418-535 | relocating keeps how often each label occurs; the label that another one is moved to exists and is itself not relocated |
| `UnusedLabels.RemovedEquivalent` | compiler/optimize.cc:537-591 | removing unreferenced labels keeps every call's outcome |
| `Optimizer.PassWellFormed` | compiler/optimize.cc:64-591 | every pass keeps the shape of the table: closed definitions, unique labels and names, existing branch targets, assembler at the start |
| `Optimizer.PassPreserves` | compiler/optimize.cc:64-591 | every pass keeps all outcomes and the meaning of the booleans |
| `Optimizer.PassesPreserve` | compiler/optimize.cc:595-619 | any sequence of passes, in any order, keeps all outcomes |
| `Optimizer.RoundsPreserve` | compiler/optimize.cc:593-619 | any number of rounds keeps all outcomes: every call ends exactly as before, or never ends exactly when it did not |
| `BranchesKept.PassStays` | compiler/optimize.cc:64-591 | every pass keeps every branch inside its definition, labels that move included |
| `BranchesKept.RoundsStay` | compiler/optimize.cc:593-619 | and so does any number of rounds |
| `NormalForms.FixedIsNormal` | compiler/optimize.cc:593-619 | a well-formed table that no pass changes has nothing but no-ops after a jump, no jump to what follows, no push before a pop of the same stack, no label that no branch names, no label before a jump to a later one, and no call of v4_true or v4_false, of a word with nothing to execute, or of one with up to ten opcodes and neither branches nor assembler, all said of positions in the table |
| `Parsing.Parser.DetectMain` | compiler/parser.cc:245-260 | code outside definitions claims the name of the main word once, with a complaint when it is taken |
| `Parsing.Parser.FDefinedConstant` | compiler/parser.cc:418-464 | constants and float constants: a new name, popped into at top level; a taken name is a complaint and emits nothing |
| `Parsing.Parser.FWord` | compiler/parser.cc:648-688 | a name becomes the opcodes of what it names, and is taken from then on |
| `Parsing.Parser.FPstring` | compiler/parser.cc:540-571 | a printed string: address, size, and a call of the typing word |
| `Parsing.Parser.FAstring` | compiler/parser.cc:595-635 | an abort string: the message is reached only for a true flag, over one new label |
| `Parsing.Parser.FExit` | compiler/parser.cc:533-538 | EXIT jumps to the exit label in force |
| `Parsing.Parser.FRecurse` | compiler/parser.cc:1118-1129 | RECURSE calls the word being defined; outside one it complains and emits nothing |
| `Parsing.Parser.FLeave` | compiler/parser.cc:976-987 | LEAVE jumps to the innermost break label; without one it complains |
| `Parsing.Parser.FQueryLeave` | compiler/parser.cc:989-1002 | ?LEAVE jumps there for a true flag |
| `Parsing.Parser.FWhile` | compiler/parser.cc:1036-1049 | WHILE jumps there for a false flag |
| `Parsing.Parser.FIf` | compiler/parser.cc:810-819 | IF pushes a new label and branches to it for a false flag |
| `Parsing.Parser.FElse` | compiler/parser.cc:830-842 | ELSE jumps over to a new label and places the old one |
| `Parsing.Parser.FThenEndif` | compiler/parser.cc:821-828 | THEN places the label on top of the stack |
| `Parsing.Parser.FDo` | compiler/parser.cc:844-885 | DO and ?DO take limit and start, move them to the return stack, and push three new labels |
| `Parsing.Parser.FLoop` | compiler/parser.cc:887-920 | LOOP counts, compares, branches back, places the end label, unloops, and places the skip label |
| `Parsing.Parser.FPlusLoop` | compiler/parser.cc:922-974 | +LOOP the same with a step and two comparisons by its sign |
| `Parsing.Parser.FBegin` | compiler/parser.cc:1004-1013 | BEGIN places a new label and pushes a break label |
| `Parsing.Parser.FUntil` | compiler/parser.cc:1015-1034 | UNTIL branches back for a false flag and places the break label |
| `Parsing.Parser.FRepeatAgain` | compiler/parser.cc:1051-1067 | REPEAT and AGAIN jump back and place the break label |
| `Parsing.Parser.FCase` | compiler/parser.cc:1069-1075 | CASE pushes one label as both label and break label |
| `Parsing.Parser.FOf` | compiler/parser.cc:1077-1089 | OF compares, keeping the selector, and branches to a new label when they differ |
| `Parsing.Parser.FEndof` | compiler/parser.cc:1091-1101 | ENDOF jumps to the break label and places the label of its OF |
| `Parsing.Parser.FEndcase` | compiler/parser.cc:1103-1116 | ENDCASE places the break label and drops the selector |
| `Parsing.Parser.FCondIfdef` | compiler/parser.cc:283-295 | [IFDEF] and [IFUNDEF] push whether the name, in lower case, is given or is not, whatever the conditions around them |
| `Parsing.Parser.FCondElse` | compiler/parser.cc:297-307 | [ELSE] turns the innermost condition and leaves the others; without one it complains once and changes nothing else |
| `Parsing.Parser.FCondThenEndif` | compiler/parser.cc:309-322 | [THEN] drops the innermost condition and leaves the others; without one it complains once and changes nothing else |
| `Parsing.Parser.FDefinedword` | compiler/parser.cc:466-494 | a colon definition takes its name, pushes its exit label and opens a definition; for a taken name it only complains and pushes the label |
| `Parsing.Parser.FNonameword` | compiler/parser.cc:496-505 | a nameless word does the same under a made-up name |
| `Parsing.Parser.FSemicolon` | compiler/parser.cc:507-531 | the end of a word places its exit label and ends it; a nameless one leaves its address at top level |
| `Parsing.Parser.FCodeword` | compiler/parser.cc:1131-1152 | CODE takes its name and opens a definition, or complains |
| `Parsing.Parser.FCode` | compiler/parser.cc:1154-1181 | a line of assembler is added up to its comment, which a backslash or hash sign outside of strings starts, and without the blanks at its end, when anything is left |
| `Parsing.Parser.FEndCode` | compiler/parser.cc:1183-1191 | END-CODE ends the definition that is open |
| `Parsing.Parser.ParseCleanup` | compiler/parser.cc:128-158 | the last checks complain once each when stacks are not empty, a definition is open, or an exit label is left |
| `Parsing.Parser.Handle` | compiler/forth.y:50-58 | one call as the grammar makes it: handlers of conditions always run, all others only while no condition is false; each does what the step function says, complaints and stacks included |
| `Parsing.Parser.Parse` | compiler/parser.cc:59-158 | the calls of a whole file one after the other, given up after twenty complaints, then the end of the file and the last checks, which change the number of complaints only: it ends at zero if and only if there were none before and both label stacks, conditions, definition and exit label are closed |
| `AssemblerLines.StripLine` | compiler/parser.cc:1154-1181 | what is left of a line of assembler: a prefix without comment and without blanks at its end, behind which come only blanks up to the end of the line or a backslash or hash sign outside of strings, where strings are told by a scan from left to right |
| `AssemblerLines.StrippedOnly` | compiler/parser.cc:1154-1181 | and nothing else is such a prefix |
| `AssemblerLines.PlainLine` | compiler/parser.cc:1154-1181 | a line without backslash and hash sign and without blanks at its end stays as it is |
| `AssemblerLines.CodePartOnce` | compiler/parser.cc:1154-1181 | what is left has no comment: doing it again changes nothing |
| `Tokens.LimitedRun` | compiler/parser.h:64-68 | giving up only shortens runs that have twenty complaints, and from then on nothing is read |
| `Tokens.FinishedChecks` | compiler/parser.cc:128-158 | the end of a run changes the number of complaints only, and leaves none exactly when there were none and nothing is open |
| `CleanSources.ClearIs` | compiler/parser.cc:245-1152 | what a file does to names, one event after the other, goes well exactly when each name that is given is new, the first code at top level finds the name of the main word free, and RECURSE, LEAVE, ?LEAVE and WHILE stand where they may |
| `Conditions.ConditionsAreErasure` | compiler/forth.y:50-58 | for every matched sequence of calls, conditionals nested in any way, also around parts of other structures and with any number of [ELSE]s, the parser's state, complaints or not, is the one that the sequence without its inactive branches leads to; when it gives up, the two differ in open conditions only |
| `Conditions.SameEnding` | compiler/parser.cc:59-158 | so the parser finishes with the same table, names, stacks and complaints on both |
| `ConditionalSources.SourceActive` | compiler/forth.y:166-171 | the calls for a source have matched conditionals, and what is left of them are the calls for the source without its inactive branches |
| `ConditionalSources.SourceIsErasure` | compiler/parser.cc:262-321 | so the parser finishes alike on a source and on what is left of it |
| `ConditionalSources.ActiveFinishes` | compiler/forth.y:97-228 | for every file that spells a source once inactive branches are deleted: no handler misses a label, there is no complaint if and only if all that the source does to names is clear, and then the table is the code of the source under distinct names |
| `Grammar.StatementReads` | compiler/forth.y:144-228 | whatever the nesting: both label stacks are as before, errors or not, and without errors exactly the statement's code is emitted with the labels it takes |
| `Grammar.SourceConsumes` | compiler/forth.y:97-142 | definitions, CODE words, declarations and statements: without errors the table grows by their code in order, and the names of words and variables are new, distinct, taken and, with top-level code, none is the main word |
| `Grammar.SourceFinishes` | compiler/parser.cc:59-158 | there is no complaint if and only if every name given is new and every word stands where it may; unless the parser gives up, its stacks end empty and its last checks never complain; without complaints the table is the code of the source and its names are distinct |
| `Layout.CodeLabels` | compiler/parser.cc:810-1116 | every statement emits each label it takes exactly once, and no others |
| `Layout.CodeTargets` | compiler/parser.cc:533-1116 | every branch of a statement goes to one of its own labels, the innermost break label or the exit label |
| `Programs.RawLabels` | compiler/parser.cc:466-1116 | a whole source emits each label it takes exactly once |
| `CompiledLoops.Emitted` | compiler/parser.cc:810-1116 | the emitted code of any nested statement, placed anywhere in a compiled table, does what the statement means: same stacks and memory, same way to complete, break, exit, trap, or go on |
| `CompiledLoops.CallEmitted` | compiler/parser.cc:466-1129 | a call of any word of a compiled table is seen to end as its statements do, and needs more fuel whenever they do |
| `Programs.CompiledCalls` | compiler/parser.cc:466-1129 | a compiled word can end with a result exactly when its statements can |
| `LoopCounts.LoopRuns` | compiler/parser.cc:844-974 | a loop whose bodies complete and leave the return stack alone runs its body exactly as often as the trip count says for any limit, start and step, restores the return stack, and does not end with less fuel |
| `LoopCounts.DoRuns` | compiler/parser.cc:844-974 | the same for whole DO and ?DO loops; ?DO with equal limit and start runs nothing, whatever the body |
| `LoopCounts.TripsNext` | compiler/parser.cc:887-974 | the trip count falls by one with every count that goes on and is one at the last, wrap-around included |
| `LoopCounts.UsualTrips` | compiler/parser.cc:922-974 | below a distance of 2^31 the trips of +LOOP are the quotient rounded up when counting up, and rounded down plus one when counting down |
| `LoopCounts.EndlessLoop` | compiler/parser.cc:922-974 | a step of zero below the limit never ends |
| `OpcodeTables.OpcodeTable.SynthesizeMain` | compiler/optable.cc:90-131 | the opcodes outside definitions are gathered, in order, in a main word behind all others; nothing changes when there are none |
| `Definitions.WithMainIsJoin` | compiler/optable.cc:90-131 | what the parser emits becomes one closed definition after the other, in source order, the main word last with exit label 0 |
| `Definitions.WithMainKeeps` | compiler/optable.cc:90-131 | every opcode is kept exactly once; only the three of the main word are added |
| `Programs.FinishedWellFormed` | compiler/optable.cc:90-131 | for every source read without complaint the finished table is well formed and every branch stays inside its definition |
| `Programs.FinishedCompiled` | compiler/optable.cc:90-131 | and it holds the code of every word, of every CODE word and of the main word, and no other definitions |
| `Programs.SourceToOptimized` | compiler/program.cc:56-72 | source to optimized table: after any number of rounds every word ends exactly as the statements of its source |
| `Compilers.SourceSpells` | compiler/forth.y:97-228 | the calls for any source, conditionals and all, are input for Compile |
| `Compilers.Compile` | compiler/program.cc:56-72 | parse, main word, optimizer as one run, conditionals anywhere: the file is taken without complaint if and only if every name it gives is new and every word stands where it may, and then the result is well formed, its branches stay inside their definitions, and it is faithful to the source; with the optimizer it is the joined definitions after 1 to 32 rounds, in normal form unless the last of 32 still changed something |
| `Allocators.Allocator.Arena` | runtime/alloc.ft:60-65 | the arena is set up empty on first use; no cell reads differently |
| `Allocators.Allocator.AllocSize` | runtime/alloc.ft:67-75 | the size at an address inside the arena when it is not negative, else zero |
| `Allocators.Allocator.AllocDefrag` | runtime/alloc.ft:102-113 | exactly the run of free blocks at this place becomes one; blocks in use and their contents stay |
| `Allocators.Allocator.AllocSlot` | runtime/alloc.ft:115-128 | finds the block that first fit over coalesced blocks finds, or the end; both loops end |
| `Allocators.Allocator.Allocate` | runtime/alloc.ft:130-153 | negative sizes are refused; else a new block of exactly the rounded size, found by first fit, is added to those in use, the headers still tile the arena, and no other block's contents change |
| `Allocators.Allocator.Free` | runtime/alloc.ft:155-161 | refused addresses change nothing; else the cell before the address is negated and no other changes, which for a block in use frees exactly that block |
| `Allocators.Allocator.Resize` | runtime/alloc.ft:163-198 | moves, keeps or splits: the block has the size asked for and less than eight bytes more, with its old contents as far as they fit, the rest or the old block becomes a free block, and all other blocks are untouched |
| `Allocators.Allocator.ValidApart` | runtime/alloc.ft:22-34 | in every reachable state blocks in use are aligned, disjoint, apart by a header, and inside the arena |
| `Arenas.FirstFit` | runtime/alloc.ft:115-128 | the block found is the lowest free one, after coalescing, that has the size or at least two cells more |
| `Arenas.AllocatedLive` | runtime/alloc.ft:130-153 | allocating adds one block apart from all others and extends the arena only when no free block fits |
| `Arenas.SearchSucceeds` | runtime/alloc.ft:102-128 | while some free block fits, the search never reaches the end, whatever is merged on the way |
| `Arenas.FreeThenAllocate` | runtime/alloc.ft:130-161 | freeing a block and asking for as much never extends the arena |
| `Allocators.FreeIsRefused` | runtime/alloc.ft:67-75 | the address of a block that is free is refused |
| `Allocators.OutsideIsRefused` | runtime/alloc.ft:67-75 | so is every address that is not in the arena behind its first header |
| `Allocators.UsedIsKnown` | runtime/alloc.ft:67-75 | the address of a block in use is known with its size |
| `Exceptions.Runtime.EnterCatch` | runtime/except.ft:81-86 | CATCH saves depths, previous handler and context on the return stack and becomes the handler |
| `Exceptions.Runtime.LeaveCatch` | runtime/except.ft:90-93 | a normal return drops the frame, restores the handler and leaves zero |
| `Exceptions.Runtime.Throw` | runtime/except.ft:95-155 | word by word: zero is dropped, a second exception and an uncaught one end the program, -6 is never caught, -56 quits, on an empty data stack it throws underflow instead, and else the stacks become what the handler's frame says with the code in place of the xt |
| `Handlers.ChainDescends` | runtime/except.ft:73-93 | the handlers form a chain of frames at strictly decreasing addresses that ends in zero |
| `Handlers.StepOrderly` | runtime/except.ft:81-155 | every step keeps that chain, with each frame's context naming its CATCH, and leaves no exception flag up |
| `Handlers.RunOrderly` | runtime/except.ft:81-155 | so it holds after any number of steps of any program |
| `Handlers.ProgramOrderly` | runtime/except.ft:73-155 | a program started outside any CATCH: after any number of steps the handlers form a descending chain that ends in zero, and no flag is up |
| `Handlers.ThrowResumes` | runtime/except.ft:132-155 | a THROW resumes what follows the innermost CATCH with data, return and float depths as recorded, the code on top, and the previous handler |
| `StructuredExceptions.MachineAgrees` | runtime/except.ft:81-155 | for any nesting of CATCH the machine with frames and handlers does what exceptions mean without them |
| `StructuredExceptions.ProgramAgrees` | runtime/except.ft:81-155 | whole programs finish, abort or quit exactly as they mean to, and go on forever exactly when they should |
| `StructuredExceptions.EmptyCatch` | runtime/except.ft:81-86 | CATCH on an empty data stack catches its own underflow and then ends the program by a second one |
| `Manglers.Mangle` | compiler/mangler.cc:84-169 | the loop over characters, with its limit, is the fold that the theorems on ordinary and on restricted names are about |
| `Manglers.Demangle` | compiler/mangler.cc:171-264 | the loop over what is left, trying code, name and character in turn, is the one that the theorems are about; a string without the prefix only gets two underscores, and one with it never gets longer |
| `MangledNames.MangledIsIdentifier` | compiler/mangler.cc:84-169 | outside the form with two underscores the result is an identifier of at most 4080 characters |
| `MangledNames.DemangledMangled` | compiler/mangler.cc:84-264 | exactly what comes back: the part encoded before the limit, with what looks like a code taken for one |
| `MangledNames.RoundTrip` | compiler/mangler.cc:84-264 | the lowered name comes back if and only if it has no x with two digits at the front, no z with a digit at the front, no later _x with two digits, and all of it is encoded; reserved names come back as they are |
| `MangledNames.DistinctSymbols` | compiler/mangler.cc:144-169 | so names that come back and differ in more than case get different symbols |
| `MangledNames.ReservedAlone` | compiler/mangler.cc:144-169 | a reserved name shares its symbol with no other name of this form |
| `MangledNames.ShortName` | compiler/mangler.cc:84-264 | up to 312 characters the limit does not matter: only what looks like a code does |
| `MangledNames.LongName` | compiler/mangler.cc:84-110 | names longer than the limit by more than one character never come back |
| `MangledNames.NotReadable` | compiler/mangler.cc:171-241 | names on which the round trip fails, one for each of the three forms |
| `RestrictedNames.RestrictedTrip` | compiler/mangler.cc:144-264 | names that start with two underscores: the symbol is what follows them and demangling gives the name back, case included, if and only if what follows is made of letters, digits and underscores, starts with no digit, has at most 4065 characters, does not start with v4_ and is not reserved |
| `RestrictedNames.RestrictedDistinct` | compiler/mangler.cc:144-169 | so such names that differ at all, if only in case, get different symbols |
| `RestrictedNames.OrdinaryForm` | compiler/mangler.cc:144-169 | every other name that is not reserved gets the prefix and the restricted symbol of its lowered form |
| `RestrictedNames.CalledBySymbol` | demos/features.ft:23-27 | two underscores and the symbol of a name stand for that symbol, if and only if it has at most 4065 characters: words can be called by their symbols |
| `MangledNames.TrueSymbol` | compiler/optimize.cc:203-216 | the symbol that the optimizer takes for true is the one of TRUE |
| `MangledNames.FalseSymbol` | compiler/optimize.cc:203-216 | and that for false the one of FALSE |
| `MangledNames.TypeSymbol` | compiler/parser.cc:540-571 | the word that strings are handed to is _type |
| `MangledNames.AbortSymbol` | compiler/parser.cc:595-635 | and that for abort strings _abortquote |
| `NumberIO.Converter.Hold` | runtime/io.ft:55-56 | puts one character in front of the text |
| `NumberIO.Converter.Hash` | runtime/io.ft:58-65 | puts the last digit in front and leaves the quotient |
| `NumberIO.Converter.HashS` | runtime/io.ft:67-71 | puts the numeral in front, if and only if the first quotient is below 2^31; else one digit only, which is not the numeral, because the test is signed |
| `NumberIO.SignEndsEarly` | runtime/io.ft:67-71 | a double number for which it fails: 5 in the high cell and 0 in the low one, in base ten |
| `NumberIO.Converter.PrintAndRead` | runtime/io.ft:52-126 | the words in a row: for every cell the numeral is printed, and read back it gives the cell with nothing left over |
| `NumberIO.Converter.ToNumber` | runtime/io.ft:103-126 | takes exactly the characters up to the first that is no digit of the base and leaves the rest; the low cell is the start value with those digits, modulo 2^32, and the high cell what the last digit makes flow over |
| `NumberIO.ReadFromZero` | runtime/io.ft:103-126 | from zero, digits of a number below 2^32 give that number and a high cell of zero |
| `NumberIO.PrintThenRead` | runtime/io.ft:52-126 | for every cell, every base from 2 to 36 and any mixture of cases, reading the printed numeral gives the cell back with nothing left over |
| `NumberIO.CellLength` | runtime/io.ft:39-56 | a printed cell fits in the buffer |
| `NumberIO.NumeralIsNumeral` | runtime/io.ft:58-71 | the numeral has digits of the base, letters of the case asked for, the value of the number and no extra zero in front |
| `NumberIO.OnlyNumeral` | runtime/io.ft:58-71 | and it is the only such string |
| `Maths.MTimesExact` | runtime/maths.ft:134-135 | m* is the exact 64-bit product of any two signed cells |
| `Maths.DNegateValue` | runtime/maths.ft:125-126 | dnegate negates a double if and only if it is not the least one |
| `Maths.SToDExact` | runtime/maths.ft:143-144 | s>d keeps the value of every cell |
| `Maths.SmRemTruncates` | runtime/maths.ft:92-111 | sm/rem gives the truncated quotient and a remainder of the dividend's sign exactly when the quotient fits, and is refused else |
| `Maths.FmModFloors` | runtime/maths.ft:116-120 | fm/mod is floored division, with a remainder of the divisor's sign, if and only if the floored quotient fits in a cell |
| `Maths.LeastQuotient` | runtime/maths.ft:116-120 | a dividend for which the truncated quotient fits, the floored one does not, and fm/mod wraps around |
| `Maths.SlashModExact` | runtime/maths.ft:149-150 | /mod is exact, with a remainder of the dividend's sign, for all cells but the least one by minus one |
| `Maths.StarSlashModExact` | runtime/maths.ft:158-159 | */mod loses nothing between the product and the quotient, and its remainder has the sign of the product |
| `Maths.ByZeroOnly` | runtime/maths.ft:92-159 | the four words raise the exception for division by zero for a divisor of zero and for no other |
| `Codegen.PushStands` | runtime/stack.ft:107-121 | the push routine stores eax and counts, from any flags; eax, ecx and edx are kept, esi and edi are lost to the addresses of index and stack |
| `Codegen.PushFull` | runtime/stack.ft:107-121 | on a full stack of 4080, 2032 or 6 cells it raises overflow of that stack, with stacks and memory as they were until then, when no stack exception is being handled already |
| `Codegen.PopStands` | runtime/stack.ft:135-150 | the pop routine takes the top into eax and keeps ecx and edx, while esi and edi are lost; on an empty stack it raises underflow with stacks and memory as they were |
| `Codegen.PushAgrees` | compiler/codegen.cc:617-630 | a push of either register through eax is the push of the machine |
| `Codegen.PopAgrees` | compiler/codegen.cc:632-645 | a pop into either register through eax is the pop of the machine |
| `Codegen.LoadAgrees` | compiler/codegen.cc:518-542 | the xor, inc and dec forms load the same as the immediate one modulo 2^32 |
| `Codegen.AddAgrees` | compiler/codegen.cc:647-703 | so do the inc and dec forms of adding and subtracting |
| `Codegen.ShortForms` | compiler/codegen.cc:518-703 | optimized code never names zero, one or minus one to load, add or subtract them, and code that is not optimized always does |
| `Codegen.PlainAgrees` | compiler/codegen.cc:518-712 | the code of every opcode that neither branches nor calls does what it does, whatever the flags were: no flag is live across opcodes |
| `Codegen.TestAgrees` | compiler/codegen.cc:721-797 | the comparison in front of a conditional jump decides it as the opcode does, whatever the flags were |
| `GeneratedCode.LabelFound` | compiler/codegen.cc:504-509 | jumps find the code of the opcode that the branch goes to |
| `GeneratedCode.CodeFollows` | compiler/codegen.cc:504-797 | however many straight-line and branching opcodes are run, the generated code gets to the same place in the same state, or ends with the same exception and the same stacks and memory |
| `GeneratedCode.MoveIsRun` | compiler/codegen.cc:504-797 | those steps are the steps of the machine that the optimizer's theorem is about |
| `GeneratedCode.TrapFollows` | compiler/codegen.cc:504-797 | when a run of the machine ends in a trap, with room for every push on the way, the generated code ends with that exception, the same stacks and the same memory |
| `GeneratedCode.TrapComes` | compiler/codegen.cc:504-797 | and when the generated code ends with an exception, the machine has a run that traps like that |

## Left out

- Parsing.Parser.FWord: what a name stands for (variable, constant, word) is given with the statement; the symbol table only keeps which names are taken.
- Compilers.Compile: after a syntax error the grammar goes on behind the next word, which changes which calls are made; files of that kind never compile without complaint and are not spelled by any source.  A definition or END-CODE without its beginning, which the grammar refuses, is not input either.
- Parsing.Parser.Parse: calls for which a handler finds no label of its own are not input, since the compiler stops on an assertion there; the grammar makes such a call only when a conditional separates the halves of a structure.
- Parsing.Parser.FNonameword: the made-up name is a parameter; that it may be taken already, where the compiler stops on an assertion, counts as a complaint.
- Allocators.Allocator.Allocate: a failed break extension, which raises an exception with the header already written.
- Allocators.Allocator.Resize: addresses that were never handed out but pass the size check, which the allocator says it does not detect.
- Allocators.Allocator.Move: memory is by cells, so that copying is too; the general word for moving bytes is not modelled.
- StructuredExceptions.MachineAgrees: the host stack is a list of continuations and its saved context the height of that list; programs whose bodies leave the return stack unbalanced at the end of a CATCH are cut off as stuck.
- Exceptions.Runtime.Throw: what is printed for uncaught exceptions.
- NumberIO.Converter.Hash: a high cell not below the base, for which the processor refuses the division.
- Codegen.PlainAgrees: stacks have room for what is pushed, since the machine's stacks have no bound; the float stack is the processor's own and holds bit patterns.
- Codegen.PushFull: a push on a full stack while a stack exception is being handled, which the routine lets through.
- GeneratedCode.CodeFollows: calls, definitions, assembler lines and position-independent addressing.
- Lexing, error messages, line numbers, listings, warnings about unreachable code, profiling and debugging information.
- Checks on literals and strings (range, length) that only lead to complaints, and declarations of arrays.
- The optimizer's own bookkeeping of opcode objects: opcodes are values here.
- Links between modules: weak symbols that replace an inlined word, and programs that define the words for true and false anew.
- Floating point, system calls, error number tables, and the rest of the runtime library.
