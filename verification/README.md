# The newm2 compiler, modelled and proved

newm2 compiles Modula-2. These modules model the parts of it in which a mistake would
change what a program does, and prove what each part is for.

- **Lowering** (`Source`, `Ir`, `Machine`, `Builder`, `LowerSpec`, `Lowering`, ...,
  `Preservation`): structured statements become a control-flow graph of basic blocks.
  `Source` says what statements mean, without blocks or jumps; `Machine` runs a graph
  instruction by instruction; `Lowering` is the imperative lowering, proved to build the
  graph the functions of `LowerSpec` describe. `Preservation` proves that the finished
  graph and the statements end alike, or run forever alike, for every well-formed list of
  statements. `CfgTheorem` proves the graph sound and `CfgRuns` what that is worth when it
  runs, `SourceLaws` which statements mean the same, `ForArith`, `ForOwn` and `Operators`
  say when 64-bit arithmetic is right, and `ArrayIndex` and `SetMask` what indices and set
  constructors name.
- **Protected procedures** (`ProtectedSpec`, `ProtectedMeaning`, `ProtectedTrace`,
  `CfgWrapper`): the wrapper around EXCEPT, FINALLY and RETRY.
- **Block order** (`Rpo`) and **captures** of nested procedures (`Captures`).
- **Conditional compilation** (`Directive`, `Preprocessor`, `PreSpec`, `PreTree`,
  `PreLayout`, `PreLaws`, `PreAgain`): %IF blocks as a tree, and what stays as it was.
- **Objective-C type encodings** (`Encoding`, `EncodingTrip`, `EncodingLaws`, `Layout`,
  `Measures`, `Leaves`, `HfaReturn`, `AbiClass`): parsing and printing, C layout, and the
  return class against section 6.9 of the AAPCS64.
- **Memory for compiled code** (`Jit`, `Unwind`, `EhFrame`): the bump allocator, the
  unwind table made ready for binary search, and the walk over .eh_frame records.
- **The daemon's pipe** (`Lossy`, `Server`, `Words`) and **closing unfinished programs**
  (`Closers`, `OpenBlocks`).

Where the code falls short of what it is for, the model keeps the code as it is, and a
lemma says for which inputs exactly it is right:

| where | right exactly when | an input it fails on |
|---|---|---|
| FOR over a wide range | `ForArith.ForIsRightIff` | `ForArith.WideStops`, `ForArith.MinNeverRight` |
| FOR over a CARDINAL variable | `ForArith.CardinalForIsRightIff` | `ForArith.WholeRangeRunsNothing` |
| CASE over a CARDINAL selector | `CaseMeaning.CaseIsRightIff`, `CaseMeaning.LabelIsRightIff` | `CaseMeaning.WideRangeIsMissed`, `CaseMeaning.BackwardRangeIsTaken` |
| FOR over a variable of the module | `ForOwn.ForIsRightIffOwn` | `ForForeign.ForeignForIsLost` |
| `/` on INTEGER operands | `Operators.SlashIsRightIff` | `Operators.SlashGoesWrong` |
| nested procedures that share a name | `Captures.SharedNamesIff`, `Captures.AllNamesIff` | `Captures.SharedNameGoesWrong` |
| captured variables at a call | `Captures.CallPassesCapture`, `Captures.CallPassesNilIff` | |
| return class of a type | `AbiClass.AbiIsRightIff` | `AbiClass.CountWraps`, `AbiClass.EmptyArrayHides`, `AbiClass.UnionIsMissed` |
| preprocessing twice | `PreAgain.IdempotentIff`, comment by comment `PreAgain.CommentAgainIff` | `PreAgain.TangledCommentBreaksIt` |
| the short way past the preprocessor | `PreAgain.ShortWayIsRightIff` | `PreAgain.ShortWayTakesOpenComment` |
| frames on the pipe | `Server.FrameBackIff` | |
| closers for a cut program | `Closers.ClosersFinishIff` | |

One habit of the code that the model keeps: EXIT leaves the innermost loop of any kind,
where section 9.9 of Wirth's report speaks of LOOP.

Characters stand for bytes in `Directive`, the preprocessor and the encodings. Numbers of
the Rust code are unbounded here, and its widths are written out: `Wrap` for 64 bits,
`% TWO32` and `% TWO64` where a sum may come round, saturation where it saturates.

## Model

| member | source | states |
|---|---|---|
| `Preservation.LoweringPreservesMeaning` | src/newm2-ir/src/lower.rs:2004-2673 | for every well-formed statement list, every place the caller passed for a VAR or open-array parameter, and every bound on rounds: the finished graph, run from its entry, ends with the store, trace and outcome (return, abort, falling off) the statements mean, or is still running after at least as many steps as the statements have run rounds; a parameter passed by address is reached through that address and nowhere else |
| `Preservation.StoppedRunIsMeant` | src/newm2-ir/src/lower.rs:2004-2673 | the other direction: whenever the machine has stopped, the statements end, and the machine stopped as they say |
| `Preservation.DivergenceAgrees` | src/newm2-ir/src/lower.rs:2004-2673 | the machine runs forever exactly when the statements do |
| `Preservation.FallOff` | src/newm2-ir/src/builder.rs:151-171 | the end of an open block is a return in a proper procedure and a trap in a function |
| `StmtMeaning.StatementMeaning` | src/newm2-ir/src/lower.rs:2013-2315 | each kind of statement: same store, trace and way out (normal, EXIT, RETURN, RETRY, abort), landing in the block its context set aside for that way out |
| `StmtMeaning.ForRun` | src/newm2-ir/src/lower.rs:2404-2522 | FOR: start stored before end and step are evaluated, header test, body, room test, advance, as the meaning has it round by round |
| `CaseMeaning.SelectionAgrees` | src/newm2-ir/src/lower.rs:2590-2673 | with disjoint labels of the selector's type and no split range, the tests pick the arm the labels pick in their order, all ranges before all single labels, INTEGER or CARDINAL |
| `CaseMeaning.SelectedIsCaught` | src/newm2-ir/src/lower.rs:2602-2645 | any labels: when one arm at most has a test that lets the value through, that arm is selected, whatever the order of ranges and single labels |
| `CaseMeaning.LabelIsRightIff` | src/newm2-ir/src/lower.rs:2626-2645 | a label's test lets through exactly what the label covers, for every value, if and only if a single label is a value of the selector's type, and a range of such values has both bounds below 2^63 or both not |
| `CaseMeaning.SelectionIsRightIff` | src/newm2-ir/src/lower.rs:2626-2645 | value by value: it gets to the arm that labels it, or to the ELSE part, if and only if no range of a CARDINAL selector with 2^63 inside it labels it |
| `CaseMeaning.CaseIsRightIff` | src/newm2-ir/src/lower.rs:2590-2673 | every value gets to the arm that labels it, or to the ELSE part, if and only if no range of a CARDINAL selector has 2^63 inside it (bounds in order) |
| `CaseMeaning.BackwardsGoesWrong` | src/newm2-ir/src/lower.rs:2626-2645 | a range from 2^63 or above to a bound below labels nothing, and takes every value outside those bounds that no label has |
| `CaseMeaning.WideRangeIsMissed` | src/newm2-ir/src/lower.rs:2626-2645 | CASE c OF 1..0FFFFFFFFFFFFFFFFH with c = 5 runs the ELSE part |
| `CaseMeaning.BackwardRangeIsTaken` | src/newm2-ir/src/lower.rs:2626-2645 | CASE c OF 0FFFFFFFFFFFFFFFFH..5 with c = 3 runs the arm |
| `CaseMeaning.DispatchStep` | src/newm2-ir/src/lower.rs:2602-2645 | whatever the labels, the range tests and the switch bring the machine to the block they select |
| `ExprMeaning.ExpressionMeaning` | src/newm2-ir/src/lower.rs:3219-3364 | the code of an expression yields its value, effects and trace, or aborts as it does, and changes nothing else the surrounding code can see |
| `ExprMeaning.ShortCircuitMeaning` | src/newm2-ir/src/lower.rs:3743-3770 | AND and OR as control flow: the right operand runs exactly when the left does not decide |
| `ExprMeaning.BoundsExact` | src/newm2-ir/src/lower.rs:3078-3089 | wrapping subtraction and one unsigned comparison trap exactly the indices outside the dimension |
| `ExprMeaning.FlattenMeaning` | src/newm2-ir/src/lower.rs:6375-6452 | the address code of an index list computes its row-major rank without a 64-bit operation wrapping, or traps at the first index out of bounds |
| `ExprMeaning.OperatorMeaning` | src/newm2-ir/src/lower.rs:3772-3958 | binary operators on INTEGER, CARDINAL and BOOLEAN operands, with the check that raises an exception when /, DIV, MOD or REM divide by zero |
| `Operators.OperatorsAgree` | src/newm2-llvm/src/codegen.rs:2477-2575 | the machine instruction chosen for an operator computes it: DIV and MOD rounded down from a division towards zero, operands of CARDINAL types unsigned, everything modulo 2^64 |
| `Operators.QuotientFitsIff` | src/newm2-llvm/src/codegen.rs:2642-2675 | the quotient of the signed division underneath is a 64-bit number if and only if it is not the smallest INTEGER divided by -1 |
| `Operators.SlashIsRightIff` | src/newm2-ir/src/lower.rs:3863-3884 | `/` on INTEGER operands is an unsigned division: it gives the quotient it gives in a constant expression (src/newm2-sema/src/constant.rs:266-272) if and only if neither operand is negative, the divisor is 1, the operands are equal, or a dividend that is not negative is smaller in size than a negative divisor |
| `Operators.SlashGoesWrong` | src/newm2-ir/src/lower.rs:3863-3884 | -6 / 2 is -3 as a constant and 2^63 - 3 at run time |
| `ExprMeaning.CallMeaning` | src/newm2-ir/src/lower.rs:5258-5485 | arguments left to right, then the call; a call that never returns ends the run |
| `SourceLaws.DivisionRaises` | src/newm2-ir/src/lower.rs:3121-3132 | dividing by zero raises the exception that ISO 10514-1 calls wholeDivException, by its number in src/newm2-runtime/src/exceptions.rs:284-300, and nothing else happens |
| `SourceLaws.IndexRaises` | src/newm2-ir/src/lower.rs:3078-3089 | an index outside its dimension raises indexException |
| `SourceLaws.CaseRaises` | src/newm2-ir/src/lower.rs:2656-2670 | a CASE that has no label for the value and no ELSE raises caseSelectException |
| `SourceLaws.RuntimeIsCalled` | src/newm2-ir/src/lower.rs:5829-5878 | HALT, a failed ASSERT and RETRY call the runtime by these names, with these arguments |
| `SourceLaws.WhileIsLoop` | src/newm2-ir/src/lower.rs:2357-2380 | WHILE e DO s END means LOOP IF e THEN s ELSE EXIT END END, for every state and bound on rounds |
| `SourceLaws.RepeatIsLoop` | src/newm2-ir/src/lower.rs:2383-2401 | REPEAT s UNTIL e means LOOP s; IF e THEN EXIT END END |
| `SourceLaws.ElsifIsNested` | src/newm2-ir/src/lower.rs:2320-2354 | ELSIF means an IF in the ELSE part |
| `SourceLaws.Opposites` | src/newm2-ir/src/lower.rs:3743-3770 | NOT (a AND b) means (NOT a) OR (NOT b), down to what is evaluated; and the other way round |
| `SourceLaws.OppositeComparisons` | src/newm2-ir/src/lower.rs:3772-3958 | NOT (a < b) means a >= b, and so on, INTEGER or CARDINAL |
| `SourceLaws.IncAndDec` | src/newm2-ir/src/lower.rs:5891-5936 | INC and DEC by the same amount undo each other, also across the end of the range |
| `Builder.FuncBuilder.Append` | src/newm2-ir/src/builder.rs:115-120 | an instruction is appended to the active block, and dropped behind a terminator |
| `Builder.FuncBuilder.End` | src/newm2-ir/src/builder.rs:124-129 | the first terminator wins |
| `Builder.FuncBuilder.AddBlock` | src/newm2-ir/src/builder.rs:80-84 | block i has id i; nothing else changes |
| `Builder.FuncBuilder.Finish` | src/newm2-ir/src/builder.rs:151-171 | every block left open is sealed: a return in a proper procedure, else the trap |
| `Lowering.LowerFunction` | src/newm2-ir/src/lower.rs:1472-1520 | the whole driver builds exactly the graph the theorems speak of, with a slot of its own for a value parameter and a slot for the address of any other |
| `Lowering.FuncLower.EvalExpr` | src/newm2-ir/src/lower.rs:3219-3364 | the imperative evaluator leaves the builder where the specification function says |
| `Lowering.FuncLower.EvalShortCircuit` | src/newm2-ir/src/lower.rs:3743-3770 | slot, branch, right operand, join, load, in the code's order |
| `Lowering.FuncLower.EvalIndices` | src/newm2-ir/src/lower.rs:6375-6452 | index by index: subtract the bound, check, scale, add |
| `Lowering.FuncLower.LowerStmts` | src/newm2-ir/src/lower.rs:2004-2011 | statement by statement, until the block is terminated |
| `Lowering.FuncLower.LowerIf` | src/newm2-ir/src/lower.rs:2320-2354 | arm by arm, each false edge to the next |
| `Lowering.FuncLower.LowerWhile` | src/newm2-ir/src/lower.rs:2357-2380 | header, body, back edge, exit, loop frame pushed and popped |
| `Lowering.FuncLower.LowerRepeat` | src/newm2-ir/src/lower.rs:2383-2401 | body first, then the test |
| `Lowering.FuncLower.LowerFor` | src/newm2-ir/src/lower.rs:2404-2522 | setup, header, body, room test, advance, exit |
| `Lowering.FuncLower.LowerLoop` | src/newm2-ir/src/lower.rs:2525-2544 | LOOP with its exit block |
| `Lowering.FuncLower.LowerCase` | src/newm2-ir/src/lower.rs:2590-2673 | arm blocks reserved, dispatch, bodies, join |
| `Lowering.FuncLower.LowerReturn` | src/newm2-ir/src/lower.rs:2215-2254 | the frame is freed before the return; a protected function hands its value over |
| `Lowering.FuncLower.LowerProtectedWrapper` | src/newm2-ir/src/lower.rs:1916-2002 | the wrapper, with and without a handler |
| `SourceLaws.DefaultsAreOne` | src/newm2-ir/src/lower.rs:2432-2436 | INC and DEC without an amount, and FOR without BY, go by 1 |
| `ForArith.ForIsProgression` | src/newm2-ir/src/lower.rs:2404-2522 | when the distance fits 64 bits and the body spares the variable: the loop runs its body for start, start + step, ... and no other value, each stored unwrapped, and ends |
| `ForArith.LastValueStays` | src/newm2-ir/src/lower.rs:2404-2522 | the variable ends at its last value in range |
| `ForArith.ForIsRightIff` | src/newm2-ir/src/lower.rs:2404-2522 | for every body that spares the variable, does not EXIT and comes to its end for each value in range: 64-bit arithmetic ends the loop with the variable on its last value in range if and only if nothing lies in range, or step is not MIN and end - start (start - end for a negative step) is below 2^63 |
| `ForArith.ForStatementIsRightIff` | src/newm2-ir/src/lower.rs:2404-2522 | the same of the whole statement, start, end and step being evaluated first |
| `ForArith.CardinalForIsRightIff` | src/newm2-ir/src/lower.rs:2456-2472 | a FOR over a CARDINAL runs its body, whatever that is, for the unsigned numbers it is meant to run for, if and only if start and end are both below 2^63 or both are not |
| `ForArith.WholeRangeRunsNothing` | src/newm2-ir/src/lower.rs:2456-2472 | FOR c := 0 TO MAX(CARDINAL) runs no round |
| `ForArith.RoomTestIsExact` | src/newm2-ir/src/lower.rs:2484-2512 | for one advance: the room test lets the variable advance exactly when the next value is in range, if and only if the wrapped distance is the distance; MIN as step gets it right only by accident |
| `ForArith.WideStops` | src/newm2-ir/src/lower.rs:2484-2512 | when the distance does not fit, the loop stops after one round of its body, whatever that is, and is wrong |
| `ForArith.MinNeverRight` | src/newm2-ir/src/lower.rs:2484-2512 | with MIN as step the loop never ends at the right value, whatever its body |
| `ForArith.ProgressionIsExact` | src/newm2-ir/src/lower.rs:2404-2522 | a term of start, start + step, ... is in range exactly when it is one of the progression |
| `ForArith.SameEnd` | src/newm2-ir/src/lower.rs:2004-2673 | what a statement means does not depend on how many rounds are allowed, once it ends |
| `ForForeign.ForeignForIsLost` | src/newm2-ir/src/lower.rs:2410-2436 | one such loop, in full: a FOR over a module variable counts in a new slot, and the variable keeps the value it had |
| `ForOwn.ForIsRightIffOwn` | src/newm2-ir/src/lower.rs:2410-2436 | a FOR between literals with any well-formed body: the code does what the statement means from every state if and only if the variable has storage of its own in the function |
| `ForOwn.ForeignIsNeverChanged` | src/newm2-ir/src/lower.rs:2410-2436 | a FOR over any other variable, whatever its limits, step and body, in every world: its code leaves the variable as it is, as long as nothing called changes it and no other name means its place |
| `CfgTheorem.LoweredGraphIsSound` | src/newm2-ir/src/lower.rs:2320-2673 | every finished function: jumps go to blocks that exist, no register is defined twice, and on every path from the entry each use comes behind a definition |
| `CfgRuns.RunsHaveTheirRegisters` | src/newm2-ir/src/lower.rs:2320-2673 | however long a lowered function has run, from any state and whatever it called: it stands in one of its blocks, and every register its next instruction or jump uses has a value |
| `CfgRuns.UsesAndDefs` | src/newm2-ir/src/inst.rs:145-212 | an instruction depends on the registers it uses and no others, changes the one it defines and no others, and gets stuck without one it uses |
| `CfgRuns.JumpsToSuccessors` | src/newm2-ir/src/inst.rs:235-251 | a jump goes to one of its successors |
| `CfgRuns.SuccessorsAreTaken` | src/newm2-ir/src/inst.rs:235-251 | both ways of a branch, and the one of a plain jump, are gone from some state |
| `CfgSound.DefinedBeforeUse` | src/newm2-ir/src/lower.rs:2320-2673 | the same for one path, from the registers available at each block |
| `CfgSound.OneDefinition` | src/newm2-ir/src/builder.rs:73-77 | two instructions that define one register are the same instruction |
| `CfgTheorem.BodyIsSound` | src/newm2-ir/src/lower.rs:2004-2673 | the invariant behind it, through arbitrarily nested loops, CASE and short-circuit splits |
| `CfgWrapper.WrapperGraphIsSound` | src/newm2-ir/src/lower.rs:1916-2002 | the wrapper of a protected procedure: the same three facts, with and without a handler, a FINALLY part and a result |
| `ProtectedMeaning.WrapperPreservesMeaning` | src/newm2-ir/src/lower.rs:1916-2002 | the wrapper's code ends as running the protected procedure does, through any number of RETRYs |
| `ProtectedTrace.FrameFreedOnce` | src/newm2-ir/src/lower.rs:1889-2002 | on every run: a return has freed the exception frame exactly once, as its last call; raising the exception again has freed it exactly once, just before; an aborting run has not freed it |
| `ProtectedTrace.FinallyRunsOnce` | src/newm2-ir/src/lower.rs:1916-2002 | through any number of RETRYs: FINALLY (known by a call at its beginning) runs at most once, and exactly once when the procedure returns or passes the exception on, but for the runs that the handler's own RETURN ends, where it does not run |
| `Rpo.ReversePostOrder` | src/newm2-ir/src/func.rs:58-65 | the imperative traversal returns the list the following lemmas speak of |
| `Rpo.Traversal.Dfs` | src/newm2-ir/src/func.rs:67-80 | one visit marks and appends what the recursive specification says |
| `Rpo.SuccListExact` | src/newm2-ir/src/inst.rs:235-251 | a terminator's successors, a switch's sorted and without duplicates |
| `Rpo.OrderIsExact` | src/newm2-ir/src/func.rs:58-80 | exactly the blocks the entry reaches, once each, the entry first |
| `Rpo.RetreatingEdgesClose` | src/newm2-ir/src/func.rs:58-80 | for every edge to a block that is not later, the target reaches the source |
| `Rpo.PredecessorBefore` | src/newm2-ir/src/func.rs:58-80 | every block but the entry comes after one of its predecessors |
| `Rpo.DominatorsFirst` | src/newm2-ir/src/func.rs:58-80 | every dominator of a block precedes it |
| `Captures.ComputeCaptures` | src/newm2-ir/src/lower.rs:605-665 | whatever names the procedures have: terminates, and gives captures to nested procedures and no others; x is a capture of the last nested procedure of a name if and only if a chain of calls between nested procedures leads from it to a body that mentions x, each seeing x as the variable of a procedure around it; this is the least fixpoint |
| `Captures.CapturedIffNeeded` | src/newm2-ir/src/lower.rs:605-665 | a procedure captures a variable if and only if a chain of calls leads from it to a procedure that refers to the variable, which every procedure on the chain can see in an enclosing one |
| `Captures.NestedPositions` | src/newm2-ir/src/lower.rs:548-575 | the procedures computed for are the nested ones among all, each once, in order |
| `Captures.SharedNamesIff` | src/newm2-sema/src/analyze.rs:5852-5861 | one scope is kept per module and procedure name: nested procedures get their own captures, whatever their bodies refer to, if and only if all that share a name see no variable of an enclosing procedure, and the others see those of the scope kept |
| `Captures.AllNamesIff` | src/newm2-ir/src/lower.rs:1041-1053 | the same of all procedures of a module: nested ones get their own captures and the others none, whatever the bodies, if and only if nested names are safe and no other procedure shares its name with a nested one whose kept scope sees a variable of an enclosing procedure |
| `Captures.CaptureTypeFor` | src/newm2-ir/src/lower.rs:580-603 | the walk outwards finds a variable of an enclosing procedure or nothing |
| `Captures.CaptureIsSeen` | src/newm2-ir/src/lower.rs:580-603 | told without a walk: the name is captured if and only if the nearest scope around that declares it is that of a procedure further out, and declares it as a variable |
| `Captures.SharedNameGoesWrong` | src/newm2-ir/src/lower.rs:559-565 | two procedures of one name in different procedures: the first, which refers to a variable of the procedure around it, is not given it |
| `Captures.CallPassesCapture` | src/newm2-ir/src/lower.rs:5459-5471 | a call hands over the variable the callee means if and only if the name is not declared anew between the caller and the place of the callee's declaration |
| `Captures.CallPassesNilIff` | src/newm2-ir/src/lower.rs:5616-5621 | a call hands over NIL if and only if what the caller means by the name is no variable of its own or of a procedure around it; never where the name is not declared anew |
| `Captures.OuterCallPassesOwn` | src/newm2-ir/src/lower.rs:5616-5621 | a caller that is not nested passes its own variables |
| `ArrayIndex.FlatInside` | src/newm2-ir/src/lower.rs:6390-6446 | a selected sub-array lies inside the array |
| `ArrayIndex.FlatInjective` | src/newm2-ir/src/lower.rs:6390-6446 | different index lists select different places |
| `ArrayIndex.FlatOnto` | src/newm2-ir/src/lower.rs:6390-6446 | every element has an index list |
| `ArrayIndex.FlatSplits` | src/newm2-ir/src/lower.rs:6390-6446 | a list cut short selects the start of the sub-array the longer lists go into |
| `ArrayIndex.RankIsFlat` | src/newm2-ir/src/lower.rs:6375-6452 | a designator that does not raise an exception names the element its index values select |
| `ArrayIndex.SameElementSameIndices` | src/newm2-ir/src/lower.rs:6375-6452 | two designators of one array that name the same element have the same indices |
| `SetMask.Construct` | src/newm2-ir/src/lower.rs:3277-3328 | a set constructor's bits are exactly its elements, a range that ends before it begins being empty; it has a value exactly when all elements lie in 0..255 |
| `SetMask.InclExcl` | src/newm2-ir/src/lower.rs:5948-5973 | INCL and EXCL change the one bit they name |
| `Directive.EvalExpr` | src/newm2-lexer/src/preprocess.rs:528-751 | the recursive-descent evaluator computes the specification's value and accepts what it accepts |
| `Directive.PrintedEvaluates` | src/newm2-lexer/src/preprocess.rs:536-751 | every NOT/AND/OR/comparison tree, printed with only the parentheses precedence needs, evaluates to its meaning with nothing left over, a value being false if it is empty, 0 or the word false in any case |
| `Directive.NameDecides` | src/newm2-lexer/src/preprocess.rs:93-95 | a name alone holds if and only if it is defined and its value is not empty, not 0 and not f-a-l-s-e in any mixture of cases |
| `Directive.NumberDecides` | src/newm2-lexer/src/preprocess.rs:93-95 | a number alone holds unless it is 0 |
| `Directive.QuotedDecides` | src/newm2-lexer/src/preprocess.rs:93-95 | a string alone holds unless it is empty, 0 or the word false |
| `Directive.NamesCompare` | src/newm2-lexer/src/preprocess.rs:672-691 | = and # compare the values of names, a name without a value standing for itself |
| `Directive.NameIsText` | src/newm2-lexer/src/preprocess.rs:672-691 | a name equals a string if and only if its value is that text |
| `Directive.StrengthOfOperators` | src/newm2-lexer/src/preprocess.rs:615-670 | AND binds closer than OR, NOT closer than both, parentheses first; told on the text |
| `Directive.NoConditions` | src/newm2-lexer/src/preprocess.rs:528-533 | nothing, something left over, an open parenthesis, an operator without its right side: no condition, so the source is rejected |
| `Directive.SpacesInFront` | src/newm2-lexer/src/preprocess.rs:584-592 | blanks, tabs and line ends in front do not matter |
| `Preprocessor.PreprocessSource` | src/newm2-lexer/src/preprocess.rs:100-112 | cursor, buffer, environment and stack together compute the specification function, short way included |
| `Preprocessor.Preproc.CopyComment` | src/newm2-lexer/src/preprocess.rs:241-282 | nested comments, and pragmas inside them that close in time |
| `Preprocessor.Preproc.ReadExprThen` | src/newm2-lexer/src/preprocess.rs:458-526 | a condition is erased and handed to the evaluator in its spelling |
| `Preprocessor.Preproc.HandleDirective` | src/newm2-lexer/src/preprocess.rs:386-454 | the five directives on the branch stack |
| `PreSpec.RunsItems` | src/newm2-lexer/src/preprocess.rs:196-239 | running the source is scanning it into items and running those |
| `PreTree.FullPassIsRender` | src/newm2-lexer/src/preprocess.rs:196-239 | a source is accepted only if its items form a tree of IF blocks, and the output is then the rendering of that tree, pragma definitions threaded in order |
| `PreTree.OneBranchShown` | src/newm2-lexer/src/preprocess.rs:386-454 | of a shown block exactly the first branch whose condition holds is shown (none if there is none); all else is blanked |
| `PreTree.DeadNodes` | src/newm2-lexer/src/preprocess.rs:349-454 | under a dead branch everything is blanked and no pragma takes effect |
| `PreTree.LexIsLossless` | src/newm2-lexer/src/preprocess.rs:173-239 | the items are the source, byte for byte |
| `PreLaws.CommentIsScanned` | src/newm2-lexer/src/preprocess.rs:241-282 | a comment ends where all comments in it have ended, however deep, and keeps the pragmas in it; an open one is rejected |
| `PreLaws.LineCommentIsScanned` | src/newm2-lexer/src/preprocess.rs:196-239 | two slashes begin a comment that ends with its line |
| `PreLaws.StringIsScanned` | src/newm2-lexer/src/preprocess.rs:284-304 | a string goes from a quote to the next one like it in the same line, and else is rejected |
| `PreLaws.PragmaIsScanned` | src/newm2-lexer/src/preprocess.rs:320-347 | a pragma goes up to its first close, and is kept with its body |
| `PreLaws.WordsOfDirectives` | src/newm2-lexer/src/preprocess.rs:386-454 | %ELSE, %END, and %ELSIF with a spelled condition are the directives they spell |
| `PreLaws.BrokenConditions` | src/newm2-lexer/src/preprocess.rs:458-526 | a condition that does not end in %THEN, or has another word behind a percent sign than AND, OR and NOT, is rejected |
| `PreLaws.OtherWords` | src/newm2-lexer/src/preprocess.rs:386-454 | any other word behind a percent sign is rejected |
| `PreLaws.VersionsAreDefined` | src/newm2-lexer/src/preprocess.rs:349-373 | a VERSION, VALIDVERSION or VALIDVER pragma makes the names in its list true, and changes no others |
| `PreLaws.BlanksAround` | src/newm2-lexer/src/preprocess.rs:349-373 | white space around a pragma's body or a name in its list does not matter |
| `PreLaws.OtherPragmas` | src/newm2-lexer/src/preprocess.rs:349-373 | a pragma without a slash changes nothing |
| `PreLayout.LayoutKept` | src/newm2-lexer/src/preprocess.rs:173-194 | length and newline positions are kept, and every byte is itself or blank |
| `PreLayout.StaysUtf8` | src/newm2-lexer/src/preprocess.rs:100-112 | a UTF-8 source stays UTF-8: no character is cut in two |
| `PreLayout.SpelledIfDecides` | src/newm2-lexer/src/preprocess.rs:458-533 | an %IF with a condition spelled in source is taken exactly when the condition holds |
| `PreLayout.ReadSpelled` | src/newm2-lexer/src/preprocess.rs:458-526 | a condition spelled with %AND, %OR, %NOT reaches the evaluator as it prints |
| `PreAgain.Idempotent` | src/newm2-lexer/src/preprocess.rs:100-112 | preprocessing the output changes nothing, in any environment, if no comment ends in "<*)" |
| `PreAgain.SteadyIsIdempotent` | src/newm2-lexer/src/preprocess.rs:100-112 | more generally, if no comment that is shown and ends in "<*)" has, in what is shown behind it, a "*>" before every "*)" |
| `PreAgain.CommentAgainIff` | src/newm2-lexer/src/preprocess.rs:241-282 | a comment is read again as it was, whatever stands behind it now, if and only if it does not end in "<*)" or no "*>" comes before every "*)" behind it |
| `PreAgain.LeftAloneIff` | src/newm2-lexer/src/preprocess.rs:100-112 | the sources left as they are, in any environment: those without a percent sign, and those in which only whole text is scanned |
| `PreAgain.IdempotentIff` | src/newm2-lexer/src/preprocess.rs:100-112 | preprocessing an output again changes nothing if and only if the output has no percent sign or scans as text alone |
| `PreAgain.TangledCommentBreaksIt` | src/newm2-lexer/src/preprocess.rs:308-318 | an accepted source with such a comment whose output is rejected |
| `PreAgain.ShortWayIsRightIff` | src/newm2-lexer/src/preprocess.rs:100-112 | without a percent sign, the short way returns what the full pass returns if and only if the source scans; whenever the full pass succeeds they agree |
| `PreAgain.ShortWayTakesOpenComment` | src/newm2-lexer/src/preprocess.rs:100-112 | an unterminated comment passes the short way and not the full pass |
| `Encoding.Parse` | src/newm2-cocoa-encoding/src/lib.rs:119-122 | the parser computes the specification's type |
| `Encoding.Parser.Type` | src/newm2-cocoa-encoding/src/lib.rs:189-211 | on any text: ends, keeps its cursor inside, and consumes and builds what the specification says |
| `Encoding.Parser.Fields` | src/newm2-cocoa-encoding/src/lib.rs:282-304 | the loop over the fields of a struct or union |
| `Encoding.Parser.AggregateType` | src/newm2-cocoa-encoding/src/lib.rs:258-280 | opaque, empty and filled structs and unions |
| `EncodingTrip.RoundTrip` | src/newm2-cocoa-encoding/src/lib.rs:189-304 | the canonical text of any encodable type, followed by any text that does not start with a digit, is parsed to the type and consumed exactly |
| `EncodingTrip.TextsDiffer` | src/newm2-cocoa-encoding/src/lib.rs:189-304 | no two types share a canonical text, nor is one the beginning of another's but for a digit |
| `EncodingTrip.ParsesShapely` | src/newm2-cocoa-encoding/src/lib.rs:124-325 | whatever the text, the parser returns an encodable type, stray leaf codes aside |
| `EncodingTrip.Reparses` | src/newm2-cocoa-encoding/src/lib.rs:124-325 | parsing the canonical text of a parsed type gives the type back |
| `EncodingTrip.ObjectTakesName` | src/newm2-cocoa-encoding/src/lib.rs:217-232 | an object takes a quoted field name behind it for its class |
| `EncodingLaws.CodesMean` | src/newm2-cocoa-encoding/src/lib.rs:308-325 | every scalar code with its scalar: l and q, L and Q, d and D, and *, # and : alike |
| `EncodingLaws.OtherCodes` | src/newm2-cocoa-encoding/src/lib.rs:308-325 | every other code without structure is a type nothing is known about |
| `EncodingLaws.QualifiersAreSkipped` | src/newm2-cocoa-encoding/src/lib.rs:138-145 | qualifiers in front of a type do not matter |
| `EncodingLaws.NumbersAreRead` | src/newm2-cocoa-encoding/src/lib.rs:146-157 | the length of an array is the number spelled, or 2^64 - 1 if it is larger; the width of a bit-field is what is left of it in 32 bits |
| `EncodingLaws.PointersAreRead` | src/newm2-cocoa-encoding/src/lib.rs:189-211 | a pointer to any encodable type is a pointer, and its target is read over |
| `EncodingLaws.ObjectsAreRead` | src/newm2-cocoa-encoding/src/lib.rs:217-247 | an object, a block, a block with a signature in balanced brackets, an object of a class: pointers, of which nothing is left to be read |
| `EncodingLaws.OpaqueAggregates` | src/newm2-cocoa-encoding/src/lib.rs:258-280 | an aggregate that is only a name, or has no fields, is a type nothing is known about; an empty name is none |
| `Layout.SizeAlign` | src/newm2-cocoa-encoding/src/lib.rs:350-375 | the saturating code returns the true size, 2^64 - 1 in its place where that is smaller, and the true alignment, for every type |
| `Layout.LayStruct` | src/newm2-cocoa-encoding/src/lib.rs:378-391 | name, offset, size and alignment of every field, exact below the cap |
| `Layout.FieldsPacked` | src/newm2-cocoa-encoding/src/lib.rs:378-391 | fields are aligned, in order, disjoint, minimally padded and inside the struct |
| `Layout.SizeIsMultiple` | src/newm2-cocoa-encoding/src/lib.rs:350-375 | a size is a multiple of the alignment, at every depth |
| `Measures.ScalarsMeasure` | src/newm2-cocoa-encoding/src/lib.rs:51-62 | sizes and alignments of scalars, pointers and unknown types, in numbers |
| `Measures.BitfieldMeasures` | src/newm2-cocoa-encoding/src/lib.rs:350-375 | a bit-field takes the bytes its bits need, at least one, unaligned |
| `Measures.ArrayMeasures` | src/newm2-cocoa-encoding/src/lib.rs:350-375 | an array is its elements side by side, aligned as one of them |
| `Measures.StructMeasures` | src/newm2-cocoa-encoding/src/lib.rs:378-391 | each field at the first multiple of its alignment behind the one before, the struct ending at the first multiple of its own, which is the widest of its fields' |
| `Measures.UnionMeasures` | src/newm2-cocoa-encoding/src/lib.rs:350-375 | a union is as large as its largest field, up to the next multiple of its alignment, the widest of its fields' |
| `Leaves.LeavesFit` | src/newm2-cocoa-encoding/src/lib.rs:350-391 | every leaf at every depth is aligned and inside |
| `Leaves.LeavesApart` | src/newm2-cocoa-encoding/src/lib.rs:350-391 | without unions no leaf overlaps another, and they come in order |
| `HfaReturn.FindHfa` | src/newm2-cocoa-encoding/src/lib.rs:414-439 | the recursive search, counts narrowed and added in 32 bits |
| `HfaReturn.HfaExact` | src/newm2-cocoa-encoding/src/lib.rs:414-439 | for every type of fewer than 2^32 leaves: (w, c) is found if and only if the leaves are c floating-point numbers of w bits, there is no union, no struct without fields, no array without elements of anything else, and no array's count leaves 32 bits |
| `HfaReturn.HfaTells` | src/newm2-cocoa-encoding/src/lib.rs:414-439 | for every type: the leaves are numbers of the width found, there is no union, and the count is right modulo 2^32 |
| `HfaReturn.FloatsFill` | src/newm2-cocoa-encoding/src/lib.rs:350-439 | what the search sees through is filled without a gap: size c * w / 8, alignment w / 8, leaf k at k * w / 8 |
| `HfaReturn.ReturnClass` | src/newm2-cocoa-encoding/src/lib.rs:449-461 | the return class the code chooses |
| `Measures.ScalarStructClass` | src/newm2-cocoa-encoding/src/lib.rs:449-461 | a struct of scalars is returned in registers if and only if it is of 1 to 4 floats of one kind (counted modulo 2^32), or its scalars' bits, each aligned to its width, come to no more than 128 |
| `HfaReturn.HfaIff` | src/newm2-cocoa-encoding/src/lib.rs:414-439 | for every type: (w, c) is found if and only if the type is made of floating-point numbers of w bits wherever the search looks (no union, no struct without fields, arrays without elements included), no array's count leaves 32 bits, and c is the number of its leaves modulo 2^32 |
| `AbiClass.AbiIsRightIff` | src/newm2-cocoa-encoding/src/lib.rs:449-461 | for every type: the class is the one of section 6.9 of the AAPCS64 (a homogeneous aggregate of 1 to 4 members, unions counted by their largest member, its size that of its members together and its alignment that of one, or up to 16 bytes) if and only if no count has come round to 1..4 and the search has not missed such an aggregate of more than 16 bytes, behind a union, a struct without fields, an array without elements or an array too long to count |
| `AbiClass.CountWraps` | src/newm2-cocoa-encoding/src/lib.rs:425-435 | 2^32 + 1 floats are classed as returned in registers |
| `AbiClass.EmptyArrayHides` | src/newm2-cocoa-encoding/src/lib.rs:414-439 | an array of length 0 makes four doubles be returned in memory |
| `AbiClass.UnionIsMissed` | src/newm2-cocoa-encoding/src/lib.rs:414-439 | a union of three doubles and a double is returned in memory |
| `AbiClass.PaddedIsInMemory` | src/newm2-cocoa-encoding/src/lib.rs:449-461 | four floats with padding, because an array without elements aligns the struct, are no homogeneous aggregate: code and standard return them in memory |
| `Jit.Bump.Alloc` | src/newm2-llvm/src/jit_mm.rs:165-194 | for every request: a section if and only if something is asked for, the system commits, and the first place from the mark on that is a page start and aligned as asked leaves room up to the end of a page; the section is at that place, and the mark moves to that end |
| `Jit.GrantedIsInside` | src/newm2-llvm/src/jit_mm.rs:165-194 | whatever size is asked for: a section that is granted ends inside the reservation, and no sum on the way wrapped around; sizes near 2^64 are refused |
| `Jit.PlacedIff` | src/newm2-llvm/src/jit_mm.rs:165-194 | the place and the new mark, told with least multiples: a request that fits is granted, one that does not is not |
| `Jit.PlaceExists` | src/newm2-llvm/src/jit_mm.rs:165-194 | there is such a place, and such an end, for every request |
| `Jit.SectionsApart` | src/newm2-llvm/src/jit_mm.rs:165-194 | over every run of requests of any 64-bit sizes: sections aligned to page and request, inside the reservation, in order, disjoint |
| `Unwind.PackAndSort` | src/newm2-llvm/src/jit_mm.rs:376-392 | live entries packed and sorted to the front, the tail zeroed |
| `Unwind.Pack` | src/newm2-llvm/src/jit_mm.rs:376-384 | the packing loop keeps exactly the live entries, in order |
| `Unwind.SortIs` | src/newm2-llvm/src/jit_mm.rs:391-392 | the sort keeps every entry as often as it was |
| `Unwind.TableIsReady` | src/newm2-llvm/src/jit_mm.rs:376-413 | the table meets what a binary search relies on, if live entries do not overlap |
| `Unwind.FindAfterPacking` | src/newm2-llvm/src/jit_mm.rs:376-413 | binary search finds an entry for an address if and only if an original entry contains it |
| `Server.Pipe.ReadExact` | src/newm2-driver/src/server.rs:119-138 | exactly the bytes asked for, however they arrive |
| `Server.Pipe.WriteAll` | src/newm2-driver/src/server.rs:159-178 | all bytes, in pieces of any size |
| `Server.Pipe.ReadFrame` | src/newm2-driver/src/server.rs:140-157 | the frame at the front, read as text, or none |
| `Lossy.TextBack` | src/newm2-driver/src/server.rs:156-156 | text put into UTF-8 and read with replacements is the text |
| `Lossy.KeptIff` | src/newm2-driver/src/server.rs:156-156 | nothing is lost by reading bytes with replacements if and only if they are whole characters, one after the other (no overlong forms, no surrogates) |
| `Lossy.CutIsOneReplacement` | src/newm2-driver/src/server.rs:156-156 | the beginning of a character that is cut off is read as one replacement character, however many bytes it has |
| `Lossy.AsciiIsItself` | src/newm2-driver/src/server.rs:156-156 | a byte below 0x80 is read and written as itself |
| `Lossy.StrayIsOneReplacement` | src/newm2-driver/src/server.rs:156-156 | a byte that begins no character is read as one |
| `Server.FrameBackIff` | src/newm2-driver/src/server.rs:140-182 | a frame comes back, and what follows is untouched, if and only if it is at most 64 MiB long |
| `Server.FramesBack` | src/newm2-driver/src/server.rs:140-182 | any sequence of frames comes back |
| `Server.FrameIs` | src/newm2-driver/src/server.rs:180-182 | a frame byte by byte: the length in four bytes, the lowest first, and the payload |
| `Words.ReadWords` | src/newm2-driver/src/server.rs:188-241 | the word splitter computes the specification |
| `Words.QuoteBackIff` | src/newm2-driver/src/server.rs:188-241 | a word in braces is read back if and only if its braces are balanced |
| `Words.QuoteAllBack` | src/newm2-driver/src/server.rs:188-241 | any list of balanced words in braces is read back |
| `Words.LineBack` | src/newm2-driver/src/server.rs:188-241 | words in braces, in quotes and bare, between white space of any kind, are read as what they spell |
| `Words.SendAndReceive` | src/newm2-driver/src/server.rs:119-241 | requests quoted, encoded, framed, cut anywhere on the way, unframed, decoded and split are the same words |
| `EhFrame.EachFde` | src/newm2-llvm/src/static_dl.rs:109-127 | on every well-formed section, 32- and 64-bit lengths mixed: ends, reads only inside it, visits exactly the FDEs in order (section 10.6.1 of the Linux Standard Base Core Specification 5.0) |
| `EhFrame.RecordIs` | src/newm2-llvm/src/static_dl.rs:109-127 | a record byte by byte, with a length of 32 or of 64 bits, the lowest byte first |
| `Closers.SynthesizeClosers` | src/newm2-driver/src/main.rs:999-1065 | the token loop returns the closers of the blocks its stack machine has open |
| `Closers.StrictIsAfter` | src/newm2-driver/src/main.rs:1020-1055 | on well-nested text the forgiving stack is the strict one |
| `Closers.ClosersFinishIff` | src/newm2-driver/src/main.rs:999-1065 | a prefix of a well-nested program and its closers are well nested if and only if the prefix is not cut between a word and the name or stop that belongs to it |
| `Closers.NoFewerClosers` | src/newm2-driver/src/main.rs:999-1065 | no completion closes with fewer END and UNTIL |
| `OpenBlocks.OpenBlocksAreOpen` | src/newm2-driver/src/main.rs:999-1065 | what is open after blocks that have begun, with any whole pieces of program between them, is those blocks, each with its own kind of end; the first module's has the full stop |
| `OpenBlocks.CloseProgram` | src/newm2-driver/src/main.rs:999-1065 | an unfinished program is closed by what closes its open blocks, the innermost first |

## Left out

- ExprMeaning.OperatorMeaning: whole numbers and BOOLEAN only. REAL, COMPLEX, SIMD, string and set operators, bit operations and the sign extension of narrow INTEGER types are not modelled; whether an operator is unsigned, which the code takes from the types of the operands, is part of the operator here.
- Operators.OperatorsAgree: the smallest INTEGER divided by -1 wraps here, where the instruction set may leave it undefined; `Operators.QuotientFitsIff` shows it is the only such case.
- Types are erased: a value is 64 bits, BOOLEAN is 0 or 1. Records, pointers, open arrays, WITH, GUARD, RAISE with a value, type tests, Objective-C and COM calls, and garbage-collected allocation are not lowered here.
- What procedures outside the function do is a parameter (`World.call`): any answer, any change of memory, or never coming back. Raising an exception, HALT and a failed ASSERT never come back.
- Preservation.LoweringPreservesMeaning: CASE labels are disjoint, as the semantic analysis demands, and values of the selector's type, which it does not check; ranges of a CARDINAL selector lie on one side of 2^63, and FOR is over the function's own variables: `CaseMeaning` and `ForOwn` prove that the code is wrong otherwise.
- CaseMeaning.CaseIsRightIff: a CASE in which some range goes from 2^63 or above to a bound below is left to `CaseMeaning.LabelIsRightIff` and `CaseMeaning.BackwardsGoesWrong`: whether such a range does harm depends on which ranges come before it.
- PreAgain.SteadyIsIdempotent: sufficient only, since a comment read differently the second time may still end where it does no harm; `PreAgain.IdempotentIff` has the exact condition, on the output.
- ForArith.CardinalForIsRightIff: a step of the smallest INTEGER is left out here; `ForArith.MinNeverRight` has it.
- Array dimensions are not empty and their total fits 64 bits; the code leaves the indices of others unchecked.
- An array with fewer indices than dimensions is an address; read as a value it stands for its first cell.
- The allocation of the exception frame and the outlining of the protected statements: the wrapper starts with the frame in a register. The arms of an EXCEPT part are one list of statements.
- Captures: the walk over the syntax tree that collects declarations and references, the types of captured variables, and the HIGH values that go with open arrays.
- Preprocessor: messages and positions of errors, and reading files.
- Encodings: the sum of member counts wraps in 32 bits, as it does in an optimised build (a debugging build stops instead); the depth of recursion is not limited; which tier of calling convention a type needs is not modelled.
- Jit: rounding up by a mask is written as arithmetic, equal for powers of two; a commit succeeds only for pages inside the reservation, and is otherwise any yes or no. Page protection, registration of the table with the operating system, and its check of the first entry are not modelled.
- Unwind: the library's stable sort is an insertion sort.
- Server: what the operating system does with a pipe is a list of chunks of any sizes; requests are words, not what they ask for.
- Closers: works on tokens; the lexer is not modelled.
- Parsing, semantic analysis (but for the one rule on scopes that `Captures` needs), code generation (but for the integer operators), the runtime and the driver.
