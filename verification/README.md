# luce-seed in Dafny

luce-seed compiles Luce Base to C and also interprets it. This project models the parts of it
that are hard to get right and proves what they are for: that the C means what the program
means, that the checker's analyses are sound for every run, that the tables with an index agree
with a plain scan, and that what is printed can be read back.

Each part follows its source. Code that updates fields, vectors and tables is a class or a method
with loops, proved to compute a function; the theorems are about that function. Recursive
predicates and evaluators are functions. Meaning is given by small evaluators: the outside
world is an arbitrary function of the events so far, and a run may take so many turns through
loops, the same number on both sides of a comparison, so a theorem for every world and every
number of turns covers every run.

- **Cleanup lowering.** `LuceSource` is the source language and its meaning, `CTarget` the C
  with forward jumps, `Lowering` the code written for each statement, with what is deferred
  written out again, with temporaries of its own, at every exit; `EmitterModel` is the emitter
  that writes it through its fields. `LoweringProof` and `LoweringTheorem` prove that meaning is
  kept, `CheckedExactly` says what the checker lets through, `EmitterTermination` says when the emitter finishes, `LoweringLimits` what becomes of
  accepted programs the theorem does not cover, `LoweringLabels` and `LoweringLabelsTheorem` when
  the labels written make a legal C function. `Executor` is the interpreter with its flags,
  `ExecutorModel` the interpreter updating its fields, `ExecutorTheorem` where it does what the
  program means and where it does not. `MatchLowering` and `MatchTheorem` are `match` and
  the `switch` or chain of `if`s written for it, `RangeLoops` is `for` over a range.
- **Flow analyses.** `FlowSource` is a larger statement language; `AlwaysLeaves`, `Pruning`,
  `PruningTheorem`, `InitCheck` and `InitTheorem` are the analyses and transformations over it,
  and that they never accept or drop too much. That they miss nothing is in `AlwaysLeavesExact`,
  `PruningComplete`, `InitExact` and `InitOnce`, with `Steering` for runs made to take a given way.
  `ConstFold` and `ConstFoldTheorem` are the constant arithmetic behind a folded condition.
- **Caught messages.** `HandledCheck` (the rules), `HandledCheckerModel` (the checker's fields),
  `HandledRuns` (runs that track which message a value views), `HandledTheorem` (what is accepted
  is safe), `HandledAccepts` (what is accepted) and `HandledEscapes` (what is reported escapes).
- **Types.** `Containment` and `ContainmentLayout` (by-value cycles), `TypeDefs`,
  `TypeDefsTheorem`, `TypeDefsText` and `TypeDefsEmitterModel` (the order of C definitions),
  `Interning` (one object per type), `Generics`, `GenericsChecker` and `GenericsInference`
  (matching, substitution and what is inferred), `CLayout`, `Layout`, `LayoutTheorem` and
  `LayoutAgreement` (sizes, alignments and offsets against C's).
- **Tables and orders.** `ScopeTable`, `CallArgs`, `CallOrder`, `CallEvaluation`, `Globals`.
- **Printers.** `Names`, `WindowsQuoting`, `ShellQuoting`, `CEscaping`, `Floats`.

`dafny verify dfyconfig.toml` checks everything.

## What turned out to be false

Some properties hold only under a condition. Each is stated with its exact condition and with an
input that fails.

- A loop label may be written twice in one C function: two loops in a row may share it, since the
  checker refuses only a label that is still open, and a loop inside something deferred is written
  once for every exit that passes it. The function is well labelled exactly when no label comes
  out twice, counted on the source (`WellLabelledIffWrittenOnce`, `CheckedYetDoublyLabelled`,
  `DeferredLoopDoublyLabelled`).
- Something deferred may leave after all: `defer try f()` in a fallible function, `recover` in a
  deferred suite inside a handler and `defer f() catch e: break` in a loop are accepted, and the
  emitter, writing the cleanup of the exit inside the cleanup, never finishes. It never finishes
  exactly when something is written that its own exits write again: a `defer` that can leave, an
  `errdefer` that can fail where a failure passes (`NeverEndsIffEndless`, `DeferTryNeverEnds`,
  `DeferRecoverNeverEnds`, `DeferBreakNeverEnds`, `ErrdeferTryNeverEnds`, `UnusedErrdeferEnds`). An
  `errdefer` that leaves without failing ends, and the failure in flight is lost
  (`RecoveringEnds`, `RecoveringErrdeferSwallows`). Meaning is proved kept when nothing deferred
  can leave, which is exactly what `SealedIffStays` spells out.
- An unnamed `break` or `continue` in a handler inside the condition of a `while` belongs to the
  loop around it, and in the emitted C to the loop it is the condition of
  (`ConditionBreaksThisLoop`, `ConditionContinuesThisLoop`, `JumpingConditionAccepted`).
- The interpreter keeps what is in flight in flags and does not look at all of them: a failing
  `x = try f()` stores all the same, a call is made although its argument broke out of a loop, a
  branch or a `with` body is begun although its condition jumped, a `return` replaces the value
  returned inside its own expression, and the allocator of a `with` is put back although the
  expression failed. On every body whose expressions leave only where it looks it does what the
  program means, and so what the emitted code does (`LoweringAgreesWithInterpreter`); statement by
  statement the exact runs are given (`AssignIff`, `CallIff`, `TryIff`, `IfIff`, `WithIff`,
  `ReturnIff`, `RecoverIff`, `ErrorIff`, `SetAllocatorIff`), with inputs (`FailingAssignStores`,
  `CatchBreakRunsOn`).
- A guard that fails in a `match` written as a `switch` falls into the next arm, whatever its
  patterns; in a statement the guard is not written at all; a guarded pattern may come back and
  is then a C case twice; and an unnamed `break` in an arm ends the `switch`, not the loop. For
  each form the exact arms and values it is right for are proved, for all guards and bodies
  (`ValueSwitchIff`, `StatementSwitchIff`, `LegalCasesIff`, `BreakEndsTheSwitch`, `TextIff`,
  `OptionalIff`; inputs `FallsIntoTwoRuns`, `GuardNotAsked`, `CaseTwice`, `BreakInMatchNeverEnds`,
  `TextRunsPast`, `SomeTwiceRuns`). A `match` on `bool` passes for exhaustive although a guard may
  fail (`GuardedTrueUncovered`).
- The interpreter compares the ends of a range pattern as unsigned words, so `-1..<2` takes
  nothing there and in the emitted `switch` takes what it means; the `switch` is over signed words,
  so a `u64` range across the middle takes nothing in C. Each takes what a pattern means exactly
  under a condition on its ends (`TakesIff`, `CaseIff`, `RangeAcrossZero`).
- The last bound of a `for` over a range is evaluated again on every turn of the emitted loop.
  Whatever the body does, that is the interpreter's loop exactly when the bound is constant and
  without effects, or the range is open and too short for a second turn (`AgreesIffConstant`,
  `ShrinkingBound`).
- Constant conditions are folded on unsigned 64-bit words, whatever their types: `STEP // 2 < 0`
  with `STEP` the `i32` constant -8 folds to false, and a sum too large for `u8` folds where the
  program traps. A constant folds to its value, at every node, exactly when every operation fits
  (`FoldRightIffFits`, `NegativeQuotientMisfolds`, `NarrowOverflowMisfolds`); `MisfoldedBranch`
  is a body whose wrong branch is kept, and pruning is proved for conditions that fit.
- Definite assignment keeps one bit per field in 64 bits and is sound exactly up to 64 fields
  (`SoundIffFieldsFitTheWord`, `PastTheWord`).
- A custom `init` is to assign every field exactly once, but the rules ask only whether every
  run has assigned a field by then: `if c: self.x = 1` and then `self.x = 2` is accepted and
  assigns it twice. What is accepted is characterised exactly (`AcceptedIff`), and an accepted body
  assigns each field once in every run exactly when the branches that complete assign the same
  fields (`OnceIffEven`, `TwiceAccepted`).
- Inference is meant to find the widest of several arguments, and for typed arguments does, in
  whatever order they come (`InfersTheWidest`, `OrderDoesNotMatter`). An untyped literal counts as
  an `i64` where it comes first and as nothing where it comes later, so `f(1, x)` and `f(x, 1)`
  differ; they agree exactly when `i64` widens to what the others infer (`LiteralMayMove`,
  `LiteralOrder`, `LiteralConflict`).
- `struct Node { rows: Node[3]* }` holds nothing of itself by value, yet its array typedef is
  written before the record; definitions are in order exactly when what they refer to has no
  cycle (`InOrderIffNoCycle`, `NodeOutOfOrder`).
- The optional of a generic interface forgets its arguments, so `Iterator[bool]?` and
  `Iterator[char]?` are one type, and unwrapping gives back the type it came from exactly when it
  is no such instance (`SameOptionalIff`, `OptThenNonNull`).
- Matching `T?` against an argument type with a null niche infers the optional, not the
  argument (`MatchingInvertsSubstitution`, `NicheInfersTheOptional`).
- `subst_type` does not look inside `@T`, nor into the arguments of an interface, so a type whose
  parameters are all inferred can still mention one after substitution, exactly when it has one
  there (`SubstitutedIsClosed`, `AtomicKeepsParameter`, `InterfaceKeepsParameter`).
- A struct or union without members has size 0 in the checker and an `int` in C, `align(N)` on a
  field of a packed struct moves the field in C only, and the layouts of `Error` and `Allocator`
  differ (`LayoutAgreesIffPlain`, `EmptyStructDiffers`, `PackedAlignDiffers`,
  `RuntimeRecordsDiffer`).
- Bytes outside the list of `spelling_code` share one letter (`SanitizeRoundTrip`,
  `UnlistedBytesCollide`).

## Model

| member | source | states |
|---|---|---|
| LoweringTheorem.LoweringPreservesMeaning | src/emit/stmt.cpp:19-134 | for every body whose deferred statements cannot leave, every world and every start, the emitted defer-free code has the source's result, event trace, variables, current allocator and turns |
| LoweringTheorem.SimStmt | src/emit/stmt.cpp:136-342 | one statement in any context of open scopes, handler and catch: its code leaves the way it leaves, after exactly the cleanup of the scopes it exits |
| LoweringTheorem.SimList | src/emit/stmt.cpp:119-134 | a block's statements, and what they deferred so far run once, newest first, whichever way the block is left |
| LoweringTheorem.SimWith | src/emit/stmt.cpp:99-117 | `with` puts the saved allocator back on every exit of its body, after what the body deferred |
| LoweringTheorem.SimCatch | src/emit/expr.cpp:292-342 | `catch` runs its handler on the failure, with cleanup down to the failure scope, and continues with the recovered value |
| LoweringTheorem.SimWhile | src/emit/stmt.cpp:624-670 | a labelled or unlabelled loop, its condition evaluated afresh each turn, and its jumps, over all its turns |
| LoweringProof.TryRuns | src/emit/expr.cpp:233-259 | a failing call under `try` cleans up with `errdefer` and jumps to the handler or returns the failure |
| LoweringProof.UnwindRun | src/emit/stmt.cpp:46-63 | unwinding code runs the deferred statements of every scope, inner first, each in the scopes outside it, and restores each saved allocator |
| LoweringProof.DefersRun | src/emit/stmt.cpp:19-34 | a scope's code runs what it deferred newest first, `errdefer` only on failure |
| LuceSource.BlockLeavesAllowed | src/check/stmt.cpp:447-459 | a checked block leaves only by jumps to open loops, by `recover` inside a handler, by return or by failure |
| CheckedExactly.ListAcceptedIff | src/check/stmt.cpp:445-500 | a block is accepted at a place exactly when it leaves only by ways open there, opens no label twice, its conditions leave only as they may, and what it defers stays |
| EmitterModel.Emitter.EmitFunction | src/emit/stmt.cpp:119-136 | the emitter, through its fields, appends exactly the code of the function `LowerFunction` |
| EmitterModel.Emitter.EmitStmt | src/emit/stmt.cpp:136-342 | appends exactly the statement's code, counts its temporaries, and leaves every other field as it was, but for a registered defer |
| EmitterModel.Emitter.EmitCatch | src/emit/expr.cpp:292-342 | failure target, failure scope and catch scope are set for the parts and put back |
| EmitterModel.Emitter.RunDefersFrom | src/emit/stmt.cpp:46-63 | appends the cleanup of all scopes from a depth on, from snapshots |
| EmitterModel.Emitter.SnapshotDefers | src/emit/stmt.cpp:65-77 | returns the cleanup as text and leaves the buffer as it was |
| EmitterModel.Emitter.FindLoopScope | src/emit/stmt.cpp:556-564 | finds the scope of the loop a jump names |
| EmitterModel.Emitter.EmitWith | src/emit/stmt.cpp:99-117 | opens the restoring scope, emits the body, and closes it |
| EmitterModel.Emitter.EmitReturn | src/emit/stmt.cpp:566-610 | evaluates the result before the cleanup it returns past |
| LoweringLabelsTheorem.WellLabelledIffWrittenOnce | src/emit/stmt.cpp:547-670 | no C label is written twice in a function exactly when no loop label is, a loop inside something deferred counting once for each exit that passes it |
| LoweringLabelsTheorem.CheckedYetDoublyLabelled | src/check/stmt.cpp:660-672 | two loops in a row with one label: accepted, and the label is written twice |
| LoweringLabelsTheorem.FunctionLabels | src/emit/stmt.cpp:19-34 | how often each C label is written: a loop's as often as its source is emitted, a handler's at most once |
| LoweringLabelsTheorem.DeferredLoopChecked | src/check/stmt.cpp:108-118 | a deferred suite with one labelled loop, an early return and a normal end: accepted, and within what the lowering theorem covers |
| LoweringLabelsTheorem.DeferredLoopDoublyLabelled | src/emit/stmt.cpp:19-34 | that body's labels are written at the return and again at the end |
| ExecutorTheorem.LoweringAgreesWithInterpreter | src/interp/exec.cpp:28-331 | the emitted code does what the interpreter does on every body whose expressions leave only where the interpreter looks |
| ExecutorTheorem.InterpreterPreservesMeaning | src/interp/exec.cpp:28-331 | on those bodies the flags give the program's result, events, variables and allocator |
| ExecutorTheorem.StmtRuns | src/interp/exec.cpp:28-331 | one statement with nothing in flight: afterwards the flags show the way it left |
| ExecutorTheorem.CallIff | src/interp/call.cpp:203-207 | a call is right exactly when its argument did not jump |
| ExecutorTheorem.TryIff | src/interp/ops.cpp:296-305 | so is a call under `try` |
| ExecutorTheorem.AssignIff | src/interp/exec.cpp:143-163 | an assignment is right exactly when its expression gave a value, or left the variable as it would be stored |
| ExecutorTheorem.SetAllocatorIff | src/interp/exec.cpp:143-163 | so is setting the allocator |
| ExecutorTheorem.IfIff | src/interp/exec.cpp:241-249 | after a condition that jumped a branch is begun: right exactly when that branch is empty, for branches that begin with a call |
| ExecutorTheorem.WithIff | src/interp/exec.cpp:454-460 | after an allocator expression that left: right exactly when the allocator is what it was and no body was begun |
| ExecutorTheorem.ReturnIff | src/interp/exec.cpp:291-299 | a failure in the expression goes on, a return in it is replaced, a jump in it turns into a return |
| ExecutorTheorem.RecoverIff | src/interp/exec.cpp:322-330 | only a failure in the expression goes on |
| ExecutorTheorem.ErrorIff | src/interp/call.cpp:221-235 | right exactly when the code's expression did not jump |
| ExecutorTheorem.ConditionLeft | src/interp/exec.cpp:279-289 | a loop condition that left and gave nothing ends the loop the right way |
| ExecutorTheorem.AssignAlwaysIff | src/interp/exec.cpp:143-163 | for an expression without handlers: right in every run exactly when it holds no `try` |
| ExecutorTheorem.WithAlwaysIff | src/interp/exec.cpp:454-460 | the same for the allocator of a `with` |
| ExecutorTheorem.FailingAssignStores | src/interp/exec.cpp:143-163 | `defer print(x)` and `x = try f()`: the interpreter prints what the failed call left |
| ExecutorTheorem.CatchBreakRunsOn | src/interp/call.cpp:203-207 | `f() catch e: break` as an argument, a condition, an allocator or a returned value: accepted, and the interpreter runs on |
| ExecutorModel.Interp.Exec | src/interp/exec.cpp:28-464 | the fields after one statement are those of the function |
| ExecutorModel.Interp.ExecBlock | src/interp/exec.cpp:36-90 | the statements, the list of what they deferred and the flags set aside around it leave the function's machine |
| ExecutorModel.Interp.Eval | src/interp/eval.cpp:1005-1030 | the value and the fields after one expression are those of the function |
| ExecutorModel.Interp.ExecWhile | src/interp/exec.cpp:253-290 | the loop over turns leaves the function's machine |
| ExecutorModel.Interp.LeaveLoop | src/interp/exec.cpp:470-485 | a jump to this loop is consumed, one to another stays |
| ExecutorModel.CallFunction | src/interp/interp.cpp:127-202 | a call through the fields has the function's result |
| EmitterTermination.NeverEndsIffEndless | src/emit/stmt.cpp:19-63 | the emitter never finishes with a function exactly when something is deferred and written that its own exits write again |
| EmitterTermination.EndlessNeverEnds | src/emit/stmt.cpp:19-63 | so in any block and any state of the emitter |
| EmitterTermination.SafeEnds | src/emit/stmt.cpp:19-63 | otherwise its calls of itself go no deeper than what is left to write |
| EmitterTermination.DeferTryNeverEnds | src/check/stmt.cpp:462-478 | `defer try f()`: accepted, and never finished |
| EmitterTermination.DeferRecoverNeverEnds | src/check/stmt.cpp:108-118 | `recover` in a deferred suite of a handler: the same |
| EmitterTermination.DeferBreakNeverEnds | src/check/stmt.cpp:462-478 | `defer f() catch e: break` in a loop: the same |
| EmitterTermination.ErrdeferTryNeverEnds | src/check/stmt.cpp:481-492 | `errdefer try f()` before `error(1)`: the same |
| EmitterTermination.UnusedErrdeferEnds | src/emit/stmt.cpp:23-25 | where nothing fails it is not written, and the emitter ends |
| EmitterTermination.RecoveringEnds | src/check/stmt.cpp:481-492 | `errdefer: recover 1` before `error(2)` in a handler: accepted, and finished |
| LoweringLimits.RecoveringErrdeferSwallows | src/emit/stmt.cpp:322-333 | its code jumps past the handler with the value, where the source goes on failing |
| LoweringLimits.ConditionBreaksThisLoop | src/emit/stmt.cpp:649-660 | a condition that leaves by an unnamed `break` leaves the outer loop in the source and this loop in C |
| LoweringLimits.ConditionContinuesThisLoop | src/emit/stmt.cpp:649-660 | by an unnamed `continue` it goes on with the outer loop in the source and tests this one again in C |
| LoweringLimits.JumpingConditionAccepted | src/check/stmt.cpp:311-319 | such a condition passes the checker |
| LoweringLimits.SealedIffStays | src/check/stmt.cpp:106-118 | what the theorem asks of a deferred statement is exactly that it cannot leave in any way |
| LoweringLimits.StmtPermitted | src/check/stmt.cpp:445-500 | a statement in order at a place is in order at a narrower one exactly when it leaves only as that one allows |
| MatchLowering.EmitSwitch | src/emit/stmt.cpp:724-770 | the loops over arms and patterns and the flag for `default:` write one block for each arm, with its labels, guard and `break` |
| MatchTheorem.TakesIff | src/interp/eval.cpp:1095-1104 | the interpreter takes what a pattern means, for every value of its type, exactly when no signed range has a negative and a non-negative end |
| MatchTheorem.CaseIff | src/emit/stmt.cpp:734-748 | so does the C case written for it, exactly when a 64-bit range does not end below its type's least value and an unsigned one stays within one half of the type |
| MatchTheorem.BothAsMeant | src/emit/stmt.cpp:737-745 | patterns that meet both conditions take the same values in the interpreter and in C |
| MatchTheorem.RangeAcrossZero | src/interp/eval.cpp:1098-1102 | `-1..<2` and `_` on 0: accepted; the interpreter takes the second arm, C the first |
| MatchTheorem.ValueSwitchIff | src/emit/stmt.cpp:751-763 | a `match` that gives a value, as a `switch`: right for a value, whatever guards and bodies do, exactly when the switch goes to the first arm that hits and every guarded arm it passes is followed by one that hits |
| MatchTheorem.StatementSwitchIff | src/emit/stmt.cpp:758-763 | as a statement: right exactly when the switch goes to the first arm that hits and that arm has no guard |
| MatchTheorem.BreakEndsTheSwitch | src/emit/stmt.cpp:612-618 | an arm that leaves by an unnamed `break` ends the `switch` only |
| MatchTheorem.BreakInMatchNeverEnds | src/emit/stmt.cpp:612-618 | `while true: match v: _: break` is over after one turn, and in C never |
| MatchTheorem.LegalCasesIff | src/emit/stmt.cpp:729-748 | where cases take what their patterns mean, no value of the type is a C case twice exactly when no value has two patterns, guarded or not |
| MatchTheorem.CaseTwice | src/check/expr.cpp:1294-1302 | `1 if g` and `1`, or one value spelled in two ways: accepted, and a case twice |
| MatchTheorem.FallsIntoTwoRuns | src/emit/stmt.cpp:751-763 | `1 if g`, `2`, `_` on 1 with `g` false: the arm for 2 runs |
| MatchTheorem.GuardNotAsked | src/emit/stmt.cpp:758-763 | as a statement: the arm for 1 runs unasked, then the arm for 2 |
| MatchTheorem.GuardedTrueUncovered | src/check/expr.cpp:1286-1346 | `true if g`, `false`: accepted, nothing is left for `true`, and in C the arm for `false` runs |
| MatchTheorem.TextRunsPast | src/emit/stmt.cpp:878-915 | a text no arm takes: accepted, a trap in the interpreter, nothing in C |
| MatchTheorem.SomeTwiceRuns | src/emit/stmt.cpp:916-955 | `some(x) if g`, `some(x)`, `none` with `g` false: the second arm is not tried |
| MatchTheorem.AcceptedCovers | src/check/expr.cpp:1343-1372 | an accepted match covers every value of its type, but for texts and for guarded `true` and `false` |
| MatchTheorem.CoveringIsEnough | src/check/expr.cpp:1343-1372 | and arms that cover every value of a `bool`, an enum or an optional are enough |
| MatchTheorem.TextIff | src/emit/stmt.cpp:878-915 | text: right exactly when some unguarded arm hits |
| MatchTheorem.OptionalIff | src/emit/stmt.cpp:916-955 | optionals: right exactly when the first arm that hits has no guard and is the first whose last pattern hits |
| MatchTheorem.PlainMatch | src/check/expr.cpp:1181-1372 | an accepted match without guards on integers, `bool`, an enum or an optional goes straight for every value whose patterns interpreter and C agree on |
| RangeLoops.AgreesIffConstant | src/emit/stmt.cpp:672-709 | for all bodies, the emitted loop is the interpreter's exactly when the bound is one number everywhere and evaluating it changes nothing, or the range is open and has no room for a second turn |
| RangeLoops.KeptBoundAgrees | src/interp/exec.cpp:334-362 | for one body: it is, if the body leaves the bound as it was; the counter does not wrap even at the largest value |
| RangeLoops.RangeVisits | src/emit/stmt.cpp:672-709 | with a constant bound every value of the range is visited once, in order, the last one exactly when the range is closed |
| RangeLoops.ShrinkingBound | src/emit/stmt.cpp:679-697 | a body that lowers the bound from 4: four turns in the interpreter, two in C |
| AlwaysLeaves.AlwaysReturnsSound | src/check/stmt.cpp:612-658 | a statement that "always returns" completes normally in no run: endless loops, matches, `with` and blocks included |
| AlwaysLeavesExact.AlwaysReturnsIff | src/check/stmt.cpp:612-658 | where no constant decides a condition and no jump leaves, a block "always returns" exactly when no run of it completes normally |
| AlwaysLeavesExact.TerminatesIff | src/check/expr.cpp:1155-1175 | so for a handler, jumps included |
| AlwaysLeavesExact.BreakingLoopCompletes | src/check/stmt.cpp:640-643 | `while true: break` completes and is not said to leave |
| AlwaysLeaves.NoBreakStmt | src/check/stmt.cpp:581-590 | a statement without `break` under it never leaves by one |
| AlwaysLeaves.TerminatesSound | src/check/expr.cpp:1155-1175 | a statement that terminates a handler never falls through it |
| AlwaysLeaves.AcceptedCatchHasValue | src/check/expr.cpp:1103-1152 | a handler accepted for a value always recovers one or leaves |
| Pruning.ConstBoolSound | src/check/check.cpp:530-597 | a condition folded to a constant, its comparisons fitting, evaluates to it in every state, without effects or traps |
| PruningComplete.DecidedFolds | src/check/check.cpp:530-597 | a condition of truth values, constants and comparisons of integers that stay non-negative is decided, as the program would |
| ConstFoldTheorem.FoldRightIffFits | src/check/check.cpp:416-525 | every node of a constant folds to the word of the value the program computes exactly when every operation in it fits |
| ConstFoldTheorem.FoldedOp | src/check/check.cpp:447-467 | for each of the seven operators, the word is the typed result exactly when nothing overflows and nothing negative is divided or shifted right, but for the listed coincidences |
| ConstFoldTheorem.FoldsIff | src/check/check.cpp:455-464 | for each of the seven operators, two words fold exactly when the result stays within 64 bits, the divisor is not 0 and the count is below 64 |
| ConstFoldTheorem.NonNegativeFolds | src/check/check.cpp:416-525 | whatever runs through non-negative values, no shift losing a bit, folds, and to its value |
| ConstFoldTheorem.CastRight | src/check/check.cpp:478-500 | masking and extending the sign is conversion to the type |
| ConstFoldTheorem.RunInRange | src/runtime/lucb_rt.c:1482-1522 | what the program computes without a trap is a value of the expression's type |
| ConstFoldTheorem.ComparisonSound | src/check/check.cpp:579-597 | a folded comparison of operands that fit is the program's |
| ConstFoldTheorem.ComparisonFolds | src/check/check.cpp:579-597 | what each of the six comparisons of folded operands that fit comes to, on the values x and y the program computes |
| ConstFoldTheorem.ComparisonRuns | src/check/check.cpp:588-595 | what each comes to in the program |
| ConstFoldTheorem.NegativeQuotientMisfolds | src/check/check.cpp:459-459 | -8 // 2 < 0: true in the program, folded to false |
| ConstFoldTheorem.NarrowOverflowMisfolds | src/check/check.cpp:457-457 | 200 + 100 > 250 in `u8`: a trap in the program, folded to true |
| Pruning.PureSound | src/check/check.cpp:1854-1874 | a pure initialiser completes, makes no call and changes no variable |
| PruningTheorem.PruningPreservesMeaning | src/check/check.cpp:1827-1943 | cutting unreachable statements, dropping unread bindings and folding branches whose constants fit keep outcome, trace, fields and surviving variables of every run |
| PruningTheorem.SimDropped | src/check/check.cpp:1827-1896 | a dropped binding: a pure initialiser goes, an impure one stays as a statement, and the rest cannot tell |
| PruningTheorem.MisfoldedBranch | src/check/check.cpp:1898-1943 | a body that returns 1, and 2 once its misfolded branch is gone |
| PruningComplete.PrunedIsLean | src/check/check.cpp:1876-1943 | in a pruned block no constant decides a branch and nothing stands behind a statement that always leaves, at any depth |
| PruningComplete.UnreadIsGone | src/check/check.cpp:1827-1850 | a local written nowhere but where it is declared is declared nowhere in the pruned block, but for names in `_` and guards |
| InitCheck.CheckInit | src/check/init.cpp:176-198 | the walk with its mutable set of assigned fields accepts exactly what the rules accept |
| InitCheck.InitWalk.Statement | src/check/init.cpp:89-174 | one statement updates the set and the verdict as the rules say |
| InitTheorem.InitSound | src/check/init.cpp:71-198 | accepted, up to 64 fields: `self` is mentioned only with all fields assigned, and falling off the end leaves all assigned |
| InitTheorem.PastTheWord | src/check/init.cpp:71-198 | with more fields an accepted `init` leaves one unassigned |
| InitTheorem.SoundIffFieldsFitTheWord | src/check/init.cpp:71-198 | the rules are sound for a struct exactly when it has at most 64 fields |
| InitExact.AcceptedIff | src/check/init.cpp:71-198 | with no constant condition and no dead code, up to 64 fields: accepted exactly when loops assign nothing, no run completes with a field missing, no assignment is to a field every run has assigned by then, and `self` is used only where every run has assigned all fields |
| InitExact.HeldExact | src/check/init.cpp:119-147 | a field is in the walk's set after a statement exactly when it was before or no way through the statement misses it |
| InitOnce.OnceIffEven | src/check/init.cpp:5-13 | an accepted body assigns each field exactly once in every completing run exactly when the branches that complete assign the same fields |
| InitOnce.TwiceAccepted | src/check/init.cpp:111-128 | `if f(): self.x = 1`, then `self.x = 1`: accepted, and assigned twice in a run |
| InitOnce.BothBranchesAccepted | src/check/init.cpp:127-128 | a field assigned in both branches: accepted |
| Steering.Steer | src/check/init.cpp:83-174 | every way through such a statement is taken by some run, whatever was answered before |
| HandledTheorem.CaughtMessagesStay | src/check/handled.cpp:58-199 | in an accepted body no global, live local, returned value or recovered value ever views the message of a finished handler |
| HandledTheorem.SoundExpr | src/check/handled.cpp:58-120 | a value views only messages of running handlers no deeper than its recorded view |
| HandledTheorem.SoundAssign | src/check/handled.cpp:187-199 | an accepted store leaves every variable within what is recorded of it |
| HandledTheorem.SoundRecover | src/check/handled.cpp:164-176 | a recovered value views only handlers outside the one it leaves |
| HandledTheorem.SoundCatch | src/check/expr.cpp:1103-1152 | entering and leaving a handler keeps the tables true of the state |
| HandledAccepts.LabelledAccepted | src/check/handled.cpp:58-199 | accepted is every well-typed body whose names can be labelled with handler depths such that what a value passes on, but for the arguments of calls, is labelled no deeper, and what leaves or is stored with a text is labelled outside what it leaves |
| HandledAccepts.CopyAccepted | src/check/handled.cpp:101-108 | `f() catch e: return copy(e.message)` is accepted |
| HandledAccepts.CodeAccepted | src/check/handled.cpp:178-184 | so is returning the code |
| HandledAccepts.TextHolds | src/check/handled.cpp:166-168 | a type the rules look at can hold a view of any message |
| HandledEscapes.BareViewsEscape | src/check/handled.cpp:178-184 | returning the failure or anything built of it without a call is reported, and a run of it lets the finished handler's message be seen |
| HandledCheckerModel.CheckBody | src/check/stmt.cpp:209-236 | the checker, updating its bindings and list of recovered views, accepts exactly what the rules accept |
| HandledCheckerModel.HandledChecker.HandledView | src/check/handled.cpp:58-118 | the recursion and its loops over parts and recovered views compute the deepest view |
| HandledCheckerModel.HandledChecker.HandledStored | src/check/handled.cpp:187-199 | a store taints the local or is reported, a store to a global always, as the rules say |
| HandledCheckerModel.HandledChecker.HandledRecovered | src/check/handled.cpp:164-176 | a recovered view is recorded under its catch, or reported |
| HandledCheckerModel.HandledChecker.SetHandled | src/check/handled.cpp:122-131 | a binding keeps the deepest view put in it |
| Containment.Checker.ContainsByValue | src/check/check.cpp:1195-1240 | true exactly when the declaration is reachable along by-value members, shared `seen` list and all |
| Containment.Checker.CheckContainment | src/check/check.cpp:1178-1193 | a member loses its type exactly when it reaches the declaration, which then no longer reaches itself |
| Containment.Checker.CheckAll | src/check/check.cpp:1028-1033 | afterwards no declaration reaches itself, and nothing changed exactly when none did before |
| Containment.LayoutWellFounded | src/check/check.cpp:1175-1240 | without cycles each member's declarations are strictly fewer than its owner's, so layout recursion ends |
| ContainmentLayout.SizeDependsIffHeld | src/check/type.cpp:616-752 | for arbitrary sizes of declarations, the size of a type without empty arrays depends on a declaration's exactly when the type holds that declaration |
| ContainmentLayout.LayoutNeedsHeld | src/check/type.cpp:513-752 | a type has a layout exactly when everything it holds has one, empty arrays included |
| ContainmentLayout.DeclarationHolds | src/check/check.cpp:1226-1237 | a declaration holds what its members hold |
| ContainmentLayout.OptionalSelfContained | src/check/check.cpp:1204-1205 | `struct Node { next: Node? }` contains itself |
| TypeDefsTheorem.DefinitionsInOrder | src/emit/types.cpp:436-613 | without a cycle every definition asked for is written once, after all it refers to |
| TypeDefsTheorem.InOrderIffNoCycle | src/emit/types.cpp:436-613 | the output is in order without repeats exactly when what was asked for has no cycle |
| TypeDefsTheorem.NodeOutOfOrder | src/emit/types.cpp:406-443 | a record whose array type refers back to it comes out of order, or twice |
| TypeDefsText.DefinitionReadyIff | src/emit/types.cpp:436-520 | all that a definition's C text names is complete or declared exactly where all that the walk says it needs is written |
| TypeDefsText.MemberReadyIff | src/emit/cgen.cpp:310-392 | so for one spelled type: a record behind a pointer needs only its tag, a typedef its definition |
| TypeDefsText.ListNodeInOrder | src/emit/types.cpp:440-449 | `struct Node { next: Node* }` comes out in order |
| TypeDefsEmitterModel.TypeEmitter.EmitTypeDefsNow | src/emit/types.cpp:581-613 | after `lb_r_usize`, all declarations and all noted types, the emitter's tables and output are those of the function |
| TypeDefsEmitterModel.TypeEmitter.DefineTypeNow | src/emit/types.cpp:436-520 | one type, the same |
| TypeDefsEmitterModel.TypeEmitter.DefineDeclNow | src/emit/types.cpp:537-579 | one declaration, the same, busy declarations skipped |
| Interning.SameObjectIffSameTree | src/check/type.cpp:186-200 | in every reachable table two known types are one object exactly when they have one structure |
| Interning.Interner.InternPtr | src/check/resolve.cpp:198-214 | the table only grows at its end, stays free of duplicates, and the result has the structure asked for |
| Interning.Interner.InternArr | src/check/resolve.cpp:216-229 | the same for arrays |
| Interning.Interner.InternSpan | src/check/resolve.cpp:314-327 | the same for spans |
| Interning.Interner.InternWrapper | src/check/resolve.cpp:288-341 | the same for optionals, results and atomics |
| Interning.Interner.InternTup | src/check/resolve.cpp:343-370 | the same for tuples |
| Interning.Interner.InternFunc | src/check/resolve.cpp:372-404 | the same for functions |
| Interning.Interner.InstantiateStruct | src/check/generic.cpp:185-192 | one type for each generic struct and list of arguments |
| Interning.Interner.DeclareIface | src/check/check.cpp:906-926 | an interface's own type joins the table |
| Interning.Interner.InternIface | src/check/resolve.cpp:231-244 | the plain or nullable type of an interface, one object each |
| Interning.Interner.InternIfaceInstance | src/check/resolve.cpp:248-275 | one object for each generic interface and list of arguments |
| Interning.Interner.InternOpt | src/check/resolve.cpp:277-298 | `T?` of a pointer, function or interface that cannot be null is its nullable form, of anything else a wrapper |
| Interning.Interner.OptThenNonNull | src/check/resolve.cpp:406-414 | `non_null` of `intern_opt` gives back the very object exactly when it is no instance of a generic interface |
| Interning.SameOptionalIff | src/check/resolve.cpp:277-284 | two types share their optional exactly when they are one, or instances of one interface |
| Generics.MatchingInvertsSubstitution | src/check/generic.cpp:259-330 | matching a type against its instance infers each occurring argument, nothing else, and reports nothing, exactly when no `T?` met a null niche |
| Generics.UnifyExact | src/check/generic.cpp:259-330 | from any faithful inference, matching adds exactly the arguments of the parameters that occur |
| GenericsInference.InfersTheWidest | src/check/generic.cpp:276-288 | several typed arguments for one parameter: nothing is reported exactly when any two are equal or widen one way, and the parameter is the one all widen to |
| GenericsInference.OrderDoesNotMatter | src/check/generic.cpp:276-288 | in whatever order they come |
| GenericsInference.NumbersInferByBits | src/check/generic.cpp:276-288 | for numbers: all of one family and no two types of the same bits, and the one with the most bits |
| GenericsInference.WidensByBits | src/check/type.cpp:447-464 | a number widens exactly to its own type and to more bits in its family |
| GenericsInference.WidensToAtomic | src/check/type.cpp:454-456 | and to the atomic of what it widens to |
| GenericsInference.LiteralsMakeI64 | src/check/generic.cpp:270-275 | untyped literals alone make an `i64` |
| GenericsInference.LiteralMayMove | src/check/generic.cpp:270-288 | a literal in front and a literal behind infer the same exactly when `i64` widens to what the others infer |
| GenericsInference.LiteralOrder | src/check/generic.cpp:270-275 | a literal and an `i32`: `i64` one way round, `i32` the other |
| GenericsInference.LiteralConflict | src/check/generic.cpp:270-288 | a literal and a `u32`: reported one way round only |
| GenericsInference.WiderWins | src/check/generic.cpp:280-281 | an `i32` and an `i64` infer `i64` |
| GenericsInference.GivenIsInferred | src/check/generic.cpp:291-329 | an argument that gives each parameter its type, an array for a span and a plain value for an optional included, infers exactly these |
| GenericsInference.OtherFormGivesNothing | src/check/generic.cpp:291-329 | an argument of another form infers nothing |
| Generics.NicheInfersTheOptional | src/check/generic.cpp:303-306 | the inputs that fail: `T?` at any pointer, function or interface |
| Generics.SubstitutedIsClosed | src/check/generic.cpp:586-605 | when `all_inferred` holds, the substituted type mentions a parameter exactly when one stands inside an atomic or in the arguments of an interface |
| Generics.AtomicKeepsParameter | src/check/generic.cpp:396-404 | an atomic of `T*`: all inferred, and `T` is still there |
| Generics.InterfaceKeepsParameter | src/check/generic.cpp:396-404 | `Iterator[T]`: the same |
| GenericsChecker.SubstType | src/check/generic.cpp:354-404 | on interned objects: the result is known and has the substituted structure; existing objects stay |
| GenericsChecker.Inferrer.UnifyInto | src/check/generic.cpp:259-330 | on interned objects compared by address: the inference vector and reports are those of matching structures |
| GenericsChecker.CanWidenTo | src/check/type.cpp:447-464 | comparing objects decides widening of their structures |
| GenericsChecker.InstantiateThenInfer | src/check/generic.cpp:259-404 | instantiating and then inferring gives back the very argument objects |
| LayoutTheorem.PowerOfTwoDividesSize | src/check/type.cpp:513-604 | every alignment is a power of two that divides the size |
| LayoutTheorem.FieldsWellPlaced | src/check/type.cpp:475-511 | fields are in order, apart and inside; unpacked ones are aligned in every element of an array |
| LayoutAgreement.LayoutAgreesIffPlain | src/emit/types.cpp:159-242 | size, alignment and field offsets are C's, for a type and all it holds, exactly when the type is plain |
| LayoutAgreement.PlainAgrees | src/check/type.cpp:616-752 | a plain type has C's size, alignment and offsets |
| LayoutAgreement.EnumFormula | src/check/type.cpp:718-748 | the enum formula is the layout of a tag followed by a union of payload structures |
| LayoutTheorem.ScalarsAgree | src/check/type.cpp:616-652 | the checker's sizes of scalars are those of the C types `c_type_name` gives them |
| LayoutAgreement.EmptyStructDiffers | src/emit/types.cpp:180-182 | a struct without members: nothing in the checker, an `int` in C |
| LayoutAgreement.PackedAlignDiffers | src/emit/types.cpp:159-187 | a packed `u8` and a `u32` with `align(4)`: offset 1 in the checker, 4 in C |
| LayoutAgreement.RuntimeRecordsDiffer | src/check/type.cpp:616-752 | `Error` and `Allocator`: 20 and 12 bytes in the checker, 24 and 16 in C |
| Layout.PadIsCeil | src/check/type.cpp:39-48 | `pad_to` gives the first multiple of the alignment from an offset on |
| Layout.LayoutStruct | src/check/type.cpp:475-511 | the loop computes the size and the offset of the named field, -1 if there is none |
| Layout.TypeAlign | src/check/type.cpp:513-604 | the recursion and its loops compute the alignment |
| Layout.TypeSize | src/check/type.cpp:616-752 | the recursion and its loops compute the size |
| Layout.TypeOffset | src/check/type.cpp:755-762 | a union member is at 0, a field at its offset |
| ScopeTable.Table.Find | src/check/check.cpp:272-282 | the indexed lookup finds what a newest-first scan finds, and marks it used |
| ScopeTable.Table.BindName | src/check/check.cpp:297-321 | binds exactly when the scan finds nothing; `_` binds nothing |
| ScopeTable.Table.Add | src/check/check.cpp:286-295 | the new binding is linked to the one it shadows, and the index follows |
| ScopeTable.Table.PopScope | src/check/check.cpp:258-269 | exactly the bindings of the current depth go, and the index still agrees with the scan |
| ScopeTable.Table.Perform | src/check/check.cpp:258-321 | any sequence of lookups, binds, blocks and instantiations leaves every older binding in place |
| ScopeTable.Table.PerformBlock | src/check/checker.h:284-286 | push, anything well nested, pop: names, links, index and depth are as before |
| ScopeTable.Table.PerformInstance | src/check/generic.cpp:454-479 | an instantiation in another module's scope leaves the use site's table untouched |
| ScopeTable.IndexPop | src/check/check.cpp:258-269 | going back to the shadowed binding keeps the index equal to the scan |
| ScopeTable.IndexDetermined | src/check/checker.h:126-131 | tables with the same names have the same index |
| CallArgs.Call.FillCallArgs | src/check/call.cpp:335-412 | reports nothing exactly when the arguments are acceptable, and then each stands once at its parameter with defaults in the gaps |
| CallArgs.BindingTwice | src/check/call.cpp:335-412 | a bound call is acceptable, and binding it again changes nothing |
| CallArgs.FillTwice | src/check/call.cpp:335-412 | two calls of `fill_call_args` in a row report and leave what one does |
| CallOrder.SourceOrderThenDefaults | src/check/call.cpp:350-405 | sorting a bound call by `evaluation_order` gives the arguments as written, then the defaults in parameter order |
| CallEvaluation.CallFunc | src/interp/interp.cpp:132-169 | the interpreter evaluates in that order, and each parameter's slot holds its argument's value |
| CallEvaluation.EmitArgs | src/emit/call.cpp:86-129 | the emitter hoists all arguments into temporaries in that order, or none |
| CallEvaluation.EmittedCall | src/emit/call.cpp:86-129 | whatever order C takes, the emitted call has the interpreter's parameter values and state |
| Globals.Interp.LoadGlobals | src/interp/interp.cpp:66-125 | ends; on success every global equals its initialiser in the final environment, which no other environment does; fails exactly when no order binds all, and for strict initialisers exactly when value reads form a cycle |
| Globals.Interp.Evaluate | src/interp/eval.cpp:531-536 | reading a global not yet bound traps, taking its address does not |
| Globals.Interp.Pass | src/interp/interp.cpp:96-124 | a pass that binds nothing has found every waiting global unevaluable |
| Globals.BoundIsForced | src/interp/interp.cpp:66-125 | what some order binds has that value in every solution |
| Globals.StuckBindsMost | src/interp/interp.cpp:96-124 | what any order can bind, a stuck run has bound to the same value |
| Globals.StuckMeansCyclic | src/interp/interp.cpp:119-122 | a run stuck with something unbound has a cycle of reads |
| Globals.CompleteMeansAcyclic | src/interp/interp.cpp:66-125 | if strict initialisers are all bound, reads have no cycle |
| Names.SanitizeTypeName | src/emit/cgen.cpp:200-212 | the loop computes the sanitized spelling |
| Names.SanitizeRoundTrip | src/emit/cgen.cpp:176-212 | a sanitized spelling reads back exactly when every byte has a letter of its own |
| Names.SanitizeInjective | src/emit/cgen.cpp:200-212 | listed spellings sanitize alike only if equal |
| Names.SanitizedShape | src/emit/cgen.cpp:200-212 | never `__` inside, never `_` at the end, whatever the bytes |
| Names.UnlistedBytesCollide | src/emit/cgen.cpp:192-193 | two unlisted bytes that sanitize alike |
| Names.TupCName | src/emit/cgen.cpp:273-283 | the loop joins the sanitized components with `__` |
| Names.TupNameInjective | src/emit/cgen.cpp:273-283 | a tuple's name determines its component spellings |
| Names.FnCName | src/emit/cgen.cpp:285-302 | the loop joins the parameters, `to` and the result |
| Names.FnNameInjective | src/emit/cgen.cpp:285-302 | a function's name determines its parameter spellings and its result's, unit and never counting as one |
| Names.JoinInjective | src/emit/cgen.cpp:37-45 | pieces joined by `_` determine the list of names |
| Names.ReadPieceBack | src/emit/cgen.cpp:37-45 | a piece is read back whole, whatever follows it |
| WindowsQuoting.Quote | src/emit/host_windows.cpp:27-39 | the loop with its running count of backslashes writes the quoted argument |
| WindowsQuoting.CommandLine | src/emit/host_windows.cpp:158-159 | the quoted executable, then each quoted argument after a space |
| WindowsQuoting.CommandLineRoundTrip | src/emit/host_windows.cpp:27-39 | the Microsoft C runtime takes the line apart into exactly the arguments, if and only if none holds a NUL |
| ShellQuoting.ShellQuote | src/emit/host.cpp:26-37 | the loop writes the single-quoted text |
| ShellQuoting.ShellRoundTrip | src/emit/host.cpp:26-37 | the shell reads the text back, and refuses it only if it holds a NUL |
| CEscaping.CEscape | src/emit/cgen.cpp:459-485 | the loop writes the literal |
| CEscaping.NoTrigraph | src/emit/cgen.cpp:459-485 | no trigraph is replaced in a literal |
| CEscaping.EscapeRoundTrip | src/emit/cgen.cpp:459-485 | a C compiler reads every literal back as exactly its bytes |
| Floats.HexDigits | src/emit/call.cpp:1032-1039 | the loop writes the digits, most significant first |
| Floats.FloatConstantFromBits | src/emit/call.cpp:1045-1082 | the constant for finite bits and for infinities |
| Floats.ConstantIsExact | src/emit/call.cpp:1045-1082 | for every finite pattern of the three formats the constant denotes its sign and exactly its value, in its type |

## Left out

- Pruning: rewriting of the tree is modelled as a function from trees to trees, so relinking of nodes in place is not captured; `defer` is not part of that language.
- ConstFold: `sizeof`, `alignof`, enum cases and names of other modules are constants like any other and not told apart; the meaning of mixed widths is the emitted C's.
- LoweringTheorem.SimStmt: `let`, compound assignment, `free`, `for` and `match` are not part of the language.
- EmitterModel.Emitter.EmitStmt: the same statements are missing.
- LoweringTheorem.LoweringPreservesMeaning: `for` and `match`, which are modelled on their own, exits in expression position other than `try` and `catch`, and labels on loops over arrays are not part of the language.
- MatchLowering: guards only answer yes or no, and payloads bound by an arm are not modelled.
- MatchTheorem.CaseIff: `lo..<hi` with `hi` the least `i64` overflows in C's constant, which is taken to wrap.
- ContainmentLayout: what is not followed by value is a leaf of one fixed shape, and the members of a declaration are laid out by `Layout`, not here.
- TypeDefsText: a span spells a type of the runtime, and is asked for what its element asks, as the source does.
- RangeLoops: loops over arrays, spans and iterators are not modelled.
- Executor: a function called while a jump is in flight runs its first statement only; here the call is one event, as any call is.
- ExecutorTheorem.IfIff: branches that begin with anything but a call are left to the theorem for whole bodies.
- EmitterTermination.NeverEndsIffEndless: an `errdefer` that leaves, inside the handler of a deferred call, is not covered.
- Lowering: functions that cannot fail return the same code without the failure slot; only the fallible form is modelled.
- Caught messages: loops, `if let`, tuple destructuring, match bindings, enum payloads, container methods and places reached through pointers are not modelled, and calls leave globals alone.
- `init`: completeness on an early `return` is not claimed; what is accepted is characterised where no constant decides a condition.
- InitCheck.InitWalk.Statement: `for`, `free`, `defer` and `errdefer` are not part of the language.
- Interning.Interner.InstantiateStruct: instantiation of the body, the limit on depth, and the template's own type for its own parameters are not modelled; only the table of instances is.
- Interning.Interner.InternIfaceInstance: arguments are compared as objects; the error type, which `type_eq` lets match anything, is not an argument.
- Interning: the spelling of a type's name is not modelled.
- Generics.Unify: types are never missing, and tuples, atomics and interfaces are matched as the source does, not at all.
- GenericsChecker.SubstType: instantiation of a struct at its own parameters is not modelled.
- Layout: sizes are unbounded integers, so overflow of the C++ `int` is not modelled; `align(N)` is a literal; `unit` members and format texts do not occur.
- ScopeTable: reports of unused names and of names the language reserves are not modelled; `module` scopes bind a fixed list of names.
- CallArgs: variadic arguments beyond the parameters, and arguments as linked nodes, are not modelled; argument lists are sequences of values.
- CallEvaluation.CallFunc: arguments that trap or return and the slot of `self` are not modelled.
- CallEvaluation.EmitArgs: arguments without a parameter type, spans split in two, and calls without a place for temporaries are not modelled.
- Globals: initialisers are pure but for reads; calls of user functions and traps other than reading an unbound global are not modelled.
- Names: injectivity of whole type spellings and of module tags is not claimed.
- WindowsQuoting: conversion from UTF-8 to wide characters, and parsing of the program's own name, are not modelled.
- Floats.FloatConstantFromBits: the spelling of NaN constants is written but nothing is claimed of it.
- Lexer, parser, literal decoding, diagnostics text, warnings, header emission, builtin declarations, the driver, host files, processes, threads, atomics and extern calls are not modelled.
