# Vibelang, verified

Vibelang compiles a small language with affine values, refinement types and a
termination check to C, and links it with a C runtime. This project models the
algorithms its guarantees rest on and proves that they give them. `dafny verify
dfyconfig.toml` checks all of it.

## What is modelled

Code that changes state step by step is a class or a method over arrays and
fields, proved against a function that says what it computes; the theorems are
about those functions.

| files | of the system | main results |
|---|---|---|
| `CallGraph`, `Measures`, `Totality` | the termination check | the iterative component search is exact, for every graph, in a known number of turns; the scan finds exactly the calls that are written; the measure check accepts exactly what drops under every valuation; an accepted program, with no binder over a call inside a component reusing a name of the measure, has no endless chain of calls by name on natural measures |
| `Patterns`, `Usefulness`, `MatchCode` | exhaustiveness and the C of a match | usefulness holds exactly where a witness exists; an accepted match takes the first arm that matches and never reaches `vb_fail` |
| `Unify` | type inference's unifier | it fails exactly when there is no unifier, keeps the substitution acyclic, and is most general |
| `Scalars` | numeric types and machine words | the range of each type is what a word of its width holds; conversions keep a word's bits; a literal may be exactly the types its kind names |
| `Ownership`, `Drops`, `UseOnce`, `Disposal`, `Leaving`, `Sharing`, `Shadowing` | affine use, drop placement, emitted frees | a body is accepted if and only if no path reads or hands on what it has handed on; on every path of every run each tracked value is disposed of exactly once, if and only if it is not handed on under a short-circuit operator, and not read after that; what leaves or is lent is never freed, and it is exactly what the result may be made of |
| `VcGen`, `VcSound`, `VcExact` | proof obligations | valid obligations rule out arithmetic faults; where the solver can be told everything, they are valid if and only if no admitted run faults; the machine computes the same exactly where sums and products have room |
| `Emit`, `Compile`, `Constants` | code emission | the compiled loop computes what the recursive definition means; data written out compiles to what the runtime holds its value as |
| `Printer`, `Parsing`, `RoundTrip`, `RoundTripExact`, `Grouping` | canonical printing and parsing | parsing undoes printing, at every level, before any suffix, exactly where no sign or borrow is printed bare in a place that wants an atom; a chain of operators splits at the last one of the loosest class |
| `Postconditions` | inferred length facts | every inferred bound holds of every result, and is the least that the tail positions know |
| `Dict` | the runtime's dictionary | it is an insertion-ordered association list, over every history |
| `Order`, `MergeSort` | comparison, equality, hash, `sort_by` | a total order, lexicographic on strings and structures, with equality its zero; equal values hash equally exactly where no C string inside is empty; the sort is stable, and equal to insertion sort |
| `Strings`, `Growth` | search, split, replace, growing buffers | least occurrence; split and join undo each other; linear copying |

`Ast` has the syntax the compiler's parts share, `Counting` the pigeonhole facts
of the array models, `Wrappers` the option type.

## What the proofs turned up

Where a promise does not hold as stated, the project has a lemma with the input
on which it fails, and proves the promise under the condition that saves it.

- Totality: a binder that reuses a name of its function's measure over a call
  inside the component defeats the measure check (`ShadowingDefeatsCheck`), so the
  theorem asks that none does; other binders are free. For one `let` the exact
  condition is proved: with `f n = let n = v in f (n - k)` the call takes the
  measure down if and only if `v` is worth less than `n + k` (`RebindingExact`).
- Matches and literals: a string is emitted as a C string and measured with
  `strlen` (`src/codegen.rs:714`, `src/codegen.rs:799`, `runtime/vibert.c:74`), so
  one with a NUL is cut there. Such a pattern rejects the string it spells and
  accepts what comes before the NUL (`NulPatternSwaps`). Pattern and literal are
  exact if and only if they hold no NUL (`StrExactIffNulFree`,
  `StrCompiledIffNulFree`), and the theorems about matches and compiled programs
  ask for that.
- Drops: a value handed on in the right operand of `&&` or `||` is freed by
  nobody when the operand is not evaluated (`Leak`; `ExactlyOnce` is an
  if-and-only-if). A `let` of a scalar that reuses the name of an owned parameter
  makes the walk forget what became of the parameter: whatever follows, a pass hands
  it on where the value of the `let` does and frees it where the pass returns, so the
  accounts balance if and only if just one of the two is so (`ShadowAccounts`). In
  the accounting theorems binders reuse no owned names.
- Obligations: nothing is asked of a sum or product of type `Nat`
  (`SumAsked`, `NatWraps`), and a literal argument is a signed word
  (`SignedArgumentsWrap`); the machine's sum or product is the mathematical one if
  and only if that is below 2^64, or below 2^63 where both operands are tagged
  signed (`SumExactIffRoom`). A literal out of range of the other operand's type
  makes hypotheses contradictory (`LiteralProvesAnything`): what is pushed after a
  `let` holds of the run if and only if the value is in the range of the type the
  generator gives it (`LetToldIffInRange`).
- Hashing: the comment at `runtime/vibert.c:994` promises equal hashes for equal
  values. NULL equals the empty C string, and the two hash alike under a mixing and
  seed if and only if a zero word leaves the seed alone (`NullHashesAlikeIff`); the
  runtime's mixing does not at seed 1 (`RuntimeTellsNull`). Under any mixing that
  loses nothing the promise is kept exactly by the values without a NULL or empty
  C string inside (`EqualHashIffNoBlank`).
- Order: literals are tagged signed at unsigned types too. With signed and unsigned
  words together the order is one exactly where the signed ones are not negative:
  -2 < 5 < 10u < -2 (`MixedOrderIff`).
- Printing: a wildcard comes back as the name `_`. A sign is printed bare where an
  atom is wanted, and so is a borrow before a field, so `f (-x)`, `(-x).f`,
  `&(-x)` and `(&x).f` do not come back (`SignReadsAsOperator` for the first);
  `ExprRoundTripIff` says exactly which expressions do.

## Model

| member | source | states |
|---|---|---|
| `CallGraph.CallComponents` | src/total.rs:29-78 | For every graph the loop ends, after exactly one turn a vertex and one a call, and two functions get one component number exactly when each reaches the other; no call leads to a component numbered higher |
| `CallGraph.VisitKeeps` | src/total.rs:44-50 | Discovering a vertex keeps the whole invariant: numbering, stack order, the meaning of `low`, components given out so far exact |
| `CallGraph.FollowSeenKeeps` | src/total.rs:51-59 | Following a call to a discovered vertex keeps it, `low` still naming a stacked vertex that is reached |
| `CallGraph.FollowNewKeeps` | src/total.rs:53-55 | Following a call to an undiscovered vertex keeps it, with that vertex pending on the work stack |
| `CallGraph.LeaveKeeps` | src/total.rs:61-64 | Leaving a vertex that is not the first of its component and handing its `low` up keeps it |
| `CallGraph.EmitKeeps` | src/total.rs:65-74 | Popping down to the first vertex of a component keeps it: what is popped is exactly one class of mutual reachability |
| `CallGraph.Walk.Discover` | src/total.rs:44-50 | The in-place step refines discovery, and counts as no progress of its own |
| `CallGraph.Walk.Follow` | src/total.rs:51-59 | The in-place step follows one more call, so one less is left |
| `CallGraph.Walk.Finish` | src/total.rs:61-74 | The in-place step leaves the top of the work stack and gives out its component where it closes one |
| `CallGraph.Walk.PopComponent` | src/total.rs:66-72 | The inner loop gives the next number to exactly the stacked vertices from `v` up and unstacks them |
| `CallGraph.AtEnd` | src/total.rs:38-77 | When the work is done every vertex is numbered and the component numbers are exact |
| `Measures.AddScaledInPlace` | src/total.rs:297-305 | The loop over a map in any order adds `k` times the other form, dropping terms that cancel |
| `Measures.AddScaledEval` | src/total.rs:297-305 | Adding `k` times a form adds `k` times its worth under every valuation |
| `Measures.LinearEval` | src/total.rs:321-340 | The linear form of an expression is worth what the expression is, under every valuation, and has no zero coefficient |
| `Measures.AffineForm` | src/total.rs:321-340 | The form of arithmetic built of names, numbers, sums, differences, signs and products with a number is over its names alone, and worth what the arithmetic comes to |
| `Measures.Delta` | src/total.rs:357-368 | It answers `d` exactly when caller less callee is `d` under every valuation, and nothing exactly when no such constant exists |
| `Measures.GapUnique` | src/total.rs:357-368 | There is at most one such constant |
| `Measures.TermsVary` | src/total.rs:367-367 | A form with a term left is worth different things under different valuations, so it is no constant |
| `Measures.LexDecreases` | src/total.rs:372-384 | True exactly when some component drops by a positive constant under every valuation and none before it changes |
| `Measures.LexSound` | src/total.rs:372-384 | A call that passes goes down lexicographically whatever its arguments evaluate to |
| `Measures.NoDescent` | src/total.rs:10-20 | No infinite lexicographic descent of tuples of naturals exists |
| `Totality.Recursive` | src/total.rs:105-114 | A function is called recursive exactly when it lies on a cycle of calls |
| `Totality.RecursiveIff` | src/total.rs:105-114 | The same from the component numbers: a self call, or another member |
| `Totality.MadeIsScanned` | src/total.rs:246-280 | Every call by name that evaluation can make was scanned, and it sees the values of the names that no binder over a call of that function reuses |
| `Totality.ScanIff` | src/total.rs:246-280 | The scan finds exactly the calls of module functions and the mentions of them that stand somewhere in the body, the name a call begins with being no mention |
| `Totality.EffectfulIff` | src/total.rs:82-91 | A result type exempts a function exactly where it is an effect after all its arrows |
| `Totality.MeasureOf` | src/total.rs:116-198 | The measure a function gets: the written one where linear over the parameters, else the first parameter that drops at every self call |
| `Totality.UnwrittenMeasure` | src/total.rs:155-198 | A recursive function without a written measure gets one exactly where every call that leads back to it is its own and some parameter gets less by a constant at each, under every valuation: the first such parameter |
| `Totality.DropsAtSelfCalls` | src/total.rs:160-166 | The filter over self calls finds exactly the parameters that drop by a positive constant at each |
| `Totality.IsSolo` | src/total.rs:157-159 | True exactly when no call goes to another member of the function's own component |
| `Totality.Check` | src/total.rs:93-228 | Reports exactly the recursive functions without a measure and the calls inside a component that do not take the measure down |
| `Totality.CheckCalls` | src/total.rs:200-226 | One function's share of the second pass, exactly |
| `Totality.StepGoesDown` | src/total.rs:200-226 | In an accepted program in which no binder over a call inside the component reuses a name of its function's measure, a call by name inside a component takes the measure down |
| `Totality.Confined` | src/total.rs:105-115 | An infinite chain of calls by name ends up inside one component, all of it recursive |
| `Totality.NoInfiniteRun` | src/total.rs:10-20 | In such a program no infinite chain of calls by name exists along which every measure component stays natural |
| `Totality.EndlessRunGoesNegative` | src/total.rs:10-20 | The same read forwards: a chain of calls by name that never ends takes some component of a measure below zero |
| `Totality.ShadowingDefeatsCheck` | src/total.rs:246-280 | Without the condition on shadowing it fails: `f n = let n = n + k in f (n - k)` is accepted and runs for ever with its measure at 5 |
| `Totality.RebindingExact` | src/total.rs:246-280 | For every `v` without a call, `f n = let n = v in f (n - k)` is accepted, and its call takes the measure down if and only if `v` is worth less than `n + k` |
| `Usefulness.SpecialiseWeight` | src/types.rs:595-606 | Specialising never adds constructors, and takes one away where a row shows the head: the termination measure |
| `Usefulness.MatchByHead` | src/types.rs:580-593 | A typed pattern matches exactly the values that show its head and whose parts match |
| `Usefulness.RowsByHead` | src/types.rs:595-606 | On values of a head, no row matches before specialising exactly when none does after |
| `Usefulness.RowsByDefault` | src/types.rs:636-643 | On values whose head no row shows, only the wildcard rows decide |
| `Usefulness.SignatureOfType` | src/types.rs:652-670 | The signature lists exactly the heads of the type, or the type is one with infinitely many |
| `Usefulness.FreshHead` | src/types.rs:652-670 | A type without a signature has a literal or a length no pattern names |
| `Usefulness.UsefulHasWitness` | src/types.rs:612-647 | Where the algorithm says useful, it yields a well-typed vector that matches the clause and no row |
| `Usefulness.WitnessMakesUseful` | src/types.rs:612-647 | Where such a vector exists, the algorithm says useful |
| `Usefulness.UsefulIffWitness` | src/types.rs:568-670 | Both directions together, for all typed rows over variants, Bool, tuples, literals and list lengths |
| `Usefulness.AcceptsIffCovers` | src/types.rs:691-761 | An accepted match covers every value of its scrutinee's type; a rejected one misses some |
| `Usefulness.ReportedIffMissing` | src/types.rs:700-720 | The constructors the diagnostic names are exactly those with a value no arm matches |
| `MatchCode.CondFits` | src/codegen.rs:709-762 | Without a NUL in the pattern, evaluating the emitted condition on any value at all gives what fitting the pattern to the value's structure gives, tripping a tag or index check exactly where that is undefined |
| `MatchCode.StrExactIffNulFree` | src/codegen.rs:714-714 | The test of a string pattern is exact on every string value if and only if the literal holds no NUL |
| `MatchCode.NulPatternSwaps` | runtime/vibert.c:74-74 | A literal with a NUL rejects the string it spells and accepts the part before the NUL, which it does not match |
| `MatchCode.CondExact` | src/codegen.rs:709-762 | On a typed value the emitted condition of a pattern without NUL is true exactly when the pattern matches, and evaluating it trips no tag or index check |
| `MatchCode.BindExact` | src/codegen.rs:764-793 | In an arm that matches, every declared variable reads the subvalue first-match semantics gives it, at the type the pattern gives it |
| `MatchCode.ChainExact` | src/codegen.rs:658-707 | Without NULs in string patterns the chain takes the first arm that matches, and reaches `vb_fail` only where none does |
| `MatchCode.AcceptedMatchNeverFails` | src/codegen.rs:658-707 | A match the exhaustiveness check accepts takes the first arm that matches, with its variables bound, and never reaches `vb_fail`, on any value of the type, where no string pattern holds a NUL |
| `MatchCode.RejectedMatchFails` | src/codegen.rs:658-707 | Under the same condition a value a rejected match misses does reach it |
| `Unify.Checker.Fresh` | src/types.rs:313-318 | A new variable leaves what everything else resolves to alone |
| `Unify.Checker.BindVar` | src/types.rs:392-429 | Keeps the substitution acyclic; fails with the infinite-type error exactly when the variable occurs; on success admits exactly the earlier solutions in which the two agree, on failure there is none and nothing changed |
| `Unify.Checker.Unify` | src/types.rs:342-391 | Ends; fails exactly when no assignment solves the state and makes the two types one; on success both resolve to one type, the state admits exactly those assignments, and no kind weakens; clashing heads get the error the source names |
| `Unify.Checker.UnifyAll` | src/types.rs:348-364 | The same for lists of pairs, left to right, stopping at the first that fails |
| `Unify.Checker.DefaultNumerics` | src/types.rs:432-445 | Exactly the undecided literal variables become the default widths |
| `Unify.BindAcyclic` | src/types.rs:319-331 | Binding a free variable to a resolved type it is not in keeps resolving well founded |
| `Unify.OccursExact` | src/types.rs:332-341 | The occurs check sees exactly the variables of the resolved type |
| `Unify.OccursHopeless` | src/types.rs:392-399 | A variable properly inside the other type has no unifier at all |
| `Unify.ApplyResolve` | src/types.rs:319-331 | Resolving changes no solution's view of a type |
| `Unify.EqualStays` | src/types.rs:342-391 | Types made equal stay equal under every later binding |
| `Unify.ReadingSolves` | src/types.rs:319-331 | A finished state is solved by reading off its own substitution |
| `Unify.MostGeneral` | src/types.rs:342-391 | Every unifier factors through the state a run leaves behind |
| `Unify.KindRespected` | src/types.rs:400-426 | No variable ever resolves to a constructor its kind, at any earlier moment, ruled out |
| `Scalars.RangesAreWords` | src/refine.rs:533-548 | An unsigned type's range is what the plain bits of its width spell, a signed one's what they spell in two's complement, and `Nat` has every natural |
| `Scalars.UnsignedAreNatural` | src/refine.rs:580-583 | A type counts as unsigned exactly where it bounds numbers and has no negative one |
| `Scalars.NumbersAreBounded` | src/types.rs:81-94 | The whole-number types of inference, those integer patterns see into, and the bounded types of the obligations are the same, `Size` apart |
| `Scalars.LiteralTypes` | src/types.rs:400-426 | A decimal literal can be given exactly the two floating types, a whole one exactly the ten numeric types, and an unconstrained variable any |
| `Scalars.OnlyNamesRuledOut` | src/types.rs:400-426 | A kind rules out names of types only: a literal's variable unifies with every type that is no name |
| `Scalars.DefaultsFit` | src/types.rs:432-445 | An undecided whole number becomes the signed type of a full word, an undecided decimal a type that decimals may be, and nothing else is decided |
| `Scalars.BoxesKeepBits` | runtime/vibert.c:170-192 | Reading a boxed scalar as signed or as unsigned gives two readings of one machine word, and its own reading is what was boxed |
| `Scalars.WordsKeepBits` | runtime/vibert.c:170-192 | The same for the words the comparisons and the arithmetic read |
| `Scalars.WrapsKeepBits` | runtime/vibert.c:284-320 | A wrapped result differs from the mathematical one by whole words, and its two readings are of one word |
| `Scalars.LiteralsTagged` | src/codegen.rs:1425-1431 | A literal is boxed signed exactly while a signed word holds it, with its value either way |
| `Ownership.State.UseName` | src/own.rs:489-562 | Records the move or the error, by mode and by what was moved before, as the walk does; `UseOnce` says what that means on every path |
| `Ownership.State.DropSite` | src/own.rs:476-488 | Appends a drop of a name that is not shared, and counts one suppressed for a name that is |
| `Ownership.State.Visit` | src/own.rs:587-906 | The walk in place leaves exactly the moves, drops and errors of the walk as a function |
| `Ownership.State.VisitBinder` | src/own.rs:798-822 | A binder's walk, with the scope-end drop and the name leaving scope |
| `Ownership.State.VisitMatch` | src/own.rs:834-904 | Fork, walk, restore and join over the arms, then the drops of what an arm kept and another consumed |
| `Ownership.AnalyseBody` | src/own.rs:72-193 | One function's analysis, with the drops at its end |
| `Ownership.KeptIs` | src/own.rs:882-903 | Filtering what arms kept by what was consumed after all of them is dropping, in each arm, what another arm moved |
| `UseOnce.PlainTells` | src/own.rs:489-562 | The walk over a plain expression names a name in an error exactly where the expression reads or hands it on after a move, and gives the first move; what it has moved at the end is what was moved before or is handed on |
| `UseOnce.AcceptsIffNoReuse` | src/own.rs:587-906 | A body of the fragment gets no error if and only if on no path a name is lent or handed on after it was handed on |
| `UseOnce.ReuseNamed` | src/own.rs:489-562 | Lending or handing on a name that is already moved yields an error that names it and its first move |
| `UseOnce.NoUseAfterDisposal` | src/codegen.rs:582-656 | In any number of passes through an accepted function with its drops placed, no name that is tracked, leaves or is lent is read, handed on or freed after it was handed on or freed |
| `Sharing.LeavesIff` | src/own.rs:304-347 | The names that leave with a result are exactly those that stand, themselves or in a closure, where its value or a piece of it comes from |
| `Sharing.HandsOutIff` | src/own.rs:252-302 | An expression can hand out one of some names exactly where one stands at a place its value comes from, through callees that give back what they are given |
| `Sharing.SharedIff` | src/own.rs:432-474 | A value may be shared exactly where a shared name, a field read or a call that gives back an element stands at a place it comes from |
| `Sharing.ArmMovesIff` | src/own.rs:842-881 | After an arm a name counts as moved exactly where the body moved it, or where it was taken apart and a piece was moved; a pattern's own names mean outside the arm what they meant before |
| `Sharing.MatchMovesIff` | src/own.rs:834-904 | After a match a name counts as moved exactly where the scrutinee or some arm moved it |
| `Sharing.ScopedIff` | src/own.rs:420-434 | Under a binder a name is owned exactly where it was and is not bound anew, or is bound to something affine |
| `Sharing.ArgumentMovesIff` | src/own.rs:640-667 | A name given to a call is handed on exactly where the callee neither borrows that position nor is typed by a rule |
| `Drops.Gen.Tail` | src/codegen.rs:582-656 | Emission with a stack of pending frees, pushed and popped in place, emits the code of the specification and restores the stack |
| `Drops.Gen.TailArms` | src/codegen.rs:658-707 | The same over the arms of a match |
| `Drops.SitesInside` | src/own.rs:587-906 | Every drop recorded while walking an expression stands inside that expression |
| `Disposal.PlainUses` | src/own.rs:489-562 | An error-free walk moves each owned name it uses exactly once, and none that was moved before |
| `Disposal.LetAgrees` | src/own.rs:798-822 | The drops a whole analysis placed in a `let` are those of its parts plus at most one for its name |
| `Disposal.ArmAgrees` | src/own.rs:834-904 | The drops placed in an arm are those of its body plus one for each name it kept and another arm consumed |
| `Disposal.Balance` | src/codegen.rs:582-656 | Along every path of the emitted code each tracked name is settled: disposed of as often as it is owed |
| `Disposal.ExactlyOnce` | src/own.rs:587-906 | In each pass through the loop every tracked value is disposed of exactly as often as it comes to be, at most once, if and only if it is not handed on in the right operand of a short-circuit operator |
| `Disposal.Leak` | src/own.rs:761-765 | Where it is, the path that cuts the operator short disposes of it nowhere |
| `Disposal.RunBalances` | src/codegen.rs:509-530 | Over any number of passes nothing is lost and nothing disposed of twice |
| `Shadowing.ShadowAccounts` | src/own.rs:798-818 | Where a `let` of a scalar reuses the name of an owned parameter, whatever its body in tail form, a pass disposes of the parameter once for being handed on in the value of the `let` and once more for returning; the accounts balance if and only if exactly one of these is so |
| `Leaving.WalkSpares` | src/own.rs:476-487 | In the walked constructs no drop is recorded for a name that reaches the result, may be shared, or is neither owned nor bound there |
| `Leaving.LeavingNeverFreed` | src/own.rs:304-340 | No run of a function frees a name that reaches its result or that is only lent to it, for every body; drops inside its lambdas and records are not modelled |
| `VcGen.Generator.FreshName` | src/refine.rs:632-644 | A taken name gets a symbol of its own |
| `VcGen.FreshIsNew` | src/refine.rs:632-644 | The symbol chosen is one nothing so far is about, and only the new name's meaning changes |
| `VcGen.Generator.Arithmetics` | src/refine.rs:1170-1210 | Pushes or counts as skipped exactly the obligations of one operation |
| `VcGen.Generator.Overflows` | src/refine.rs:1212-1231 | The obligation that a result stays in its type's range, for types with a ceiling |
| `VcGen.Generator.Visit` | src/refine.rs:895-1012 | Generation over a stack of hypotheses, pushed and cut back in place, yields the obligations of the specification |
| `VcGen.Generator.VisitArms` | src/refine.rs:981-1009 | The same for the arms of a match, each below the refutations of those above |
| `VcGen.Framed` | src/refine.rs:895-1012 | Generating leaves the hypotheses and names in force as they were, and only adds obligations |
| `VcGen.RunTyped` | src/refine.rs:533-548 | In the fragment a run's value is one of its type, and a run is never stuck |
| `VcGen.TermMeans` | src/refine.rs:706-793 | The solver's term of an expression means what a run of it computes |
| `VcGen.GuardHolds` | src/refine.rs:898-913 | What the right operand of a short-circuit operator may assume is so whenever it is evaluated |
| `VcSound.LetModels` | src/refine.rs:952-980 | After a `let` the hypotheses hold of the run, the new symbol read as the value |
| `VcSound.ArmFacts` | src/refine.rs:1018-1038 | What an arm assumes holds when it is taken, and its refutation when it is not |
| `VcSound.Sound` | src/refine.rs:895-1012 | If every obligation generated is valid and none was skipped, no run divides by zero, subtracts below zero or leaves a type's range; sums and products of type `Nat` included |
| `VcSound.FunctionSafe` | src/refine.rs:414-468 | The same for a whole function on all arguments its signature and refinements admit |
| `VcExact.GuardExact` | src/refine.rs:898-913 | What the right operand of a short-circuit operator may assume holds exactly where it is evaluated |
| `VcExact.ArmExact` | src/refine.rs:1018-1038 | What an arm on a literal assumes holds exactly where it is taken, and what it leaves to those below exactly where it is not |
| `VcExact.ArithFails` | src/refine.rs:1170-1231 | A goal about an operation that does not hold of its operands is an operation that faults, in the way the obligation names |
| `VcExact.NoneSkipped` | src/refine.rs:895-1012 | Nothing is skipped where everything that is computed with, bound or matched on is a term |
| `VcExact.FailureShows` | src/refine.rs:414-468 | An obligation that fails in some reading of the solver's symbols fails for arguments the signature admits: on those the function does not yield a value |
| `VcExact.ProvedIff` | src/refine.rs:414-468 | There the obligations are all valid if and only if the function yields a value on all arguments its signature and refinements admit |
| `VcSound.SumExactIffRoom` | runtime/vibert.c:284-320 | The machine's sum or product of words that stand for their operands stands for the result if and only if that is below 2^64, or below 2^63 where both are tagged signed |
| `VcSound.MachineExact` | runtime/vibert.c:284-330 | Where a mathematical run has a value and each sum and product on its way has that room, the machine's wrapping operators compute the value, whatever the tags |
| `VcSound.FunctionExact` | src/refine.rs:414-468 | Under valid obligations and with that room a function's machine result is its mathematical one, `Nat` and signed-tagged words included |
| `VcSound.TaggedFunctionExact` | src/refine.rs:414-468 | The room is there wherever names of known type are tagged unsigned and no sum or product is of type `Nat`: then valid obligations alone make the machine result exact |
| `VcSound.LetToldIffInRange` | src/refine.rs:952-980 | What a `let` adds to the hypotheses holds of the run if and only if the value lies in the range of the type the generator gives it |
| `VcSound.SumAsked` | src/refine.rs:1212-1231 | A sum or product of a known type is asked about exactly when that type has a ceiling |
| `VcSound.NatWraps` | src/refine.rs:533-548 | `Nat` has none: nothing is asked of `n + 1`, and the machine wraps it to 0 |
| `VcSound.SignedArgumentsWrap` | runtime/vibert.c:284-298 | A literal argument is a signed word, so a sum that is in range as a U64 can come out negative |
| `VcSound.LiteralProvesAnything` | src/refine.rs:1170-1210 | With `x` a U8, `1000 - x` passes its one obligation, and a `let` of it gives the solver contradictory hypotheses |
| `Emit.Gen.Expr` | src/codegen.rs:795-895 | Emission into an output buffer with a counter and a stack of scopes yields the statements and the delayed expression of the specification, and restores the scopes |
| `Emit.Gen.BindPattern` | src/codegen.rs:764-793 | An arm's variables are fresh, numbered in order, and shadow what they should |
| `Emit.Gen.Tail` | src/codegen.rs:582-656 | The same in tail position, with self calls as back edges |
| `Emit.Gen.Lookup` | src/codegen.rs:233-235 | The innermost scope that knows the name decides |
| `Compile.StrCompiledIffNulFree` | src/codegen.rs:799-799 | A string literal is compiled to its value if and only if it holds no NUL |
| `Constants.LiteralHolds` | src/codegen.rs:797-802 | The constant a literal is emitted as is how the runtime holds the literal's value, at every type the literal may have |
| `Constants.StringHoldsIff` | src/codegen.rs:799-799 | For a string that is so if and only if it holds no NUL |
| `Constants.LiteralsTold` | src/codegen.rs:709-724 | The condition of a literal pattern is true of a literal's constant exactly where the two are one literal, or one number spelled whole and decimal |
| `Constants.ConstantHolds` | src/codegen.rs:795-850 | Literals, tuples, lists and constructors of them evaluate to how the runtime holds the value that is written |
| `Constants.ConstantMatch` | src/codegen.rs:658-707 | A match on such data is the body of the first arm that matches the value written |
| `Constants.ConstantFunction` | src/codegen.rs:474-530 | A compiled function whose body is such data returns it |
| `Constants.RightOperandRuns` | src/codegen.rs:935-985 | The short-circuit operators run the right operand only where the left does not decide, and every other operator runs both |
| `Constants.NameApplied` | src/codegen.rs:1145-1195 | Applying a name calls a function of the module exactly where it has one of that name and that many parameters, and the runtime's otherwise |
| `Constants.SelfCallsLoop` | src/codegen.rs:605-637 | A tail call goes round the loop exactly where it is a call of the function itself with all its arguments, the name not bound anew; those are the back edges of drop placement |
| `Compile.ExCorrect` | src/codegen.rs:795-895 | Running the emitted statements and then reading the delayed expression, at any later time, gives what the source evaluates to, or stops where it does |
| `Compile.ShortCorrect` | src/codegen.rs:935-985 | Short-circuit operators evaluate their right operand exactly when the source does |
| `Compile.MatchCorrect` | src/codegen.rs:658-707 | An emitted match gives what the source match does, whose arms are tried by structure and not by the emitted tests |
| `Compile.MatchMeans` | src/codegen.rs:658-707 | On a value of its type a source match is the body of the first arm whose pattern matches, its variables bound to the subvalues at their types |
| `Compile.AssignTogether` | src/codegen.rs:611-635 | Assigning the parameters one by one from temporaries gives them all their new values at once |
| `Compile.BackCorrect` | src/codegen.rs:605-637 | Going round the loop is calling the function |
| `Compile.TailCorrect` | src/codegen.rs:582-656 | A body in tail position ends a round with the value of the source, or with the call it stands for |
| `Compile.CompiledMeans` | src/codegen.rs:474-530 | For every program of the fragment, function, arguments and amount of fuel the compiled loop returns what the recursive definition evaluates to |
| `Parsing.Parser.Operators` | src/parser.rs:661-690 | The cursor loop of precedence climbing takes the tree and leaves the tokens the grammar says |
| `Parsing.Parser.Unary` | src/parser.rs:692-704 | Prefix operators by cursor, as in the grammar |
| `Parsing.Parser.Application` | src/parser.rs:706-718 | Juxtaposition by cursor, as in the grammar |
| `Parsing.Parser.Postfix` | src/parser.rs:720-740 | Field projections by cursor, as in the grammar |
| `Parsing.Parser.Atom` | src/parser.rs:760-905 | Atoms, parenthesised forms and lambdas by cursor, with parentheses around what needs none refused |
| `Parsing.Parser.Type` | src/parser.rs:362-369 | Function types by cursor, as in the grammar |
| `Parsing.Parser.TypeAtom` | src/parser.rs:390-432 | Type atoms by cursor, as in the grammar |
| `Parsing.Parser.Pattern` | src/parser.rs:946-957 | Constructor patterns by cursor, as in the grammar |
| `Parsing.Parser.PatternAtom` | src/parser.rs:974-1048 | Pattern atoms by cursor, as in the grammar |
| `RoundTrip.WholeBack` | src/view.rs:486-606 | Parsing at a level what was printed for it comes to the expression and the loop over the operators that follow |
| `RoundTrip.ExprRoundTrip` | src/view.rs:486-606 | Parsing at the matching level gives the printed expression back and leaves any suffix that cannot continue it |
| `RoundTrip.BinopBack` | src/parser.rs:661-690 | Left grouping on both sides: an operator's own level on the left, one more on the right |
| `Grouping.PowersFollowClasses` | src/parser.rs:670-678 | Operators bind by six classes, each tighter than the one before: or, and, the comparisons, `++`, sums, products |
| `Grouping.ChainParses` | src/parser.rs:661-690 | A chain of any operands and operators is read as exactly one tree: the one that splits, all the way down, at the last operator of the loosest class |
| `Grouping.TwoOperators` | src/parser.rs:661-690 | Of two operators the second takes the middle operand exactly where its class comes later, and the first does everywhere else |
| `Grouping.PrefixTakesApplication` | src/parser.rs:692-704 | A sign or a `!` takes a whole application |
| `Grouping.BareLambdaArgument` | src/parser.rs:706-718 | A lambda is read as a last argument without parentheses too |
| `Grouping.PrintedLambdaArgument` | src/view.rs:512-518 | Printed, it has them, and is read the same |
| `Grouping.ArgumentsRead` | src/parser.rs:706-718 | Arguments are read in their order as one application |
| `Grouping.ItemsRead` | src/parser.rs:834-882 | So are the parts of a tuple or a list |
| `Grouping.ArrowsRead` | src/parser.rs:362-369 | Arrows group to the right |
| `Grouping.TokensRead` | src/parser.rs:760-796 | A token that is an expression by itself is that literal or name |
| `Grouping.ParenthesesRefused` | src/parser.rs:834-866 | Parentheses are refused exactly around what is printed as one token |
| `Grouping.OperandsPrinted` | src/view.rs:518-529 | An operand is printed in parentheses exactly where it is built by an operator of an earlier class, or on the right of the same class, or is a lambda or a block |
| `Grouping.AtomPrinted` | src/view.rs:486-534 | A head, an argument, and what stands under a sign, a borrow or a field are printed in parentheses exactly where they are calls, operations, lambdas or blocks |
| `RoundTripExact.ParsedProducible` | src/parser.rs:639-905 | Whatever the parser makes of tokens whose literals carry no sign is an expression of the fragment |
| `RoundTripExact.ExprRoundTripIff` | src/view.rs:486-606 | For every expression of the fragment, context and suffix that cannot continue it, parsing what is printed gives the expression back if and only if no sign is an argument or under a borrow or a field, and no borrow under a field |
| `RoundTrip.TypeRoundTrip` | src/view.rs:652-683 | The same for all types |
| `RoundTrip.PatRoundTrip` | src/view.rs:620-650 | The same for all patterns the parser produces |
| `RoundTrip.WildReadsAsName` | src/view.rs:620-640 | A wildcard comes back as the name `_` |
| `RoundTrip.SignReadsAsOperator` | src/view.rs:530-531 | A sign printed as an argument comes back as a subtraction |
| `Postconditions.ExcludedLengths` | src/refine.rs:1510-1525 | The loop over the arms above finds exactly the lengths they rule out |
| `Postconditions.FirstMissing` | src/refine.rs:1526-1530 | The loop finds the least length not ruled out |
| `Postconditions.FillTails` | src/refine.rs:1473-1502 | The walk over tails with its early exit fills in the least bound of each constructor |
| `Postconditions.AllMissed` | src/refine.rs:1504-1532 | A value that every arm above passed over has a payload of none of the lengths they test |
| `Postconditions.ArmBound` | src/refine.rs:1504-1532 | In an arm reached by passing over those above, the recorded bounds hold of what its names stand for |
| `Postconditions.TailsSound` | src/refine.rs:1473-1502 | Every bound recorded holds of every value the body can yield |
| `Postconditions.InferredSound` | src/refine.rs:1456-1532 | A function that yields `C x` yields an `x` at least as long as inferred for `C`, for every environment and every meaning of the rest of the program |
| `Postconditions.ClaimReads` | src/refine.rs:1485-1501 | What a tail position says of its payload: the bound of the name it is, borrowed or not, however the arguments are grouped |
| `Postconditions.IrrefutableIff` | src/refine.rs:1515-1524 | The patterns that are not tested are exactly those every value gets past |
| `Postconditions.InferredIff` | src/refine.rs:1456-1502 | Something is inferred of a constructor exactly where every tail position applies one and the least known of its payload over all that apply it is positive: that |
| `Postconditions.ArmBoundTight` | src/refine.rs:1504-1532 | An arm's bound cannot be raised: below arms whose tests are followed a payload of just that length gets past all of them |
| `Dict.Dict.Reindex` | runtime/vibert.c:1036-1052 | Every entry is found by probing from its home in a power-of-two table of at least `2n + 2` slots |
| `Dict.Dict.Slot` | runtime/vibert.c:1054-1058 | Probing ends: at the key's entry where it is present, otherwise at the first gap after its home |
| `Dict.Dict.InsertOwned` | runtime/vibert.c:1088-1102 | In place: the key's own position where it is present, the end where not |
| `Dict.Dict.RemoveOwned` | runtime/vibert.c:1103-1113 | In place: the order of the rest is kept |
| `Dict.Dict.Lookup` | runtime/vibert.c:1120-1128 | The entry of the equal key, or none |
| `Dict.Dict.Keys` | runtime/vibert.c:1130-1135 | All keys in order of insertion |
| `Dict.Dict.Dup` | runtime/vibert.c:1077-1084 | A dictionary of its own with the same entries |
| `Dict.Dict.Insert` | runtime/vibert.c:1115-1117 | The copying form leaves the original alone |
| `Dict.Dict.Remove` | runtime/vibert.c:1118-1118 | The copying form leaves the original alone |
| `Dict.EmptyAhead` | runtime/vibert.c:1054-1058 | With fewer entries than slots probing from anywhere meets an empty slot |
| `Dict.NowhereElse` | runtime/vibert.c:1054-1058 | A key not met before the first empty slot is not in the dictionary |
| `Dict.HistoryUnique` | runtime/vibert.c:1088-1113 | After any history of insertions and removals no key is there twice |
| `Dict.HistoryLookup` | runtime/vibert.c:1088-1128 | A lookup finds what the last operation on an equal key left, judged from the history alone |
| `Dict.HistoryOrder` | runtime/vibert.c:1088-1135 | Entries stand in the order in which their keys came to be present: inserting again keeps the place, removing keeps the others' |
| `Order.Compare` | runtime/vibert.c:331-368 | The comparison by nested loops is the recursive one |
| `Order.Equal` | runtime/vibert.c:370-394 | The equality by nested loops is the recursive one |
| `Order.HashOf` | runtime/vibert.c:987-1028 | The hash by nested loops is the recursive one, eight bytes at a time and a last word with the length |
| `Order.TotalOrder` | runtime/vibert.c:331-394 | On values of one type, numbers of an unsigned type tagged either way, the comparison never stops, is antisymmetric and transitive through nested values, and equality holds exactly where it is 0 |
| `Order.BytesLexicographic` | runtime/vibert.c:360-364 | One string is below another exactly where it is a proper prefix, or has the smaller byte at the first place they differ |
| `Order.OrderIs` | runtime/vibert.c:331-368 | On values of one type the comparison says below exactly by dictionary order: numbers and characters by size, strings by bytes, vectors and dictionaries by elements, structures by tag and then by fields |
| `Order.WordsDecide` | runtime/vibert.c:987-992 | No two strings are hashed from the same words |
| `Order.MixedOrderIff` | runtime/vibert.c:366-367 | A signed word is in order with signed and unsigned ones if and only if it is not negative; a negative one makes a cycle |
| `Order.EqUpToNull` | runtime/vibert.c:355-394 | Values of one type are equal exactly when they differ only in which of their empty C strings are NULL and which of their numbers are tagged signed |
| `Order.EqualHash` | runtime/vibert.c:981-1028 | A value without a NULL or empty C string inside hashes as everything equal to it does, for every mixing and seed |
| `Order.EqualHashIffNoBlank` | runtime/vibert.c:981-1028 | Under every mixing that loses nothing of the state and moves on a zero word, that is exact: a blank anywhere tells a value by its hash from one it equals |
| `Order.EqualHashForAllIffNoBlank` | runtime/vibert.c:994-1028 | The values that hash as everything equal to them under every mixing are exactly those without a blank |
| `Order.NullHashesAlikeIff` | runtime/vibert.c:1012-1012 | NULL equals the empty C string, and under any mixing and seed they hash alike if and only if a zero word leaves the seed as it is |
| `Order.RuntimeTellsNull` | runtime/vibert.c:981-986 | The runtime's own mixing at seed 1 does not leave it |
| `MergeSort.MergeInto` | runtime/vibert.c:584-588 | The three loops leave in the scratch array the merge of the two halves, taking the left one on a tie |
| `MergeSort.Sort` | runtime/vibert.c:579-590 | In place on a stretch of the array, every level using the same scratch from its start; nothing outside the stretch changes |
| `MergeSort.SortBy` | runtime/vibert.c:591-602 | Keys computed once each, sorted with their elements, and dropped |
| `MergeSort.SortsStably` | runtime/vibert.c:576-590 | For keys in any preorder: a permutation, in order, elements with tied keys as they came |
| `MergeSort.OrderAndTiesDecide` | runtime/vibert.c:576-590 | No other arrangement is in order and keeps the ties |
| `MergeSort.MergeSortIsInsertionSort` | runtime/vibert.c:576-590 | It computes exactly what the insertion sort it replaced did |
| `MergeSort.TypedKeysOrdered` | runtime/vibert.c:331-368 | Keys of one type are in such a preorder under the runtime's comparison |
| `Strings.StrFind` | runtime/vibert.c:767-778 | Jumping from candidate byte to candidate byte finds what trying every place finds |
| `Strings.FindLeast` | runtime/vibert.c:763-778 | The answer is the least occurrence at or after the start, or there is none; an empty needle is found at the start |
| `Strings.SplitOn` | runtime/vibert.c:780-792 | The loop collects the pieces between occurrences |
| `Strings.JoinPieces` | runtime/vibert.c:780-792 | The pieces rejoin to the input |
| `Strings.PiecesFree` | runtime/vibert.c:780-792 | No piece holds the separator |
| `Strings.SplitJoin` | runtime/vibert.c:780-792 | Splitting undoes joining of pieces free of the separator, for every separator whose first byte is not repeated in it |
| `Strings.CharactersLeadOnce` | runtime/vibert.c:644-659 | The bytes of every character are such a separator, invalid ones written as U+FFFD included |
| `Strings.Utf8Spells` | runtime/vibert.c:644-659 | The bytes of a character are its UTF-8 spelling, by lead and further bytes in the fewest that hold it, and U+FFFD's for what is no scalar value |
| `Strings.Replace` | runtime/vibert.c:834-846 | Replacing is splitting on the needle and joining with the replacement; an empty needle changes nothing |
| `Strings.ReplaceBySelf` | runtime/vibert.c:834-846 | Replacing something by itself changes nothing |
| `Growth.VecBuf.Push` | runtime/vibert.c:432-440 | Appends, doubling a full array from 8 on at the cost of one copy of it; refused exactly when the doubled array has no size in bytes |
| `Growth.VecBuf.DupInto` | runtime/vibert.c:442-444 | Copies go on the end in order, without growing where there is room |
| `Growth.VecBuf.CopiesLinear` | runtime/vibert.c:432-440 | Growing has copied fewer than two elements a push, over all pushes there were |
| `Growth.Concat` | runtime/vibert.c:609-615 | End to end without a single element copied by growing |
| `Growth.StrBuf.PushOwned` | runtime/vibert.c:736-751 | Appends exactly, a string to itself included; refused exactly when the sum of the lengths does not fit a word |
| `Growth.SumWraps` | runtime/vibert.c:738-739 | The test of the wrapped sum against one addend detects exactly the overflow |
| `Growth.StrBuf.CopiesLinear` | runtime/vibert.c:734-747 | Below half the address space growing has copied fewer than two bytes for each byte of the string |

## Left out

- Lexing, layout, diagnostics' text and spans, file lookup, the command line, process spawning, the solver itself and the C compiler: no property of this kind.
- `src/escape.rs`, `src/patch.rs`, `edit_distance` and name mangling: they would only add easy members.
- Spans: the ownership model names an expression by its path of child indices; two expressions of one source span are not modelled.
- Machine width in the compiler: `i128` coefficients and obligations are unbounded integers here.
- Measures: an atom that is not a parameter is keyed by the expression, not by its printed text. Two expressions printed alike are two atoms here; and the forms the source prints with their spans are one atom here wherever they are equal, where the source keeps them apart and may find no gap.
- Totality.MadeIsScanned: a call through a variable, a parameter or a field that holds a function is no call here, as it is none to the source's scan.
- Totality.NoInfiniteRun: is about chains of calls by name, for the same reason: with `f t = match t with T g -> g t` and `main = f (T f)` no named call closes a cycle, so the program is accepted, and it runs for ever. It also needs that no binder over a call inside a component reuses a name of the measure; some programs with such a binder terminate all the same.
- Totality.EndlessRunGoesNegative: the same two restrictions.
- Usefulness.UsefulIffWitness: takes literal types as infinite and, from useful to witness, every type as inhabited, because the algorithm looks at heads only.
- Patterns: an integer pattern at a floating-point type, record patterns, and the fallback text of the diagnostic for open-ended types are left out.
- Unify: schemes, scopes, generalisation and instantiation.
- Ownership.State.UseName: the table of names updated in place and its error for a use after the update are left out.
- UseOnce.AcceptsIffNoReuse: for the bodies of `Disposal.ExactlyOnce`; what the paths of other bodies do is not modelled.
- Ownership.State.Visit: lambdas, records, temporaries and in-place updates are left out.
- Ownership.AnalyseBody: the errors for borrows that escape are left out, with `src/escape.rs`.
- Ownership: lambdas, records and field reads, `ext c` calls, in-place updates and the table of temporaries are left out.
- Leaving.WalkSpares: the walk of lambdas, records and field reads is empty in the model, so nothing is said of drops inside them.
- Leaving.LeavingNeverFreed: the same.
- Shadowing.ShadowAccounts: the `let` is the whole body, the new name is a scalar that the rest binds no more, and the old one neither leaves nor is lent.
- Sharing.SharedIff: which callees hand out interior pointers is a given set, the same for `Sharing.HandsOutIff`.
- Disposal.ExactlyOnce: covers bodies whose lets and matches stand in tail position, patterns that bind no affine value, and names that neither reach the result nor may be shared; those are covered by `Leaving.LeavingNeverFreed`. It accounts for names, not for pointers, and takes a failing match as ending the program.
- Drops.Gen.Tail: the settling of a delayed result before pending frees is part of neither `Drops` nor `Emit`; `Emit` has no frees and `Drops` no values.
- VcGen.Generator.Visit: calls, records, binds and constructor arms are left out.
- VcGen.Generator.VisitArms: constructor arms and arms that bind a name under a constructor are left out.
- VcSound.Sound: covers unsigned scalars and Bool with lets and literal or wildcard arms; lambdas, fields, `len`, constructor patterns, call sites and their substitution, signed division and floats are left out, and arithmetic on names bound to values of unknown type.
- VcExact.ProvedIff: asks that refinements compare and combine and compute nothing, and that matches are complete with nothing below an arm that always applies. A refinement with arithmetic is assumed of the solver's integers also where computing it would fault.
- VcSound.FunctionExact: a match in which no arm applies stops a run; that is the exhaustiveness check's business.
- Emit.Gen.Expr: closures, records and field reads are left out.
- Emit.Gen.Tail: the pending frees are in `Drops` and not here.
- Compile.CompiledMeans: closures, records, constructors and functions given fewer or more arguments than they take, runtime re-checks of preconditions and frees are left out; the runtime's operators are any partial functions of their operands.
- Compile.CompiledMeans: runs are compared by the amount of fuel, one unit a call or round, so what is said of runs that never end is that both give no value at any fuel.
- RoundTrip.ExprRoundTrip: asks for the condition that `RoundTripExact.ExprRoundTripIff` proves necessary.
- RoundTrip.WholeBack: the same.
- RoundTripExact.ExprRoundTripIff: pipes, block forms inside a line, records, and a qualified constructor's dotted spelling are left out; a qualified name is one token.
- The cursor methods of `Parsing.Parser`, and the methods of `VcGen.Generator`, `Emit.Gen` and `Drops.Gen`, follow their specification functions step for step; the results about them are in `RoundTrip`, `VcSound`, `Compile` and `Disposal`.
- Parsing.Parser.Atom: match arms, records and indented bodies are left out, and with them the depth limit and newlines.
- Postconditions.InferredSound: what is not in tail position may mean anything, as long as names read as bound and a constructor applied builds its own values.
- Dict: the hash is any function that respects the key equality, values are copied by assignment, and allocation never fails.
- Order.TotalOrder: floats, raw pointers and closures are left out, and unsigned tags at signed types; a C string is its bytes before the NUL.
- Order.EqualHashIffNoBlank: the runtime's mixing is not known to lose nothing, so for it the failing half is shown at one seed, on NULL itself.
- MergeSort.SortBy: the function giving keys is pure, so that it is called once an element is visible in the method only.
- Strings: bytes are numbers, and a string's address, its NUL and its capacity are left to `Growth`.
- Order.WordsDecide: the words of a string, before they are mixed; nothing is said of collisions of the mixing.
- Growth.StrBuf.CopiesLinear: above half the address space the capacity is exactly what is needed, so each push copies everything; no allocation gets there.
- Growth: allocation failure other than by size, and the buffer `show` and `replace` build into.
