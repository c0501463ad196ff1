# Verified models of aonohako's core

A Dafny model of the parts of aonohako whose correctness is least evident from reading one function: its language tools, its admission and shutdown protocols, and its bounded decoding, comparison and planning code. `dafny verify dfyconfig.toml` checks the project.

There is one module per source file or component.

| component | modules |
|---|---|
| Unlambda machine, parser and compile check | UnlambdaMachine, UnlambdaBisimulation, UnlambdaReduction, UnlambdaSyntax |
| Brainfuck interpreter, compile check, and the macro generator of the self-test | Brainfuck, BrainfuckSource, BrainfuckMacros, BrainfuckAdder, BrainfuckGenerator |
| the sed addition script of the self-test | Sed, SedAdder |
| Whitespace parser | Whitespace |
| Malbolge machine, loader and compile check | Malbolge, MalbolgeLaws |
| two-party start barrier with timers | InteractiveTimers |
| replay cache, rate windows, work lifecycle | PlatformReplay, RateWindow, WorkLifecycle |
| retained-byte budget and payload URLs | RequestBudget, PayloadUrl, Base64, Utf8 |
| JSON decoder with collection limits | JsonDecoder, JsonErrors |
| incremental CI planner | RuntimePlan |
| output comparator | OutputCompare |
| compile response bound | CompileResponse, JsonSize |

Code that changes state step by step is a method or a class, proved against a function of the old state; the theorems are about that function. Where the source holds a lock, each locked section is one step, and a run is any sequence of steps of any number of participants. Interpreters need not halt, so their methods take a number of steps; the theorems quantify over every such number, so they speak about all runs, halting or not. Clocks are integers, and are nondecreasing where the property needs it. Servers, decoders of the standard library and other outside code are parameters.

## What is proved

**Interpreters.** The Unlambda machine's fast path for `s` is a stuttering simulation of the textbook machine in both directions: it halts in the same worlds and passes through the same outputs, reads and current characters, also through captured continuations and delayed operands. For programs without `c` the machine halts in a world exactly when a recursive evaluator written from the reduction rules ends in it, and every rule, those of `c` included, is a law of the machine in every continuation. The jump-table Brainfuck machine halts in a configuration exactly when the nested-loop semantics does. The text that the Go generator writes is the text of a structured program, its tracked position is the pointer at every reachable point, and on two two-digit operands it prints their decimal sum. The sed script, as a rewriting of one pattern space with leftmost greedy matching, prints the decimal of a + b for digit strings of every length. Every Malbolge step is an instruction of the language, given by its number (cell + position) mod 94: what it does to accumulator, pointers, input, output and the two cells it can change is said trit by trit, and encryption is a permutation. The three compile checks accept exactly what the loaders load.

**Protocols.** Each is proved over all interleavings: at most one release and never a release with a startup abort; the lazily purged replay cache and the periodically cleaned rate map decide exactly as their ideal, never purged counterparts; no handler enters after a drain, and a wait that returns nil means that every handler has cleaned up; the byte budget is the sum of what the requests hold, a refusal is exact, and everything is given back.

**Decoding, comparison and planning.** The JSON decoder consumes exactly one value or stops at a limit; it ends without an error in a value exactly when that value represents the JSON text under the schema, and otherwise reports the first complaint in document order with its dotted path. The comparator decides equality of normal forms. A planned run is accepted exactly when the unconditional jobs, the jobs of all selected profiles and, when its inputs changed, the sandbox job succeeded and no job failed. Over any chain of accepted runs every profile's current digest passed in this run or an ancestor. A compile response is presented unchanged but for stated cuts, or refused with the first limit its artifacts break.

## Findings

- A principal gets at most 2 * max - 1 requests through in any half-open minute, one fewer than two full windows would allow, because a window opens with its first request. `RateWindow.NearlyTwiceMaxIsReached` shows for every max that 2 * max - 1 is reached.
- `PrepareResponse` does not bound an artifact's mode or the status, so by itself it does not guarantee the 96 MiB event limit. `CompileResponse.FitsIffRoomIsLeft` gives the exact condition on status and modes; `CompileResponse.LongModeBreaksTheLimit` is a simple response that breaks the limit, `CompileResponse.Worst` breaks it whenever the condition fails, and `CompileResponse.KnownStatusesFit` shows that the statuses and modes that the compilers and the remote runner let through always satisfy it.
- A request that asks the byte budget for no more than it holds is never refused, so the check after URL resolution can only fail when later policies made the request larger.

## Model

| member | source | states |
|---|---|---|
| UnlambdaMachine.Run | scripts/unlambda.py:103-211 | the buffered loop logs exactly the reads and writes of the transition system, and stops exactly when it does |
| UnlambdaBisimulation.StepSimulated | scripts/unlambda.py:137-155 | one interpreter transition, fast path included, is matched by an explicit number of textbook transitions between the erased states |
| UnlambdaBisimulation.RunSimulated | scripts/unlambda.py:103-211 | after any number of interpreter steps the textbook machine is in the erased state |
| UnlambdaBisimulation.CostGrows | scripts/unlambda.py:103-211 | the interpreter never stutters forever: any two of its steps cost a textbook step |
| UnlambdaBisimulation.WorldsCovered | scripts/unlambda.py:103-211 | output, input position and current character at every textbook point are also shown by the interpreter |
| UnlambdaBisimulation.HaltsTransfer | scripts/unlambda.py:103-211 | from any state both machines halt in the same worlds |
| UnlambdaBisimulation.ShowsTransfer | scripts/unlambda.py:103-211 | from any state both machines pass through the same worlds |
| UnlambdaBisimulation.FastPathIsUnobservable | scripts/unlambda.py:103-211 | for every program and input the fast path changes neither halting nor anything observable |
| UnlambdaReduction.TextbookComputes | scripts/unlambda.py:103-211 | a program without `c` halts the textbook machine in a world iff the evaluator by reduction rules ends in it |
| UnlambdaReduction.InterpreterComputes | scripts/unlambda.py:103-211 | for every source program without `c` and every input the interpreter halts in a world iff evaluation by the reduction rules ends in it, so what it prints and reads is what the language says |
| UnlambdaReduction.CombinatorLaws | scripts/unlambda.py:148-174 | `k`, `s`, `i`, `v` and their partial applications reduce by their rules, in every continuation and under both treatments of `s` |
| UnlambdaReduction.ConstantLaw | scripts/unlambda.py:148-159 | two applications of `k` return the first argument in the same world |
| UnlambdaReduction.SubstitutionLaw | scripts/unlambda.py:152-155 | `s` with three arguments becomes the application of applications of the language |
| UnlambdaReduction.WorldLaws | scripts/unlambda.py:161-205 | printing, reading, comparing and reprinting change the world and go on as the language says; `e` stops |
| UnlambdaReduction.ControlLaws | scripts/unlambda.py:119-182 | `d` delays its operand until it is forced, `c` passes the continuation, and a continuation returns to where it was captured |
| UnlambdaSyntax.Parse | scripts/unlambda.py:61-100 | the loop with its pending stack computes the parser function, errors and their positions included |
| UnlambdaSyntax.ParserDescends | scripts/unlambda.py:61-100 | the pending stack implements recursive descent: reading an expression plugs it into the innermost open application |
| UnlambdaSyntax.ParsesExactlyTheSpellings | scripts/unlambda.py:61-100 | the parser returns e iff the source is a spelling of e with white space and comments anywhere between tokens |
| UnlambdaSyntax.SpellingIsUnambiguous | scripts/unlambda.py:61-100 | no source spells two expressions |
| UnlambdaSyntax.RoundTrip | scripts/unlambda.py:61-100 | parsing the printed form of any source expression returns it |
| UnlambdaSyntax.ParsedIsPlain | scripts/unlambda.py:61-100 | parsed programs hold no captured continuation, promise or partial application |
| UnlambdaSyntax.BuiltinsExactly | scripts/unlambda.py:39-53 | which characters stand alone, in either case, for which combinators, and which are white space |
| UnlambdaSyntax.ErrorIsExact | scripts/unlambda.py:61-100 | an error names the first byte that cannot be: behind a whole program, unknown, or lacking its operand; the text before it is a whole program in the first case and needs more in the others |
| UnlambdaSyntax.ValidateUnlambda | internal/compile/esolang_compilers.go:97-133 | the loop with its counter computes the check function, problem and position included |
| UnlambdaSyntax.PlugDecrementsCounter | internal/compile/esolang_compilers.go:97-133 | completing a node takes one off the open operator slots plus one |
| UnlambdaSyntax.CheckMirrorsParser | internal/compile/esolang_compilers.go:97-133 | from corresponding loop states parser and check give the same verdict at the same byte |
| UnlambdaSyntax.CheckAgreesWithParser | internal/compile/esolang_compilers.go:97-133 | the check reports the very error the parser raises, and none iff it accepts |
| Brainfuck.BuildJump | scripts/brainfuck.py:13-25 | succeeds iff the program is well bracketed; the table is an involution on exactly the brackets pairing each with its match; which error is raised |
| Brainfuck.Execute | scripts/brainfuck.py:27-59 | the loop over a growing tape computes the output and halting of the transition system |
| Brainfuck.StepExactly | scripts/brainfuck.py:34-59 | each command's effect on the cells, the pointer, input, output and the next position, wrap-around, end of input and matched brackets included |
| Brainfuck.MachineFollows | scripts/brainfuck.py:27-59 | a terminating nested-loop run is followed by the jump-table machine |
| Brainfuck.RunIsStructured | scripts/brainfuck.py:27-59 | a halting machine run passes the end of every block in the structured result |
| Brainfuck.MachineMeetsStructure | scripts/brainfuck.py:27-59 | the machine halts in a configuration iff the structured semantics ends there, so one diverges iff the other does |
| Brainfuck.InterpreterMeetsStructure | scripts/brainfuck.py:13-59 | the same for the nested-loop program read off any accepted text |
| BrainfuckSource.Interpret | scripts/brainfuck.py:5-62 | from source text to output: comments dropped, an error iff unbalanced and which one, otherwise the machine's run |
| BrainfuckSource.CheckBrackets | internal/compile/script_compilers.go:502-516 | the depth loop accepts iff the depth never falls below zero and ends at zero |
| BrainfuckSource.CheckAcceptsWhatLoads | internal/compile/script_compilers.go:502-516 | on the bytes of any text the check accepts iff the interpreter can build its table |
| BrainfuckMacros.MoveRuns | cmd/selftest/brainfuck_fixture.go:25-32 | `move` takes the pointer from any cell to any cell and changes nothing else |
| BrainfuckMacros.AddRuns | cmd/selftest/brainfuck_fixture.go:33-40 | `add` adds any amount, of either sign, to the cell modulo 256 |
| BrainfuckMacros.ClearRuns | cmd/selftest/brainfuck_fixture.go:41-44 | `clear` zeroes the cell on every tape |
| BrainfuckMacros.CopyCellRuns | cmd/selftest/brainfuck_fixture.go:45-57 | the exact effect of `copyCell` on every tape, whatever the scratch cells hold |
| BrainfuckMacros.CopyCellRestores | cmd/selftest/brainfuck_fixture.go:45-57 | with the backup clear, the cell is added to the copy and everything else is restored |
| BrainfuckMacros.TestRuns | cmd/selftest/brainfuck_fixture.go:58-72 | the test sets the flag iff the cell is zero and leaves the rest of the tape alone |
| BrainfuckMacros.IfZeroSkips | cmd/selftest/brainfuck_fixture.go:58-72 | on a nonzero cell `ifZero` does nothing |
| BrainfuckMacros.IfZeroRunsOnce | cmd/selftest/brainfuck_fixture.go:58-72 | on a zero cell `ifZero` runs any flag-preserving body exactly once |
| BrainfuckAdder.ReadDigitRuns | cmd/selftest/brainfuck_fixture.go:73-81 | `readDigit` adds weight times the next digit to the sum and touches no other cell |
| BrainfuckAdder.CountedAdvances | cmd/selftest/brainfuck_fixture.go:88-106 | one turn of the counting loop advances the three decimal counters by one, carries included |
| BrainfuckAdder.CountLoopRuns | cmd/selftest/brainfuck_fixture.go:88-106 | the loop ends with the counters at the decimal digits of the sum |
| BrainfuckAdder.PrintRuns | cmd/selftest/brainfuck_fixture.go:108-134 | the printing code writes the decimal without leading zeros, for every number below 1000, and a newline |
| BrainfuckAdder.AdderPrintsSum | cmd/selftest/brainfuck_fixture.go:5-136 | on two two-digit operands the whole program ends in one configuration only, having printed their sum and a newline |
| BrainfuckGenerator.Generator.Move | cmd/selftest/brainfuck_fixture.go:25-32 | appends the text of the macro and tracks the position |
| BrainfuckGenerator.Generator.Add | cmd/selftest/brainfuck_fixture.go:33-40 | appends the text of the macro and tracks the position |
| BrainfuckGenerator.Generator.CopyCell | cmd/selftest/brainfuck_fixture.go:45-57 | appends the text of the macro and ends at the backup cell |
| BrainfuckGenerator.Generator.BeginIfZero | cmd/selftest/brainfuck_fixture.go:58-72 | opens the loop of `ifZero` in the text with the position at the flag |
| BrainfuckGenerator.Generator.EndIfZero | cmd/selftest/brainfuck_fixture.go:58-72 | closes it, so that the text grown is that of `ifZero` around whatever body was written |
| BrainfuckGenerator.Generator.ReadDigit | cmd/selftest/brainfuck_fixture.go:73-81 | appends the text of the macro and ends at the input cell |
| BrainfuckGenerator.BrainfuckABProgram | cmd/selftest/brainfuck_fixture.go:9-136 | the emitted text is the text of the structured adder |
| BrainfuckGenerator.AdderIsNeutral | cmd/selftest/brainfuck_fixture.go:9-136 | every loop body of the adder returns to the cell it started at |
| BrainfuckGenerator.PointerIsNet | cmd/selftest/brainfuck_fixture.go:25-32 | wherever a run of such a program can be, the pointer is the displacement of the text before that point, which is the tracked position |
| BrainfuckGenerator.EmittedProgramAdds | cmd/selftest/brainfuck_fixture.go:9-136 | run by the jump-table machine, the emitted text halts, and every halting run has printed the decimal sum and a newline |
| BrainfuckGenerator.EmittedPointerIsNet | cmd/selftest/brainfuck_fixture.go:9-136 | on every input, at every step of the emitted program, the pointer is the position the generator tracked at that point of the text |
| BrainfuckGenerator.EmittedProgramLoads | cmd/selftest/brainfuck_fixture.go:9-136 | the emitted text is well bracketed |
| Sed.MatchFits | cmd/selftest/sed_fixture.go:7-45 | what the greedy matcher returns is a way to cut the text along the expression |
| SedAdder.Prepare | cmd/selftest/sed_fixture.go:7-8 | a line is packed into operands and carry, or dropped, exactly when it does or does not hold two operands |
| SedAdder.AcceptedOperandsUnique | cmd/selftest/sed_fixture.go:7-8 | a line determines its operands |
| SedAdder.Pad | cmd/selftest/sed_fixture.go:11-12 | an exhausted operand gets a zero, and the total is unchanged |
| SedAdder.FindUnary | cmd/selftest/sed_fixture.go:14-25 | a unary command applies to the last digit only, and iff that is its digit |
| SedAdder.Unary | cmd/selftest/sed_fixture.go:14-25 | the `:unary` loop ends with as many x's as the digits' sum |
| SedAdder.SplitTen | cmd/selftest/sed_fixture.go:26-28 | one carry digit and the remainder by ten |
| SedAdder.Tally | cmd/selftest/sed_fixture.go:29-39 | the remaining x's become their digit |
| SedAdder.AddDigit | cmd/selftest/sed_fixture.go:13-40 | one round adds the last column and the carry, and shifts the digit into the result |
| SedAdder.DigitStep | cmd/selftest/sed_fixture.go:13-40 | (A + B + carry) * 10^\|R\| + R is kept by the step |
| SedAdder.Round | cmd/selftest/sed_fixture.go:9-41 | a whole turn of the loop keeps that total and uses up digits, so the loop ends |
| SedAdder.Finish | cmd/selftest/sed_fixture.go:42-45 | the canonical decimal of the total is left |
| SedAdder.StrippedIsDecimal | cmd/selftest/sed_fixture.go:42-45 | dropping leading zeros leaves the canonical decimal, 0 included |
| SedAdder.AddPacked | cmd/selftest/sed_fixture.go:9-45 | for digit strings of any length the loop leaves the decimal of their sum |
| SedAdder.SedAB | cmd/selftest/sed_fixture.go:7-46 | every line with two operands yields the decimal of their sum, every other line yields nothing |
| InteractiveTimers.InteractiveExecutionTimers.TargetReady | internal/execute/interactive_timeout.go:37-69 | the locked section's whole new state, with a cancellation before or after the ready mark |
| InteractiveTimers.InteractiveExecutionTimers.Finish | internal/execute/interactive_timeout.go:71-88 | new state, and when the startup abort is due |
| InteractiveTimers.InteractiveExecutionTimers.Stop | internal/execute/interactive_timeout.go:90-100 | new state |
| InteractiveTimers.RunKeepsInv | internal/execute/interactive_timeout.go:26-100 | the barrier's invariant holds after every interleaving |
| InteractiveTimers.BarrierSafety | internal/execute/interactive_timeout.go:26-100 | one release at most, only with both ready, never together with an abort; one expiry a role at most, only after the release |
| InteractiveTimers.TimersExactly | internal/execute/interactive_timeout.go:26-100 | in every run a release arms both execution timers, and one that has not fired is halted exactly when its target has finished or the barrier was stopped; the startup timer runs until then |
| InteractiveTimers.ExpiryWasChecked | internal/execute/interactive_timeout.go:53-66 | in every run an expiry was preceded by a locked check that saw its target released, its role unfinished and the barrier not stopped |
| InteractiveTimers.NoCheckPassesAfterStop | internal/execute/interactive_timeout.go:90-100 | after `stop` no check passes |
| InteractiveTimers.ReleasedExactlyWhenReadyInTime | internal/execute/interactive_timeout.go:37-69 | released iff both roles became ready before any finish, stop, cancellation or startup deadline |
| InteractiveTimers.EarlyFinishAborts | internal/execute/interactive_timeout.go:71-88 | after a finish before the release, in every continuation nothing is released and the startup abort is owed until it runs, which it does exactly once as soon as it is called |
| InteractiveTimers.AbortIsNotLost | internal/execute/interactive_timeout.go:26-100 | an abort that is owed or has run stays so through every continuation |
| PlatformReplay.Cache.Admit | internal/api/platform_replay.go:35-83 | verdict and new entries of one admission; the total stays the number of entries and no empty bucket is kept |
| PlatformReplay.FullIsLiveFull | internal/api/platform_replay.go:46-73 | swept or not, the cache is full iff live entries alone reach a cap |
| PlatformReplay.StepAgrees | internal/api/platform_replay.go:35-83 | one request gets the verdict of the ideal set of live entries, and the two agree afterwards |
| PlatformReplay.LazyPurgeIsUnobservable | internal/api/platform_replay.go:35-83 | over any clocked run every verdict is that of the ideal set |
| PlatformReplay.CapacityMeansLiveEntriesFill | internal/api/platform_replay.go:35-83 | a capacity refusal means live entries fill a cap and the nonce is not among them |
| PlatformReplay.AcceptedOnceBeforeExpiry | internal/api/platform_replay.go:35-83 | an accepted nonce is refused as duplicate for its principal until it expires |
| PlatformReplay.VerdictExactly | internal/api/platform_replay.go:35-83 | every verdict of a clocked run from the earlier acceptances alone: duplicate iff the same pair was accepted and has not expired, else capacity iff the live ones reach a cap, else accepted |
| WorkLifecycle.Lifecycle.Begin | internal/api/lifecycle.go:27-47 | registers iff not draining |
| WorkLifecycle.Lifecycle.Start | internal/api/lifecycle.go:49-62 | marks a request running iff it may still start |
| WorkLifecycle.Lifecycle.SignalFinished | internal/api/lifecycle.go:70-78 | finishes and closes the channel iff draining and nothing is registered |
| WorkLifecycle.Lifecycle.BeginDrain | internal/api/lifecycle.go:82-92 | new state, and that exactly the idle requests are cancelled |
| WorkLifecycle.Lifecycle.CancelWork | internal/api/lifecycle.go:95-101 | every registered request is cancelled |
| WorkLifecycle.Lifecycle.DoneChannel | internal/api/lifecycle.go:105-118 | one channel is made and handed to every waiter |
| WorkLifecycle.RunKeepsInv | internal/api/lifecycle.go:27-118 | finished iff draining with nothing registered, and closed channels match, after every interleaving |
| WorkLifecycle.AdmittedExactly | internal/api/lifecycle.go:27-80 | in every run a request was admitted iff it began before any drain, and cleaned iff it finished after being admitted |
| WorkLifecycle.RunningExactlyIfStarted | internal/api/lifecycle.go:49-62 | a registered request is running iff it was started, uncancelled, before any drain |
| WorkLifecycle.DoneClosesOnce | internal/api/lifecycle.go:70-118 | the channel is made once at most, never replaced, and closed once exactly when finished |
| WorkLifecycle.NothingEntersAfterDrain | internal/api/lifecycle.go:27-92 | after a drain nothing is admitted or started, whatever follows |
| WorkLifecycle.DrainCancelsTheIdle | internal/api/lifecycle.go:82-92 | in every continuation of a drain without CancelWork or the end of the request's own client, its context is cancelled iff it was registered and idle at the drain |
| WorkLifecycle.RunningIsSpared | internal/api/lifecycle.go:49-92 | a request that runs with a live context keeps it through any such continuation, drains included |
| WorkLifecycle.NilMeansAllCleaned | cmd/server/shutdown.go:16-28 | a wait that returned nil means every handler ever admitted has run its cleanup, then and later |
| WorkLifecycle.WaitCanReturn | internal/api/lifecycle.go:105-118 | no wake-up is lost |
| RuntimePlan.ValidateInventory | scripts/runtime_incremental.py:36-51 | an inventory is accepted iff its entries are well formed, of the family and without duplicates, and is then exactly those entries |
| RuntimePlan.PlanFamily | scripts/runtime_incremental.py:162-180 | the loop's rows are those of the plan: selected iff forced, unknown before, or changed |
| RuntimePlan.PlanImpact | scripts/runtime_incremental.py:162-206 | the loops over entries, rows and matrices, with the outputs read off the matrices, give the declared plan: rows, matrices, digests and flags |
| RuntimePlan.VerifyJobs | scripts/runtime_incremental.py:209-225 | accepts iff the five unconditional jobs and every job that the outputs select, listed one by one, succeeded and no job failed |
| RuntimePlan.SelectedExactly | scripts/runtime_incremental.py:162-191 | a profile is selected iff the run is forced, no usable baseline knows it, or its fingerprint, the workflow or its Go module changed |
| RuntimePlan.RunAcceptedExactly | scripts/runtime_incremental.py:162-225 | a planned run is accepted iff the unconditional jobs, binaries and the job of every profile selected from the report and baseline, image, mixin and sandbox jobs where due, succeeded and none failed |
| RuntimePlan.SplitJoins | scripts/runtime_incremental.py:182 | the languages of a profile are the parts between the commas |
| RuntimePlan.SelectedIsCovered | scripts/runtime_incremental.py:162-206 | each selected row is in exactly one matrix, and the job that runs it is required |
| RuntimePlan.EveryProfileWasVerified | scripts/runtime_incremental.py:162-225 | over any chain of accepted runs every current verification digest was selected and passed in this run or an ancestor |
| RuntimePlan.SandboxWasVerified | scripts/runtime_incremental.py:162-225 | so was the current sandbox digest |
| RuntimePlan.DigestPinsInputs | scripts/runtime_incremental.py:181-184 | equal verification digests come from the same fingerprint and the same tracked inputs |
| RuntimePlan.VerifiedInputsAreCurrent | scripts/runtime_incremental.py:162-225 | the run that passed tested the current fingerprint and workflow, and the current Go module where the profile uses Go |
| RuntimePlan.VerifiedSandboxIsCurrent | scripts/runtime_incremental.py:162-225 | the run that passed the sandbox checks did so on the current ci-python fingerprint, workflow and sandbox tests |
| RequestBudget.Reservation.Resize | internal/api/request_budget.go:28-38 | refused iff negative or over the limit, otherwise exactly n is held; a refusal changes nothing |
| RequestBudget.Reservation.Reserve | internal/api/request_budget.go:91-103 | refused iff negative or over the limit, otherwise the maximum is held on top |
| RequestBudget.Reservation.Finish | internal/api/request_budget.go:104-109 | what the download did not need is given back |
| RequestBudget.RunKeepsInv | internal/api/request_budget.go:28-110 | in every interleaving the total is the sum of what the requests hold, within 0 and the limit |
| RequestBudget.RefusedIffOverLimit | internal/api/request_budget.go:28-103 | a request is refused iff granting it would take the requests together over the limit |
| RequestBudget.ShrinkingIsNeverRefused | internal/api/server.go:757-770 | asking for no more than is held never fails, so the deferred release returns exactly what the handler held |
| RequestBudget.AllGivenBack | internal/api/server.go:757-770 | once every request has left, nothing is in use |
| RequestBudget.AllBytesUpdated | internal/api/request_budget.go:48-86 | replacing one part of a request changes its charge by the difference of the parts |
| Base64.EncodedLenIsMonotone | internal/api/url_payload.go:349-351 | room for the longest download is room for every one |
| Base64.EncodeDecodes | internal/api/url_payload.go:369-372 | what is kept for a download decodes to the download |
| Base64.GroupAt | internal/api/url_payload.go:369-372 | every three bytes are the number that their four characters spell in the standard alphabet, padded where the data ends |
| PayloadUrl.ResolveBase64URL | internal/api/url_payload.go:338-375 | which error if any; the source, the decoded budget, what is held and what is used afterwards, with other requests running beside the download |
| PayloadUrl.DownloadedIffFits | internal/api/url_payload.go:345-368 | a download is kept iff it is fetched and within both limits |
| PayloadUrl.OutcomeExactly | internal/api/url_payload.go:338-375 | which of the answers a source gets, case by case: untouched, conflict, over budget, not fetched, too large, over the total, or its download |
| PayloadUrl.ResolveCompilePayloadURLs | internal/api/url_payload.go:40-68 | the first error in source order, each source and the account at the end, for any answers and any movement of the shared total by other requests |
| PayloadUrl.ResolvesIffFits | internal/api/url_payload.go:40-68 | it succeeds iff every URL is sound and answered, the decoded bytes fit together and the shared budget refuses no source; with ample free budget, iff the first two |
| PayloadUrl.RequestRefusedExactly | internal/api/request_budget.go:91-103 | the shared budget refuses iff a source is reached whose longest allowed download, encoded, exceeds what is free at that turn |
| PayloadUrl.AmpleIsNeverRefused | internal/api/request_budget.go:91-103 | with room for every URL at its largest, whatever the others take meanwhile, no source is refused |
| PayloadUrl.RequestKeeps | internal/api/url_payload.go:40-68 | each source stays or holds its download in place of its URL, none keeps a URL after success, and the held bytes follow the kept strings |
| PayloadUrl.HeldStillCovers | internal/api/url_payload.go:40-68 | a reservation that covered every string of the request still covers them all, also after a failure half way |
| PayloadUrl.TextField.Resolve | internal/api/url_payload.go:310-336 | succeeds iff granted, fetched, within the limit and valid UTF-8; otherwise the field is unchanged and nothing stays held |
| RateWindow.RateLimiter.Allow | internal/api/server.go:890-918 | one request's verdict and the new map and cleanup time; no limit when the maximum is not positive |
| RateWindow.CleanupIsUnobservable | internal/api/server.go:890-918 | over any clocked run cleaning never changes a decision |
| RateWindow.WindowCountIsExact | internal/api/server.go:890-918 | a window's count is the number of requests accepted in its minute, at most max |
| RateWindow.RefusedExactly | internal/api/server.go:890-918 | a request is refused iff max have been accepted in the minute begun by the principal's first request since the last one ended |
| RateWindow.FewerThanTwiceMaxPerMinute | internal/api/server.go:890-918 | any half-open minute of any run sees fewer than 2 * max accepted requests of a principal |
| RateWindow.NearlyTwiceMaxIsReached | internal/api/server.go:890-918 | for every max a run in which 2 * max - 1 requests of one minute are accepted |
| JsonDecoder.Decoder.Value | internal/api/json_collections.go:172-275 | on any tokens: an error, or exactly one value consumed with the result, remembered error and limit error of the recursive decoder |
| JsonDecoder.Decoder.DiscardOpened | internal/api/json_collections.go:310-330 | skips exactly the rest of the opened array or object |
| JsonDecoder.Decoder.RememberError | internal/api/json_collections.go:152-170 | type and unknown-field errors are kept, the first one only and with the path to where they arose, and decoding goes on; any other error is handed back |
| JsonDecoder.DecodeBoundedJSON | internal/api/json_collections.go:134-150 | result and verdict of a whole document: no error iff some value represents the JSON text under the schema, and then that value is the result |
| JsonDecoder.DecodeRepresents | internal/api/json_collections.go:172-275 | decoding into any value ends without an error in v' iff v' represents the JSON value stored over the old one: plain fields hold it, keys hold their last member, elements and reused elements theirs, null clears |
| JsonDecoder.PlainFieldHoldsLast | internal/api/json_collections.go:172-225 | a plain field holds the value of the last member that names it |
| JsonDecoder.UnnamedFieldIsKept | internal/api/json_collections.go:205-225 | a field that no member names keeps its old value |
| JsonDecoder.LookupIsNames | internal/api/json_collections.go:277-289 | a key names the field with that name, or else the first that differs in case only |
| JsonErrors.DecodeReports | internal/api/json_collections.go:152-275 | decoding remembers and returns exactly what the list of complaints about the value says, under any path |
| JsonErrors.FirstComplaintIsReported | internal/api/json_collections.go:134-275 | a document's error is the first complaint in document order, unless a plain value cannot be decoded at all before a limit is reached |
| JsonErrors.PathIsDotted | internal/api/json_collections.go:218-221 | the path reported is the names of the fields from the top with dots between them |
| JsonDecoder.DecodeIsOrderly | internal/api/json_collections.go:172-275 | decoding stops early for a limit only, and a remembered error is never replaced |
| JsonDecoder.ElemsAreOrderly | internal/api/json_collections.go:226-249 | a slice that is decoded fully has exactly the elements read, within its limit, also when fields repeat |
| JsonDecoder.RememberedErrorWins | internal/api/json_collections.go:134-170 | an error remembered in a prefix of an object is the verdict on the whole, even if a limit is exceeded later |
| JsonDecoder.ReadsItsTokens | internal/api/json_collections.go:172-330 | the tokens of any value are read back as that value, whatever follows |
| JsonDecoder.SpelledValueIsDecoded | internal/api/json_collections.go:134-275 | on a well-formed value the decoder stops with a limit error or stays in step through unknown fields, nulls and wrong types |
| RuntimePlan.PlanRun | scripts/runtime_incremental.py:36-206 | the planner succeeds iff both inventories are valid and name ci-python and type-i, and then returns the plan of exactly those entries |
| OutputCompare.Compare | internal/execute/compare.go:5-22 | true iff both outputs have the same normal form, so an equivalence relation on all byte strings |
| OutputCompare.NormalIgnoresTail | internal/execute/compare.go:9-10 | trimming the whole output first does not change its normal form |
| OutputCompare.NormalFormIsEqual | internal/execute/compare.go:5-22 | every output compares equal to its normal form written out |
| OutputCompare.TrimRightExactly | internal/execute/compare.go:5-22 | trimming drops all bytes of the set at the end and nothing else |
| OutputCompare.SplitJoins | internal/execute/compare.go:5-22 | the lines are what stands between the newlines |
| OutputCompare.NormalExactly | internal/execute/compare.go:5-22 | the normal form is the trimmed lines up to the last that is not empty |
| Whitespace.PrefixCode | scripts/whitespace.py:81-206 | no instruction is spelled by a prefix of another's spelling |
| Whitespace.OneReading | scripts/whitespace.py:81-206 | a text is the spelling of at most one instruction list |
| Whitespace.ReadLabel | scripts/whitespace.py:66-78 | reads bits up to the line feed and advances, or there is no label at that position |
| Whitespace.ReadNumber | scripts/whitespace.py:42-63 | reads sign and bits and advances, or there is no number at that position |
| Whitespace.Parse | scripts/whitespace.py:81-206 | accepts exactly the texts that spell some instructions, and returns their meanings and the last index of every label |
| Whitespace.RoundTrip | cmd/selftest/main.go:3443-3462 | any instruction list, printed with its numbers in binary, has itself as the only reading |
| Whitespace.ParsedBack | scripts/whitespace.py:81-206 | whatever the parser returns for a printed list is that list with its own last label indices |
| Whitespace.BinaryRoundTrip | cmd/selftest/main.go:3447-3462 | every number is the value of its printed bits |
| Whitespace.LeadingZeros | scripts/whitespace.py:49-63 | leading zeros change no number, and no bits at all are zero |
| Whitespace.ABIsParsed | cmd/selftest/main.go:3443-3485 | the self-test's adder parses to the thirteen instructions it is meant to be, without labels |
| Malbolge.ComputeCrazy | scripts/malbolge.py:47-51 | the loop computes the operation on all five pairs of trits |
| Malbolge.CrazyIsTritwise | scripts/malbolge.py:47-51 | `crazy` is the 3x3 operation on each of the ten trits |
| Malbolge.CrazyInRange | scripts/malbolge.py:47-51 | its result is a memory word |
| Malbolge.RotationsMoveTrits | scripts/malbolge.py:94-96 | k rotations move the low k trits to the top |
| Malbolge.TenRotations | scripts/malbolge.py:94-96 | ten rotations are the identity |
| Malbolge.LoadProgram | scripts/malbolge.py:54-76 | the loaded memory has 59049 cells: the instructions, then the crazy fill; or the loader's error |
| Malbolge.Execute | scripts/malbolge.py:79-118 | the in-place loop leaves the memory, output and halting of the transition system |
| Malbolge.Steps | scripts/malbolge.py:79-118 | every reachable state keeps its 59049 cells, both pointers and the accumulator in range |
| MalbolgeLaws.StepExecutes | scripts/malbolge.py:79-118 | one step of a running machine is the instruction numbered (cell + position) mod 94: accumulator, pointers, input, output, the word left in the data cell, and the encrypted cell |
| MalbolgeLaws.StepHalts | scripts/malbolge.py:84-109 | any other step halts and changes nothing else |
| MalbolgeLaws.LeavesOneWord | scripts/malbolge.py:47-51 | the word an instruction leaves is determined by its trits |
| MalbolgeLaws.StepFrame | scripts/malbolge.py:79-118 | a step changes no cell but the data cell and the encrypted one, writes at most one byte and reads at most one |
| MalbolgeLaws.EncryptionIsAPermutation | scripts/malbolge.py:25-28 | every graphical character is encrypted to one that decrypts to it |
| MalbolgeLaws.OpcodeIsDecoded | scripts/malbolge.py:20-24 | the decoding table gives the eight instructions at their numbers modulo 94 and none elsewhere |
| MalbolgeLaws.LoadsExactly | scripts/malbolge.py:54-72 | a source loads iff 2 to 59049 symbols remain without white space and each is an instruction at its place; the memory then starts with them |
| MalbolgeLaws.FillIsCrazy | scripts/malbolge.py:73-76 | behind the program each cell is the trit operation of the two before it |
| Malbolge.CheckMalbolge | internal/compile/script_compilers.go:548-574 | the loop computes the check function |
| Malbolge.CheckAgreesWithLoader | internal/compile/script_compilers.go:548-574 | the check reports exactly the loader's error, and none iff the source loads |
| CompileResponse.CheckArtifacts | internal/compile/response.go:23-68 | both loops with their early exits accept iff counts, names, encoded total, every file and the decoded total are within limits, and otherwise report the first limit broken by the first artifact |
| CompileResponse.CapCompileResponseOutput | internal/compile/response.go:79-117 | the capped outputs, flags, reason and reason code |
| CompileResponse.CutReasonIsUtf8 | internal/compile/response.go:105-112 | a cut reason is a prefix within the limit; of valid UTF-8 it is valid and loses at most three bytes more |
| CompileResponse.PrepareResponse | internal/compile/response.go:18-117 | refused with status Internal Error, no artifacts and the reason of the refusal, or presented with status and artifacts as given; outputs and reason cut exactly where too long, flags set iff cut, a given reason code kept and an empty one diagnosed |
| CompileResponse.ReasonCodeIsFirst | internal/compile/response.go:126-144 | the reason code is that of the first diagnosis of a table, in order, with a phrase that occurs in the lowered reason; none if none applies |
| CompileResponse.PreparedEventFits | internal/compilewire/limits.go:6-18 | for any artifacts and diagnostics the escaped event fits 96 MiB when status and modes leave room |
| CompileResponse.FitsIffRoomIsLeft | internal/compilewire/limits.go:6-18 | for a given status and given modes every prepared event fits iff they leave room; the room is exact |
| CompileResponse.KnownStatusesFit | internal/compile/remote.go:202-218 | the known statuses and modes always leave room |
| CompileResponse.LongModeBreaksTheLimit | internal/compile/response.go:18-77 | one empty artifact with a mode of 17,000,000 zero bytes is let through and does not fit |
| CompileResponse.CappedTextBuffer.Append | internal/compile/response.go:146-171 | however output arrives, the buffer holds its first bytes up to the limit, and is marked truncated iff there were more |

## Left out

- Process launching, file and network access, HTTP, HMAC and hashing: digests are injective keys, principals are strings, downloads are parameters.
- Reading failures of Unlambda input and output, and Brainfuck sources that are not UTF-8, which Python rejects before parsing.
- sed beyond what the script uses: its regular expressions are sequences of single and starred character classes with an optional end anchor, and the input is one line.
- The Whitespace and Befunge execution loops, and the wording of Whitespace parse errors: every rejected source has the one outcome None.
- The planner's check that the commit name is a hash, its cache-write choices beyond the split into matrices, the order of its lists, and the loading of baselines from GitHub: a baseline is absent (also when it is malformed) or an earlier accepted snapshot.
- JSON reflection and the building of schemas, fields that match only by Unicode case folding, and text below the token level; decoding a plain field is a parameter that consumes one value.
- Strings that a decoded slice keeps beyond its length are in the charge of a request (the spare part of a slice), but not in the JSON decoder's model.
- White space in a URL beyond ASCII, which the source's trimming also drops.
- The run request's URL fields one by one: they go through the same two resolvers as the fields modelled here.
- InterpreterComputes: does not cover programs that apply `c`, because a captured continuation has no counterpart in a recursive evaluator; the laws of `c` and of continuations are in ControlLaws, and FastPathIsUnobservable covers them.
- Redaction of work directories in compile reasons, which the API boundary does not use.
- The texts of artifact errors, lower-casing and Base64 decoding in compile responses: a library record with two stated properties of Base64.
- Machine integers: byte counts and times are unbounded, and stay far below 64 bits in the source.
