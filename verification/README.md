# Dafny models of the Sistemas-Operativos programs

Five small concurrent C programs, modelled statement by statement, and proofs that
hold for every input and every interleaving of their threads.

- **Merge sort with threads** (`merge_threads.c`) and its sequential sibling
  (`merge.c`), from the input line to the array that is printed.
  `StableSorting` says what a stable sort is and that there is only one;
  `MergeRanges` does index ranges, blocks and the fold; `MergeThreads` and
  `MergeSequential` are the in-place array programs; `MergeInterleaving` is the step
  machine in which every read and write of the shared array is a step of its own;
  `TokenParsing` is `strtok` with its hidden state, and the two passes over the input;
  `MergePrograms` puts parsing and sorting together.
- **The round barrier of the rocket controller** (`sistema.c`): `RoundBarrier`, for any
  number of reporters, and `RoundLiveness`, when its rounds complete.
- **The accounts of altitude, fuel and gyroscopes of the same controller**:
  `FlightControl` (state and steps), `FlightLedger`, `FlightCycles` (what each thread does in
  its loop, and what that does to the globals that everyone writes), `FlightLiveness`,
  `GyroLedger`, `GyroRace` (exactly when the account of a gyroscope can be upset), and
  `FlightProgram` (the program with its variables).
- **Readers and writers with a turnstile** (`read_writer.c`): `ReadersWriters`, for any
  number of each.
- **Producers and consumers** (`buffer.c`): `BoundedBuffer`, for any number of each and
  any capacity.

`Counting` holds the lemmas about sums over threads that all protocol proofs use.

In the protocol modules a thread is a program counter together with what it has loaded;
a turn executes one statement, a load and a store of a shared variable being two turns;
a turn of a thread that is blocked changes nothing; a schedule is any sequence of turns.
The function `Step` is the specification of one turn, and `Run` that of a whole
schedule; the theorems are about `Run`. The class `Program` (for the controller's
accounts in `FlightProgram`) is the program itself, with its globals as variables that
the statements update: each method is proved to do exactly one `Step`, and `Execute`
carries out any schedule and states the main theorem of its module on the variables.
Counts of events (releases, ticks, reads) that the C programs do not keep are part of the
states so that the theorems can speak of them; no step depends on them.

An array slot is a `Cell`: the C `int` and a mark saying where it came from. The
programs never look at the mark; it makes stability expressible.

Points at which the code is not what its comments or its looks suggest, and which the
proofs bring out:

- `merge.c` says of `(l+r)/2` that it avoids overflow. It does not; the other program's
  form does. `SplitsFitExactlyWhen` gives the exact bound for a whole sort.
- `CURRENT_ACTION != EVENT_3 || CURRENT_ACTION != EVENT_4` (`sistema.c:532-533`) is always
  true (`GuardAlwaysHolds`), so every engine tick descends (`EveryTickDescendsAndBurns`).
- `gasoline -= 0.5` on an `int` costs a whole unit while there is fuel and nothing
  afterwards (`SlowTick`), so braking costs as much as normal flight (`TickCosts`,
  `FuelByAction`).
- A correction thread works on its own copy of a semaphore, made when the thread is created.
  If the engine holds that semaphore just then, and as far as these threads go only then,
  the copy is zero and the new thread never gets to a correction
  (`NewThreadCanWorkExactlyWhen`).
- No run without creations upsets the account of any gyroscope if and only if each
  deflected one has at most one live correction thread (`BalanceExactlyWhen`). The
  program builds such a state, and leaves it when it replaces the thread of a deflected
  gyroscope before the cancellation of the old one has taken effect
  (`PendingCancellationUpsets`): then two threads can spend two units more than they
  correct.
- The release loop of `main` polls `sem_read` without pause. A scheduler that merely gives
  every thread its turns again and again need not ever complete a round, for any number
  of reporters (`FairTurnsCanStarve`). Rounds do complete, one after the other, if every
  reporter gets its turns also while `main` is outside its section (`RoundsComplete`), and
  a stretch of polling changes nothing exactly if none of the reporters' turns in it is
  enabled (`PollChangesNothing`). All this holds for the barrier: the work of a reporter
  between two messages is assumed to terminate, which the controller's other locks do not
  guarantee.
- Producers and consumers can never come to a stop if and only if there is one of each
  and room for one item (`BoundedBuffer.DeadlockFreedom`).

## Model

| member | source | states |
|---|---|---|
| StableSorting.StableSortIsUnique | Sistemas-Operativos/Tareas/Merge/merge_threads.c:64-80 | a sequence has exactly one stable sort; every claim that two programs or two schedules agree rests on it |
| StableSorting.SameOrderIsPermutation | Sistemas-Operativos/Tareas/Merge/merge_threads.c:64-80 | keeping every value class in its order implies being a permutation |
| StableSorting.StableSortKeepsOrigins | Sistemas-Operativos/Tareas/Merge/merge_threads.c:64-70 | in a stable sort of cells marked with their positions, equal values leave in the order they came |
| StableSorting.MergedStable | Sistemas-Operativos/Tareas/Merge/merge_threads.c:66-69 | because of the `<=`, a merge keeps each value class in order, left run first, even if only the left run is sorted |
| StableSorting.MergeOfStableSorts | Sistemas-Operativos/Tareas/Merge/merge_threads.c:40-84 | merging stable sorts of two neighbouring pieces is a stable sort of the whole |
| StableSorting.MergeSortedIsStableSort | Sistemas-Operativos/Tareas/Merge/merge_threads.c:86-102 | the recursion sorts stably |
| StableSorting.SortTestsWithinWorst | Sistemas-Operativos/Tareas/Merge/merge_threads.c:64-102 | the number of element comparisons never exceeds the recurrence of the splits into rounded-up and rounded-down halves |
| StableSorting.WorstTestsClosedForm | Sistemas-Operativos/Tareas/Merge/merge_threads.c:86-102 | that worst case in closed form: n*k - 2^k + 1 with k the rounded-up logarithm of n |
| StableSorting.SortTestsWithinNLogN | Sistemas-Operativos/Tareas/Merge/merge_threads.c:64-102 | for every input at most n times the rounded-up logarithm of n comparisons |
| StableSorting.WorstTestsAttained | Sistemas-Operativos/Tareas/Merge/merge_threads.c:64-102 | for every length some input needs exactly the worst-case number, so the closed form is exact |
| MergeRanges.MidpointInRange | Sistemas-Operativos/Tareas/Merge/merge_threads.c:89-97 | the midpoint, with C's truncating division, stays in its range and strictly below the upper end, also as computed on the empty range `[low, low-1]` |
| MergeRanges.MidpointsAgree | Sistemas-Operativos/Tareas/Merge/merge.c:63-66 | the two programs split at the same index exactly when `l + r` fits in an `int`, and otherwise `merge.c` overflows |
| MergeRanges.MidpointOfSumCanOverflow | Sistemas-Operativos/Tareas/Merge/merge.c:64-66 | indices at which `merge.c` overflows although its comment says it cannot, and the other form does not |
| MergeRanges.SplitsFitExactlyWhen | Sistemas-Operativos/Tareas/Merge/merge.c:61-74 | no split of the whole recursion on `l..r` overflows if and only if `r` is at most one more than half of the largest `int` |
| MergeRanges.SortedRangeSplits | Sistemas-Operativos/Tareas/Merge/merge_threads.c:89-101 | sorting both halves in place one after the other and merging them is sorting the range, and nothing outside the range changes |
| MergeRanges.CutsValid | Sistemas-Operativos/Tareas/Merge/merge_threads.c:217-228 | for every length and every positive number of threads the block boundaries rise from 0 to the length |
| MergeRanges.CutsShareOut | Sistemas-Operativos/Tareas/Merge/merge_threads.c:217-228 | neighbouring boundaries are length / threads apart, the last two further by length % threads |
| MergeRanges.BlocksPartition | Sistemas-Operativos/Tareas/Merge/merge_threads.c:217-228 | every index is in exactly one block, also with more threads than elements |
| MergeRanges.FoldSortsPrefix | Sistemas-Operativos/Tareas/Merge/merge_threads.c:249-254 | after each step of the fold the array up to that block is a stable sort of the same part of the input and the rest is untouched |
| MergeRanges.FoldOfSortedBlocks | Sistemas-Operativos/Tareas/Merge/merge_threads.c:249-254 | whatever sorted the blocks, the fold gives what one sequential merge sort of everything gives |
| MergeThreads.Merge | Sistemas-Operativos/Tareas/Merge/merge_threads.c:40-84 | merges the two runs of the range in place, changes nothing else, makes exactly the comparisons that the two runs determine, none if one is empty, and exactly one write for each cell |
| MergeThreads.MergeSort | Sistemas-Operativos/Tareas/Merge/merge_threads.c:86-102 | sorts its range in place, changes nothing else, and makes exactly the comparisons that the range's contents determine |
| MergeThreads.ThreadRoutine | Sistemas-Operativos/Tareas/Merge/merge_threads.c:130-143 | the same for the range handed to a thread, with at most n times the rounded-up logarithm of n comparisons |
| MergeThreads.FillArguments | Sistemas-Operativos/Tareas/Merge/merge_threads.c:216-228 | the loop hands out `length / threads` cells to each thread, `length % threads` more to the last, each range beginning where the one before ends, from 0 to the last index |
| MergeThreads.RunThreads | Sistemas-Operativos/Tareas/Merge/merge_threads.c:230-247 | when the threads run one after another every block ends up sorted on its own, with the comparisons that the block determines |
| MergeThreads.AllWithinBudgets | Sistemas-Operativos/Tareas/Merge/merge_threads.c:215-247 | with L cells and T threads each thread makes at most n times the rounded-up logarithm of n comparisons, n being L / T, and L / T + L % T for the last |
| MergeThreads.FoldBlocks | Sistemas-Operativos/Tareas/Merge/merge_threads.c:249-254 | merges the blocks one by one into the first, with as many array writes as the sum of `right_i + 1` |
| MergeThreads.FoldWritesBound | Sistemas-Operativos/Tareas/Merge/merge_threads.c:249-254 | those writes are at most (T-1)*L, and at least L if there are several threads |
| MergeThreads.SortArray | Sistemas-Operativos/Tareas/Merge/merge_threads.c:215-254 | for every length and every positive number of threads the array ends as the stable sort of the input, equal to the sequential result, each thread staying within its budget |
| MergeSequential.MergeSort | Sistemas-Operativos/Tareas/Merge/merge.c:61-74 | the recursion with `(l+r)/2` leaves the same array as the other program's, for all indices at which none of its splits overflows |
| MergeSequential.SortNumbers | Sistemas-Operativos/Tareas/Merge/merge.c:109-109 | the whole array ends as the stable sort of the input, equal to the threaded result for any number of threads |
| MergeInterleaving.StepStaysWithin | Sistemas-Operativos/Tareas/Merge/merge_threads.c:40-143 | each step of a thread reads and writes only its own block and keeps its local indices within it |
| MergeInterleaving.StepIsLocal | Sistemas-Operativos/Tareas/Merge/merge_threads.c:40-143 | a step depends on nothing of the array but the thread's own block |
| MergeInterleaving.StepKeepsFuture | Sistemas-Operativos/Tareas/Merge/merge_threads.c:40-143 | what a thread's remaining statements would make of the array is the same before and after each of its steps, at every point inside the recursion and the merge loops |
| MergeInterleaving.EveryScheduleSortsBlocks | Sistemas-Operativos/Tareas/Merge/merge_threads.c:230-247 | under every interleaving of single reads and writes, once all threads are done the array has every block sorted |
| MergeInterleaving.EveryScheduleSorts | Sistemas-Operativos/Tareas/Merge/merge_threads.c:215-254 | for every input, number of threads and interleaving, the fold after the joins leaves the one stable sort, equal to the sequential program's |
| MergeInterleaving.RunSimulatesSolo | Sistemas-Operativos/Tareas/Merge/merge_threads.c:230-247 | at every point of every run a thread's local state and its block are those of that thread running alone |
| MergeInterleaving.OrderDoesNotMatter | Sistemas-Operativos/Tareas/Merge/merge_threads.c:230-247 | two schedules that give each thread equally many turns lead to equal states |
| MergeInterleaving.FinishedExactlyWhen | Sistemas-Operativos/Tareas/Merge/merge_threads.c:215-247 | started on any input with any number of threads, the program gets to its fold exactly when each thread has had the number of turns that its block's length determines; the data do not matter and no thread waits for another |
| TokenParsing.TokensAreThePieces | Sistemas-Operativos/Tareas/Merge/merge_threads.c:185-199 | repeated `strtok` delivers exactly the longest non-empty stretches without a delimiter, each once, from left to right |
| TokenParsing.StartsCounted | Sistemas-Operativos/Tareas/Merge/merge_threads.c:185-199 | the n-th token is the one before which exactly n tokens have started |
| TokenParsing.Tokenizer.First | Sistemas-Operativos/Tareas/Merge/merge_threads.c:185-192 | a call that names a string delivers its first token or reports that there is none, whatever string the hidden variable had before |
| TokenParsing.Tokenizer.Next | Sistemas-Operativos/Tareas/Merge/merge_threads.c:189-197 | a call with NULL delivers the next token as a C string in the buffer, overwrites only the delimiter behind it and leaves the others for later calls |
| TokenParsing.CountTokens | Sistemas-Operativos/Tareas/Merge/merge_threads.c:184-190 | the pass over the copy counts the tokens |
| TokenParsing.FillNumbers | Sistemas-Operativos/Tareas/Merge/merge_threads.c:192-199 | the pass over the original writes every slot of an array of that size, in bounds: a token with k tokens before it gives slot k, which holds its value and is marked k |
| TokenParsing.ReadsAsItsValues | Sistemas-Operativos/Tareas/Merge/merge_threads.c:192-199 | there is one sequence of numbers with a slot for each token and, in the slot that counts the tokens before it, the value of the token, and it is the one that the program makes |
| TokenParsing.Parse | Sistemas-Operativos/Tareas/Merge/merge_threads.c:181-199 | copy, count, allocate and fill together: the array holds, in order, the values of the tokens of the original text, although both passes destroy what they read |
| TokenParsing.StripLine | Sistemas-Operativos/Tareas/Merge/merge_threads.c:179-179 | `strtok` with a newline takes the newline off a line |
| TokenParsing.SaysItsStripped | Sistemas-Operativos/Tareas/Merge/merge_threads.c:179-179 | the newline, and nothing else, is gone |
| TokenParsing.SkippedLinesDoNotMatter | Sistemas-Operativos/Tareas/Merge/merge_threads.c:173-207 | lines of one character before the first longer one change nothing, nor do those behind it |
| TokenParsing.ReadNumbers | Sistemas-Operativos/Tareas/Merge/merge_threads.c:173-207 | the numbers are those of the first line of more than one character without its newline, whatever the lines before and after; without such a line the array is empty |
| TokenParsing.FewPieces | Sistemas-Operativos/Tareas/Merge/merge.c:87-99 | a string has at most half as many tokens as characters, rounded up, which keeps `merge.c` clear of the overflow in its midpoint |
| TokenParsing.ReadArgument | Sistemas-Operativos/Tareas/Merge/merge.c:87-107 | the same two passes over the program argument |
| MergePrograms.SortLines | Sistemas-Operativos/Tareas/Merge/merge_threads.c:173-254 | from the input lines to the printed array, the threads one after another: a stable sort of the numbers that the first acceptable line says |
| MergePrograms.EveryScheduleSortsLines | Sistemas-Operativos/Tareas/Merge/merge_threads.c:173-254 | the same array for every interleaving of the threads |
| MergePrograms.SortArgument | Sistemas-Operativos/Tareas/Merge/merge.c:85-109 | from the argument to the printed array: a stable sort of the numbers that the argument says |
| MergePrograms.SameInputSameOutput | Sistemas-Operativos/Tareas/Merge/merge.c:85-109 | the two programs print the same, marks included, if the argument of one is what the first long line of the other says, skipped lines or not |
| RoundBarrier.StartInv | Sistemas-Operativos/Proyecto/sistema.c:126-134 | the initial semaphores satisfy the barrier's invariant |
| RoundBarrier.StepKeepsInv | Sistemas-Operativos/Proyecto/sistema.c:149-161 | every step of `main` and of every reporter keeps it: who holds `sem_read` and `sem_sock`, what the counter counts, and how posts and waits of each private semaphore balance |
| RoundBarrier.ResetFindsAll | Sistemas-Operativos/Proyecto/sistema.c:152-154 | when `main` resets the counter, every reporter has reported this round |
| RoundBarrier.Lockstep | Sistemas-Operativos/Proyecto/sistema.c:411-432 | in every run, also during the posts: nobody passes its semaphore the k-th time before all have reported k times, reports differ by at most one, private semaphores are 0 or 1, and the counter never exceeds the number it is compared with |
| RoundBarrier.OneSender | Sistemas-Operativos/Proyecto/sistema.c:414-431 | at most one reporter is between taking and posting `sem_sock` |
| RoundBarrier.StepCountsDown | Sistemas-Operativos/Proyecto/sistema.c:149-161 | each step but an idle poll and a release brings the next release nearer by exactly one |
| RoundBarrier.RunLedger | Sistemas-Operativos/Proyecto/sistema.c:149-161 | the exact cost of every run: ten steps for each reporter and five more for each release, three for each idle poll |
| RoundBarrier.StepsPerRelease | Sistemas-Operativos/Proyecto/sistema.c:149-161 | hence, idle polling apart, a run's steps and its releases determine each other up to two rounds' worth |
| RoundBarrier.SomeoneAdvances | Sistemas-Operativos/Proyecto/sistema.c:149-161 | in every reachable state some thread can take a step that is not an idle poll |
| RoundBarrier.EveryRunCanComplete | Sistemas-Operativos/Proyecto/sistema.c:149-161 | provided that the reporters' work between messages ends, every run can be continued to its next release, within 18 turns for each reporter and six more: the barrier itself has no deadlock and no trap |
| RoundLiveness.RoundsComplete | Sistemas-Operativos/Proyecto/sistema.c:149-161 | under the same proviso, if the schedule goes on in stretches in which `main` has a turn and each reporter one while `main` stands at its wait, rounds complete, one for at most each 18 * N + 8 stretches |
| RoundLiveness.AttentiveStretch | Sistemas-Operativos/Proyecto/sistema.c:149-161 | such a stretch exists from every reachable state |
| RoundLiveness.PollChangesNothing | Sistemas-Operativos/Proyecto/sistema.c:149-161 | a stretch of polling, from the wait of `main` back to it, changes nothing if and only if none of the reporters' turns in it is enabled where it falls |
| RoundLiveness.FairTurnsCanStarve | Sistemas-Operativos/Proyecto/sistema.c:149-161 | for any number of reporters there is a run from the start after which turns for every thread in every poll, any number of times, do not complete a round |
| RoundBarrier.Program.RunReporter | Sistemas-Operativos/Proyecto/sistema.c:411-432 | one statement of a reporter, on the program's globals, is one step of the protocol |
| RoundBarrier.Program.RunMain | Sistemas-Operativos/Proyecto/sistema.c:149-161 | one statement of the release loop is one step of the protocol |
| RoundBarrier.Program.Execute | Sistemas-Operativos/Proyecto/sistema.c:149-161 | the program carries out any schedule, and its counters and semaphores are in lockstep at the end of it |
| FlightProgram.Altitude.RunEngine | Sistemas-Operativos/Proyecto/sistema.c:530-537 | the engine's statements under `sem_dist` |
| FlightProgram.Altitude.RunClimber | Sistemas-Operativos/Proyecto/sistema.c:598-614 | the climb's statements under `sem_dist` |
| FlightProgram.Tank.Burn | Sistemas-Operativos/Proyecto/sistema.c:544-559 | the store of each of the three fuel assignments, with C's truncation |
| FlightProgram.Tank.RunCorrector | Sistemas-Operativos/Proyecto/sistema.c:470-472 | the correction threads' section under `sem_gas` |
| FlightProgram.Tank.RunWatcher | Sistemas-Operativos/Proyecto/sistema.c:775-789 | the fuel test; what it decides is stated by `AbortsExactlyWhen` |
| FlightProgram.Panel.RunEngine | Sistemas-Operativos/Proyecto/sistema.c:531-563 | the engine's guard, its choice of power, and its locks in the code's order; what the choice costs is stated by `TickCosts` |
| FlightProgram.Panel.RunCorrector | Sistemas-Operativos/Proyecto/sistema.c:466-488 | the tests and writes of a gyroscope and its flag |
| FlightProgram.Program.RunEngine | Sistemas-Operativos/Proyecto/sistema.c:526-575 | one statement of the engine thread is one step of the model |
| FlightProgram.Program.RunClimber | Sistemas-Operativos/Proyecto/sistema.c:598-619 | one statement of the climb, with the re-creation of the correction threads |
| FlightProgram.Program.RunCorrector | Sistemas-Operativos/Proyecto/sistema.c:461-491 | one statement of a correction thread |
| FlightProgram.Program.Execute | Sistemas-Operativos/Proyecto/sistema.c:461-619 | the program carries out any schedule, and at the end of it its altitude and fuel agree with the counts of ticks, the fuel also with the actions at which power was chosen, the fuel test goes to its abort if and only if fewer than ten units are left, and `sem_action` is accounted for |
| FlightLedger.GuardAlwaysHolds | Sistemas-Operativos/Proyecto/sistema.c:532-533 | the engine's guard excludes no action |
| FlightLedger.StepKeepsAltitude | Sistemas-Operativos/Proyecto/sistema.c:530-537 | every step of every thread keeps the account of `sem_dist` and of the altitude; a loaded altitude is current until it is stored |
| FlightLedger.AltitudeLedger | Sistemas-Operativos/Proyecto/sistema.c:599-618 | at every instant altitude = initial - engine ticks + 6 * climb ticks, each completed climb has added exactly 30, and the published altitude is current until the engine leaves its section |
| FlightLedger.SlowTick | Sistemas-Operativos/Proyecto/sistema.c:553-553 | subtracting 0.5 from an `int` costs 1 if it is positive and 0 otherwise |
| FlightLedger.StepKeepsFuel | Sistemas-Operativos/Proyecto/sistema.c:470-472 | every step keeps the account of `sem_gas` and of the fuel, and fuel never rises, for any number of correction threads being created and cancelled |
| FlightLedger.FuelLedger | Sistemas-Operativos/Proyecto/sistema.c:542-560 | fuel spent = corrections + 5 for each accelerating tick + 1 for each normal one + 1 for each slow one that found fuel |
| FlightLedger.AbortLatches | Sistemas-Operativos/Proyecto/sistema.c:775-776 | once fuel is below 10, every later test ends in an abort, in every continuation |
| FlightLedger.AbortsExactlyWhen | Sistemas-Operativos/Proyecto/sistema.c:775-789 | from its test until its post of `sem_gas` the watcher is on its way to the abort if and only if fuel is below 10 |
| FlightLedger.NoAbortWithFuel | Sistemas-Operativos/Proyecto/sistema.c:775-789 | a run that ends with ten units or more has not come to an abort at any point |
| FlightLedger.TickCosts | Sistemas-Operativos/Proyecto/sistema.c:542-560 | whatever else happens before the engine posts `sem_gas`, its choice costs 5 under action 3 or 4; otherwise, with a flag on, 1 if there is fuel and nothing if not; otherwise 1 |
| FlightLedger.FuelByAction | Sistemas-Operativos/Proyecto/sistema.c:544-560 | at every instant outside the store the fuel spent is the corrections and those costs, summed over the engine's choices by action, flags and fuel in force |
| FlightLedger.EveryTickDescendsAndBurns | Sistemas-Operativos/Proyecto/sistema.c:530-566 | whatever the current action, engine passes take one off the altitude and burn fuel once each |
| FlightCycles.EngineGoesRound | Sistemas-Operativos/Proyecto/sistema.c:526-575 | where the engine stands follows from how often it has moved: each pass has sixteen statements, two more for each gyroscope, and one descent |
| FlightCycles.ClimberGoesRound | Sistemas-Operativos/Proyecto/sistema.c:598-619 | the climb likewise: five ticks, a new thread for each gyroscope, the action, and the pause |
| FlightCycles.WatcherGoesRound | Sistemas-Operativos/Proyecto/sistema.c:775-789 | every fourth statement of the watcher is a test of the fuel |
| FlightCycles.ReaderGoesRound | Sistemas-Operativos/Proyecto/sistema.c:835-837 | every fourth statement of a thread that only looks is its look at the altitude |
| FlightCycles.CorrectorGoesRound | Sistemas-Operativos/Proyecto/sistema.c:462-491 | twelve statements of a correction thread for each correction, five for each time it finds its gyroscope level |
| FlightCycles.OwnLedger | Sistemas-Operativos/Proyecto/sistema.c:466-487 | a correction thread takes and posts its own semaphore in turn |
| FlightCycles.ActionLedger | Sistemas-Operativos/Proyecto/sistema.c:531-563 | in every run `sem_action` is where the rest of the program has put it, or with the engine, or with the climb |
| FlightCycles.GsLedger | Sistemas-Operativos/Proyecto/sistema.c:538-562 | so is each `sem_gs`, or with the engine |
| FlightCycles.ClimbEndsInLanding | Sistemas-Operativos/Proyecto/sistema.c:615-617 | of these threads only the end of a climb changes the action, and to 1 |
| FlightCycles.ActionStaysInSection | Sistemas-Operativos/Proyecto/sistema.c:164-169 | the climb does not write the action between the engine's guard and its post of `sem_action` |
| FlightCycles.ClimbCreatesOneEach | Sistemas-Operativos/Proyecto/sistema.c:204-232 | each climb creates one correction thread for each gyroscope, and apart from the controller's restarts nothing else does |
| FlightCycles.NewThreadCanWorkExactlyWhen | Sistemas-Operativos/Proyecto/sistema.c:204-213 | a correction thread can get past its first wait if and only if the engine did not hold `sem_gs` of its gyroscope when it was created |
| FlightCycles.FlagFollowsThread | Sistemas-Operativos/Proyecto/sistema.c:467-488 | as long as nobody else writes it, the flag of a gyroscope is on throughout each correction and off while its thread pauses |
| FlightCycles.CancelledWithinSeven | Sistemas-Operativos/Proyecto/sistema.c:462-488 | within seven statements of a correction thread, whatever the others do, there is a point at which a pending cancellation takes effect |
| FlightLiveness.EngineCanFinish | Sistemas-Operativos/Proyecto/sistema.c:526-575 | if the rest of the controller has given back `sem_action` and each `sem_gs`, the engine can be brought to the end of its pass |
| FlightLiveness.EveryoneCanMove | Sistemas-Operativos/Proyecto/sistema.c:461-619 | under the same proviso no state is a trap: the engine, the climb, the fuel test, each thread that only looks and each live correction thread, unless its copy of the semaphore is zero, can be brought to its next statement |
| GyroLedger.StepKeepsGyros | Sistemas-Operativos/Proyecto/sistema.c:462-491 | every step, also a cancellation at each of the cancellation points, keeps each gyroscope's account |
| GyroLedger.GyroLedger | Sistemas-Operativos/Proyecto/sistema.c:462-491 | as long as a deflected gyroscope's thread is replaced only after its cancellation has taken effect, fuel taken for a gyroscope, less a correction in hand, and its deflection add up to the initial deflection; the sign never flips, and it is level exactly after as many corrections as the initial deflection |
| GyroLedger.FuelAccountsForGyros | Sistemas-Operativos/Proyecto/sistema.c:462-491 | whenever no correction is in hand, all fuel spent is the engine's ticks and what the gyroscopes have moved |
| GyroRace.TwoThreadsUpset | Sistemas-Operativos/Proyecto/sistema.c:462-491 | with two live threads for a gyroscope deflected by any amount there is a run that spends two units more than it corrects: one works it down, the other races with it at one |
| GyroRace.BalanceExactlyWhen | Sistemas-Operativos/Proyecto/sistema.c:462-491 | every run without creations keeps every account if and only if each gyroscope deflected at the start has at most one live correction thread |
| GyroRace.RestartExactlyWhen | Sistemas-Operativos/Proyecto/sistema.c:358-362 | replacing a gyroscope's correction thread keeps the accounts safe if and only if the gyroscope is level or the old thread is gone |
| GyroRace.PendingCancellationUpsets | Sistemas-Operativos/Proyecto/sistema.c:928-930 | in the state that `main` builds the accounts are safe, and after a restart with the cancellation pending they are exactly if that gyroscope is level |
| ReadersWriters.StartInv | Sistemas-Operativos/pacticas_exam/read_writer.c:70-73 | the initial semaphores satisfy the invariant |
| ReadersWriters.StepKeepsInv | Sistemas-Operativos/pacticas_exam/read_writer.c:20-65 | every step keeps who holds `turn`, `mutex` and `empty`, among them the readers as a group from the first one's wait inside the mutex to the last one's post, and what `noReaders` counts |
| ReadersWriters.Exclusion | Sistemas-Operativos/pacticas_exam/read_writer.c:20-65 | for any number of readers and writers and every schedule, a writer writes alone |
| ReadersWriters.ActsAlternate | Sistemas-Operativos/pacticas_exam/read_writer.c:20-65 | in every run each act of a thread alternates with the one that follows it, and no update of `noReaders` is lost |
| ReadersWriters.EveryTurnIsAWrite | Sistemas-Operativos/pacticas_exam/read_writer.c:23-33 | each time a writer has taken `turn` and `empty` it writes, once, before it gives first `turn` and then `empty` back |
| ReadersWriters.EveryPassIsARead | Sistemas-Operativos/pacticas_exam/read_writer.c:39-64 | each time a reader has passed `turn` it counts itself, reads, once, and takes itself off the count |
| ReadersWriters.EveryCountInASection | Sistemas-Operativos/pacticas_exam/read_writer.c:41-63 | it gives `turn` back each time, and makes each update of the count in a section of the mutex of its own |
| ReadersWriters.DeadlockFreedom | Sistemas-Operativos/pacticas_exam/read_writer.c:20-65 | some thread can step in every reachable state, also while the first reader waits for `empty` inside the mutex |
| ReadersWriters.OthersCountDown | Sistemas-Operativos/pacticas_exam/read_writer.c:25-63 | while a writer owns `turn`, every step of any other thread lowers the rank, and no new reader joins those ahead |
| ReadersWriters.BoundedOvertaking | Sistemas-Operativos/pacticas_exam/read_writer.c:25-32 | from then until it takes `empty` at most as many reads finish as there are readers, and the others take at most 14 steps per reader and one per writer |
| ReadersWriters.WriterIsNext | Sistemas-Operativos/pacticas_exam/read_writer.c:25-26 | when nobody else can move any more, that writer can take `empty` |
| ReadersWriters.WriterEnters | Sistemas-Operativos/pacticas_exam/read_writer.c:25-32 | under a scheduler that lets every thread have a turn in each round, it takes `empty` within one round more than its rank, whatever the order inside the rounds |
| ReadersWriters.Program.RunReader | Sistemas-Operativos/pacticas_exam/read_writer.c:39-64 | one statement of a reader, on the program's globals, is one step of the protocol |
| ReadersWriters.Program.RunWriter | Sistemas-Operativos/pacticas_exam/read_writer.c:23-33 | one statement of a writer is one step of the protocol |
| ReadersWriters.Program.Execute | Sistemas-Operativos/pacticas_exam/read_writer.c:20-65 | the program carries out any schedule; no thread is in its section beside a writer at the end of it; each writer has written as often as it has taken `empty`, and each reader has read as often as it has counted itself, the one in hand apart |
| BoundedBuffer.StepKeepsInv | Sistemas-Operativos/pacticas_exam/buffer.c:12-40 | every step keeps the balance of credits, of events and of the mutex |
| BoundedBuffer.Conservation | Sistemas-Operativos/pacticas_exam/buffer.c:12-40 | at every instant `empty`, `filled` and the threads in flight add up to the capacity, and produced less consumed is between 0 and the capacity |
| BoundedBuffer.Exclusion | Sistemas-Operativos/pacticas_exam/buffer.c:18-23 | at most one thread of either kind is between taking the mutex and posting it |
| BoundedBuffer.FillsUp | Sistemas-Operativos/pacticas_exam/buffer.c:17-23 | without consumers there is a run that stops |
| BoundedBuffer.DeadlockFreedom | Sistemas-Operativos/pacticas_exam/buffer.c:45-47 | no schedule leads to a stop if and only if there is a producer, a consumer and room for one |
| BoundedBuffer.RunCountsDown | Sistemas-Operativos/pacticas_exam/buffer.c:15-40 | the exact relation of steps taken and events: five steps for each, and the distance to the next ones |
| BoundedBuffer.Throughput | Sistemas-Operativos/pacticas_exam/buffer.c:15-40 | so no run circles without producing and consuming: both grow with the steps taken |
| BoundedBuffer.Program.RunProducer | Sistemas-Operativos/pacticas_exam/buffer.c:15-24 | one statement of a producer is one step of the protocol |
| BoundedBuffer.Program.RunConsumer | Sistemas-Operativos/pacticas_exam/buffer.c:30-39 | one statement of a consumer is one step of the protocol |
| BoundedBuffer.Program.Execute | Sistemas-Operativos/pacticas_exam/buffer.c:12-40 | the program carries out any schedule, and its semaphores and counts are within the capacity at the end of it |

## Left out

- Sockets, shared-memory attachment, CPU affinity, scheduling priorities, message texts and signal delivery: foreign calls. Sending is one terminating step, a wake-up is a turn that may come at any time, `atoi` and the lines of input are parameters.
- Creating and joining threads: the order in which threads start is part of the schedule, since a thread that has not started is one that has had no turn.
- The width of counters and semaphores: the protocols bound `sem_msg`, `sem_read`, `sem_sock`, `mutex`, `turn`, `empty`, `filled` and `msg_read`; altitude, fuel and event counts are unbounded integers.
- The width of array elements in the merge programs: they are only compared and copied.
- MergeSequential.MergeSort: does not model the sort beyond the bound of `SplitsFitExactlyWhen`, because some sum of two indices overflows there, which is undefined; the buffer of `main` keeps the program far below.
- TokenParsing.ReadNumbers: lines contain no NUL character; on a line that begins with one the program hands NULL to `strcpy`.
- TokenParsing.ReadArgument: the argument is shorter than the buffer it is copied to, which `merge.c` does not check.
- MergeThreads.SortArray: the number of threads is positive; with zero the program divides by zero.
- Alarms 101 and 102, which cancel and restart the engine thread, and unknown alarm codes, on which a thread waits without having sent: the code does not keep the barrier's counts there, and an engine cancelled at one of its waits leaves `sem_dist` or `sem_action` taken, so the altitude and fuel accounts leave these alarms out as well. Landing and `is_on = 0`, where the rounds end.
- Deadlock freedom of the whole controller: the engine takes `sem_action` before `sem_gs`, the landing check takes them in the other order. The progress results of `RoundBarrier` and `RoundLiveness` therefore assume that a reporter's work between two messages ends, and those of `FlightLiveness` that the other threads have given back what they have taken and that a look at the altitude ends by itself.
- `sem_gyro` as a lock: each correction thread works on its own copy of the semaphore, which the model keeps, and which excludes nobody; the gyroscope results count live threads instead and assume no writes by the simulator, and the altitude and fuel results do neither.
- `manual_explote`: the only assignment in the code clears it, so the fuel test depends on the fuel alone.
- Writes to `CURRENT_ACTION`, the gyroscopes and the engine's flags by the other threads and by the simulator are arbitrary in `FlightControl` (`Elsewhere`) rather than the particular ones of each thread.
- `sistemasck.c`, `control.c`, `dashboard.c`, `simulador_2.c`, `sem.c`, and the process, file, socket, timing and kernel-module exercises: variants without the synchronisation, display and input loops, or plumbing without algorithmic content.
