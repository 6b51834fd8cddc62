# Parallel-machine scheduling with sequence-dependent setups: a Dafny model

This project models the core of a benchmark generator and solver for a
parallel-machine scheduling problem. Jobs have processing times, ready times
and setup times that depend on the job sequence. The solver:

- times one machine's job sequence with a forward simulation: a job starts
  once both the machine and the job are ready, then pays the setup from its
  predecessor (or from the machine-start row) and its processing time;
- loads a persisted instance. Lists become maps keyed 1..n, null matrix
  entries become 0, and the start row is the largest setup into each job;
- builds an initial schedule greedily. Jobs go in decreasing processing
  time, and each goes to the machine where it would finish earliest;
- improves the schedule by best-improvement hill climbing over three
  neighbourhoods: transfer, inter-machine swap and intra-machine swap. It
  stops at a local optimum;
- computes a data-dependent lower bound (DDLB) and the ratio of the final
  makespan to it.

The generator (class `Cenario`) works like this:

- it validates a seven-letter L/H scenario code and decodes it through the
  factor table;
- on demand, it draws the setup matrix, the processing times and the ready
  times;
- it persists them, with the infinite diagonal written as null.

Times are exact `real`s. Randomness is a caller-supplied stream of unit
draws u in [0, 1]. A uniform draw on [lo, hi] is `lo + (hi - lo) * u`. The
square root of 3 in the setup bounds is a parameter `root3`.

Modules, one per file:

- `Util`: `Option`, `Result`, `Max`, `Min`
- `Instances`: jobs, the `Start | After(j)` predecessor and the instance maps
- `Timing`: sequence completion time
- `Factors`: the factor table, code validation and decoding
- `Loader`: the loader transformation
- `Partitions`: solutions, job bags and makespan
- `Moves`: the three neighbourhoods
- `SolutionSpace`: the finite space of solutions, used for termination
- `Greedy`: the constructive heuristic
- `LocalSearch`: the hill climbing
- `LowerBound`: DDLB and the ratio
- `Scenarios`: the generator

`calcular_ddlb` is named and documented as a lower bound, the "Data
Dependent Lower Bound" (local_search2.py:153-156). The code does not
guarantee this, because it takes the least setup *out of* each job
(local_search2.py:164, 174), while a schedule pays the setup *into* each
job. This model follows the code. Both results below hold for every
partition when the data are non-negative and the start row dominates every
incoming setup, as the loader's start row does (`LoadedStartDominates`).
Under those conditions the model proves the source's bound valid when
setups are symmetric, and proves the corrected bound (least setup *into*
each job) valid whether or not they are. See "Findings".

## Model

| member | source | states |
|---|---|---|
| Timing.CalculateSequenceTime | local_search2.py:44-58 | The loop's result equals `Completion`: 0 for the empty sequence, otherwise the left fold start = max(c, ready), c = start + setup from the previous job (the start row first) + processing |
| Timing.CompletionAtLeastLastJob | local_search2.py:51-56 | With non-negative data, a machine finishes no earlier than its last job's ready time plus processing time |
| Timing.CompletionAppend | local_search2.py:51-56 | With non-negative data, appending a job never lowers the completion time |
| Timing.CompletionPrefix | local_search2.py:51-56 | A prefix of a sequence never completes later than the whole sequence |
| Timing.CompletionAtLeastBusy | local_search2.py:51-56 | Completion time is at least the total of setups and processing times paid |
| Timing.CompletionAtLeastEachJob | local_search2.py:51-56 | The machine finishes no earlier than any job's ready time + the setup it pays + its processing time |
| Loader.MaxSetupInto | local_search2.py:35-38 | The running maximum is ≥ 0, ≥ every setup into j from another job, and equals one of them or 0 |
| Loader.Indexed | local_search2.py:19-20 | The list becomes a map with keys exactly 1..len, where key j holds element j - 1 |
| Loader.JobRows | local_search2.py:23-29 | The job rows have keys exactly (i, j) for 1 ≤ i, j ≤ n, each holding matrix[i-1][j-1] with null read as 0, and there is no start key |
| Loader.AddStartRow | local_search2.py:32-39 | Adds a start key for every job 1..n, holding `MaxSetupInto` over the other jobs, and leaves every job-row entry unchanged |
| Loader.LoadInstance | local_search2.py:19-39 | Sizes, the processing and ready maps, the job rows and the start row are as above; the instance is total on 1..n when the lists are long enough |
| Loader.MaxSetupIntoAgrees | local_search2.py:36-38 | The start row depends only on the job-row entries it reads |
| Partitions.AllJobs | local_search2.py:63 | The multiset of jobs holds each of 1..n exactly once and nothing else |
| Partitions.PartitionIsKnown | local_search2.py:63-76 | A partition of 1..n only mentions jobs of the instance |
| Partitions.PartitionExactlyOnce | local_search2.py:63-76 | In a partition, each job of 1..n sits on exactly one machine exactly once, and no other job appears |
| Partitions.MakespanIsLargest | local_search2.py:84-85 | The makespan bounds every machine's completion time and is reached by one of them; it is 0 without machines |
| Partitions.EvaluateMakespan | local_search2.py:84-85 | The loop over the machines returns `Makespan` |
| Moves.Apply | local_search2.py:95-134 | A move keeps the number of machines and leaves every machine it does not touch unchanged |
| Moves.ApplyEffect | local_search2.py:95-134 | A transfer pops position p of `from` and appends that job to `to`; a swap exchanges exactly the two positions and keeps lengths and all other positions |
| Moves.TransferKeepsBag | local_search2.py:99-101 | A transfer keeps the multiset of all jobs |
| Moves.InterSwapKeepsBag | local_search2.py:114-115 | An inter-machine swap keeps the multiset of all jobs |
| Moves.IntraSwapKeepsBag | local_search2.py:128-129 | An intra-machine swap keeps the multiset of all jobs |
| Moves.ApplyKeepsBag | local_search2.py:95-134 | Every valid move keeps the multiset of all jobs |
| Moves.ApplyKeepsPartition | local_search2.py:95-134 | A neighbour of a partition is a partition |
| SolutionSpace.PartitionInSpace | local_search2.py:88-143 | Every partition of 1..n over m machines lies in a fixed finite set of layouts |
| SolutionSpace.ImprovingShrinks | local_search2.py:137-143 | Moving to a partition with a strictly smaller makespan strictly shrinks the finite set of layouts below the current makespan, so the loop terminates |
| Greedy.Insert | local_search2.py:63 | Insertion adds exactly the new job to the multiset |
| Greedy.InsertOrdered | local_search2.py:63 | Inserting into a sorted sequence keeps it sorted by decreasing processing time, with ties in increasing job id (stable sort) |
| Greedy.SortedTasks | local_search2.py:63 | The sorted tasks are a permutation of 1..k, in decreasing processing time with stable ties |
| Greedy.FirstMinimum | local_search2.py:73 | The chosen machine has the smallest tentative time, and every earlier machine's time is strictly larger (Python's `min` returns the first minimum) |
| Greedy.PotentialValues | local_search2.py:68-71 | Entry k is the completion time of machine k with that job appended |
| Greedy.EvaluatePotential | local_search2.py:68-71 | The loop over the machines computes `Potential` |
| Greedy.PlaceIsGreedy | local_search2.py:73-74 | The job is appended to the first machine with the smallest tentative completion time, and every other machine is unchanged |
| Greedy.PlaceAdds | local_search2.py:74 | Placing a job keeps the machine count and adds exactly that job to the bag |
| Greedy.Assign | local_search2.py:67-74 | Assigning the jobs in order keeps the machine count and only mentions known jobs |
| Greedy.AssignAdds | local_search2.py:67-74 | Assigning tasks adds exactly those tasks to the bag |
| Greedy.Idle | local_search2.py:65 | m machines, all empty |
| Greedy.IdleBag | local_search2.py:65 | The empty machines hold no job |
| Greedy.NextPlacement | local_search2.py:67-74 | Assigning one more task of the list is placing it on the solution so far |
| Greedy.FfdIsPartition | local_search2.py:60-76 | The heuristic's solution has exactly nMachines sequences and schedules every job of 1..n exactly once |
| Greedy.SolveWithFfd | local_search2.py:60-76 | The method builds the greedy solution, which is a partition over nMachines machines |
| LocalSearch.Step | local_search2.py:104-106 | Evaluating the move at the cursor keeps the scan invariant: the best is the least cost seen and the first move reaching it, and it is kept only when strictly better |
| LocalSearch.Consider | local_search2.py:104-106 | Keeps a candidate only when its makespan is strictly below the best so far |
| LocalSearch.EvaluateTransfer | local_search2.py:99-103 | The deep copy with the position popped and appended is `Apply` of the transfer, and its makespan is that move's cost |
| LocalSearch.EvaluateInterSwap | local_search2.py:114-117 | The copy with the two positions exchanged is `Apply` of the swap, and its makespan is that move's cost |
| LocalSearch.EvaluateIntraSwap | local_search2.py:128-131 | The copy with positions i < j exchanged is `Apply` of the swap, and its makespan is that move's cost |
| LocalSearch.ScanTransferPositions | local_search2.py:98-106 | After every position of one (from, to) pair, the scan invariant holds at the next pair |
| LocalSearch.ScanTransfersFrom | local_search2.py:96-106 | After every target machine of one source, the scan invariant holds at the next source |
| LocalSearch.ScanTransfers | local_search2.py:95-106 | After all transfers, the scan invariant holds at the first inter-machine swap |
| LocalSearch.ScanInterSwapPositions | local_search2.py:113-120 | After every j for one i, the invariant holds at the next i |
| LocalSearch.ScanInterSwapPair | local_search2.py:112-120 | After every (i, j) of one machine pair, the invariant holds at the next pair |
| LocalSearch.ScanInterSwapsFrom | local_search2.py:110-120 | After every m2 > m1, the invariant holds at the next m1 |
| LocalSearch.ScanInterSwaps | local_search2.py:109-120 | After all inter-machine swaps, the invariant holds at the first intra-machine swap |
| LocalSearch.ScanIntraSwapPositions | local_search2.py:126-134 | After every j > i, the invariant holds at the next i |
| LocalSearch.ScanIntraSwapsOn | local_search2.py:124-134 | After every pair i < j of one machine (none when it holds fewer than 2 jobs), the invariant holds at the next machine |
| LocalSearch.ScanIntraSwaps | local_search2.py:123-134 | After all intra-machine swaps, the invariant holds past every move |
| LocalSearch.AllMovesScanned | local_search2.py:95-134 | Every valid move of the three neighbourhoods comes before the cursor that ends the third scan |
| LocalSearch.BestNeighbour | local_search2.py:90-134 | No neighbour: no valid move is strictly below the current makespan. Otherwise the neighbour applies a valid move whose makespan is strictly below the current one and minimal over all moves, and it is the first such move in enumeration order |
| LocalSearch.Search | local_search2.py:78-150 | Terminates; returns a partition over nMachines machines and its makespan, a local optimum for all three neighbourhoods, never above the initial makespan; at least one pass; one pass exactly when the initial solution is returned, otherwise strictly better |
| LowerBound.LeastSetupIsLeast | local_search2.py:164 | The least setup is at most the setup between j and every other job, and equal to one of them |
| LowerBound.SumMinimumWork | local_search2.py:161-165 | The workload loop adds processing time plus least setup over the jobs 1..n |
| LowerBound.MaxCriticalPath | local_search2.py:170-176 | The critical-path loop is the running maximum, from 0, of ready + processing + least setup |
| LowerBound.CriticalPathIsLargest | local_search2.py:170-176 | The critical-path term is ≥ 0 and ≥ every job's path |
| LowerBound.ComputeBound | local_search2.py:157-181 | The loops, the division by the machine count and the final maximum give `Bound` |
| LowerBound.BoundIsLargest | local_search2.py:179 | DDLB is ≥ the workload term, ≥ every job's critical path, and ≥ 0 |
| LowerBound.CalcularDdlb | local_search2.py:152-181 | The source's DDLB, from least outgoing setups |
| LowerBound.CorrectedDdlb | local_search2.py:152-181 | The bound from least incoming setups; with non-negative data and a dominating start row, no partition's makespan is below it |
| LowerBound.Ratio | local_search2.py:218 | When DDLB > 0, ratio × DDLB = makespan; otherwise the ratio is 0 |
| LowerBound.LoadedStartDominates | local_search2.py:32-39 | The loader's start row is at least every setup from another job into j |
| LowerBound.IncomingFloor | local_search2.py:164 | With a dominating start row, every setup a schedule can charge a job is ≥ its least incoming setup |
| LowerBound.OutgoingFloorWhenSymmetric | local_search2.py:164 | With symmetric setups, the same holds for the least outgoing setup |
| LowerBound.PathBelowMakespan | local_search2.py:175 | Under the floor, every job's critical path is at most the makespan of every partition |
| LowerBound.CriticalPathBelowMakespan | local_search2.py:170-176 | Under the floor, the critical-path term is at most every partition's makespan |
| LowerBound.LoadSumPermutation | local_search2.py:161-165 | The workload total does not depend on the order of the jobs |
| LowerBound.PartitionLoads | local_search2.py:161-165 | Over a partition, the machines' loads add up to the workload total |
| LowerBound.WorkloadBelowMakespan | local_search2.py:161-167 | Under the floor, the workload term (total / machines) is at most every partition's makespan |
| LowerBound.BoundHolds | local_search2.py:179 | Under the floor, DDLB is at most the makespan of every partition over nMachines ≥ 1 machines |
| LowerBound.CorrectedBoundHolds | local_search2.py:152-181 | The incoming-setup bound is at most the makespan of every partition, given non-negative data and a dominating start row |
| LowerBound.SourceBoundHoldsWhenSymmetric | local_search2.py:152-181 | The source's bound is at most every partition's makespan when setups are symmetric |
| LowerBound.RatioAtLeastOne | local_search2.py:218 | Against the corrected bound, every partition's ratio is at least 1 |
| LowerBound.SourceBoundExceedsMakespan | local_search2.py:164 | A loaded, non-negative 3-job, 2-machine instance with a partition of makespan 1002 where the source's bound is 1101 |
| Factors.CheckCode | cenario.py:45-48 | Accepted iff the code has 7 letters, each in LHlh. The accepted code is upper-cased letter by letter; otherwise `InvalidScenarioCode` |
| Factors.DecodeRoundTrip | cenario.py:55-63 | 'L' selects the first column of the factor table and 'H' the second; the code can be read back from the decoded levels, so decoding is injective |
| Factors.DecodedSizes | cenario.py:62-64 | Machines ∈ {2, 10}, jobs per machine ∈ {3, 10}, jobs = their product ∈ {6, 20, 30, 100}, and jobs / machines > 1 |
| Scenarios.UniformBetween | cenario.py:85-88 | A uniform draw lies between its bounds |
| Scenarios.SetupBounds | cenario.py:75-78 | The setup bounds are 450 ± √3·σ, with σ = 1.5·450/9 for high variability and half that for low; they lie in [319.5, 580.5], and the high interval is twice as wide |
| Scenarios.DrawIndex | cenario.py:80-88 | The draw that fills a cell lies inside the stream the matrix consumes |
| Scenarios.DrawIndexInRow | cenario.py:80-88 | A cell's draw lies in its row's share of the stream, in row-major order |
| Scenarios.DrawIndexInjective | cenario.py:80-88 | Distinct cells use distinct draws, except mirror cells of a symmetric matrix, which share one |
| Scenarios.RowStartValue | cenario.py:80-88 | Rows before i take i(n-1) draws when asymmetric, and i(2n-i-1)/2 when symmetric |
| Scenarios.DrawCountValue | cenario.py:80-88 | The matrix takes n(n-1) draws when asymmetric and n(n-1)/2 when symmetric |
| Scenarios.EntryProperties | cenario.py:80-88 | Infinite exactly on the diagonal, every other cell within the setup bounds, and a symmetric matrix equals its transpose |
| Scenarios.FillRow | cenario.py:81-88 | One row of the double loop writes its cells and, when symmetric, their mirrors, and advances the draw cursor by the row's draw count; every cell not yet written keeps its old value |
| Scenarios.FillSetupMatrix | cenario.py:79-89 | The fresh n×n matrix holds `Entry` in every cell |
| Scenarios.ProcessingTimes | cenario.py:95-96 | One time per job |
| Scenarios.ProcessingTimesInRange | cenario.py:92-96 | The mean is 450 (low) or 4500 (high); the bounds are 0.94/1.06 or 0.4/1.6 of the mean, positive and centred on it, and every time lies within them |
| Scenarios.SmallestIsLeast | cenario.py:105 | The minimum is at most every element and is one of them |
| Scenarios.ReadyTimes | cenario.py:98-105 | One ready time per job |
| Scenarios.ReadyTimesInRange | cenario.py:98-105 | Ready times are all 0 for the low level or when jobs/machines ≤ 1. Otherwise they lie in [0, (jobs/machines - 1)(mean + 450)]. They are never negative, and with at least one job one of them is 0 |
| Scenarios.Persisted | cenario.py:110-113 | Exactly the infinite cells become null; finite cells keep their value |
| Scenarios.LoadedEntry | local_search2.py:28 | Reading back a generated cell gives 0 on the diagonal and a time within the setup bounds elsewhere |
| Scenarios.Cenario.constructor | cenario.py:48-53 | Stores the code and its decoding; no data is generated yet |
| Scenarios.NewCenario | cenario.py:45-49 | Fails exactly when `CheckCode` fails; otherwise returns a fresh scenario holding the decoding of the upper-cased code |
| Scenarios.Cenario.GenerateSetupMatrix | cenario.py:74-89 | A fresh n×n matrix whose cells are `Entry` under this scenario's structure and setup bounds |
| Scenarios.Cenario.GerarDados | cenario.py:66-69 | The matrix comes from the head of the stream, then the processing times, then the ready times; all three are set and sized n |
| Scenarios.Cenario.ToDict | cenario.py:107-114 | Generates first only if data is missing, and then the new matrix and times are `Entry`, `ProcessingTimes` and `ReadyTimes` of the draw stream's consecutive blocks; returns the configuration, an n×n matrix with null exactly where the cell is infinite, and the times |

## Left out

- File and JSON reading and writing: `carregar_instancia_de_json`'s `open` and `json.load`, and `salvar_em_json`. `Loader.LoadInstance` starts from the parsed record (`Factors.StoredInstance`).
- `run_scenario_from_file`, the command-line entry points and every `print`, including the iteration report of `local_search` and the verbose message of `gerar_dados`. They are reporting only.
- `run_generator.py`, which enumerates codes and replicas, makes directories and shows progress bars. It is not part of this model.
- `__str__` of `Cenario`, which is cosmetic.
- Floating point: every time is an exact real. Float rounding in sums, maxima and divisions is not modelled.
- `round(..., 2)` on setup, processing and ready times. The generated values are the unrounded draws.
- `numpy.random.uniform` and its distribution. Each draw is an abstract element of a supplied stream, and only structural facts about the values are proved.
- `math.sqrt(3)` is the parameter `root3`. The bound facts assume 1.73 ≤ root3 ≤ 1.74.
- Scenarios.Cenario.GerarDados and Scenarios.Cenario.ToDict: require enough draws for the whole generation. The source draws from an unbounded generator.
- Scenarios.Cenario.ToDict: builds the persisted rows as new sequences instead of rewriting the list copy in place. `tolist` copies, so the effect is the same.
- Scenarios.ReadyTimes: the branch for `n_jobs == 0` with drawn ready times (where `np.min` would fail) cannot be reached: drawing needs jobs/machines > 1.
- LocalSearch.Search: requires the initial solution to be a partition with one sequence per machine, as `solve_with_ffd` produces. The source accepts any dictionary of sequences.
- LocalSearch.BestNeighbour: neighbours are built as new values (the deep copies of the source), so aliasing between a neighbour and the current solution is not modelled.
- Greedy.SolveWithFfd: requires at least one machine. With no machines and at least one job, the source's `min` over an empty dictionary fails; with no machines and no jobs the source returns an empty dictionary, a case the model does not cover.
- LowerBound.CalcularDdlb: requires a job count other than one and at least one machine. With no jobs the bound is 0; with one job, the `min` over the other jobs is empty and fails; with no machines, the division fails.
- Loader.LoadInstance and Loader.JobRows: require a setup matrix of at least n rows with at least n entries each. On a shorter stored matrix the source raises `IndexError` at `matriz_lista[i][j]` and the load fails; the model does not represent that failure.
- LowerBound.CorrectedBoundHolds, LowerBound.CorrectedDdlb and LowerBound.SourceBoundHoldsWhenSymmetric: the bound is proved only for non-negative data with a dominating start row. A stored record with negative times is not excluded by the source, and for it no bound is claimed.
- Machine ids 1..m are the indices 0..m-1 of the solution sequence.
- The loader assumes the processing and ready lists have one entry per job. `LoadInstance` states what happens otherwise through the key sets of the maps.

## Findings

| source | as written | input that shows it | evidently intended | confidence | as-written member | corrected member |
|---|---|---|---|---|---|---|
| local_search2.py:164 | DDLB adds, for each job, the least setup OUT of the job. A schedule charges each job the setup INTO it (or the start setup when it is first), so with asymmetric setups the "lower bound" can exceed a feasible makespan | 3 jobs, 2 machines, all processing 1; ready 1000, 0, 0; setups out of job 1 are 100, every other setup between distinct jobs is 1, and the start row is built by the loader (1, 100, 100). The schedule [1], [2, 3] has makespan 1002; the DDLB is 1101 | A lower bound on every schedule's makespan: take the least setup INTO each job | not executed | LowerBound.SourceBoundExceedsMakespan | LowerBound.CorrectedDdlb |
