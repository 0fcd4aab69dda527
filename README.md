# Parallel quasi-Monte-Carlo estimate of pi: partition, count and collect

This project models the integer skeleton of
`MonteCarloIntegrationParallelizedExperiment`. The experiment estimates pi by
counting how many quasi-random (Halton) points of the square [-1, 1]^2 fall into
the unit disc. Its `main` does three things:

- **Partitioning.** It splits a budget of `numberOfSimulations` sample indices
  into `numberOfTask` slices of `perTask = numberOfSimulations / numberOfTask`
  samples each and drops the remainder. Task `k` starts at `k * perTask`.
- **Counting.** Each task runs `getMonteCarloApproximationOfPi(start, perTask)`. It
  counts the inside points of its slice and returns `4 * count / perTask`.
- **Collection.** It adds the task results in task order and divides the sum by
  `numberOfTask`.

Whether sample `i` lies inside the disc is modelled as a deterministic predicate
`inside: nat -> bool`, passed as a parameter. A `double` is modelled as an exact
real, plus the one NaN the code can produce (a task with no samples computes
`4.0 * 0 / 0`).

The main result is `Experiment.RunExperiment`. Averaging the per-task estimates
gives exactly the estimate a single task would compute over `[0, effective)`.
This holds because counting is additive over the slices (`Experiment.Additivity`)
and the slices tile `[0, effective)` (`Partition.SlicesCover`,
`Partition.SlicesDisjoint`). Summing the counts in any other order gives the same
total (`Experiment.OrderIndependence`), so the order in which workers finish
cannot change the answer.

Modules:
- `Common`: the error and result types, the `Approx` model of a double, and the ratio `4 * count / n`.
- `Partition`: the slice arithmetic of lines 38–39 and 50–52.
- `Counting`: `getMonteCarloApproximationOfPi` and its counting loop.
- `Experiment`: the submission loop, the collection loop and the whole of `main`.

Where the code and the design description differ, the model follows the code:
- With `numberOfTask == 0`, the division at line 38 throws an `ArithmeticException`.
  The model returns `Err(DivisionByZero)` there. No check rejects the configuration beforehand.
- A sample budget of 0, or any budget below `numberOfTask`, is not rejected. Every task
  then gets 0 samples, each returns NaN, and so does the average.

## Model

| member | source | states |
|---|---|---|
| Partition.PlanFor | src/main/java/net/finmath/experiments/montecarlo/MonteCarloIntegrationParallelizedExperiment.java:38-39 | fails exactly when `numberOfTask == 0`; otherwise `effective = perTask * numberOfTask`, `effective <= total` and `total - effective < numberOfTask` |
| Partition.PerTaskIsDetermined | src/main/java/net/finmath/experiments/montecarlo/MonteCarloIntegrationParallelizedExperiment.java:38 | any slice size that wastes fewer samples than there are tasks is the one `PlanFor` picks, so these bounds define floor division |
| Partition.SlicesContiguous | src/main/java/net/finmath/experiments/montecarlo/MonteCarloIntegrationParallelizedExperiment.java:50-52 | task 0 starts at 0, and task `k + 1` starts where task `k` ends |
| Partition.SliceWithinEffective | src/main/java/net/finmath/experiments/montecarlo/MonteCarloIntegrationParallelizedExperiment.java:50-52 | the slice of every task `k < numberOfTask` ends at or before `effective` |
| Partition.SlicesDisjoint | src/main/java/net/finmath/experiments/montecarlo/MonteCarloIntegrationParallelizedExperiment.java:50-52 | no sample index lies in the slices of two different tasks |
| Partition.SlicesCover | src/main/java/net/finmath/experiments/montecarlo/MonteCarloIntegrationParallelizedExperiment.java:39-52 | a sample index is below `effective` if and only if some task's slice holds it |
| Partition.SliceWithinBudget | src/main/java/net/finmath/experiments/montecarlo/MonteCarloIntegrationParallelizedExperiment.java:38-56 | no task start and no loop bound `start + perTask` exceeds the requested budget, so none overflows a `long` when the budget fits in one |
| Partition.ReferenceConfiguration | src/main/java/net/finmath/experiments/montecarlo/MonteCarloIntegrationParallelizedExperiment.java:34-39 | with the constants of `main` (200,000,000 samples, 80 tasks) each task gets 2,500,000 samples and nothing is dropped |
| Common.Ratio | src/main/java/net/finmath/experiments/montecarlo/MonteCarloIntegrationParallelizedExperiment.java:109-112 | a task's result is NaN exactly when it has no samples, and lies in `[0, 4]` when the count is at most the sample count |
| Common.AverageOfRatios | src/main/java/net/finmath/experiments/montecarlo/MonteCarloIntegrationParallelizedExperiment.java:74 | dividing a task's ratio over `p` samples by `t` gives the ratio of the same count over `p * t` samples |
| Counting.CountInside | src/main/java/net/finmath/experiments/montecarlo/MonteCarloIntegrationParallelizedExperiment.java:100-107 | the number of inside indices of a range of `n` indices is at most `n` |
| Counting.CountIsCardinality | src/main/java/net/finmath/experiments/montecarlo/MonteCarloIntegrationParallelizedExperiment.java:100-107 | the count equals the size of the set of indices in `[lo, lo + n)` for which `inside` holds |
| Counting.CountSplit | src/main/java/net/finmath/experiments/montecarlo/MonteCarloIntegrationParallelizedExperiment.java:101 | the count over a range split into two adjacent parts is the sum of the counts of the parts |
| Counting.CountPointsInside | src/main/java/net/finmath/experiments/montecarlo/MonteCarloIntegrationParallelizedExperiment.java:100-107 | the loop visits exactly the indices `start, start + 1, ..., start + n - 1` in increasing order, once each, and the counter ends equal to the inside count of that range, so between 0 and `n` |
| Counting.ApproximationOfPi | src/main/java/net/finmath/experiments/montecarlo/MonteCarloIntegrationParallelizedExperiment.java:99-115 | returns `4 * count / n` for the inside count of its range (NaN when `n == 0`, otherwise in `[0, 4]`); the result depends only on `(indexStart, n)` |
| Experiment.TaskCountAt | src/main/java/net/finmath/experiments/montecarlo/MonteCarloIntegrationParallelizedExperiment.java:50-56 | entry `k` of the per-task counts is the count over the slice starting at `k * perTask` |
| Experiment.SumPermutation | src/main/java/net/finmath/experiments/montecarlo/MonteCarloIntegrationParallelizedExperiment.java:68-71 | adding the counts in any order that is a permutation gives the same total |
| Experiment.Additivity | src/main/java/net/finmath/experiments/montecarlo/MonteCarloIntegrationParallelizedExperiment.java:50-71 | the per-task counts of `m` tasks add up to the count over `[0, m * perTask)` |
| Experiment.OrderIndependence | src/main/java/net/finmath/experiments/montecarlo/MonteCarloIntegrationParallelizedExperiment.java:53-71 | whatever order the task counts arrive in, their sum is the count over `[0, effective)` |
| Experiment.SumOfRatios | src/main/java/net/finmath/experiments/montecarlo/MonteCarloIntegrationParallelizedExperiment.java:68-71 | the running sum of per-task ratios `4 c_k / p` is `4 (sum of c_k) / p`: 0.0 with no tasks, NaN if the slices are empty |
| Experiment.AveragedEstimate | src/main/java/net/finmath/experiments/montecarlo/MonteCarloIntegrationParallelizedExperiment.java:68-74 | the average of the task results equals `4 * count / effective` for the count over the whole effective range |
| Experiment.SubmitTasks | src/main/java/net/finmath/experiments/montecarlo/MonteCarloIntegrationParallelizedExperiment.java:49-61 | returns exactly one result per task, and entry `k` is the result of task `k`, which starts at `k * perTask` |
| Experiment.CollectResults | src/main/java/net/finmath/experiments/montecarlo/MonteCarloIntegrationParallelizedExperiment.java:67-74 | reads each of the `numberOfTask` results once, in task order; the result is their left-to-right sum divided by `numberOfTask` |
| Experiment.RunExperiment | src/main/java/net/finmath/experiments/montecarlo/MonteCarloIntegrationParallelizedExperiment.java:33-90 | fails with `DivisionByZero` exactly when `numberOfTask == 0`; otherwise reports `perTask` and `effective` with the partition bounds, and an estimate equal to `4 * count / effective` over `[0, effective)` |

## Left out

- The Halton sequence (`HaltonSequence.getHaltonNumber`, line 16 and lines 102–103) and the test `x*x + y*y < 1.0` (line 104). `HaltonSequence` is not part of this model. The point test is the abstract deterministic predicate `inside`.
- Common.Ratio: computes `4 * count / n` on exact reals with NaN as the only special value. It does not model floating-point rounding, which is not part of the integer skeleton.
- Experiment.CollectResults: adds and divides exact reals. It does not model rounding, so with doubles the sum also depends on the order of the additions.
- Experiment.RunExperiment: its estimate equals the single-range estimate exactly. With doubles it does so only up to rounding, for the same reason.
- Convergence to pi and the theoretical error order `(log n)^2 / n` (lines 81–82). These need the real Halton points, and they are console output.
- The thread pool, futures, `shutdown` and the worker count of 8 (lines 35, 48, 53–58, 89). Tasks run one after another in a sequential loop. The worker count does not enter the result.
- Timing and console output (lines 42, 47, 62, 72, 76–84): I/O.
- Negative counts. The budget and the per-task sample count are taken as `nat`. The code declares them `long`, but always calls the counter with non-negative arguments.
- Partition.SliceWithinBudget: shows the bounds that rule out `long` overflow. It does not model 64-bit wrap-around, because no index the code computes goes beyond the budget.
- The other files of the repository (the fork-join deadlock demo, the LIBOR, DICE and Black–Scholes experiments, the pathwise Greeks, the emission intensity function): they are concurrency demonstrations or wiring into an external library, not part of this core.
