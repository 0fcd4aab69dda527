/** The body of `main` with the thread pool replaced by a sequential loop over
    the tasks: submit one task per slice, collect the results in task order, and
    average them. */
module Experiment {
  import opened Common
  import opened Partition
  import opened Counting

  /** Left-to-right sum, the order of the collection loop. */
  function Sum(s: seq<nat>): nat
  {
    if s == [] then 0 else Sum(s[..|s| - 1]) + s[|s| - 1]
  }

  /** Left-to-right `+=` on doubles, starting from `0.0`. */
  function SumApprox(s: seq<Approx>): Approx
  {
    if s == [] then Num(0.0) else Plus(SumApprox(s[..|s| - 1]), s[|s| - 1])
  }

  /** The inside-count of each of the first `m` tasks of slice size `perTask`, in
      task order. */
  function TaskCounts(inside: nat -> bool, perTask: nat, m: nat): (cs: seq<nat>)
    ensures |cs| == m
  {
    if m == 0 then [] else TaskCounts(inside, perTask, m - 1) + [CountInside(inside, (m - 1) * perTask, perTask)]
  }

  /** Entry `k` of the task counts is the count over the slice of task `k`. */
  lemma {:induction false} TaskCountAt(inside: nat -> bool, perTask: nat, m: nat, k: nat)
    requires k < m
    ensures TaskCounts(inside, perTask, m)[k] == CountInside(inside, k * perTask, perTask)
    decreases m
  {
    if k < m - 1 {
      TaskCountAt(inside, perTask, m - 1, k);
    }
  }

  /** What task `k` of `plan` hands back. */
  function TaskResult(inside: nat -> bool, plan: Plan, k: nat): Approx
  {
    Ratio(CountInside(inside, plan.Start(k), plan.perTask), plan.perTask)
  }

  lemma {:induction false} SumConcat(a: seq<nat>, b: seq<nat>)
    ensures Sum(a + b) == Sum(a) + Sum(b)
    decreases |b|
  {
    if b == [] {
      assert a + b == a;
    } else {
      assert (a + b)[..|a + b| - 1] == a + b[..|b| - 1];
      SumConcat(a, b[..|b| - 1]);
    }
  }

  /** The total of the counts does not depend on the order they are added in. */
  lemma {:induction false} SumPermutation(s: seq<nat>, t: seq<nat>)
    requires multiset(s) == multiset(t)
    ensures Sum(s) == Sum(t)
    decreases |s|
  {
    if s == [] {
      assert |t| == |multiset(t)| == 0;
    } else {
      var x := s[|s| - 1];
      var s' := s[..|s| - 1];
      assert s == s' + [x];
      assert x in multiset(t);
      var i :| 0 <= i < |t| && t[i] == x;
      var t' := t[..i] + t[i + 1..];
      assert t == t[..i] + [x] + t[i + 1..];
      assert multiset(t') == multiset(t) - multiset{x};
      assert multiset(s') == multiset(s) - multiset{x};
      SumPermutation(s', t');
      SumConcat(t[..i] + [x], t[i + 1..]);
      SumConcat(t[..i], [x]);
      SumConcat(t[..i], t[i + 1..]);
      assert Sum([x]) == x by {
        assert [x][..0] == [];
      }
    }
  }

  /** Additivity over the partition: the per-task counts add up to the count over
      `[0, numberOfTask * perTask)`. */
  lemma {:induction false} Additivity(inside: nat -> bool, perTask: nat, m: nat)
    ensures Sum(TaskCounts(inside, perTask, m)) == CountInside(inside, 0, m * perTask)
    decreases m
  {
    if m > 0 {
      var q := (m - 1) * perTask;
      var cs := TaskCounts(inside, perTask, m);
      assert cs == TaskCounts(inside, perTask, m - 1) + [CountInside(inside, q, perTask)];
      assert cs[..m - 1] == TaskCounts(inside, perTask, m - 1);
      assert Sum(cs) == Sum(TaskCounts(inside, perTask, m - 1)) + CountInside(inside, q, perTask);
      Additivity(inside, perTask, m - 1);
      CountSplit(inside, 0, q, perTask);
      MulSucc(m - 1, perTask);
      var e := m * perTask;
      assert e == q + perTask;
      assert CountInside(inside, 0, q + perTask) == CountInside(inside, 0, e);
    } else {
      assert m * perTask == 0;
    }
  }

  lemma MulSucc(m: nat, p: nat)
    ensures (m + 1) * p == m * p + p
  {
  }

  /** However the workers finish and in whatever order the per-task counts are
      folded, the total is the count over the effective range. */
  lemma OrderIndependence(inside: nat -> bool, plan: Plan, completed: seq<nat>)
    requires multiset(completed) == multiset(TaskCounts(inside, plan.perTask, plan.numberOfTask))
    ensures Sum(completed) == CountInside(inside, 0, plan.Effective())
  {
    SumPermutation(completed, TaskCounts(inside, plan.perTask, plan.numberOfTask));
    Additivity(inside, plan.perTask, plan.numberOfTask);
  }

  /** Summing the per-task ratios `4 c_k / p` gives `4 (sum c_k) / p`; if any
      task had no samples the sum is NaN. */
  lemma {:induction false} SumOfRatios(cs: seq<nat>, rs: seq<Approx>, p: nat)
    requires |rs| == |cs|
    requires forall k :: 0 <= k < |cs| ==> rs[k] == Ratio(cs[k], p)
    ensures SumApprox(rs) == if cs == [] then Num(0.0) else if p == 0 then NaN else Num(4.0 * Sum(cs) as real / p as real)
    decreases |cs|
  {
    if cs != [] {
      var m := |cs| - 1;
      SumOfRatios(cs[..m], rs[..m], p);
      assert rs[..m] == rs[..|rs| - 1];
      if p > 0 {
        AddFractions(4.0 * Sum(cs[..m]) as real, 4.0 * cs[m] as real, p as real);
      }
    }
  }

  /** Averaging the per-task estimates gives the estimate over the whole
      effective range: what a single task over `[0, effective)` would compute. */
  lemma AveragedEstimate(inside: nat -> bool, plan: Plan, results: seq<Approx>)
    requires plan.numberOfTask > 0 && |results| == plan.numberOfTask
    requires forall k :: 0 <= k < |results| ==> results[k] == TaskResult(inside, plan, k)
    ensures Quotient(SumApprox(results), plan.numberOfTask)
         == Ratio(CountInside(inside, 0, plan.Effective()), plan.Effective())
  {
    var p, t := plan.perTask, plan.numberOfTask;
    var cs := TaskCounts(inside, p, t);
    forall k | 0 <= k < t
      ensures results[k] == Ratio(cs[k], p)
    {
      TaskCountAt(inside, p, t, k);
    }
    SumOfRatios(cs, results, p);
    Additivity(inside, p, t);
    var total := CountInside(inside, 0, plan.Effective());
    assert Sum(cs) == total by {
      assert t * p == plan.Effective();
    }
    if p > 0 {
      assert SumApprox(results) == Ratio(total, p);
      AverageOfRatios(total, p, t);
    } else {
      assert SumApprox(results) == NaN;
    }
  }

  /** The submission loop of `main`: one result per task, entry `k` being the
      result of task `k`, which starts at `k * perTask`. */
  method SubmitTasks(inside: nat -> bool, plan: Plan) returns (results: seq<Approx>)
    ensures |results| == plan.numberOfTask
    ensures forall k :: 0 <= k < |results| ==> results[k] == TaskResult(inside, plan, k)
  {
    results := [];
    var taskIndex := 0;
    while taskIndex < plan.numberOfTask
      invariant 0 <= taskIndex <= plan.numberOfTask
      invariant |results| == taskIndex
      invariant forall k :: 0 <= k < taskIndex ==> results[k] == TaskResult(inside, plan, k)
    {
      var startIndex := taskIndex * plan.perTask;
      var value := ApproximationOfPi(inside, startIndex, plan.perTask);
      results := results + [value];
      taskIndex := taskIndex + 1;
    }
  }

  /** The collection loop of `main`: each of the `numberOfTask` results is read
      once, in task order, and their sum is divided by `numberOfTask`. */
  method CollectResults(results: seq<Approx>, numberOfTask: nat) returns (pi: Approx)
    requires numberOfTask > 0 && |results| == numberOfTask
    ensures pi == Quotient(SumApprox(results), numberOfTask)
  {
    var sumOfResults := Num(0.0);
    var taskIndex := 0;
    while taskIndex < numberOfTask
      invariant 0 <= taskIndex <= numberOfTask
      invariant sumOfResults == SumApprox(results[..taskIndex])
    {
      assert results[..taskIndex + 1][..taskIndex] == results[..taskIndex];
      sumOfResults := Plus(sumOfResults, results[taskIndex]);
      taskIndex := taskIndex + 1;
    }
    assert results[..numberOfTask] == results;
    pi := Quotient(sumOfResults, numberOfTask);
  }

  /** What a run reports: the slice size, the samples actually used, and the
      approximation of pi. */
  datatype Outcome = Outcome(perTask: nat, effective: nat, pi: Approx)

  /** `main` for a sample budget and a task count. The averaged estimate equals
      the estimate a single task over `[0, effective)` would give, so it depends
      only on the budget and the task count through the effective total. */
  method RunExperiment(inside: nat -> bool, numberOfSimulations: nat, numberOfTask: nat)
    returns (r: Result<Outcome>)
    ensures r.Err? <==> numberOfTask == 0
    ensures r.Err? ==> r.error == DivisionByZero
    ensures r.Ok? ==> r.value.perTask * numberOfTask == r.value.effective
    ensures r.Ok? ==> r.value.effective <= numberOfSimulations < r.value.effective + numberOfTask
    ensures r.Ok? ==> r.value.pi == Ratio(CountInside(inside, 0, r.value.effective), r.value.effective)
  {
    var planned := PlanFor(numberOfSimulations, numberOfTask);
    if planned.Err? {
      return Err(planned.error);
    }
    var plan := planned.value;
    var results := SubmitTasks(inside, plan);
    var pi := CollectResults(results, numberOfTask);

    AveragedEstimate(inside, plan, results);
    r := Ok(Outcome(plan.perTask, plan.Effective(), pi));
  }
}
