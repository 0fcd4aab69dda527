/** How `main` splits the sample budget into equal, contiguous slices of the
    sample index space, one per task. */
module Partition {
  import opened Common

  const MaxLong: int := 0x7FFF_FFFF_FFFF_FFFF

  /** The slicing `main` computes: `numberOfTask` slices of `perTask` samples. */
  datatype Plan = Plan(numberOfTask: nat, perTask: nat)
  {
    /** `numberOfSimulationsEffective`: the samples actually drawn. */
    function Effective(): nat { perTask * numberOfTask }

    /** First sample index of task `k`. */
    function Start(k: nat): nat { k * perTask }

    /** One past the last sample index of task `k`. */
    function End(k: nat): nat { Start(k) + perTask }

    /** Sample `i` belongs to the slice of task `k`. */
    predicate InSlice(k: nat, i: nat) { Start(k) <= i < End(k) }
  }

  /** The partition of `numberOfSimulations` samples into `numberOfTask` slices;
      the remainder of the division is dropped. */
  function PlanFor(numberOfSimulations: nat, numberOfTask: nat): (r: Result<Plan>)
    ensures r.Err? <==> numberOfTask == 0
    ensures r.Ok? ==> r.value.numberOfTask == numberOfTask
    ensures r.Ok? ==> r.value.Effective() <= numberOfSimulations
    ensures r.Ok? ==> numberOfSimulations - r.value.Effective() < numberOfTask
  {
    if numberOfTask == 0 then Err(DivisionByZero)
    else Ok(Plan(numberOfTask, numberOfSimulations / numberOfTask))
  }

  lemma MulLeftMonotone(a: nat, b: nat, p: nat)
    requires a <= b
    ensures a * p <= b * p
  {
    var d := b - a;
    assert b * p == a * p + d * p;
  }

  /** The two bounds PlanFor guarantees characterise the per-task size: floor
      division is the only size that wastes fewer samples than there are tasks. */
  lemma PerTaskIsDetermined(numberOfSimulations: nat, numberOfTask: nat, perTask: nat)
    requires numberOfTask > 0
    requires perTask * numberOfTask <= numberOfSimulations < perTask * numberOfTask + numberOfTask
    ensures PlanFor(numberOfSimulations, numberOfTask) == Ok(Plan(numberOfTask, perTask))
  {
    var q := numberOfSimulations / numberOfTask;
    assert q * numberOfTask <= numberOfSimulations < q * numberOfTask + numberOfTask;
    if q < perTask {
      MulLeftMonotone(q + 1, perTask, numberOfTask);
    } else if perTask < q {
      MulLeftMonotone(perTask + 1, q, numberOfTask);
    }
  }

  /** Consecutive slices meet: task `k + 1` starts where task `k` ends. */
  lemma SlicesContiguous(plan: Plan, k: nat)
    ensures plan.Start(0) == 0
    ensures plan.End(k) == plan.Start(k + 1)
  {
  }

  /** Every slice of a task lies inside `[0, effective)`. */
  lemma SliceWithinEffective(plan: Plan, k: nat)
    requires k < plan.numberOfTask
    ensures plan.End(k) <= plan.Effective()
  {
    MulLeftMonotone(k + 1, plan.numberOfTask, plan.perTask);
  }

  /** Slices of different tasks share no sample index. */
  lemma SlicesDisjoint(plan: Plan, j: nat, k: nat, i: nat)
    requires j != k
    ensures !(plan.InSlice(j, i) && plan.InSlice(k, i))
  {
    if j < k {
      MulLeftMonotone(j + 1, k, plan.perTask);
    } else {
      MulLeftMonotone(k + 1, j, plan.perTask);
    }
  }

  /** The slices of the tasks cover exactly `[0, effective)`: a sample index is
      below the effective total iff some task's slice holds it. */
  lemma SlicesCover(plan: Plan, i: nat)
    ensures i < plan.Effective() <==> exists k: nat :: k < plan.numberOfTask && plan.InSlice(k, i)
  {
    if i < plan.Effective() {
      var p := plan.perTask;
      assert p > 0;
      var k := i / p;
      assert k * p <= i < k * p + p;
      if k >= plan.numberOfTask {
        MulLeftMonotone(plan.numberOfTask, k, p);
      }
      assert plan.InSlice(k, i);
    } else {
      forall k: nat | k < plan.numberOfTask
        ensures !plan.InSlice(k, i)
      {
        SliceWithinEffective(plan, k);
      }
    }
  }

  /** No task start, and no loop bound `indexStart + numberOfSimulations`, exceeds
      the requested budget, so none overflows a Java `long` when the budget fits. */
  lemma SliceWithinBudget(numberOfSimulations: nat, numberOfTask: nat, k: nat)
    requires k < numberOfTask
    ensures PlanFor(numberOfSimulations, numberOfTask).Ok?
    ensures PlanFor(numberOfSimulations, numberOfTask).value.End(k) <= numberOfSimulations
    ensures numberOfSimulations <= MaxLong ==> PlanFor(numberOfSimulations, numberOfTask).value.End(k) <= MaxLong
  {
    SliceWithinEffective(PlanFor(numberOfSimulations, numberOfTask).value, k);
  }

  const NumberOfSimulations: nat := 200000000
  const NumberOfTask: nat := 80

  /** With the constants of `main` the budget divides evenly: 80 slices of
      2,500,000 samples and nothing dropped. */
  lemma ReferenceConfiguration()
    ensures PlanFor(NumberOfSimulations, NumberOfTask) == Ok(Plan(80, 2500000))
    ensures PlanFor(NumberOfSimulations, NumberOfTask).value.Effective() == NumberOfSimulations
  {
  }
}
