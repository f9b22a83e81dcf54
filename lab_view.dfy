/** `LabView`: the lab's step checklist with a current step, and the
    deliverable checklist. Only the rendered rows can be clicked, so every
    index handled lies below the number of steps or deliverables. */
module LabView {
  import opened Seqs

  /** A set of indices below `n` has at most `n` elements. */
  lemma {:induction false} CountBound(s: set<int>, n: nat)
    requires forall x :: x in s ==> 0 <= x < n
    ensures |s| <= n
  {
    if n == 0 {
      assert forall x :: x !in s;
      assert s == {};
    } else {
      CountBound(s - {n - 1}, n - 1);
      if n - 1 in s {
        assert s == (s - {n - 1}) + {n - 1};
      } else {
        assert s == s - {n - 1};
      }
    }
  }

  class Lab {
    const stepCount: nat
    const deliverableCount: nat
    var currentStep: int
    var completedSteps: set<int>
    var completedDeliverables: set<int>

    ghost predicate Valid()
      reads this
    {
      0 <= currentStep && (currentStep < stepCount || currentStep == 0) &&
      (forall i :: i in completedSteps ==> 0 <= i < stepCount) &&
      (forall i :: i in completedDeliverables ==> 0 <= i < deliverableCount)
    }

    constructor (steps: nat, deliverables: nat)
      ensures Valid()
      ensures stepCount == steps && deliverableCount == deliverables
      ensures currentStep == 0 && completedSteps == {} && completedDeliverables == {}
    {
      stepCount, deliverableCount := steps, deliverables;
      currentStep, completedSteps, completedDeliverables := 0, {}, {};
    }

    /** `toggleStep(i)`: flips whether step `i` is done, and no other. */
    method ToggleStep(i: int)
      requires Valid() && 0 <= i < stepCount
      modifies this
      ensures Valid()
      ensures completedSteps == Toggle(old(completedSteps), i)
      ensures currentStep == old(currentStep) && completedDeliverables == old(completedDeliverables)
    {
      completedSteps := Toggle(completedSteps, i);
    }

    /** `toggleDeliverable(i)`: flips whether deliverable `i` is done, and
        no other. */
    method ToggleDeliverable(i: int)
      requires Valid() && 0 <= i < deliverableCount
      modifies this
      ensures Valid()
      ensures completedDeliverables == Toggle(old(completedDeliverables), i)
      ensures currentStep == old(currentStep) && completedSteps == old(completedSteps)
    {
      completedDeliverables := Toggle(completedDeliverables, i);
    }

    /** A click on step `i`'s dot: toggles the step, and moves on to the
        next step only when `i` is the current step, was not done when the
        row was drawn, and is not the last. */
    method ClickDot(i: int)
      requires Valid() && 0 <= i < stepCount
      modifies this
      ensures Valid()
      ensures completedSteps == Toggle(old(completedSteps), i)
      ensures completedDeliverables == old(completedDeliverables)
      ensures currentStep ==
                if i !in old(completedSteps) && i == old(currentStep) && i < stepCount - 1
                then i + 1 else old(currentStep)
    {
      var isDone := i in completedSteps;
      ToggleStep(i);
      if !isDone && i == currentStep && i < stepCount - 1 {
        currentStep := i + 1;
      }
    }

    /** A click on step `i`'s text makes it the current step. */
    method ClickStep(i: int)
      requires Valid() && 0 <= i < stepCount
      modifies this
      ensures Valid()
      ensures currentStep == i
      ensures completedSteps == old(completedSteps) && completedDeliverables == old(completedDeliverables)
    {
      currentStep := i;
    }

    /** The "k/n completed" counter of the steps header. */
    function Completed(): (counter: (nat, nat))
      requires Valid()
      reads this
      ensures counter.0 == |completedSteps| && counter.1 == stepCount
      ensures counter.0 <= counter.1
    {
      CountBound(completedSteps, stepCount);
      (|completedSteps|, stepCount)
    }
  }
}
