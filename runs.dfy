/** A loop that runs numbered steps in order and lets the first exception escape. */
module Runs {
  import opened Wrappers

  /** Runs `step(0)`, ..., `step(n - 1)` in order, collecting their results; the first step
      that raises ends the run with that exception. */
  function RunAll<T>(step: nat --> Result<T>, n: nat): (r: Result<seq<T>>)
    requires forall s: nat :: s < n ==> step.requires(s)
    ensures r.Ok? ==> |r.value| == n
  {
    if n == 0 then Ok([])
    else
      match RunAll(step, n - 1)
      case Raise(e) => Raise(e)
      case Ok(done) =>
        match step(n - 1)
        case Raise(e) => Raise(e)
        case Ok(last) => Ok(done + [last])
  }

  /** A completed run holds, at position s, the result of step s. */
  lemma {:induction false} RunHoldsEachStep<T>(step: nat --> Result<T>, n: nat)
    requires forall s: nat :: s < n ==> step.requires(s)
    requires RunAll(step, n).Ok?
    ensures forall s :: 0 <= s < n ==> step(s) == Ok(RunAll(step, n).value[s])
    decreases n
  {
    if n > 0 {
      RunHoldsEachStep(step, n - 1);
      var done := RunAll(step, n - 1).value;
      assert forall s :: 0 <= s < n - 1 ==> RunAll(step, n).value[s] == done[s];
    }
  }

  /** One more step that succeeds extends a completed run by its result. */
  lemma RunExtends<T>(step: nat --> Result<T>, n: nat, done: seq<T>, last: T)
    requires forall s: nat :: s <= n ==> step.requires(s)
    requires RunAll(step, n) == Ok(done) && step(n) == Ok(last)
    ensures RunAll(step, n + 1) == Ok(done + [last])
  {
  }

  /** Once a step raises, the run raises that step's exception whatever steps follow. */
  lemma {:induction false} RunStopsAtFirstFailure<T>(step: nat --> Result<T>, i: nat, n: nat)
    requires forall s: nat :: s < n ==> step.requires(s)
    requires i < n && RunAll(step, i).Ok? && step(i).Raise?
    ensures RunAll(step, n) == Raise(step(i).exc)
    decreases n
  {
    if n > i + 1 {
      RunStopsAtFirstFailure(step, i, n - 1);
    }
  }

  /** The run completes exactly when no step raises. */
  lemma {:induction false} RunOkIffNoStepRaises<T>(step: nat --> Result<T>, n: nat)
    requires forall s: nat :: s < n ==> step.requires(s)
    ensures RunAll(step, n).Ok? <==> forall s :: 0 <= s < n ==> step(s).Ok?
    decreases n
  {
    if n > 0 {
      RunOkIffNoStepRaises(step, n - 1);
    }
  }

  /** When the run raises, it raises the exception of its first step that raises. */
  lemma {:induction false} RunRaisesFirstFailure<T>(step: nat --> Result<T>, n: nat)
    requires forall s: nat :: s < n ==> step.requires(s)
    requires RunAll(step, n).Raise?
    ensures exists i :: 0 <= i < n && RunAll(step, i).Ok? && step(i).Raise? &&
                        RunAll(step, n).exc == step(i).exc
    decreases n
  {
    if RunAll(step, n - 1).Raise? {
      RunRaisesFirstFailure(step, n - 1);
      var i :| 0 <= i < n - 1 && RunAll(step, i).Ok? && step(i).Raise? &&
               RunAll(step, n - 1).exc == step(i).exc;
    } else {
      assert RunAll(step, n - 1).Ok? && step(n - 1).Raise?;
    }
  }
}
