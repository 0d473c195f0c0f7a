/** The probe-driven health state machine. */
module HealthRules {
  import opened Model

  datatype Policy = Policy(failureThreshold: int, successThreshold: int, deleteThreshold: int)

  const DEFAULT_POLICY := Policy(3, 2, 5)

  function Max(left: int, right: int): int {
    if left > right then left else right
  }

  /** The manager works on a copy of the record and also says whether to delete it. */
  function ApplyProbe(i: Instance, success: bool, now: Time, policy: Policy): (Instance, bool) {
    if success then
      var next := i.(successes := i.successes + 1, failures := 0, lastProbeAt := now, updatedAt := now);
      if next.status.Unhealth? && next.successes >= Max(policy.successThreshold, 1)
      then (next.(status := Health, statusUpdatedAt := now), false)
      else (next, false)
    else
      var next := i.(failures := i.failures + 1, successes := 0, lastProbeAt := now, updatedAt := now);
      var marked :=
        if next.status.Health? && next.failures >= Max(policy.failureThreshold, 1)
        then next.(status := Unhealth, statusUpdatedAt := now) else next;
      (marked, next.failures >= Max(policy.deleteThreshold, Max(policy.failureThreshold, 1) + 1))
  }

  method ApplyProbeResult(instance: Instance, success: bool, now: Time, policy: Policy)
    returns (next: Instance, drop: bool)
    ensures (next, drop) == ApplyProbe(instance, success, now, policy)
  {
    next := instance;
    if success {
      next := next.(successes := next.successes + 1);
      next := next.(failures := 0);
      next := next.(lastProbeAt := now);
      next := next.(updatedAt := now);
      if next.status.Unhealth? && next.successes >= Max(policy.successThreshold, 1) {
        next := next.(status := Health);
        next := next.(statusUpdatedAt := now);
      }
      return next, false;
    }
    next := next.(failures := next.failures + 1);
    next := next.(successes := 0);
    next := next.(lastProbeAt := now);
    next := next.(updatedAt := now);
    if next.status.Health? && next.failures >= Max(policy.failureThreshold, 1) {
      next := next.(status := Unhealth);
      next := next.(statusUpdatedAt := now);
    }
    drop := next.failures >= Max(policy.deleteThreshold, Max(policy.failureThreshold, 1) + 1);
  }
}
