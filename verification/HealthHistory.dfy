/** The health counters and status summarise the whole history of probe outcomes. */
module HealthHistory {
  import opened Outcome
  import opened Model
  import opened Keyspace
  import opened HealthRules
  import opened Services
  import Store

  type History = seq<(bool, Time)>

  function FailureLimit(p: Policy): int {
    Max(p.failureThreshold, 1)
  }

  function SuccessLimit(p: Policy): int {
    Max(p.successThreshold, 1)
  }

  function DeleteLimit(p: Policy): int {
    Max(p.deleteThreshold, FailureLimit(p) + 1)
  }

  /** The record after some probes, and whether one of them deleted it; nothing happens after that. */
  function After(i: Instance, h: History, p: Policy): (Instance, bool) {
    if h == [] then (i, false)
    else
      var (prev, gone) := After(i, h[..|h| - 1], p);
      if gone then (prev, true)
      else ApplyProbe(prev, h[|h| - 1].0, h[|h| - 1].1, p)
  }

  // ------------------------------------------------------ reading the history alone

  /** The length of the run of equal outcomes at the end of the history. */
  function Trailing(h: History, success: bool): nat {
    if h == [] || h[|h| - 1].0 != success then 0 else 1 + Trailing(h[..|h| - 1], success)
  }

  /** At position `at` the preceding `n` outcomes were all `success`. */
  ghost predicate RunEndsAt(h: History, at: int, n: int, success: bool) {
    n <= at <= |h| && forall j {:trigger h[j]} :: at - n <= j < at && 0 <= j ==> h[j].0 == success
  }

  /** The latest run to reach its threshold was a failing one. */
  ghost predicate FailingRunIsLatest(h: History, p: Policy) {
    exists at ::
      && RunEndsAt(h, at, FailureLimit(p), false)
      && forall later :: at < later <= |h| ==> !RunEndsAt(h, later, SuccessLimit(p), true)
  }

  lemma {:induction false} TrailingIsTheLongestRun(h: History, success: bool, n: int)
    requires n >= 0
    ensures n <= Trailing(h, success) <==> RunEndsAt(h, |h|, n, success)
  {
    if n > 0 && h != [] {
      var front := h[..|h| - 1];
      TrailingIsTheLongestRun(front, success, n - 1);
      if h[|h| - 1].0 == success {
        assert RunEndsAt(h, |h|, n, success) <==> RunEndsAt(front, |front|, n - 1, success) by {
          assert forall j :: 0 <= j < |front| ==> front[j] == h[j];
        }
      }
    }
  }

  lemma RunsInAPrefix(h: History, x: (bool, Time), at: int, n: int, success: bool)
    requires at <= |h|
    ensures RunEndsAt(h + [x], at, n, success) <==> RunEndsAt(h, at, n, success)
  {
    assert forall j :: 0 <= j < |h| ==> (h + [x])[j] == h[j];
  }

  /** How one more outcome changes which run is the latest. */
  lemma LatestRunAfter(h: History, x: (bool, Time), p: Policy)
    ensures FailingRunIsLatest(h + [x], p) <==>
            if !x.0 && Trailing(h + [x], false) >= FailureLimit(p) then true
            else if x.0 && Trailing(h + [x], true) >= SuccessLimit(p) then false
            else FailingRunIsLatest(h, p)
  {
    var g := h + [x];
    var f, s := FailureLimit(p), SuccessLimit(p);
    TrailingIsTheLongestRun(g, false, f);
    TrailingIsTheLongestRun(g, true, s);
    assert x.0 ==> !RunEndsAt(g, |g|, f, false) by {
      assert g[|h|] == x;
    }
    assert !x.0 ==> !RunEndsAt(g, |g|, s, true) by {
      assert g[|h|] == x;
    }
    if FailingRunIsLatest(h, p) && !RunEndsAt(g, |g|, s, true) {
      var at :| RunEndsAt(h, at, f, false) && forall later :: at < later <= |h| ==> !RunEndsAt(h, later, s, true);
      RunsInAPrefix(h, x, at, f, false);
      forall later | at < later <= |g|
        ensures !RunEndsAt(g, later, s, true)
      {
        if later <= |h| {
          RunsInAPrefix(h, x, later, s, true);
        }
      }
    }
    if FailingRunIsLatest(g, p) && !RunEndsAt(g, |g|, f, false) {
      var at :| RunEndsAt(g, at, f, false) && forall later :: at < later <= |g| ==> !RunEndsAt(g, later, s, true);
      RunsInAPrefix(h, x, at, f, false);
      forall later | at < later <= |h|
        ensures !RunEndsAt(h, later, s, true)
      {
        RunsInAPrefix(h, x, later, s, true);
      }
    }
  }

  // --------------------------------------------------------------- the summary

  predicate Newborn(i: Instance) {
    i.status.Health? && i.failures == 0 && i.successes == 0
  }

  /** A history during which the trailing failures stayed below the delete limit throughout. */
  ghost predicate Survives(h: History, p: Policy) {
    forall n :: 0 <= n <= |h| ==> Trailing(h[..n], false) < DeleteLimit(p)
  }

  /**
   * The counters are the trailing run lengths, the status tells which threshold was reached last,
   * and the record is deleted exactly when the trailing failures first reach the delete limit.
   */
  lemma {:induction false} CountersSummariseHistory(i: Instance, h: History, p: Policy)
    requires Newborn(i)
    ensures After(i, h, p).1 <==> !Survives(h, p)
    ensures var (r, gone) := After(i, h, p);
            !gone ==>
              && r.failures == Trailing(h, false)
              && r.successes == Trailing(h, true)
              && r.status.Valid()
              && (r.status.Unhealth? <==> FailingRunIsLatest(h, p))
  {
    if h == [] {
      assert forall at :: !RunEndsAt(h, at, FailureLimit(p), false);
    } else {
      var front, x := h[..|h| - 1], h[|h| - 1];
      CountersSummariseHistory(i, front, p);
      assert h == front + [x];
      LatestRunAfter(front, x, p);
      SurvivalOfOneMore(front, x, p);
      hide FailingRunIsLatest, Survives;
    }
  }

  lemma SurvivalOfOneMore(h: History, x: (bool, Time), p: Policy)
    ensures Survives(h + [x], p) <==> Survives(h, p) && Trailing(h + [x], false) < DeleteLimit(p)
  {
    var g := h + [x];
    assert forall n :: 0 <= n <= |h| ==> g[..n] == h[..n];
    assert g[..|g|] == g;
    if Survives(h, p) && Trailing(g, false) < DeleteLimit(p) {
      forall n | 0 <= n <= |g|
        ensures Trailing(g[..n], false) < DeleteLimit(p)
      {
        if n <= |h| {
          assert g[..n] == h[..n];
        }
      }
    }
    if Survives(g, p) {
      forall n | 0 <= n <= |h|
        ensures Trailing(h[..n], false) < DeleteLimit(p)
      {
        assert g[..n] == h[..n];
      }
    }
  }

  /** The record stored just before the probe that deletes it is always unhealthy. */
  lemma DeletedFromUnhealth(i: Instance, h: History, x: (bool, Time), p: Policy)
    requires Newborn(i) && !After(i, h, p).1 && After(i, h + [x], p).1
    ensures Trailing(h + [x], false) == DeleteLimit(p)
    ensures After(i, h, p).0.status.Unhealth?
  {
    var g := h + [x];
    assert g[..|g| - 1] == h;
    CountersSummariseHistory(i, h, p);
    CountersSummariseHistory(i, g, p);
    SurvivalOfOneMore(h, x, p);
    assert Survives(h, p);
    assert h[..|h|] == h;
    assert Trailing(h, false) < DeleteLimit(p) <= Trailing(g, false) <= Trailing(h, false) + 1;
    TrailingIsTheLongestRun(h, false, FailureLimit(p));
    assert RunEndsAt(h, |h|, FailureLimit(p), false);
    assert FailingRunIsLatest(h, p);
  }

  // --------------------------------------------------- the same, in the store

  function Probes(ns: string, service: string, id: string, h: History, p: Policy): seq<Op> {
    seq(|h|, n requires 0 <= n < |h| => ProbeOp(ns, service, id, h[n].0, Some(p), h[n].1))
  }

  lemma ProbeStep(db: State, ns: string, service: string, id: string, x: (bool, Time), p: Policy)
    ensures var r := GetInstance(db, ns, service, id);
            var db' := Step(db, ProbeOp(ns, service, id, x.0, Some(p), x.1));
            if r.Err? || !r.value.check.IsProbe() then db' == db
            else
              var (next, drop) := ApplyProbe(r.value, x.0, x.1, p);
              if drop then GetInstance(db', ns, service, id) == Err(NotFound)
              else
                && GetInstance(db', ns, service, id).Ok?
                && Strip(GetInstance(db', ns, service, id).value) == Strip(next)
  {
    hide ApplyProbe;
  }

  lemma ProbingIgnoresStripped(i: Instance, j: Instance, x: (bool, Time), p: Policy)
    requires Strip(i) == Strip(j)
    ensures Strip(ApplyProbe(i, x.0, x.1, p).0) == Strip(ApplyProbe(j, x.0, x.1, p).0)
    ensures ApplyProbe(i, x.0, x.1, p).1 == ApplyProbe(j, x.0, x.1, p).1
    ensures ApplyProbe(i, x.0, x.1, p).0.check == i.check
    ensures i.check == j.check
  {
  }

  lemma {:induction false} RunOfAppend(db: State, ops: seq<Op>, op: Op)
    ensures Run(db, ops + [op]) == Step(Run(db, ops), op)
    decreases |ops|
  {
    if ops == [] {
      assert (ops + [op])[1..] == [];
    } else {
      assert (ops + [op])[1..] == ops[1..] + [op];
      RunOfAppend(Step(db, ops[0]), ops[1..], op);
    }
  }

  /** A run of probes on a stored instance leaves exactly the record its history describes, or none. */
  lemma {:induction false} StoredRecordFollowsHistory(db: State, ns: string, service: string, id: string, h: History, p: Policy)
    requires GetInstance(db, ns, service, id).Ok?
    requires GetInstance(db, ns, service, id).value.check.IsProbe()
    ensures var (r, gone) := After(GetInstance(db, ns, service, id).value, h, p);
            var stored := GetInstance(Run(db, Probes(ns, service, id, h, p)), ns, service, id);
            && r.check.IsProbe()
            && if gone then stored == Err(NotFound) else stored.Ok? && Strip(stored.value) == Strip(r)
  {
    if h == [] {
      assert Probes(ns, service, id, h, p) == [];
    } else {
      var front, x := h[..|h| - 1], h[|h| - 1];
      var op := ProbeOp(ns, service, id, x.0, Some(p), x.1);
      StoredRecordFollowsHistory(db, ns, service, id, front, p);
      assert Probes(ns, service, id, h, p) == Probes(ns, service, id, front, p) + [op];
      var before := Run(db, Probes(ns, service, id, front, p));
      RunOfAppend(db, Probes(ns, service, id, front, p), op);
      ProbeStep(before, ns, service, id, x, p);
      var (r, gone) := After(GetInstance(db, ns, service, id).value, front, p);
      hide GetInstance, Run, Step, ApplyProbe;
      if !gone {
        ProbingIgnoresStripped(GetInstance(before, ns, service, id).value, r, x, p);
      }
    }
  }
}
