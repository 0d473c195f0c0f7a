/** What holds of every state the services can reach from an empty store. */
module Reachable {
  import opened Outcome
  import opened Model
  import opened Keyspace
  import opened HealthRules
  import opened Services
  import opened Invariants
  import opened CapabilityIndex
  import opened Leases
  import Store

  ghost predicate Extends(later: State, db: State) {
    db.log <= later.log && db.revision <= later.revision
  }

  lemma RegistryStepsExtend(db: State, op: Op)
    requires op.RegisterOp? || op.UpdateOp? || op.HeartbeatOp? || op.DeregisterOp? || op.ProbeOp?
    ensures Extends(Step(db, op), db)
  {
    hide Registered, Instance.Valid, Services.CheckWrite, GetInstance, UpdatedInstance, ApplyProbe, InstanceKeyOf;
  }

  lemma NamespaceAndConfigStepsExtend(db: State, op: Op)
    requires op.CreateNamespaceOp? || op.UpdateAccessModeOp? || op.PutConfigOp? || op.DeleteConfigOp?
    ensures Extends(Step(db, op), db)
  {
    hide Namespace.Valid, ConfigItem.Valid, Services.CheckWrite, GetNamespace, ConfigKeyOf, StampedConfig, ValidName;
  }

  lemma {:induction false} EntryStepsExtend(db: State, ns: string, agent: string, caps: seq<string>, entry: Value)
    ensures Extends(DeleteEntries(db, ns, agent, caps), db)
    ensures Extends(PutEntries(db, ns, agent, caps, entry), db)
    decreases |caps|
  {
    if caps != [] {
      EntryStepsExtend(Store.Delete(db, CapabilityK(ns, caps[0], agent)).0, ns, agent, caps[1..], entry);
      EntryStepsExtend(Store.Put(db, CapabilityK(ns, caps[0], agent), entry, 0).0, ns, agent, caps[1..], entry);
    }
  }

  lemma ReindexingExtends(db: State, next: AgentCard, previous: Option<AgentCard>)
    ensures Extends(Reindexed(db, next, previous), db)
  {
    hide DeleteEntries, PutEntries;
    var db1 := db;
    if previous.Some? {
      var p := previous.value;
      EntryStepsExtend(db, p.namespace, p.agentID, p.capabilities, EntryOf(next));
      db1 := DeleteEntries(db, p.namespace, p.agentID, p.capabilities);
    }
    EntryStepsExtend(db1, next.namespace, next.agentID, next.capabilities, EntryOf(next));
  }

  lemma PutCardExtends(db: State, card: AgentCard, expected: int, now: Time, later: Time)
    ensures Extends(PutCard(db, card, expected, now, later).0, db)
  {
    hide AgentCard.Valid, Services.CheckWrite, PreparedCard, Reindexed;
    var prepared := PreparedCard(db, card, expected, now, later);
    if prepared.Ok? {
      var (next, previous) := prepared.value;
      ReindexingExtends(Store.Write(db, CardK(card.namespace, card.agentID), CardV(next), 0), next, previous);
    }
  }

  /** Every run of service operations only adds events, so any earlier state's log is a prefix of any later one's. */
  lemma {:induction false} RunsExtend(db: State, ops: seq<Op>)
    ensures Extends(Run(db, ops), db)
    decreases |ops|
  {
    hide Step;
    if ops != [] {
      StepExtends(db, ops[0]);
      RunsExtend(Step(db, ops[0]), ops[1..]);
    }
  }

  lemma StepExtends(db: State, op: Op)
    ensures Extends(Step(db, op), db)
  {
    hide Extends;
    if op.PutCardOp? {
      PutCardExtends(db, op.card, op.expected, op.now, op.later);
    } else if op.RegisterOp? || op.UpdateOp? || op.HeartbeatOp? || op.DeregisterOp? || op.ProbeOp? {
      RegistryStepsExtend(db, op);
    } else {
      NamespaceAndConfigStepsExtend(db, op);
    }
  }

  /**
   * In every reachable state the records are valid and at their own keys, the capability index
   * agrees with the cards, and, if no probed instance brought a lease, leases are owned one to one.
   */
  lemma ReachableStates(ops: seq<Op>)
    ensures var db := Run(Start(), ops);
            && WellPlaced(db) && IndexAgrees(db)
            && ((forall op :: op in ops ==> BringsNoLease(op)) ==> LeasesOwned(db))
  {
    hide WellPlaced, IndexAgrees, LeasesOwned;
    StartIsPlaced();
    StartAgrees();
    StartOwnsLeases();
    RunsStayPlaced(Start(), ops);
    RunsKeepAgreement(Start(), ops);
    if forall op :: op in ops ==> BringsNoLease(op) {
      RunsKeepLeases(Start(), ops);
    }
  }
}
