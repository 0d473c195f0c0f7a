/** The capability index agrees with the stored agent cards after every run of service operations. */
module CapabilityIndex {
  import opened Outcome
  import opened Model
  import opened Keyspace
  import opened HealthRules
  import opened Services
  import opened Invariants
  import Store

  function CardAt(db: State, ns: string, agent: string): Option<AgentCard> {
    var k := CardK(ns, agent);
    if k in db.data && db.data[k].value.CardV? then Some(db.data[k].value.card) else None
  }

  /** There is one entry for the triple iff the stored card lists the capability, and it names the card's service. */
  ghost predicate IndexedAt(db: State, ns: string, capability: string, agent: string) {
    var k := CapabilityK(ns, capability, agent);
    match CardAt(db, ns, agent)
    case None => k !in db.data
    case Some(c) =>
      && (k in db.data <==> capability in c.capabilities)
      && (k in db.data ==> db.data[k].value == EntryOf(c))
  }

  ghost predicate IndexAgrees(db: State) {
    forall ns, capability, agent :: IndexedAt(db, ns, capability, agent)
  }

  // ------------------------------------------------- what one operation can change

  predicate Same(db: State, db': State, k: Key) {
    (k in db.data <==> k in db'.data) && (k in db.data ==> db.data[k] == db'.data[k])
  }

  /** The one key an operation other than a card put can change. */
  function Target(op: Op): Key
    requires !op.PutCardOp?
  {
    match op
    case CreateNamespaceOp(name, _) => NamespaceK(name)
    case UpdateAccessModeOp(name, _, _, _) => NamespaceK(name)
    case RegisterOp(instance, serial, _) => InstanceKeyOf(Registered(instance, serial))
    case UpdateOp(update, _) => InstanceK(update.namespace, update.service, update.instanceID)
    case HeartbeatOp(ns, service, id, _) => InstanceK(ns, service, id)
    case DeregisterOp(ns, service, id) => InstanceK(ns, service, id)
    case ProbeOp(ns, service, id, _, _, _) => InstanceK(ns, service, id)
    case PutConfigOp(item, _, _) => ConfigKeyOf(item.scope, item.namespace, item.service, item.key)
    case DeleteConfigOp(scope, ns, service, key, _) => ConfigKeyOf(scope, ns, service, key)
  }

  lemma RegisterChangesItsTarget(db: State, input: Instance, serial: nat, now: Time, k: Key)
    requires k != InstanceKeyOf(Registered(input, serial))
    ensures Same(db, Register(db, input, serial, now).0, k)
  {
    hide Normalize, Instance.Valid, Registered, CheckWrite;
  }

  lemma UpdateChangesItsTarget(db: State, update: UpdateInput, now: Time, k: Key)
    requires k != InstanceK(update.namespace, update.service, update.instanceID)
    ensures Same(db, Update(db, update, now).0, k)
  {
    hide UpdatedInstance, Instance.Valid, CheckWrite, GetInstance;
  }

  lemma HealthStepsChangeTheirTarget(db: State, ns: string, service: string, id: string,
                                     success: bool, override: Option<Policy>, now: Time, k: Key)
    requires k != InstanceK(ns, service, id)
    ensures Same(db, Services.Heartbeat(db, ns, service, id, now).0, k)
    ensures Same(db, Deregister(db, ns, service, id).0, k)
    ensures Same(db, Probe(db, ns, service, id, success, override, now).0, k)
  {
    hide CheckWrite, GetInstance, ApplyProbe;
  }

  lemma CreateNamespaceChangesItsTarget(db: State, name: string, now: Time, k: Key)
    requires k != NamespaceK(name)
    ensures Same(db, CreateNamespace(db, name, now).0, k)
  {
    hide Namespace.Valid;
  }

  lemma NamespaceHasItsName(db: State, name: string)
    requires WellPlaced(db) && GetNamespace(db, name).Ok?
    ensures GetNamespace(db, name).value.name == name
  {
    hide Store.Sound;
    assert Placed(NamespaceK(name), db.data[NamespaceK(name)].value);
  }

  lemma UpdateAccessModeChangesItsTarget(db: State, name: string, mode: AccessMode, expected: int, now: Time, k: Key)
    requires WellPlaced(db) && k != NamespaceK(name)
    ensures Same(db, UpdateAccessMode(db, name, mode, expected, now).0, k)
  {
    hide WellPlaced, Namespace.Valid, GetNamespace, ValidName;
    if GetNamespace(db, name).Ok? {
      NamespaceHasItsName(db, name);
    }
  }

  lemma ConfigStepsChangeTheirTarget(db: State, item: ConfigItem, scope: Scope, ns: string, service: string, key: string,
                                     expected: int, now: Time, k: Key)
    ensures k != ConfigKeyOf(item.scope, item.namespace, item.service, item.key) ==>
              Same(db, PutConfig(db, item, expected, now).0, k)
    ensures k != ConfigKeyOf(scope, ns, service, key) ==>
              Same(db, DeleteConfig(db, scope, ns, service, key, expected).0, k)
  {
    hide ConfigItem.Valid, CheckWrite, ConfigKeyOf;
  }

  lemma OnlyTheTargetChanges(db: State, op: Op, k: Key)
    requires WellPlaced(db) && !op.PutCardOp? && k != Target(op)
    ensures Same(db, Step(db, op), k)
  {
    hide WellPlaced, Same;
    var noItem := ConfigItem("", "", GlobalScope, "", "", StringValue, true, 0, 0, 0);
    match op
    case CreateNamespaceOp(name, now) => CreateNamespaceChangesItsTarget(db, name, now, k);
    case UpdateAccessModeOp(name, mode, expected, now) => UpdateAccessModeChangesItsTarget(db, name, mode, expected, now, k);
    case RegisterOp(instance, serial, now) => RegisterChangesItsTarget(db, instance, serial, now, k);
    case UpdateOp(update, now) => UpdateChangesItsTarget(db, update, now, k);
    case HeartbeatOp(ns, service, id, now) =>
      HealthStepsChangeTheirTarget(db, ns, service, id, true, None, now, k);
    case DeregisterOp(ns, service, id) => HealthStepsChangeTheirTarget(db, ns, service, id, true, None, 0, k);
    case ProbeOp(ns, service, id, success, override, now) =>
      HealthStepsChangeTheirTarget(db, ns, service, id, success, override, now, k);
    case PutConfigOp(item, expected, now) =>
      ConfigStepsChangeTheirTarget(db, item, GlobalScope, "", "", "", expected, now, k);
    case DeleteConfigOp(scope, ns, service, key, expected) =>
      ConfigStepsChangeTheirTarget(db, noItem, scope, ns, service, key, expected, 0, k);
  }

  lemma {:induction false} DeletedEntries(db: State, ns: string, agent: string, caps: seq<string>, k: Key)
    ensures var db' := DeleteEntries(db, ns, agent, caps);
            if k.CapabilityK? && k.ns == ns && k.agent == agent && k.capability in caps
            then k !in db'.data else Same(db, db', k)
    decreases |caps|
  {
    if caps != [] {
      assert caps == [caps[0]] + caps[1..];
      DeletedEntries(Store.Delete(db, CapabilityK(ns, caps[0], agent)).0, ns, agent, caps[1..], k);
    }
  }

  lemma {:induction false} WrittenEntries(db: State, ns: string, agent: string, caps: seq<string>, entry: Value, k: Key)
    ensures var db' := PutEntries(db, ns, agent, caps, entry);
            if k.CapabilityK? && k.ns == ns && k.agent == agent && k.capability in caps
            then k in db'.data && db'.data[k].value == entry else Same(db, db', k)
    decreases |caps|
  {
    if caps != [] {
      assert caps == [caps[0]] + caps[1..];
      WrittenEntries(Store.Put(db, CapabilityK(ns, caps[0], agent), entry, 0).0, ns, agent, caps[1..], entry, k);
    }
  }

  /** The entries after re-indexing, wherever the card itself came from. */
  lemma ReindexedEntries(db: State, next: AgentCard, previous: Option<AgentCard>, k: Key)
    requires previous.Some? ==> previous.value.namespace == next.namespace && previous.value.agentID == next.agentID
    ensures var db' := Reindexed(db, next, previous);
            if k.CapabilityK? && k.ns == next.namespace && k.agent == next.agentID then
              if k.capability in next.capabilities then k in db'.data && db'.data[k].value == EntryOf(next)
              else if previous.Some? && k.capability in previous.value.capabilities then k !in db'.data
              else Same(db, db', k)
            else Same(db, db', k)
  {
    var db1 := db;
    if previous.Some? {
      var p := previous.value;
      DeletedEntries(db, p.namespace, p.agentID, p.capabilities, k);
      db1 := DeleteEntries(db, p.namespace, p.agentID, p.capabilities);
    }
    WrittenEntries(db1, next.namespace, next.agentID, next.capabilities, EntryOf(next), k);
  }

  // ------------------------------------------------------------ agreement

  lemma OtherStepsKeepAgreement(db: State, op: Op)
    requires WellPlaced(db) && IndexAgrees(db) && !op.PutCardOp?
    ensures IndexAgrees(Step(db, op))
  {
    hide WellPlaced, Step;
    forall ns, capability, agent
      ensures IndexedAt(Step(db, op), ns, capability, agent)
    {
      assert IndexedAt(db, ns, capability, agent);
      OnlyTheTargetChanges(db, op, CapabilityK(ns, capability, agent));
      OnlyTheTargetChanges(db, op, CardK(ns, agent));
    }
  }

  /** A successful card put read exactly the card it replaced, or created one where there was none. */
  lemma PutCardReplacesWhatItRead(db: State, card: AgentCard, expected: int, now: Time, later: Time)
    requires WellPlaced(db) && PutCard(db, card, expected, now, later).1.Ok?
    ensures PreparedCard(db, card, expected, now, later).Ok?
    ensures var (next, previous) := PreparedCard(db, card, expected, now, later).value;
            && next.namespace == card.namespace && next.agentID == card.agentID
            && next.capabilities == card.capabilities && next.service == card.service
            && (previous.None? <==> CardK(card.namespace, card.agentID) !in db.data)
            && (previous.Some? ==>
                  && CardAt(db, card.namespace, card.agentID).Some?
                  && var stored := CardAt(db, card.namespace, card.agentID).value;
                     && previous.value == stored.(revision := previous.value.revision)
                     && stored.namespace == card.namespace && stored.agentID == card.agentID)
            && PutCard(db, card, expected, now, later).0 ==
               Reindexed(Store.Write(db, CardK(card.namespace, card.agentID), CardV(next), 0), next, previous)
  {
    hide AgentCard.Valid, CheckWrite, Reindexed;
    var k := CardK(card.namespace, card.agentID);
    if k in db.data {
      assert Placed(k, db.data[k].value);
      assert Store.Sound(db) && db.data[k].revision > 0;
    }
  }

  lemma PutCardKeepsAgreement(db: State, card: AgentCard, expected: int, now: Time, later: Time)
    requires WellPlaced(db) && IndexAgrees(db)
    ensures IndexAgrees(PutCard(db, card, expected, now, later).0)
  {
    var (db', r) := PutCard(db, card, expected, now, later);
    if r.Ok? {
      PutCardReplacesWhatItRead(db, card, expected, now, later);
      var (next, previous) := PreparedCard(db, card, expected, now, later).value;
      var key := CardK(card.namespace, card.agentID);
      var db1 := Store.Write(db, key, CardV(next), 0);
      hide WellPlaced, PutCard, PreparedCard, Reindexed;
      forall ns, capability, agent
        ensures IndexedAt(db', ns, capability, agent)
      {
        assert IndexedAt(db, ns, capability, agent);
        ReindexedEntries(db1, next, previous, CapabilityK(ns, capability, agent));
        ReindexedEntries(db1, next, previous, CardK(ns, agent));
      }
    } else {
      PutCardFailureChangesNothing(db, card, expected, now, later);
    }
  }

  lemma PutCardFailureChangesNothing(db: State, card: AgentCard, expected: int, now: Time, later: Time)
    requires PutCard(db, card, expected, now, later).1.Err?
    ensures PutCard(db, card, expected, now, later).0 == db
  {
    hide AgentCard.Valid, CheckWrite, Reindexed, PreparedCard;
  }

  /**
   * After any run of service operations there is exactly one entry per namespace, capability and
   * agent such that the stored card lists the capability, and it names the card's agent and service.
   */
  lemma {:induction false} RunsKeepAgreement(db: State, ops: seq<Op>)
    requires WellPlaced(db) && IndexAgrees(db)
    ensures IndexAgrees(Run(db, ops))
    decreases |ops|
  {
    if ops != [] {
      hide WellPlaced, IndexAgrees, PutCard;
      StepStaysPlaced(db, ops[0]);
      if ops[0].PutCardOp? {
        PutCardKeepsAgreement(db, ops[0].card, ops[0].expected, ops[0].now, ops[0].later);
      } else {
        OtherStepsKeepAgreement(db, ops[0]);
      }
      RunsKeepAgreement(Step(db, ops[0]), ops[1..]);
    }
  }

  lemma StartAgrees()
    ensures IndexAgrees(Start())
  {
  }
}
