/** What every run of the service operations keeps true of the stored records. */
module Invariants {
  import opened Outcome
  import opened Model
  import opened Keyspace
  import opened HealthRules
  import opened Services
  import Store

  // ------------------------------------------- every record at its own key

  /**
   * The document's own identity fields name its key, it is valid, and an instance is a
   * fixed point of normalization.
   */
  ghost predicate Placed(k: Key, v: Value) {
    match v
    case NamespaceV(n) => k == NamespaceK(n.name) && n.Valid()
    case InstanceV(i) => k == InstanceKeyOf(i) && i.Valid() && i.instanceID != "" && Normalize(i) == i
    case ConfigV(c) => k == ConfigKeyOf(c.scope, c.namespace, c.service, c.key) && c.Valid()
    case CardV(c) => k == CardK(c.namespace, c.agentID) && c.Valid()
    case EntryV(e) => k.CapabilityK? && ValidKey(k) && k.agent == e.agentID && ValidName(e.service)
  }

  lemma PlacedKeysAreValid(k: Key, v: Value)
    requires Placed(k, v)
    ensures ValidKey(k)
  {
  }

  ghost predicate WellPlaced(db: State) {
    && Store.Sound(db)
    && (forall k :: k in db.data ==> Placed(k, db.data[k].value))
    && (forall i :: 0 <= i < |db.log| ==> Placed(db.log[i].key, db.log[i].value))
  }

  lemma WriteStaysPlaced(db: State, k: Key, v: Value, lease: int)
    requires WellPlaced(db) && Placed(k, v)
    ensures WellPlaced(Store.Write(db, k, v, lease))
  {
    hide Store.Sound, Placed;
    Store.WriteIsSound(db, k, v, lease);
  }

  lemma RemoveStaysPlaced(db: State, k: Key)
    requires WellPlaced(db)
    ensures WellPlaced(Store.Delete(db, k).0)
  {
    hide Store.Sound, Placed;
    if k in db.data {
      Store.RemoveIsSound(db, k);
    }
  }

  lemma LeaseStepsStayPlaced(db: State, lease: int)
    requires WellPlaced(db)
    ensures WellPlaced(Store.Grant(db).0) && WellPlaced(Store.Revoke(db, lease))
  {
    hide Store.Sound, Placed;
    Store.LeasesAreNotLogged(db, lease);
  }

  lemma RevisionsArePositive(db: State, k: Key)
    requires WellPlaced(db) && k in db.data
    ensures db.data[k].revision > 0
  {
    hide Placed, Store.Cells, Store.Replay, Store.Ordered;
  }

  /** Attaching the stored revision and lease disturbs neither validity nor normal form. */
  lemma AttachedFieldsDoNotMatter(i: Instance, revision: int, lease: int)
    ensures i.(revision := revision, leaseID := lease).Valid() == i.Valid()
    ensures Normalize(i.(revision := revision, leaseID := lease)) ==
            Normalize(i).(revision := revision, leaseID := lease)
  {
  }

  /** What a reader of a stored instance gets. */
  lemma StoredInstance(db: State, ns: string, service: string, id: string)
    requires WellPlaced(db) && InstanceK(ns, service, id) in db.data
    ensures db.data[InstanceK(ns, service, id)].value.InstanceV?
    ensures var i := GetInstance(db, ns, service, id);
            && i.Ok? && InstanceKeyOf(i.value) == InstanceK(ns, service, id) && i.value.instanceID != ""
            && i.value.Valid() && Normalize(i.value) == i.value
            && ValidName(ns)
  {
    var r := db.data[InstanceK(ns, service, id)];
    assert Placed(InstanceK(ns, service, id), r.value);
    AttachedFieldsDoNotMatter(r.value.instance, r.revision, r.lease);
  }

  lemma FoundInstance(db: State, ns: string, service: string, id: string)
    requires WellPlaced(db) && GetInstance(db, ns, service, id).Ok?
    ensures var i := GetInstance(db, ns, service, id).value;
            && InstanceKeyOf(i) == InstanceK(ns, service, id) && i.instanceID != ""
            && i.Valid() && i.status.Valid() && Normalize(i) == i
  {
    hide WellPlaced, Normalize, ValidName;
    StoredInstance(db, ns, service, id);
  }

  lemma RegisteredIsPlaced(db: State, input: Instance, serial: nat, now: Time)
    requires Registered(input, serial).Valid()
    ensures var i := Leased(db, Registered(input, serial), now).1; Placed(InstanceKeyOf(i), InstanceV(i))
  {
    NormalizeIsIdempotent(input);
    assert |NewInstanceID(Normalize(input).service, serial)| > 0;
    hide NewInstanceID, ValidName, ValidInstanceID, ValidAddress, ValidMetadata;
    assert Normalize(Registered(input, serial)) == Registered(input, serial);
  }

  lemma RegisterStaysPlaced(db: State, input: Instance, serial: nat, now: Time)
    requires WellPlaced(db)
    ensures WellPlaced(Register(db, input, serial, now).0)
  {
    hide Placed, WellPlaced, Normalize, Registered, Stamped, Instance.Valid;
    var i := Registered(input, serial);
    if i.Valid() && CheckWrite(db, i.namespace).Ok? {
      RegisteredIsPlaced(db, input, serial, now);
      LeaseStepsStayPlaced(db, 0);
      var (db1, leased) := Leased(db, i, now);
      WriteStaysPlaced(db1, InstanceKeyOf(leased), InstanceV(leased), leased.leaseID);
    }
  }

  lemma UpdatedIsPlaced(i: Instance, input: UpdateInput, now: Time)
    requires i.instanceID != "" && UpdatedInstance(i, input, now).Valid()
    ensures Placed(InstanceKeyOf(i), InstanceV(UpdatedInstance(i, input, now)))
  {
    NormalizeIsIdempotent(i.(
      weight := if input.weight.Some? then input.weight.value else i.weight,
      metadata := if input.metadata.Some? then input.metadata else i.metadata,
      version := if input.version.Some? then input.version.value else i.version,
      updatedAt := now));
  }

  lemma UpdateStaysPlaced(db: State, input: UpdateInput, now: Time)
    requires WellPlaced(db)
    ensures WellPlaced(Update(db, input, now).0)
  {
    hide Placed, WellPlaced, UpdatedInstance, Normalize, Instance.Valid, CheckWrite, GetInstance, Store.Write;
    var found := GetInstance(db, input.namespace, input.service, input.instanceID);
    if found.Ok? {
      FoundInstance(db, input.namespace, input.service, input.instanceID);
      var next := UpdatedInstance(found.value, input, now);
      if next.Valid() {
        UpdatedIsPlaced(found.value, input, now);
        WriteStaysPlaced(db, InstanceKeyOf(found.value), InstanceV(next), next.leaseID);
      }
    }
  }

  /** Timestamps, counters and a supported status are outside what placement looks at. */
  lemma RuntimeFieldsDoNotMatter(i: Instance, j: Instance)
    requires i.Valid() && Normalize(i) == i && i.instanceID != ""
    requires j == i.(status := j.status, failures := j.failures, successes := j.successes,
                     lastHeartbeatAt := j.lastHeartbeatAt, lastProbeAt := j.lastProbeAt,
                     updatedAt := j.updatedAt, statusUpdatedAt := j.statusUpdatedAt)
    requires j.status.Valid()
    ensures Placed(InstanceKeyOf(i), InstanceV(j))
  {
  }

  lemma HeartbeatStaysPlaced(db: State, ns: string, service: string, id: string, now: Time)
    requires WellPlaced(db)
    ensures WellPlaced(Services.Heartbeat(db, ns, service, id, now).0)
  {
    hide Placed, WellPlaced, Normalize, Instance.Valid, CheckWrite, GetInstance, Store.Write;
    var k := InstanceK(ns, service, id);
    if GetInstance(db, ns, service, id).Ok? {
      FoundInstance(db, ns, service, id);
      var i := GetInstance(db, ns, service, id).value;
      var beat := i.(lastHeartbeatAt := now, updatedAt := now, status := Health, statusUpdatedAt := now);
      RuntimeFieldsDoNotMatter(i, beat);
      WriteStaysPlaced(db, k, InstanceV(beat), beat.leaseID);
    }
  }

  lemma DeregisterStaysPlaced(db: State, ns: string, service: string, id: string)
    requires WellPlaced(db)
    ensures WellPlaced(Deregister(db, ns, service, id).0)
  {
    hide Placed, WellPlaced;
    var i := GetInstance(db, ns, service, id);
    if i.Ok? {
      LeaseStepsStayPlaced(db, i.value.leaseID);
      RemoveStaysPlaced(if i.value.leaseID != 0 then Store.Revoke(db, i.value.leaseID) else db, InstanceK(ns, service, id));
    }
  }

  lemma ProbeStaysPlaced(db: State, ns: string, service: string, id: string, success: bool, override: Option<Policy>, now: Time)
    requires WellPlaced(db)
    ensures WellPlaced(Probe(db, ns, service, id, success, override, now).0)
  {
    hide Placed, WellPlaced, Normalize, Instance.Valid, GetInstance, Store.Write;
    var k := InstanceK(ns, service, id);
    if GetInstance(db, ns, service, id).Ok? {
      FoundInstance(db, ns, service, id);
      var i := GetInstance(db, ns, service, id).value;
      var policy := if override.Some? then override.value else DEFAULT_POLICY;
      var next := ApplyProbe(i, success, now, policy).0;
      RuntimeFieldsDoNotMatter(i, next);
      hide ApplyProbe;
      RemoveStaysPlaced(db, k);
      WriteStaysPlaced(db, k, InstanceV(next), 0);
    }
  }

  lemma NamespaceStepsStayPlaced(db: State, name: string, mode: AccessMode, expected: int, now: Time)
    requires WellPlaced(db)
    ensures WellPlaced(CreateNamespace(db, name, now).0)
    ensures WellPlaced(UpdateAccessMode(db, name, mode, expected, now).0)
  {
    var n := Namespace(name, ReadWrite, now, now, 0);
    if n.Valid() {
      WriteStaysPlaced(db, NamespaceK(name), NamespaceV(n), 0);
    }
    if ValidName(name) && GetNamespace(db, name).Ok? {
      var r := db.data[NamespaceK(name)];
      assert Placed(NamespaceK(name), r.value);
      var changed := ChangedNamespace(GetNamespace(db, name).value, mode, now);
      if changed.Valid() {
        WriteStaysPlaced(db, NamespaceK(name), NamespaceV(changed), 0);
      }
    }
  }

  lemma StampedConfigIsPlaced(item: ConfigItem, now: Time)
    requires item.Valid()
    ensures Placed(ConfigKeyOf(item.scope, item.namespace, item.service, item.key), ConfigV(StampedConfig(item, now)))
  {
  }

  lemma PutConfigStaysPlaced(db: State, item: ConfigItem, expected: int, now: Time)
    requires WellPlaced(db)
    ensures WellPlaced(PutConfig(db, item, expected, now).0)
  {
    hide Placed, WellPlaced, ConfigItem.Valid, StampedConfig, ConfigKeyOf, CheckWrite;
    if item.Valid() {
      StampedConfigIsPlaced(item, now);
      WriteStaysPlaced(db, ConfigKeyOf(item.scope, item.namespace, item.service, item.key),
                       ConfigV(StampedConfig(item, now)), 0);
    }
  }

  lemma DeleteConfigStaysPlaced(db: State, scope: Scope, ns: string, service: string, key: string, expected: int)
    requires WellPlaced(db)
    ensures WellPlaced(DeleteConfig(db, scope, ns, service, key, expected).0)
  {
    hide Placed, WellPlaced, ConfigKeyOf, CheckWrite;
    RemoveStaysPlaced(db, ConfigKeyOf(scope, ns, service, key));
  }

  lemma {:induction false} EntryStepsStayPlaced(db: State, ns: string, agent: string, caps: seq<string>, entry: Value)
    requires WellPlaced(db)
    ensures WellPlaced(DeleteEntries(db, ns, agent, caps))
    ensures (forall c :: c in caps ==> Placed(CapabilityK(ns, c, agent), entry)) ==>
            WellPlaced(PutEntries(db, ns, agent, caps, entry))
    decreases |caps|
  {
    if caps != [] {
      var k := CapabilityK(ns, caps[0], agent);
      RemoveStaysPlaced(db, k);
      EntryStepsStayPlaced(Store.Delete(db, k).0, ns, agent, caps[1..], entry);
      if forall c :: c in caps ==> Placed(CapabilityK(ns, c, agent), entry) {
        WriteStaysPlaced(db, k, entry, 0);
        EntryStepsStayPlaced(Store.Put(db, k, entry, 0).0, ns, agent, caps[1..], entry);
      }
    }
  }

  lemma PreparedCardIsPlaced(db: State, card: AgentCard, expected: int, now: Time, later: Time)
    requires card.Valid() && PreparedCard(db, card, expected, now, later).Ok?
    ensures var next := PreparedCard(db, card, expected, now, later).value.0;
            && next.namespace == card.namespace && next.agentID == card.agentID
            && next.capabilities == card.capabilities && next.service == card.service
            && Placed(CardK(card.namespace, card.agentID), CardV(next))
            && forall c :: c in next.capabilities ==> Placed(CapabilityK(card.namespace, c, card.agentID), EntryOf(next))
  {
    hide GetCard;
  }

  lemma ReindexedStaysPlaced(db: State, next: AgentCard, previous: Option<AgentCard>)
    requires WellPlaced(db)
    requires forall c :: c in next.capabilities ==> Placed(CapabilityK(next.namespace, c, next.agentID), EntryOf(next))
    ensures WellPlaced(Reindexed(db, next, previous))
  {
    hide Placed, WellPlaced, DeleteEntries, PutEntries;
    var db1 := db;
    if previous.Some? {
      var p := previous.value;
      EntryStepsStayPlaced(db, p.namespace, p.agentID, p.capabilities, EntryOf(next));
      db1 := DeleteEntries(db, p.namespace, p.agentID, p.capabilities);
    }
    EntryStepsStayPlaced(db1, next.namespace, next.agentID, next.capabilities, EntryOf(next));
  }

  lemma PutCardStaysPlaced(db: State, card: AgentCard, expected: int, now: Time, later: Time)
    requires WellPlaced(db)
    ensures WellPlaced(PutCard(db, card, expected, now, later).0)
  {
    hide Placed, WellPlaced, AgentCard.Valid, PreparedCard, CheckWrite, Reindexed;
    var prepared := PreparedCard(db, card, expected, now, later);
    if card.Valid() && prepared.Ok? {
      var (next, previous) := prepared.value;
      var key := CardK(card.namespace, card.agentID);
      PreparedCardIsPlaced(db, card, expected, now, later);
      WriteStaysPlaced(db, key, CardV(next), 0);
      ReindexedStaysPlaced(Store.Write(db, key, CardV(next), 0), next, previous);
    }
  }

  lemma StepStaysPlaced(db: State, op: Op)
    requires WellPlaced(db)
    ensures WellPlaced(Step(db, op))
  {
    hide WellPlaced;
    match op
    case CreateNamespaceOp(name, now) => NamespaceStepsStayPlaced(db, name, ReadWrite, 0, now);
    case UpdateAccessModeOp(name, mode, expected, now) => NamespaceStepsStayPlaced(db, name, mode, expected, now);
    case RegisterOp(instance, serial, now) => RegisterStaysPlaced(db, instance, serial, now);
    case UpdateOp(update, now) => UpdateStaysPlaced(db, update, now);
    case HeartbeatOp(ns, service, id, now) => HeartbeatStaysPlaced(db, ns, service, id, now);
    case DeregisterOp(ns, service, id) => DeregisterStaysPlaced(db, ns, service, id);
    case ProbeOp(ns, service, id, success, override, now) =>
      ProbeStaysPlaced(db, ns, service, id, success, override, now);
    case PutConfigOp(item, expected, now) => PutConfigStaysPlaced(db, item, expected, now);
    case DeleteConfigOp(scope, ns, service, key, expected) =>
      DeleteConfigStaysPlaced(db, scope, ns, service, key, expected);
    case PutCardOp(card, expected, now, later) => PutCardStaysPlaced(db, card, expected, now, later);
  }

  /** Every run of service operations leaves every record valid, in normal form and at its own key. */
  lemma {:induction false} RunsStayPlaced(db: State, ops: seq<Op>)
    requires WellPlaced(db)
    ensures WellPlaced(Run(db, ops))
    decreases |ops|
  {
    if ops != [] {
      StepStaysPlaced(db, ops[0]);
      RunsStayPlaced(Step(db, ops[0]), ops[1..]);
    }
  }

  lemma StartIsPlaced()
    ensures WellPlaced(Start())
  {
    Store.EmptyIsSound<Key>();
  }
}
