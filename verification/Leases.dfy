/** Heartbeat-mode instances own exactly one live lease each, so their heartbeats never fail. */
module Leases {
  import opened Outcome
  import opened Model
  import opened Keyspace
  import opened HealthRules
  import opened Services
  import opened Invariants
  import CapabilityIndex
  import Store

  /**
   * A registration in heartbeat mode replaces whatever lease id the caller supplied; one in a probe
   * mode keeps it. The other operations take none.
   */
  predicate BringsNoLease(op: Op) {
    op.RegisterOp? ==> op.instance.leaseID == 0 || Normalize(op.instance).check.Heartbeat?
  }

  ghost predicate LeaseAt(db: State, k: Key)
    requires k in db.data
  {
    var r := db.data[k];
    k.InstanceK? && r.value.InstanceV? ==>
      && (r.lease != 0 <==> r.value.instance.check.Heartbeat?)
      && (r.lease != 0 ==> r.lease in db.leases)
  }

  ghost predicate Holds(db: State, k: Key, lease: int) {
    lease != 0 && k.InstanceK? && k in db.data && db.data[k].value.InstanceV? && db.data[k].lease == lease
  }

  /**
   * A stored instance has a lease iff it is in heartbeat mode, that lease is live, no two
   * records share one, and lease ids are revisions already issued.
   */
  ghost predicate LeasesOwned(db: State) {
    && (forall k :: k in db.data ==> LeaseAt(db, k))
    && (forall k, k', l :: Holds(db, k, l) && Holds(db, k', l) ==> k == k')
    && (forall l :: l in db.leases ==> 0 < l <= db.revision)
  }

  /** Rewriting an instance with its own lease, or none for a probed one, keeps ownership. */
  lemma RewriteKeepsLeases(db: State, k: Key, v: Value, lease: int)
    requires LeasesOwned(db) && k in db.data && k.InstanceK? && v.InstanceV? && db.revision >= 0
    requires lease == db.data[k].lease
    requires db.data[k].value.InstanceV? && db.data[k].value.instance.check == v.instance.check
    ensures LeasesOwned(Store.Write(db, k, v, lease))
  {
    var db' := Store.Write(db, k, v, lease);
    assert LeaseAt(db, k);
    assert forall k', l :: Holds(db', k', l) <==> Holds(db, k', l);
    forall k' | k' in db'.data
      ensures LeaseAt(db', k')
    {
      assert k' in db.data && LeaseAt(db, k');
    }
  }

  lemma RemovalKeepsLeases(db: State, k: Key)
    requires LeasesOwned(db) && k in db.data && db.revision >= 0
    ensures LeasesOwned(Store.Remove(db, k))
  {
    var db' := Store.Remove(db, k);
    assert forall k', l :: Holds(db', k', l) ==> Holds(db, k', l);
    forall k' | k' in db'.data
      ensures LeaseAt(db', k')
    {
      assert LeaseAt(db, k');
    }
  }

  /** Revoking the lease of a record and removing the record touches no other owner. */
  lemma RevokeAndRemoveKeepsLeases(db: State, k: Key, lease: int)
    requires LeasesOwned(db) && k in db.data && k.InstanceK? && db.revision >= 0
    requires db.data[k].value.InstanceV? && lease == db.data[k].lease && lease != 0
    ensures LeasesOwned(Store.Remove(Store.Revoke(db, lease), k))
  {
    var db' := Store.Remove(Store.Revoke(db, lease), k);
    assert forall k', l :: Holds(db', k', l) ==> Holds(db, k', l);
    forall k' | k' in db'.data
      ensures LeaseAt(db', k')
    {
      assert LeaseAt(db, k');
      if k'.InstanceK? && db.data[k'].value.InstanceV? && db.data[k'].lease == lease {
        assert Holds(db, k', lease) && Holds(db, k, lease);
      }
    }
  }

  /** A record registered with a lease granted for it, or in a probe mode with none. */
  lemma RegistrationKeepsLeases(db: State, k: Key, v: Value, now: Time)
    requires LeasesOwned(db) && k !in db.data && k.InstanceK? && v.InstanceV? && db.revision >= 0
    ensures v.instance.check.Heartbeat? ==>
              LeasesOwned(Store.Write(Store.Grant(db).0, k, v, Store.Grant(db).1))
    ensures !v.instance.check.Heartbeat? ==> LeasesOwned(Store.Write(db, k, v, 0))
    ensures LeasesOwned(Store.Grant(db).0)
  {
    var granted, lease := Store.Grant(db).0, Store.Grant(db).1;
    assert lease !in db.leases;
    var db', db'' := Store.Write(granted, k, v, lease), Store.Write(db, k, v, 0);
    forall k' | k' in db.data
      ensures LeaseAt(db', k') && LeaseAt(granted, k') && LeaseAt(db'', k')
      ensures !Holds(db, k', lease)
    {
      assert LeaseAt(db, k');
    }
    assert forall k', l :: Holds(db', k', l) ==> Holds(db, k', l) || (k' == k && l == lease);
    assert forall k', l :: Holds(granted, k', l) ==> Holds(db, k', l);
    assert forall k', l :: Holds(db'', k', l) ==> Holds(db, k', l);
  }

  lemma OtherWritesKeepLeases(db: State, k: Key, v: Value, lease: int)
    requires LeasesOwned(db) && !k.InstanceK? && db.revision >= 0
    ensures LeasesOwned(Store.Write(db, k, v, lease))
    ensures k in db.data ==> LeasesOwned(Store.Remove(db, k))
  {
    var db' := Store.Write(db, k, v, lease);
    assert forall k', l :: Holds(db', k', l) <==> Holds(db, k', l);
    forall k' | k' in db'.data
      ensures LeaseAt(db', k')
    {
      assert k' in db.data ==> LeaseAt(db, k');
    }
    if k in db.data {
      RemovalKeepsLeases(db, k);
    }
  }

  // ------------------------------------------------------------- every operation

  lemma RegisterKeepsLeases(db: State, input: Instance, serial: nat, now: Time)
    requires LeasesOwned(db) && db.revision >= 0
    requires input.leaseID == 0 || Normalize(input).check.Heartbeat?
    ensures LeasesOwned(Register(db, input, serial, now).0)
  {
    var i := Registered(input, serial);
    assert i.leaseID == 0 || i.check.Heartbeat?;
    hide LeasesOwned, Instance.Valid, Registered, CheckWrite;
    var (db1, leased) := Leased(db, i, now);
    if InstanceKeyOf(leased) !in db.data {
      RegistrationKeepsLeases(db, InstanceKeyOf(leased), InstanceV(leased), now);
    } else {
      GrantKeepsLeases(db);
    }
  }

  lemma GrantKeepsLeases(db: State)
    requires LeasesOwned(db) && db.revision >= 0
    ensures LeasesOwned(Store.Grant(db).0)
  {
    var granted := Store.Grant(db).0;
    assert forall k, l :: Holds(granted, k, l) <==> Holds(db, k, l);
    forall k | k in db.data
      ensures LeaseAt(granted, k)
    {
      assert LeaseAt(db, k);
    }
  }

  /** What the record operations read: the stored instance with its own lease. */
  lemma ReadInstance(db: State, k: Key)
    requires WellPlaced(db) && k.InstanceK? && k in db.data
    ensures db.data[k].value.InstanceV? && db.revision >= 0
    ensures GetInstance(db, k.ns, k.service, k.id) ==
            Ok(db.data[k].value.instance.(revision := db.data[k].revision, leaseID := db.data[k].lease))
  {
    StoredInstance(db, k.ns, k.service, k.id);
  }

  lemma UpdateKeepsCheck(i: Instance, input: UpdateInput, now: Time)
    requires Normalize(i) == i
    ensures UpdatedInstance(i, input, now).check == i.check && UpdatedInstance(i, input, now).leaseID == i.leaseID
  {
  }

  lemma UpdateKeepsLeases(db: State, input: UpdateInput, now: Time)
    requires WellPlaced(db) && LeasesOwned(db)
    ensures LeasesOwned(Update(db, input, now).0)
  {
    hide WellPlaced, LeasesOwned, UpdatedInstance, Normalize, Instance.Valid, CheckWrite;
    var k := InstanceK(input.namespace, input.service, input.instanceID);
    if k in db.data {
      StoredInstance(db, input.namespace, input.service, input.instanceID);
      ReadInstance(db, k);
      var current := GetInstance(db, input.namespace, input.service, input.instanceID).value;
      var next := UpdatedInstance(current, input, now);
      UpdateKeepsCheck(current, input, now);
      RewriteKeepsLeases(db, k, InstanceV(next), next.leaseID);
    }
  }

  lemma HeartbeatKeepsLeases(db: State, ns: string, service: string, id: string, now: Time)
    requires WellPlaced(db) && LeasesOwned(db)
    ensures LeasesOwned(Services.Heartbeat(db, ns, service, id, now).0)
  {
    hide WellPlaced, LeasesOwned, CheckWrite;
    var k := InstanceK(ns, service, id);
    if k in db.data {
      ReadInstance(db, k);
      var i := GetInstance(db, ns, service, id).value;
      var beat := i.(lastHeartbeatAt := now, updatedAt := now, status := Health, statusUpdatedAt := now);
      RewriteKeepsLeases(db, k, InstanceV(beat), beat.leaseID);
    }
  }

  lemma DeregisterKeepsLeases(db: State, ns: string, service: string, id: string)
    requires WellPlaced(db) && LeasesOwned(db)
    ensures LeasesOwned(Deregister(db, ns, service, id).0)
  {
    hide WellPlaced, LeasesOwned, CheckWrite;
    var k := InstanceK(ns, service, id);
    if k in db.data {
      ReadInstance(db, k);
      if db.data[k].lease != 0 {
        RevokeAndRemoveKeepsLeases(db, k, db.data[k].lease);
      } else {
        RemovalKeepsLeases(db, k);
      }
    }
  }

  /** A probed record carries no lease, which is what the probe writes back. */
  lemma ProbeKeepsLeases(db: State, ns: string, service: string, id: string, success: bool, override: Option<Policy>, now: Time)
    requires WellPlaced(db) && LeasesOwned(db)
    ensures LeasesOwned(Probe(db, ns, service, id, success, override, now).0)
  {
    var k := InstanceK(ns, service, id);
    if k in db.data {
      ReadInstance(db, k);
      assert LeaseAt(db, k);
      hide WellPlaced, LeasesOwned;
      var i := GetInstance(db, ns, service, id).value;
      if i.check.IsProbe() {
        var policy := if override.Some? then override.value else DEFAULT_POLICY;
        var next := ApplyProbe(i, success, now, policy).0;
        assert next.check == i.check && db.data[k].lease == 0;
        hide ApplyProbe;
        RewriteKeepsLeases(db, k, InstanceV(next), 0);
        RemovalKeepsLeases(db, k);
      }
    }
  }

  lemma {:induction false} EntryStepsKeepLeases(db: State, ns: string, agent: string, caps: seq<string>, entry: Value)
    requires LeasesOwned(db) && db.revision >= 0
    ensures LeasesOwned(DeleteEntries(db, ns, agent, caps)) && DeleteEntries(db, ns, agent, caps).revision >= 0
    ensures LeasesOwned(PutEntries(db, ns, agent, caps, entry))
    decreases |caps|
  {
    if caps != [] {
      hide LeasesOwned;
      var k := CapabilityK(ns, caps[0], agent);
      OtherWritesKeepLeases(db, k, entry, 0);
      EntryStepsKeepLeases(Store.Delete(db, k).0, ns, agent, caps[1..], entry);
      EntryStepsKeepLeases(Store.Put(db, k, entry, 0).0, ns, agent, caps[1..], entry);
    }
  }

  lemma PutCardKeepsLeases(db: State, card: AgentCard, expected: int, now: Time, later: Time)
    requires LeasesOwned(db) && db.revision >= 0
    ensures LeasesOwned(PutCard(db, card, expected, now, later).0)
  {
    hide LeasesOwned, AgentCard.Valid, PreparedCard, CheckWrite, DeleteEntries, PutEntries;
    var prepared := PreparedCard(db, card, expected, now, later);
    if prepared.Ok? {
      var (next, previous) := prepared.value;
      var key := CardK(card.namespace, card.agentID);
      OtherWritesKeepLeases(db, key, CardV(next), 0);
      var db1 := Store.Write(db, key, CardV(next), 0);
      var db2 := db1;
      if previous.Some? {
        var p := previous.value;
        EntryStepsKeepLeases(db1, p.namespace, p.agentID, p.capabilities, EntryOf(next));
        db2 := DeleteEntries(db1, p.namespace, p.agentID, p.capabilities);
      }
      EntryStepsKeepLeases(db2, next.namespace, next.agentID, next.capabilities, EntryOf(next));
    }
  }

  lemma NamespaceAndConfigStepsKeepLeases(db: State, op: Op)
    requires WellPlaced(db) && LeasesOwned(db)
    requires op.CreateNamespaceOp? || op.UpdateAccessModeOp? || op.PutConfigOp? || op.DeleteConfigOp?
    ensures LeasesOwned(Step(db, op))
  {
    assert db.revision >= 0;
    hide WellPlaced, LeasesOwned, Namespace.Valid, ConfigItem.Valid, CheckWrite, GetNamespace, StampedConfig, ValidName;
    var noValue := EntryV(CapabilityEntry("", ""));
    match op
    case CreateNamespaceOp(name, now) =>
      OtherWritesKeepLeases(db, NamespaceK(name), NamespaceV(Namespace(name, ReadWrite, now, now, 0)), 0);
    case UpdateAccessModeOp(name, mode, expected, now) =>
      if GetNamespace(db, name).Ok? {
        var changed := ChangedNamespace(GetNamespace(db, name).value, mode, now);
        OtherWritesKeepLeases(db, NamespaceK(changed.name), NamespaceV(changed), 0);
      }
    case PutConfigOp(item, expected, now) =>
      OtherWritesKeepLeases(db, ConfigKeyOf(item.scope, item.namespace, item.service, item.key),
                            ConfigV(StampedConfig(item, now)), 0);
    case DeleteConfigOp(scope, ns, service, key, expected) =>
      OtherWritesKeepLeases(db, ConfigKeyOf(scope, ns, service, key), noValue, 0);
  }

  lemma StepKeepsLeases(db: State, op: Op)
    requires WellPlaced(db) && LeasesOwned(db) && BringsNoLease(op)
    ensures LeasesOwned(Step(db, op))
  {
    assert db.revision >= 0;
    hide WellPlaced, LeasesOwned;
    match op
    case RegisterOp(instance, serial, now) => RegisterKeepsLeases(db, instance, serial, now);
    case UpdateOp(update, now) => UpdateKeepsLeases(db, update, now);
    case HeartbeatOp(ns, service, id, now) => HeartbeatKeepsLeases(db, ns, service, id, now);
    case DeregisterOp(ns, service, id) => DeregisterKeepsLeases(db, ns, service, id);
    case ProbeOp(ns, service, id, success, override, now) =>
      ProbeKeepsLeases(db, ns, service, id, success, override, now);
    case PutCardOp(card, expected, now, later) => PutCardKeepsLeases(db, card, expected, now, later);
    case _ => NamespaceAndConfigStepsKeepLeases(db, op);
  }

  /** Ownership holds after every run in which no probed instance is registered with a lease id. */
  lemma {:induction false} RunsKeepLeases(db: State, ops: seq<Op>)
    requires WellPlaced(db) && LeasesOwned(db)
    requires forall i :: 0 <= i < |ops| ==> BringsNoLease(ops[i])
    ensures LeasesOwned(Run(db, ops))
    decreases |ops|
  {
    if ops != [] {
      hide WellPlaced, LeasesOwned;
      StepStaysPlaced(db, ops[0]);
      StepKeepsLeases(db, ops[0]);
      RunsKeepLeases(Step(db, ops[0]), ops[1..]);
    }
  }

  lemma StartOwnsLeases()
    ensures LeasesOwned(Start())
  {
  }

  /** A heartbeat is accepted exactly for a stored heartbeat-mode instance of a writable namespace. */
  lemma HeartbeatSucceedsExactly(db: State, ns: string, service: string, id: string, now: Time)
    requires WellPlaced(db) && LeasesOwned(db)
    ensures Services.Heartbeat(db, ns, service, id, now).1.Ok? <==>
            && CheckWrite(db, ns).Ok?
            && GetInstance(db, ns, service, id).Ok?
            && GetInstance(db, ns, service, id).value.check.Heartbeat?
  {
    var k := InstanceK(ns, service, id);
    if k in db.data {
      ReadInstance(db, k);
      assert LeaseAt(db, k);
    }
    hide WellPlaced, LeasesOwned, CheckWrite;
  }

  /** What a new record carries: a fresh lease in heartbeat mode, or else whatever id the caller supplied. */
  lemma RegisteredLease(db: State, input: Instance, serial: nat, now: Time)
    requires db.revision >= 0 && Register(db, input, serial, now).1.Ok?
    ensures var i := Register(db, input, serial, now).1.value;
            var db' := Register(db, input, serial, now).0;
            && InstanceKeyOf(i) in db'.data
            && (i.check.Heartbeat? <==> Normalize(input).check.Heartbeat?)
            && db'.data[InstanceKeyOf(i)].lease == (if i.check.Heartbeat? then db.revision + 1 else input.leaseID)
            && (db'.data[InstanceKeyOf(i)].lease in db'.leases <==> i.check.Heartbeat? || input.leaseID in db.leases)
            && db'.data[InstanceKeyOf(i)].value.InstanceV?
            && db'.data[InstanceKeyOf(i)].value.instance.check == i.check
  {
    assert Registered(input, serial).leaseID == input.leaseID;
    assert Registered(input, serial).check == Normalize(input).check;
    hide Instance.Valid, Registered, CheckWrite, Normalize;
  }

  /** A registration keeps ownership exactly unless it is accepted and brings a lease id to a probed instance. */
  lemma RegistrationKeepsOwnershipExactly(db: State, input: Instance, serial: nat, now: Time)
    requires WellPlaced(db) && LeasesOwned(db)
    ensures LeasesOwned(Register(db, input, serial, now).0) <==>
            Register(db, input, serial, now).1.Err? || input.leaseID == 0 || Normalize(input).check.Heartbeat?
  {
    assert db.revision >= 0;
    hide WellPlaced, Normalize, Instance.Valid, Registered, CheckWrite;
    if input.leaseID == 0 || Normalize(input).check.Heartbeat? {
      RegisterKeepsLeases(db, input, serial, now);
    } else if Register(db, input, serial, now).1.Ok? {
      RegisteredLease(db, input, serial, now);
      var i := Register(db, input, serial, now).1.value;
      var db' := Register(db, input, serial, now).0;
      assert LeasesOwned(db') ==> LeaseAt(db', InstanceKeyOf(i));
    } else {
      RefusedRegistrationKeepsLeases(db, input, serial, now);
    }
  }

  lemma RefusedRegistrationKeepsLeases(db: State, input: Instance, serial: nat, now: Time)
    requires LeasesOwned(db) && db.revision >= 0 && Register(db, input, serial, now).1.Err?
    ensures LeasesOwned(Register(db, input, serial, now).0)
  {
    GrantKeepsLeases(db);
    hide LeasesOwned, Normalize, Instance.Valid, Registered, CheckWrite;
  }

  // --------------------------------------------- where lease ids are brought along

  /** Without any assumption about leases: a heartbeat is accepted exactly while the record's lease is live. */
  lemma HeartbeatNeedsItsLease(db: State, ns: string, service: string, id: string, now: Time)
    requires CheckWrite(db, ns).Ok? && GetInstance(db, ns, service, id).Ok?
    requires GetInstance(db, ns, service, id).value.check.Heartbeat?
    ensures var lease := db.data[InstanceK(ns, service, id)].lease;
            Services.Heartbeat(db, ns, service, id, now).1 == Err(NotFound) <==> lease != 0 && lease !in db.leases
    ensures var lease := db.data[InstanceK(ns, service, id)].lease;
            Services.Heartbeat(db, ns, service, id, now).1.Ok? <==> lease == 0 || lease in db.leases
  {
    hide CheckWrite;
  }

  /** The operation deregisters a record that carries this lease, its own or one brought along. */
  predicate Revokes(db: State, op: Op, lease: int) {
    && op.DeregisterOp? && lease != 0
    && CheckWrite(db, op.ns).Ok?
    && InstanceK(op.ns, op.service, op.id) in db.data
    && GetInstance(db, op.ns, op.service, op.id).Ok?
    && db.data[InstanceK(op.ns, op.service, op.id)].lease == lease
  }

  /**
   * Over all operations, a live lease is lost exactly by deregistering a record that carries it. So
   * a probed instance registered with another record's lease takes that lease with it when it goes.
   */
  lemma LeaseSurvivesExactly(db: State, op: Op, lease: int)
    requires lease in db.leases
    ensures lease in Step(db, op).leases <==> !Revokes(db, op, lease)
  {
    if op.DeregisterOp? {
      DeregisterRevokesOne(db, op, lease);
    } else if op.PutCardOp? {
      PutCardRevokesNone(db, op.card, op.expected, op.now, op.later);
    } else {
      OthersRevokeNone(db, op, lease);
    }
  }

  lemma DeregisterRevokesOne(db: State, op: Op, lease: int)
    requires lease in db.leases && op.DeregisterOp?
    ensures lease in Step(db, op).leases <==> !Revokes(db, op, lease)
  {
    hide CheckWrite;
  }

  lemma OthersRevokeNone(db: State, op: Op, lease: int)
    requires lease in db.leases && !op.DeregisterOp? && !op.PutCardOp?
    ensures lease in Step(db, op).leases
  {
    hide CheckWrite, GetInstance, GetNamespace, Registered, UpdatedInstance, StampedConfig, ApplyProbe, InstanceKeyOf,
      Instance.Valid, Namespace.Valid, ConfigItem.Valid, ValidName, ConfigKeyOf;
  }

  lemma {:induction false} EntryStepsRevokeNone(db: State, ns: string, agent: string, caps: seq<string>, entry: Value)
    ensures DeleteEntries(db, ns, agent, caps).leases == db.leases
    ensures PutEntries(db, ns, agent, caps, entry).leases == db.leases
    decreases |caps|
  {
    if caps != [] {
      EntryStepsRevokeNone(Store.Delete(db, CapabilityK(ns, caps[0], agent)).0, ns, agent, caps[1..], entry);
      EntryStepsRevokeNone(Store.Put(db, CapabilityK(ns, caps[0], agent), entry, 0).0, ns, agent, caps[1..], entry);
    }
  }

  lemma PutCardRevokesNone(db: State, card: AgentCard, expected: int, now: Time, later: Time)
    ensures PutCard(db, card, expected, now, later).0.leases == db.leases
  {
    hide AgentCard.Valid, CheckWrite, PreparedCard, PutEntries, DeleteEntries;
    var prepared := PreparedCard(db, card, expected, now, later);
    if prepared.Ok? {
      var (next, previous) := prepared.value;
      var db1 := Store.Write(db, CardK(card.namespace, card.agentID), CardV(next), 0);
      var db2 := db1;
      if previous.Some? {
        var p := previous.value;
        EntryStepsRevokeNone(db1, p.namespace, p.agentID, p.capabilities, EntryOf(next));
        db2 := DeleteEntries(db1, p.namespace, p.agentID, p.capabilities);
      }
      EntryStepsRevokeNone(db2, next.namespace, next.agentID, next.capabilities, EntryOf(next));
    }
  }
}
