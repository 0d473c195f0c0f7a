/** What the registry operations accept and what they leave behind, field by field. */
module RegistryLaws {
  import opened Outcome
  import opened Model
  import opened Keyspace
  import opened HealthRules
  import opened HealthHistory
  import opened Services
  import opened Invariants
  import opened AccessModes
  import opened Views
  import Store
  import Text

  // ------------------------------------------------------------------ registration

  /** What a caller has to send; everything may be omitted that has a default. */
  predicate Registrable(input: Instance) {
    && ValidName(input.namespace) && ValidName(input.service)
    && ValidAddress(input.address) && 1 <= input.port <= 65535
    && (input.weight == 0 || 1 <= input.weight <= 10000)
    && ValidMetadata(input.Meta())
    && !input.check.OtherCheck? && !input.status.OtherStatus?
    && 0 <= input.probe.port <= 65535
  }

  /** The id under which a registration is stored: the caller's, or the service's name and a serial number. */
  function AssignedID(input: Instance, serial: nat): string {
    if input.instanceID == "" then input.service + "-" + Decimal(serial) else input.instanceID
  }

  lemma RegistrableExactly(input: Instance, serial: nat)
    ensures Registered(input, serial).Valid() <==> Registrable(input) && ValidInstanceID(AssignedID(input, serial))
    ensures Registered(input, serial).instanceID == AssignedID(input, serial)
  {
    assert |AssignedID(input, serial)| > 0;
    hide ValidName, ValidInstanceID, ValidMetadata, Decimal;
  }

  lemma DefaultsAreFilledIn(input: Instance, serial: nat)
    ensures FilledIn(Registered(input, serial), input) && ProbePathFilledIn(Registered(input, serial), input)
  {
    hide NewInstanceID;
  }

  /** What the registration answers, and what a reader then finds, is the filled-in instance with its timestamps. */
  lemma RegistrationStores(db: State, input: Instance, serial: nat, now: Time)
    requires Register(db, input, serial, now).1.Ok?
    ensures var (db', r) := Register(db, input, serial, now);
            var (i, id) := (r.value, AssignedID(input, serial));
            && FilledIn(i, input) && ProbePathFilledIn(i, input) && i.instanceID == id
            && i.createdAt == now && i.updatedAt == now && i.statusUpdatedAt == now
            && i.lastHeartbeatAt == (if i.check == Heartbeat then now else input.lastHeartbeatAt)
            && i.leaseID == (if i.check == Heartbeat then db.revision + 1 else input.leaseID)
            && i.revision == db'.revision == db.revision + (if i.check == Heartbeat then 2 else 1)
            && GetInstance(db', input.namespace, input.service, id) == Ok(i)
  {
    DefaultsAreFilledIn(input, serial);
    RegistrableExactly(input, serial);
    assert Registered(input, serial).leaseID == input.leaseID && Registered(input, serial).lastHeartbeatAt == input.lastHeartbeatAt;
    hide Registered, Instance.Valid, CheckWrite, AssignedID, Registrable;
  }

  /** Exactly which registrations are accepted. */
  lemma RegistrationAcceptedExactly(db: State, input: Instance, serial: nat, now: Time)
    requires WellPlaced(db)
    ensures var k := InstanceK(input.namespace, input.service, AssignedID(input, serial));
            var accepted := Registrable(input) && ValidInstanceID(AssignedID(input, serial));
            var r := Register(db, input, serial, now).1;
            && (r.Ok? <==> accepted && Writable(db, input.namespace) && k !in db.data)
            && (r.Err? ==>
                  r.code ==
                  if !accepted then InvalidArgument
                  else if !Writable(db, input.namespace) then ClosedCode(db, input.namespace)
                  else AlreadyExists)
  {
    hide WellPlaced, Registered, Instance.Valid, CheckWrite, AssignedID, Registrable, Writable, ClosedCode, ValidInstanceID, ValidName;
    RegistrableExactly(input, serial);
    DefaultsAreFilledIn(input, serial);
    ClosedIsRefused(db, input.namespace);
  }

  /** A refused registration leaves every record, every event and every lease as they were. */
  lemma RefusedRegistrationStoresNothing(db: State, input: Instance, serial: nat, now: Time)
    requires Register(db, input, serial, now).1.Err?
    ensures var db' := Register(db, input, serial, now).0;
            db'.data == db.data && db'.log == db.log && db.leases <= db'.leases
  {
    hide Registered, Instance.Valid, CheckWrite;
  }

  /** A listing of one service with no filter but, perhaps, the health filter. */
  predicate ShowsAll(f: ListFilter, ns: string, service: string) {
    f.namespace == ns && f.service == service && f.group == "" && f.version == "" && f.metadata == map[]
  }

  /** A registration without a status is healthy, newborn if its counters are zero, and in the default listing at once. */
  lemma NewRegistrationsAreListed(db: State, input: Instance, serial: nat, now: Time)
    requires Register(db, input, serial, now).1.Ok? && input.status == UnsetStatus && input.service != ""
    ensures var (db', r) := Register(db, input, serial, now);
            && r.value.status == Health
            && (input.failures == 0 && input.successes == 0 ==> Newborn(r.value))
            && forall items, f: ListFilter | ShowsAll(f, input.namespace, input.service) && IsListing(items, db', f) ::
                 r.value in items
  {
    RegistrationStores(db, input, serial, now);
    hide Register, AssignedID, Decimal, InstanceNamespacePrefix;
    var (db', r) := Register(db, input, serial, now);
    forall items, f: ListFilter | ShowsAll(f, input.namespace, input.service) && IsListing(items, db', f)
      ensures r.value in items
    {
      assert Listed(db', f, r.value);
    }
  }

  // ---------------------------------------------------------------- deregistration

  /**
   * A deregistration is accepted exactly for a stored instance of a writable namespace; then the
   * record is gone, the log ends in its removal, its lease is revoked, and nothing else changed.
   */
  lemma DeregistrationExactly(db: State, ns: string, service: string, id: string)
    requires WellPlaced(db)
    ensures var k := InstanceK(ns, service, id);
            var (db', r) := Deregister(db, ns, service, id);
            && (r.Ok? <==> Writable(db, ns) && k in db.data)
            && (r.Err? ==> db' == db && r.code == if Writable(db, ns) then NotFound else ClosedCode(db, ns))
            && (r.Ok? ==>
                  && db'.data == db.data - {k}
                  && db'.revision == db.revision + 1
                  && db'.log == db.log + [Store.Event(Store.DeleteEvent, k, db.data[k].value, db'.revision)]
                  && (forall lease :: lease in db'.leases <==> lease in db.leases && (lease == 0 || lease != db.data[k].lease)))
  {
    hide WellPlaced, CheckWrite, Writable, ClosedCode, Instance.Valid, Normalize, ValidName;
    ClosedIsRefused(db, ns);
    if InstanceK(ns, service, id) in db.data {
      StoredInstance(db, ns, service, id);
    }
  }

  /** No listing shows a deregistered instance. */
  lemma DeregisteredIsUnlisted(db: State, ns: string, service: string, id: string, f: ListFilter, items: seq<Instance>)
    requires WellPlaced(db) && Deregister(db, ns, service, id).1.Ok?
    requires IsListing(items, Deregister(db, ns, service, id).0, f)
    ensures forall i :: i in items ==> !(i.namespace == ns && i.service == service && i.instanceID == id)
  {
    DeregistrationExactly(db, ns, service, id);
    hide WellPlaced, Deregister, InScope, DecodeInstance, Passes;
    forall i | i in items
      ensures !(i.namespace == ns && i.service == service && i.instanceID == id)
    {
      assert Listed(Deregister(db, ns, service, id).0, f, i);
    }
  }

  // --------------------------------------------------------------------- heartbeat

  /**
   * A heartbeat is accepted exactly for a stored heartbeat-mode instance of a writable namespace whose
   * lease, if it has one, is live.
   */
  lemma HeartbeatAcceptedExactly(db: State, ns: string, service: string, id: string, now: Time)
    requires WellPlaced(db)
    ensures var before := GetInstance(db, ns, service, id);
            var (db', r) := Services.Heartbeat(db, ns, service, id, now);
            && (r.Ok? <==>
                  && Writable(db, ns) && before.Ok? && before.value.check == Heartbeat
                  && (before.value.leaseID == 0 || before.value.leaseID in db.leases))
            && (r.Err? ==>
                  && db' == db
                  && r.code ==
                     if !Writable(db, ns) then ClosedCode(db, ns)
                     else if before.Ok? && before.value.check != Heartbeat then FailedPrecondition
                     else NotFound)
  {
    hide WellPlaced, CheckWrite, Writable, ClosedCode, Instance.Valid, Normalize, ValidName, Store.Write;
    ClosedIsRefused(db, ns);
    if InstanceK(ns, service, id) in db.data {
      StoredInstance(db, ns, service, id);
    }
    hide DecodeInstance;
  }

  /** It makes the instance healthy and current, keeps its lease and changes nothing else. */
  lemma HeartbeatRevives(db: State, ns: string, service: string, id: string, now: Time)
    requires Services.Heartbeat(db, ns, service, id, now).1.Ok?
    ensures var before := GetInstance(db, ns, service, id);
            var (db', r) := Services.Heartbeat(db, ns, service, id, now);
            && before.Ok?
            && r.value == before.value.(status := Health, lastHeartbeatAt := now, updatedAt := now, statusUpdatedAt := now,
                                        revision := db.revision + 1)
            && GetInstance(db', ns, service, id) == r
            && db'.data == db.data[InstanceK(ns, service, id) := db'.data[InstanceK(ns, service, id)]]
            && db'.leases == db.leases
  {
    hide CheckWrite;
  }

  // ----------------------------------------------------------------------- update

  /** The parts of an update that can be out of range. */
  predicate Updatable(input: UpdateInput) {
    && (input.weight.Some? ==> 0 <= input.weight.value <= 10000)
    && (input.metadata.Some? ==> ValidMetadata(input.metadata.value))
  }

  lemma UpdatedIsValid(before: Instance, input: UpdateInput, now: Time)
    requires before.Valid() && Normalize(before) == before
    ensures UpdatedInstance(before, input, now).Valid() <==> Updatable(input)
  {
    hide ValidName, ValidInstanceID, ValidAddress, ValidMetadata;
    assert before.metadata.Some?;
    assert |DEFAULT_GROUP| > 0;
  }

  /** An update is accepted exactly at the revision a reader sees, in a writable namespace, with values in range. */
  lemma UpdateAcceptedExactly(db: State, input: UpdateInput, now: Time)
    requires WellPlaced(db)
    ensures var before := GetInstance(db, input.namespace, input.service, input.instanceID);
            var (db', r) := Update(db, input, now);
            && (r.Ok? <==>
                  && Writable(db, input.namespace) && before.Ok? && before.value.revision == input.expected
                  && Updatable(input))
            && (r.Err? ==>
                  && db' == db
                  && r.code ==
                     if input.expected <= 0 then InvalidArgument
                     else if !Writable(db, input.namespace) then ClosedCode(db, input.namespace)
                     else if before.Err? then NotFound
                     else if !Updatable(input) then InvalidArgument
                     else Conflict)
  {
    ClosedIsRefused(db, input.namespace);
    var k := InstanceK(input.namespace, input.service, input.instanceID);
    if k in db.data {
      StoredInstance(db, input.namespace, input.service, input.instanceID);
      UpdatedIsValid(GetInstance(db, input.namespace, input.service, input.instanceID).value, input, now);
      RevisionsArePositive(db, k);
    }
    hide WellPlaced, CheckWrite, Writable, ClosedCode, Instance.Valid, Normalize, UpdatedInstance, Updatable, ValidName;
  }

  // ------------------------------------------------------------------------ probes

  /**
   * What one probe outcome makes of a record: the run of equal outcomes is counted, the status turns at
   * its threshold and not below one, and only the times besides.
   */
  predicate ProbedFields(before: Instance, after: Instance, success: bool, now: Time, policy: Policy) {
    && after == before.(status := after.status, failures := after.failures, successes := after.successes,
                        lastProbeAt := now, updatedAt := now, statusUpdatedAt := after.statusUpdatedAt)
    && after.failures == (if success then 0 else before.failures + 1)
    && after.successes == (if success then before.successes + 1 else 0)
    && after.status ==
       (if success && before.status == Unhealth && after.successes >= policy.successThreshold && after.successes >= 1 then Health
        else if !success && before.status == Health && after.failures >= policy.failureThreshold && after.failures >= 1 then Unhealth
        else before.status)
    && after.statusUpdatedAt == (if after.status == before.status then before.statusUpdatedAt else now)
  }

  /** A failure deletes once the failures reach the delete threshold and have passed the one for unhealthy. */
  predicate Deletes(before: Instance, success: bool, policy: Policy) {
    var failures := before.failures + 1;
    !success && failures >= policy.deleteThreshold && failures > policy.failureThreshold && failures > 1
  }

  /** A probe outcome is accepted exactly for a stored instance in a probe mode; no access check guards it. */
  lemma ProbeAcceptedExactly(db: State, ns: string, service: string, id: string, success: bool, override: Option<Policy>, now: Time)
    requires WellPlaced(db)
    ensures var before := GetInstance(db, ns, service, id);
            var (db', r) := Probe(db, ns, service, id, success, override, now);
            && (r.Ok? <==>
                  before.Ok? && (before.value.check == HTTPProbe || before.value.check == GRPCProbe || before.value.check == TCPProbe))
            && (r.Err? ==> db' == db && r.code == if before.Err? then NotFound else FailedPrecondition)
  {
    if InstanceK(ns, service, id) in db.data {
      StoredInstance(db, ns, service, id);
      hide WellPlaced, Normalize, Instance.Valid, ValidName, ApplyProbe;
    }
  }

  /**
   * An accepted outcome stores the counted record without a lease or deletes it; without an override the
   * thresholds are three failures, two successes and five failures to delete.
   */
  lemma ProbeStores(db: State, ns: string, service: string, id: string, success: bool, override: Option<Policy>, now: Time)
    requires Probe(db, ns, service, id, success, override, now).1.Ok?
    ensures var before := GetInstance(db, ns, service, id);
            var policy := if override.Some? then override.value else Policy(3, 2, 5);
            var (db', r) := Probe(db, ns, service, id, success, override, now);
            && ProbedFields(before.value, r.value.0.(revision := before.value.revision), success, now, policy)
            && (r.value.1 <==> Deletes(before.value, success, policy))
            && (r.value.1 ==> db'.data == db.data - {InstanceK(ns, service, id)})
            && (!r.value.1 ==>
                  && db'.data.Keys == db.data.Keys
                  && GetInstance(db', ns, service, id) == Ok(r.value.0.(leaseID := 0)))
  {
    var policy := if override.Some? then override.value else Policy(3, 2, 5);
    ProbeFields(GetInstance(db, ns, service, id).value, success, now, policy);
    hide ApplyProbe, ProbedFields, Deletes;
  }

  lemma ProbeFields(i: Instance, success: bool, now: Time, policy: Policy)
    ensures var (next, drop) := ApplyProbe(i, success, now, policy);
            && ProbedFields(i, next, success, now, policy) && next.revision == i.revision
            && (drop <==> Deletes(i, success, policy))
    ensures forall r: int ::
              ProbedFields(i, ApplyProbe(i, success, now, policy).0.(revision := r).(revision := i.revision), success, now, policy)
  {
    var next := ApplyProbe(i, success, now, policy).0;
    assert forall r: int :: next.(revision := r).(revision := i.revision) == next;
  }

  // ---------------------------------------------------------------------- listings

  /** Does the filter let the instance through? A metadata key the instance lacks counts as empty. */
  predicate LetThrough(i: Instance, f: ListFilter) {
    && (f.healthyOnly ==> i.status == Health)
    && (f.group == "" || i.group == f.group)
    && (f.version == "" || i.version == f.version)
    && (forall key :: key in f.metadata ==>
          (key in i.Meta() && i.Meta()[key] == f.metadata[key]) || (key !in i.Meta() && f.metadata[key] == ""))
  }

  lemma LetThroughPasses(i: Instance, f: ListFilter)
    ensures Passes(i, f) <==> LetThrough(i, f)
  {
  }

  /** What a listing shows, spelled out: the stored instances of the service, or of the namespace, that the filter lets through. */
  lemma ListingShowsExactly(db: State, f: ListFilter, items: seq<Instance>, i: Instance)
    requires WellPlaced(db) && IsListing(items, db, f) && SlashFree(f.namespace)
    ensures i in items <==>
            && i.namespace == f.namespace && (f.service == "" || i.service == f.service)
            && GetInstance(db, i.namespace, i.service, i.instanceID) == Ok(i)
            && LetThrough(i, f)
  {
    LetThroughPasses(i, f);
    if InstanceKeyOf(i) in db.data {
      assert Placed(InstanceKeyOf(i), db.data[InstanceKeyOf(i)].value);
      PlacedKeysAreValid(InstanceKeyOf(i), db.data[InstanceKeyOf(i)].value);
      NamespaceScopeIsExact(InstanceKeyOf(i), f);
    }
    hide WellPlaced, InScope, Passes, LetThrough, ValidKey;
    assert i in items <==> Listed(db, f, i);
  }

  /** The instances of one service are listed in the order of their ids. */
  lemma ListingsAscendByID(db: State, f: ListFilter, items: seq<Instance>, a: nat, b: nat)
    requires WellPlaced(db) && IsListing(items, db, f) && SlashFree(f.namespace) && f.service != "" && a < b < |items|
    ensures Text.Less(items[a].instanceID, items[b].instanceID)
  {
    assert Text.Less(Path(items[a]), Path(items[b]));
    hide Text.Less, WellPlaced, IsListing, LetThrough;
    ListingShowsExactly(db, f, items, items[a]);
    ListingShowsExactly(db, f, items, items[b]);
    var head := f.namespace + "/" + f.service + "/";
    assert Path(items[a]) == head + items[a].instanceID && Path(items[b]) == head + items[b].instanceID;
    Text.LessUnderPrefix(head, items[a].instanceID, items[b].instanceID);
  }
}
