/**
 * Concrete runs behind the exact conditions: from the empty store, through operations the services
 * accept, to a state in which a condition fails.
 */
module Counterexamples {
  import opened Outcome
  import opened Model
  import opened Keyspace
  import opened HealthRules
  import opened Services
  import opened Invariants
  import opened Watching
  import opened Views
  import opened DiscoveryServiceObject
  import opened ConsumerConvergence
  import opened OverlapRuns
  import AccessModes
  import AgentLaws
  import CapabilityIndex
  import Consumer
  import NamespaceConvergence
  import ConfigSdk
  import ConfigConvergence
  import ConfigServiceObject
  import Reachable
  import Sse
  import Store
  import Text

  // ------------------------------------------------------------------ setting up

  function Opened(ns: string): State {
    Run(Start(), [CreateNamespaceOp(ns, 0)])
  }

  lemma RunOfOne(db: State, op: Op)
    ensures Run(db, [op]) == Step(db, op)
  {
    assert [op][1..] == [];
  }

  lemma RunOfSplit(db: State, op: Op, ops: seq<Op>)
    ensures Run(db, [op] + ops) == Run(Step(db, op), ops)
  {
    assert ([op] + ops)[1..] == ops;
  }

  lemma OpenedIsOneNamespace(ns: string)
    requires ValidName(ns)
    ensures Opened(ns) == OneNamespace(ns) && Open(Opened(ns), ns) && WellPlaced(Opened(ns))
    ensures Opened(ns).revision == 1
    ensures forall k :: k in Opened(ns).data <==> k == NamespaceK(ns)
  {
    hide ValidName, WellPlaced;
    RunOfOne(Start(), CreateNamespaceOp(ns, 0));
    NamespaceIsOpen(ns);
    StartIsPlaced();
    RunsStayPlaced(Start(), [CreateNamespaceOp(ns, 0)]);
    StartIsEmpty();
  }

  lemma StaysOpenWhen(db: State, db': State, ns: string)
    requires Open(db, ns) && CapabilityIndex.Same(db, db', NamespaceK(ns))
    ensures Open(db', ns)
  {
  }

  /** The instance a registration stores. */
  function Written(db: State, i: Instance, serial: nat): Instance {
    Leased(db, Registered(i, serial), 0).1
  }

  lemma WrittenInstance(db: State, i: Instance, serial: nat)
    ensures var (w, r) := (Written(db, i, serial), Registered(i, serial));
            && InstanceKeyOf(w) == InstanceKeyOf(r) && w.namespace == i.namespace && w.service == i.service
            && w.check == Normalize(i).check && w.status == Normalize(i).status && w.failures == i.failures
            && (i.instanceID != "" ==> w.instanceID == i.instanceID)
            && w.leaseID == (if w.check.Heartbeat? then db.revision + 1 else i.leaseID)
  {
  }

  /** A valid instance whose key is free is accepted by an open namespace. */
  lemma RegistrationSucceeds(db: State, i: Instance, serial: nat)
    requires Open(db, i.namespace) && Registered(i, serial).Valid() && InstanceKeyOf(Registered(i, serial)) !in db.data
    ensures var (db', r) := Register(db, i, serial, 0);
            var w := Written(db, i, serial);
            var k := InstanceKeyOf(w);
            && r.Ok? && k !in db.data
            && db'.data == db.data[k := Store.Rec(InstanceV(w), db'.revision, w.leaseID)]
            && db'.log == db.log + [Store.Event(Store.PutEvent, k, InstanceV(w), db'.revision)]
            && db'.leases == (if w.check.Heartbeat? then db.leases + {db.revision + 1} else db.leases)
            && db'.revision == db.revision + (if w.check.Heartbeat? then 2 else 1)
            && Open(db', i.namespace)
  {
    WrittenInstance(db, i, serial);
    hide Instance.Valid, Registered, CheckRead, Normalize;
    var db' := Register(db, i, serial, 0).0;
    StaysOpenWhen(db, db', i.namespace);
    hide CheckWrite;
  }

  predicate Acceptable(i: Instance) {
    Registered(i, 1).Valid()
  }

  /** One namespace with one registered instance. */
  function Occupied(i: Instance): State {
    Run(Start(), [CreateNamespaceOp(i.namespace, 0), RegisterOp(i, 1, 0)])
  }

  function OccupantKey(i: Instance): Key {
    InstanceKeyOf(Registered(i, 1))
  }

  lemma AcceptableNames(i: Instance)
    requires Acceptable(i)
    ensures ValidName(i.namespace) && ValidName(i.service) && i.service != "" && SlashFree(i.namespace)
  {
  }

  lemma OccupiedStore(i: Instance)
    requires Acceptable(i)
    ensures var (past, db, k) := (Opened(i.namespace), Occupied(i), OccupantKey(i));
            var w := Written(past, i, 1);
            && WellPlaced(db) && Open(db, i.namespace)
            && db == Register(past, i, 1, 0).0
            && InstanceKeyOf(w) == k && k.InstanceK? && k.ns == i.namespace && k.service == i.service
            && k !in past.data && db.data == past.data[k := Store.Rec(InstanceV(w), db.revision, w.leaseID)]
            && db.log == past.log + [Store.Event(Store.PutEvent, k, InstanceV(w), db.revision)]
            && db.leases == (if w.check.Heartbeat? then past.leases + {2} else past.leases)
            && db.revision == (if w.check.Heartbeat? then 3 else 2)
  {
    AcceptableNames(i);
    OpenedIsOneNamespace(i.namespace);
    var (first, second) := (CreateNamespaceOp(i.namespace, 0), RegisterOp(i, 1, 0));
    assert [first, second] == [first] + [second];
    RunOfSplit(Start(), first, [second]);
    RunOfOne(Start(), first);
    RunOfOne(Opened(i.namespace), second);
    StartIsPlaced();
    RunsStayPlaced(Start(), [first, second]);
    WrittenInstance(Opened(i.namespace), i, 1);
    hide WellPlaced, Run, Start, ValidName, Instance.Valid, Registered, Written, Register, Open;
    RegistrationSucceeds(Opened(i.namespace), i, 1);
  }

  // ------------------------------------------------------------ the consumer's cache

  /** Nothing is listed where no key of the service is stored. */
  lemma EmptyListing(db: State, f: ListFilter)
    requires forall k :: k in db.data ==> !k.InstanceK?
    ensures IsListing([], db, f)
  {
    hide Text.Less, Path, InstanceNamespacePrefix, Render;
  }

  /** Snapshot first, subscribe later: an instance registered in between never appears. */
  lemma LateSubscriptionMissesAnInstance(i: Instance)
    requires Acceptable(i)
    ensures var (past, db) := (Opened(i.namespace), Occupied(i));
            && WellPlaced(past) && WellPlaced(db) && past.log <= db.log
            && ListReturns(Ok([]), past, Everything(i.namespace, i.service))
            && var cache := AfterEvents([], ServiceEvents(db.log[|db.log|..], i.namespace, i.service, false));
               !Mirrors(cache, db, i.namespace, i.service)
  {
    hide WellPlaced, Opened, Occupied, IsListing, ValidName, OneNamespace, Written, Registered, Acceptable, Open, Register,
      Instance.Valid, ListReturns, Everything;
    var (past, db, k) := (Opened(i.namespace), Occupied(i), OccupantKey(i));
    AcceptableNames(i);
    OpenedIsOneNamespace(i.namespace);
    OccupiedStore(i);
    EmptyListing(past, Everything(i.namespace, i.service));
    EverythingIsRead(past, i.namespace, i.service);
    assert db.log[|db.log|..] == [];
    NothingCached(db, k);
  }

  /** An empty cache does not mirror a service with a stored instance. */
  lemma NothingCached(db: State, k: Key)
    requires k.InstanceK? && k in db.data && db.data[k].value.InstanceV?
    ensures !Mirrors([], db, k.ns, k.service)
    ensures AfterEvents([], ServiceEvents([], k.ns, k.service, false)) == []
  {
    assert Held(Store.Cells(db.data), InstanceK(k.ns, k.service, k.id)).Some?;
    assert Cached([], k.id).None?;
  }

  /** The re-sync of a reset is accepted, lists healthy instances only, and so drops a stored unhealthy one. */
  lemma ResetDropsUnhealthyInstance(i: Instance, items: seq<Instance>, revision: int)
    requires Acceptable(i) && i.status.Unhealth?
    ensures var db := Occupied(i);
            && WellPlaced(db)
            && ListReturns(Ok([]), db, Default(i.namespace, i.service))
            && Consumer.AfterDelivery(items, Consumer.Delivery(Reset(revision), Ok([]))) == Ok([])
            && !Mirrors([], db, i.namespace, i.service)
  {
    hide WellPlaced, Opened, Occupied, IsListing, ValidName, OneNamespace, Written, Registered, Normalize, Acceptable, Open, Register,
      Instance.Valid, ListReturns;
    var (db, k) := (Occupied(i), OccupantKey(i));
    AcceptableNames(i);
    OpenedIsOneNamespace(i.namespace);
    OccupiedStore(i);
    WrittenInstance(Opened(i.namespace), i, 1);
    StatusKept(i);
    OnlyUnhealthy(db, k, Default(i.namespace, i.service));
    EverythingIsRead(db, i.namespace, i.service);
    NothingCached(db, k);
  }

  lemma StatusKept(i: Instance)
    ensures !i.status.UnsetStatus? ==> Normalize(i).status == i.status
    ensures !i.check.UnsetCheck? ==> Normalize(i).check == i.check
  {
  }

  lemma OnlyUnhealthy(db: State, k: Key, f: ListFilter)
    requires f.healthyOnly && k in db.data && db.data[k].value.InstanceV? && !db.data[k].value.instance.status.Health?
    requires forall other :: other in db.data && other.InstanceK? ==> other == k
    ensures IsListing([], db, f)
  {
    hide Text.Less, Path, InstanceNamespacePrefix, Render;
    forall j
      ensures !Listed(db, f, j)
    {
      assert InstanceKeyOf(j).InstanceK?;
    }
  }

  lemma OnlyOne(db: State, i: Instance, f: ListFilter)
    requires InstanceKeyOf(i) in db.data && DecodeInstance(db.data[InstanceKeyOf(i)]) == Ok(i)
    requires f.namespace == i.namespace && f.service == i.service != "" && Passes(i, f)
    requires forall other :: other in db.data && other.InstanceK? ==> other == InstanceKeyOf(i)
    ensures IsListing([i], db, f)
  {
    hide Text.Less, Path, InstanceNamespacePrefix, Render, Passes;
    forall j
      ensures j in [i] <==> Listed(db, f, j)
    {
      assert InstanceKeyOf(j).InstanceK?;
      if Listed(db, f, j) {
        assert InstanceKeyOf(j) == InstanceKeyOf(i);
      }
    }
  }

  const STRICT := Policy(1, 1, 5)

  /** A registered instance after its first failed probe. */
  function Failing(i: Instance): State {
    Probe(Occupied(i), i.namespace, i.service, OccupantID(i), false, Some(STRICT), 0).0
  }

  function OccupantID(i: Instance): string {
    Registered(i, 1).instanceID
  }

  /** A healthy-only consumer keeps the healthy copy of an instance whose probe has since failed. */
  lemma HealthyWatchKeepsStaleInstance(i: Instance)
    requires Acceptable(i) && i.check.TCPProbe? && i.status.Health? && i.failures == 0 && i.leaseID == 0
    ensures var (past, db) := (Occupied(i), Failing(i));
            && WellPlaced(past) && WellPlaced(db) && past.log <= db.log
            && GetInstance(past, i.namespace, i.service, OccupantID(i)).Ok?
            && var snapshot := [GetInstance(past, i.namespace, i.service, OccupantID(i)).value];
            && ListReturns(Ok(snapshot), past, Default(i.namespace, i.service))
            && AfterEvents(snapshot, ServiceEvents(db.log[|past.log|..], i.namespace, i.service, true)) == snapshot
            && !MirrorsHealthy(snapshot, db, i.namespace, i.service)
  {
    hide WellPlaced, Opened, Occupied, IsListing, ValidName, OneNamespace, Written, Registered, Normalize, Acceptable, Open, Register,
      Instance.Valid, ListReturns, Render, Probe, ApplyProbe;
    var (past, db, k) := (Occupied(i), Failing(i), OccupantKey(i));
    AcceptableNames(i);
    OpenedIsOneNamespace(i.namespace);
    OccupiedStore(i);
    WrittenInstance(Opened(i.namespace), i, 1);
    StatusKept(i);
    ProbeStaysPlaced(past, i.namespace, i.service, OccupantID(i), false, Some(STRICT), 0);
    var stored := GetInstance(past, i.namespace, i.service, OccupantID(i)).value;
    FailedProbe(past, k);
    OnlyOne(past, stored, Default(i.namespace, i.service));
    EverythingIsRead(past, i.namespace, i.service);
    assert db.log[|past.log|..] == [db.log[|past.log|]];
    UnseenEvent(db.log[|past.log|], i.namespace, i.service);
    StaleIsCached(stored, db, k);
  }

  lemma StaleIsCached(i: Instance, db: State, k: Key)
    requires k.InstanceK? && i.instanceID == k.id && StoredUnhealthy(db, k)
    ensures !MirrorsHealthy([i], db, k.ns, k.service)
  {
    assert Cached([i], k.id).Some?;
    assert k == InstanceK(k.ns, k.service, k.id);
  }

  /** A first failure under the strict policy turns a healthy record unhealthy and keeps it. */
  lemma FailedProbe(db: State, k: Key)
    requires k.InstanceK? && k in db.data && db.data[k].value.InstanceV?
    requires var i := db.data[k].value.instance; i.check.TCPProbe? && i.status.Health? && i.failures == 0
    ensures var db' := Probe(db, k.ns, k.service, k.id, false, Some(STRICT), 0).0;
            && |db'.log| == |db.log| + 1 && db.log == db'.log[..|db.log|]
            && var e := db'.log[|db.log|];
               && e.kind.PutEvent? && e.key == k && e.value.InstanceV? && e.value.instance.status.Unhealth?
               && k in db'.data && db'.data[k].value == e.value
  {
  }

  lemma UnseenEvent(e: LogEvent, ns: string, service: string)
    requires e.kind.PutEvent? && e.value.InstanceV? && e.value.instance.status.Unhealth?
    ensures ServiceEvents([e], ns, service, true) == []
    ensures forall items :: AfterEvents(items, ServiceEvents([e], ns, service, true)) == items
  {
    hide Render;
    assert [e][1..] == [];
  }

  /** One namespace with two registered instances. */
  function Shared(a: Instance, b: Instance): State {
    Run(Start(), [CreateNamespaceOp(a.namespace, 0), RegisterOp(a, 1, 0), RegisterOp(b, 2, 0)])
  }

  lemma SharedStore(a: Instance, b: Instance)
    requires Acceptable(a) && Registered(b, 2).Valid() && b.namespace == a.namespace
    requires InstanceKeyOf(Registered(b, 2)) != OccupantKey(a)
    ensures var (past, db) := (Occupied(a), Shared(a, b));
            var w := Written(past, b, 2);
            && WellPlaced(db) && Open(db, a.namespace)
            && db == Register(past, b, 2, 0).0
            && InstanceKeyOf(w) == InstanceKeyOf(Registered(b, 2)) && InstanceKeyOf(w) !in past.data
            && db.data == past.data[InstanceKeyOf(w) := Store.Rec(InstanceV(w), db.revision, w.leaseID)]
            && db.log == past.log + [Store.Event(Store.PutEvent, InstanceKeyOf(w), InstanceV(w), db.revision)]
            && db.leases == (if w.check.Heartbeat? then past.leases + {past.revision + 1} else past.leases)
  {
    hide WellPlaced, Run, Start, ValidName, Instance.Valid, Registered, Written, Register, Open, OneNamespace, Acceptable, Opened;
    AcceptableNames(a);
    OpenedIsOneNamespace(a.namespace);
    OccupiedStore(a);
    ThirdStep(CreateNamespaceOp(a.namespace, 0), RegisterOp(a, 1, 0), RegisterOp(b, 2, 0));
    WrittenInstance(Occupied(a), b, 2);
    hide Occupied, Shared, Step;
    RegistrationSucceeds(Occupied(a), b, 2);
  }

  lemma ThirdStep(first: Op, second: Op, third: Op)
    ensures Run(Start(), [first, second, third]) == Step(Run(Start(), [first, second]), third)
    ensures WellPlaced(Run(Start(), [first, second, third]))
  {
    hide Run, Step, WellPlaced, Start;
    assert [first, second, third] == [first, second] + [third];
    RunOfLast(Start(), [first, second], third);
    StartIsPlaced();
    RunsStayPlaced(Start(), [first, second, third]);
  }

  lemma {:induction false} RunOfLast(db: State, ops: seq<Op>, op: Op)
    ensures Run(db, ops + [op]) == Step(Run(db, ops), op)
    decreases |ops|
  {
    hide Step;
    if ops == [] {
      assert ops + [op] == [op];
      RunOfOne(db, op);
    } else {
      assert (ops + [op])[1..] == ops[1..] + [op];
      RunOfLast(Step(db, ops[0]), ops[1..], op);
    }
  }

  /**
   * In a cache of a whole namespace, subscribed from the start, two services' instances with one id
   * displace each other: both are stored, only the later one is cached.
   */
  lemma SharedIDsDisplaceEachOther(a: Instance, b: Instance)
    requires Acceptable(a) && Registered(b, 2).Valid() && b.namespace == a.namespace
    requires a.instanceID == b.instanceID && a.instanceID != "" && a.service != b.service
    ensures var (past, db) := (Opened(a.namespace), Shared(a, b));
            && WellPlaced(past) && WellPlaced(db) && past.log <= db.log
            && ListReturns(Ok([]), past, Everything(a.namespace, ""))
            && InstanceK(a.namespace, a.service, a.instanceID) in db.data
            && InstanceK(b.namespace, b.service, b.instanceID) in db.data
            && !NamespaceConvergence.MirrorsNamespace(
                  AfterEvents([], ServiceEvents(db.log[|past.log|..], a.namespace, "", false)), db, a.namespace)
  {
    hide WellPlaced, Opened, Occupied, Shared, IsListing, ValidName, OneNamespace, Written, Registered, Normalize, Acceptable,
      NamespaceConvergence.MirrorsNamespace, Open, Instance.Valid, Register, AfterEvents, ServiceEvents, LastAbout, Everything;
    var (past, db) := (Opened(a.namespace), Shared(a, b));
    var (ka, kb) := (InstanceK(a.namespace, a.service, a.instanceID), InstanceK(b.namespace, b.service, b.instanceID));
    AcceptableNames(a);
    OpenedIsOneNamespace(a.namespace);
    OccupiedStore(a);
    WrittenInstance(past, a, 1);
    WrittenInstance(Occupied(a), b, 2);
    SharedStore(a, b);
    EmptyListing(past, Everything(a.namespace, ""));
    EverythingIsRead(past, a.namespace, "");
    NamespaceConvergence.NamespaceCacheConvergesExactly(db, past, [], |past.log|, a.namespace);
    var (ea, eb) := (db.log[|past.log|], db.log[|past.log| + 1]);
    assert db.log[|past.log|..] == [ea, eb];
    LastOfTwo(ea, eb, a.namespace, a.instanceID);
    assert ka in db.data && kb in db.data;
    assert !NamespaceConvergence.LastEventIsOwn(db, |past.log|, a.namespace, a.service, a.instanceID);
  }

  /** An open namespace's listing is exactly what its specification says. */
  lemma EverythingIsRead(db: State, ns: string, service: string)
    requires Open(db, ns)
    ensures forall items :: IsListing(items, db, Everything(ns, service)) ==> ListReturns(Ok(items), db, Everything(ns, service))
    ensures forall items :: IsListing(items, db, Default(ns, service)) ==> ListReturns(Ok(items), db, Default(ns, service))
  {
    hide IsListing, CheckRead, CheckWrite;
  }

  lemma LastOfTwo(first: LogEvent, second: LogEvent, ns: string, id: string)
    requires second.key.InstanceK? && second.key.ns == ns && second.value.InstanceV? && second.value.instance.instanceID == id
    ensures var last := LastAbout(ServiceEvents([first, second], ns, "", false), id);
            last.Some? && last.value.Changed? && last.value.payload == second.value.instance
  {
    hide Render;
    assert [first, second][1..] == [second] && [second][1..] == [];
    var event := Changed(second.kind, Render(second.key), second.revision, second.value.instance);
    assert ServiceEvents([second], ns, "", false) == [event];
    LastAboutOfFirst(event, [], id);
    assert [event] + [] == [event];
    if Watched(first.key, ns, "") && Visible(first, false) {
      var head := Changed(first.kind, Render(first.key), first.revision, first.value.instance);
      LastAboutOfFirst(head, [event], id);
    }
  }

  // ---------------------------------------------------------------------- leases

  /** A probed instance registered with a lease id of its own is stored with that lease. */
  lemma ProbedInstanceKeepsSuppliedLease(db: State, input: Instance, serial: nat, now: Time)
    requires input.check.TCPProbe? && input.leaseID != 0 && Register(db, input, serial, now).1.Ok?
    ensures var i := Register(db, input, serial, now).1.value;
            var db' := Register(db, input, serial, now).0;
            && InstanceKeyOf(i) in db'.data
            && db'.data[InstanceKeyOf(i)].lease == input.leaseID
            && db'.data[InstanceKeyOf(i)].value.InstanceV?
            && !db'.data[InstanceKeyOf(i)].value.instance.check.Heartbeat?
  {
    assert Registered(input, serial).leaseID == input.leaseID && Registered(input, serial).check.TCPProbe?;
    hide Instance.Valid, Registered, CheckWrite;
  }

  /**
   * A heartbeat-mode instance gets lease 2; a probed one is registered with that lease id and then
   * deregistered. The first is still stored, and its heartbeat is refused.
   */
  lemma BorrowedLeaseStopsHeartbeats(beating: Instance, probed: Instance)
    requires Acceptable(beating) && Registered(probed, 2).Valid() && probed.namespace == beating.namespace
    requires beating.check.Heartbeat? && probed.check.TCPProbe? && probed.leaseID == 2
    requires InstanceKeyOf(Registered(probed, 2)) != OccupantKey(beating)
    ensures var db := Shared(beating, probed);
            var k := InstanceKeyOf(Registered(probed, 2));
            var (db', r) := Deregister(db, k.ns, k.service, k.id);
            && WellPlaced(db) && r == Ok(())
            && GetInstance(db', beating.namespace, beating.service, OccupantID(beating)).Ok?
            && Services.Heartbeat(db, beating.namespace, beating.service, OccupantID(beating), 0).1.Ok?
            && Services.Heartbeat(db', beating.namespace, beating.service, OccupantID(beating), 0).1 == Err(NotFound)
  {
    var db := Shared(beating, probed);
    AcceptableNames(beating);
    OpenedIsOneNamespace(beating.namespace);
    OccupiedStore(beating);
    WrittenInstance(Opened(beating.namespace), beating, 1);
    SharedStore(beating, probed);
    WrittenInstance(Occupied(beating), probed, 2);
    var own, k := OccupantKey(beating), InstanceKeyOf(Registered(probed, 2));
    hide WellPlaced, Opened, Occupied, Shared, ValidName, OneNamespace, Written, Registered, Normalize, Acceptable, Instance.Valid;
    assert db.leases == Opened(beating.namespace).leases + {2};
    LeaseGoes(db, beating.namespace, own, k);
  }

  lemma LeaseGoes(db: State, ns: string, own: Key, k: Key)
    requires Open(db, ns) && own.InstanceK? && k.InstanceK? && own.ns == ns && k.ns == ns && own != k
    requires own in db.data && k in db.data && db.data[own].value.InstanceV? && db.data[k].value.InstanceV?
    requires db.data[own].lease == 2 && db.data[k].lease == 2 && 2 in db.leases
    requires db.data[own].value.instance.check.Heartbeat?
    ensures var (db', r) := Deregister(db, k.ns, k.service, k.id);
            && r == Ok(())
            && GetInstance(db', own.ns, own.service, own.id).Ok?
            && Services.Heartbeat(db, own.ns, own.service, own.id, 0).1.Ok?
            && Services.Heartbeat(db', own.ns, own.service, own.id, 0).1 == Err(NotFound)
  {
    var db' := Deregister(db, k.ns, k.service, k.id).0;
    assert CapabilityIndex.Same(db, db', NamespaceK(ns)) by {
      hide CheckWrite;
    }
    StaysOpenWhen(db, db', ns);
    hide CheckWrite;
  }

  // ------------------------------------------------------------- the config cache

  type Session = ConfigConvergence.Session
  type ConfigMove = ConfigConvergence.Move

  predicate TwoLayers(own: ConfigItem, global: ConfigItem) {
    && own.Valid() && global.Valid() && own.key == global.key
    && own.scope.ServiceScope? && global.scope.GlobalScope?
  }

  function Puts(own: ConfigItem, global: ConfigItem): (State, State, State) {
    var db0 := Opened(own.namespace);
    var db1 := PutConfig(db0, own, 0, 0).0;
    (db0, db1, PutConfig(db1, global, 0, 0).0)
  }

  function OwnKey(own: ConfigItem): Key {
    ServiceConfigK(own.namespace, own.service, own.key)
  }

  // ----------------------------------------------------------- write-only namespaces

  /** A namespace with one card, closed to readers afterwards. */
  function CardThenWriteOnly(card: AgentCard): State {
    Run(Start(), [CreateNamespaceOp(card.namespace, 0), PutCardOp(card, 0, 0, 0),
                  UpdateAccessModeOp(card.namespace, WriteOnly, 1, 0)])
  }

  function WithCard(card: AgentCard): State {
    PutCard(Opened(card.namespace), card, 0, 0, 0).0
  }

  lemma LastModeChange(card: AgentCard)
    ensures CardThenWriteOnly(card) == UpdateAccessMode(WithCard(card), card.namespace, WriteOnly, 1, 0).0
  {
    hide PutCard, UpdateAccessMode, Run, Start;
    ThirdStep(CreateNamespaceOp(card.namespace, 0), PutCardOp(card, 0, 0, 0), UpdateAccessModeOp(card.namespace, WriteOnly, 1, 0));
    assert [CreateNamespaceOp(card.namespace, 0), PutCardOp(card, 0, 0, 0)] ==
           [CreateNamespaceOp(card.namespace, 0)] + [PutCardOp(card, 0, 0, 0)];
    RunOfLast(Start(), [CreateNamespaceOp(card.namespace, 0)], PutCardOp(card, 0, 0, 0));
  }

  lemma OpenedIsWritable(ns: string)
    requires ValidName(ns)
    ensures AccessModes.Writable(Opened(ns), ns) && !exists agent :: CardK(ns, agent) in Opened(ns).data
  {
    OpenedIsOneNamespace(ns);
    hide WellPlaced, ValidName, Opened;
  }

  lemma CardIsPut(card: AgentCard)
    requires card.Valid()
    ensures var (db, k) := (WithCard(card), CardK(card.namespace, card.agentID));
            && PutCard(Opened(card.namespace), card, 0, 0, 0).1.Ok?
            && WellPlaced(db) && k in db.data && db.data[k].revision == 2
  {
    assert ValidName(card.namespace);
    hide WellPlaced, PutCard, AgentCard.Valid, Opened, OneNamespace, Open, CheckWrite, ValidName, AccessModes.Writable,
      AgentLaws.StorableCard, Start;
    OpenedIsOneNamespace(card.namespace);
    OpenedIsWritable(card.namespace);
    AgentLaws.CardIsStorable(card);
    AgentLaws.CardPutAcceptedExactly(Opened(card.namespace), card, 0, 0, 0);
    CardIsStored(Opened(card.namespace), card);
  }

  lemma CardIsStored(db: State, card: AgentCard)
    requires WellPlaced(db) && PutCard(db, card, 0, 0, 0).1.Ok?
    ensures var (db', k) := (PutCard(db, card, 0, 0, 0).0, CardK(card.namespace, card.agentID));
            WellPlaced(db') && k in db'.data && db'.data[k].revision == db.revision + 1
  {
    hide WellPlaced, PutCard;
    AgentLaws.CardPutStores(db, card, 0, 0, 0);
    PutCardStaysPlaced(db, card, 0, 0, 0);
  }

  lemma RestIsAsOpened(card: AgentCard, other: Key)
    requires card.Valid() && !other.CapabilityK? && other != CardK(card.namespace, card.agentID)
    ensures CapabilityIndex.Same(Opened(card.namespace), WithCard(card), other)
  {
    CardIsPut(card);
    OpenedIsOneNamespace(card.namespace);
    hide WellPlaced, PutCard, Opened, OneNamespace, Open;
    AgentLaws.CardPutTouchesNothingElse(Opened(card.namespace), card, 0, 0, 0, other);
  }

  lemma OpenedAtRevisionOne(ns: string)
    requires ValidName(ns)
    ensures GetNamespace(Opened(ns), ns).Ok? && GetNamespace(Opened(ns), ns).value.revision == 1
  {
    OpenedIsOneNamespace(ns);
  }

  lemma WriteOnlyStore(card: AgentCard, agent: string)
    requires card.Valid() && agent != card.agentID
    ensures var (ns, db) := (card.namespace, CardThenWriteOnly(card));
            && WellPlaced(db) && AccessModes.ModeAt(db, ns) == Some(WriteOnly) && NamespaceK(ns) in db.data
            && CardK(ns, card.agentID) in db.data && db.data[CardK(ns, card.agentID)].revision == 2
            && CardK(ns, agent) !in db.data
  {
    var (ns, before) := (card.namespace, WithCard(card));
    LastModeChange(card);
    CardIsPut(card);
    RestIsAsOpened(card, NamespaceK(ns));
    RestIsAsOpened(card, CardK(ns, agent));
    OpenedAtRevisionOne(ns);
    OpenedIsWritable(ns);
    hide WellPlaced, PutCard, AgentCard.Valid, Opened, UpdateAccessMode, CardThenWriteOnly, WithCard, ValidName, AccessModes.Writable;
    AccessModes.ModeChangeExactly(before, ns, WriteOnly, 1, 0);
    NamespaceStepsStayPlaced(before, ns, WriteOnly, 1, 0);
    CapabilityIndex.UpdateAccessModeChangesItsTarget(before, ns, WriteOnly, 1, 0, CardK(ns, card.agentID));
    CapabilityIndex.UpdateAccessModeChangesItsTarget(before, ns, WriteOnly, 1, 0, CardK(ns, agent));
  }

  /** In a write-only namespace a card can be created, but the stored one cannot be updated at its own revision. */
  lemma WriteOnlyRefusesCardUpdates(card: AgentCard, other: AgentCard)
    requires card.Valid() && other.Valid() && other.namespace == card.namespace && other.agentID != card.agentID
    ensures var db := CardThenWriteOnly(card);
            && CardK(card.namespace, card.agentID) in db.data && db.data[CardK(card.namespace, card.agentID)].revision == 2
            && PutCard(db, card, 2, 0, 0) == (db, Err(Forbidden))
            && PutCard(db, other, 0, 0, 0).1.Ok?
  {
    hide WellPlaced, PutCard, AgentCard.Valid, CardThenWriteOnly, AgentLaws.StorableCard, AccessModes.ModeAt, ValidName;
    var db := CardThenWriteOnly(card);
    WriteOnlyStore(card, other.agentID);
    AgentLaws.CardIsStorable(card);
    AgentLaws.CardIsStorable(other);
    AgentLaws.CardPutAcceptedExactly(db, card, 2, 0, 0);
    AgentLaws.CardPutAcceptedExactly(db, other, 0, 0, 0);
  }

  lemma ItemNames(own: ConfigItem)
    requires own.Valid() && own.scope.ServiceScope?
    ensures ValidName(own.namespace)
  {
  }

  lemma PutSucceeds(db: State, item: ConfigItem)
    requires item.Valid() && (item.scope.GlobalScope? || Open(db, item.namespace))
    requires ConfigKeyOf(item.scope, item.namespace, item.service, item.key) !in db.data
    ensures var k := ConfigKeyOf(item.scope, item.namespace, item.service, item.key);
            PutConfig(db, item, 0, 0) == (Store.Write(db, k, ConfigV(StampedConfig(item, 0)), 0),
                                          Ok(StampedConfig(item, 0).(revision := db.revision + 1)))
  {
    hide ConfigItem.Valid, CheckWrite, CheckRead, StampedConfig, ConfigKeyOf;
  }

  lemma PutsSucceed(own: ConfigItem, global: ConfigItem)
    requires TwoLayers(own, global)
    ensures var (db0, db1, db2) := Puts(own, global);
            && WellPlaced(db0) && WellPlaced(db1) && WellPlaced(db2)
            && db1 == Store.Write(db0, OwnKey(own), ConfigV(StampedConfig(own, 0)), 0)
            && db2 == Store.Write(db1, GlobalConfigK(global.key), ConfigV(StampedConfig(global, 0)), 0)
            && Open(db0, own.namespace) && Open(db1, own.namespace) && Open(db2, own.namespace)
            && (forall k :: k in db0.data <==> k == NamespaceK(own.namespace))
  {
    ItemNames(own);
    OpenedIsOneNamespace(own.namespace);
    var (db0, db1, db2) := Puts(own, global);
    hide ConfigItem.Valid, WellPlaced, PutConfig, Opened, OneNamespace, StampedConfig, ValidName;
    PutSucceeds(db0, own);
    PutConfigStaysPlaced(db0, own, 0, 0);
    StaysOpen(db0, OwnKey(own), ConfigV(StampedConfig(own, 0)), own.namespace);
    PutSucceeds(db1, global);
    PutConfigStaysPlaced(db1, global, 0, 0);
    StaysOpen(db1, GlobalConfigK(global.key), ConfigV(StampedConfig(global, 0)), own.namespace);
  }

  function InForce(own: ConfigItem): ConfigSdk.Items {
    map[own.key := Effective(own, own.key, ServiceScope)]
  }

  lemma NothingStored(db: State, ns: string, service: string, key: string)
    requires forall k :: k in db.data ==> k.NamespaceK?
    ensures Stored(db, ns, service, key) == None
  {
    StoredUnfolds(db, ns, service, key);
  }

  /** A service-level item is in force for its key, whether or not a global one is written after it. */
  lemma OwnIsStored(db: State, own: ConfigItem, global: ConfigItem, key: string)
    requires forall k :: k in db.data ==> k.NamespaceK?
    requires own.key == global.key
    ensures var db1 := Store.Write(db, OwnKey(own), ConfigV(own), 0);
            var db2 := Store.Write(db1, GlobalConfigK(global.key), ConfigV(global), 0);
            var effective := if key == own.key then Some(Effective(own, key, ServiceScope)) else None;
            Stored(db1, own.namespace, own.service, key) == effective && Stored(db2, own.namespace, own.service, key) == effective
  {
    var db1 := Store.Write(db, OwnKey(own), ConfigV(own), 0);
    var db2 := Store.Write(db1, GlobalConfigK(global.key), ConfigV(global), 0);
    StoredUnfolds(db1, own.namespace, own.service, key);
    StoredUnfolds(db2, own.namespace, own.service, key);
    hide Stored;
  }

  lemma LoadAnswers(db: State, ns: string, service: string, items: ConfigSdk.Items)
    requires Open(db, ns)
    requires forall key :: ConfigConvergence.Lookup(items, key) == Stored(db, ns, service, key)
    ensures ResolveReturns(Ok(items), db, ResolveInput(ns, service, map[], false))
  {
    hide CheckRead, CheckWrite, Stored;
    var input := ResolveInput(ns, service, map[], false);
    forall key
      ensures HoldsStrongest(items, db, input, key)
    {
      assert ConfigConvergence.Lookup(items, key) == Stored(db, ns, service, key);
    }
  }

  /** What loads answer before and after the two puts. */
  lemma Loads(own: ConfigItem, global: ConfigItem)
    requires TwoLayers(own, global)
    ensures var (db0, db1, db2) := Puts(own, global);
            var input := ResolveInput(own.namespace, own.service, map[], false);
            && ResolveReturns(Ok(map[]), db0, input)
            && ResolveReturns(Ok(InForce(own)), db1, input)
            && ResolveReturns(Ok(InForce(own)), db2, input)
            && Stored(db2, own.namespace, own.service, own.key) == Some(Effective(own, own.key, ServiceScope))
  {
    hide WellPlaced, Puts, ConfigItem.Valid, Open, Stored, ResolveReturns;
    PutsSucceed(own, global);
    var (db0, db1, db2) := Puts(own, global);
    StampKeepsValue(own, 0);
    StampKeepsValue(global, 0);
    hide StampedConfig;
    var items: ConfigSdk.Items := map[];
    forall key
      ensures ConfigConvergence.Lookup(items, key) == Stored(db0, own.namespace, own.service, key)
      ensures ConfigConvergence.Lookup(InForce(own), key) == Stored(db1, own.namespace, own.service, key)
      ensures ConfigConvergence.Lookup(InForce(own), key) == Stored(db2, own.namespace, own.service, key)
    {
      NothingStored(db0, own.namespace, own.service, key);
      OwnIsStored(db0, StampedConfig(own, 0), StampedConfig(global, 0), key);
    }
    assert ConfigConvergence.Lookup(InForce(own), own.key) == Some(Effective(own, own.key, ServiceScope));
    hide ConfigConvergence.Lookup, InForce;
    LoadAnswers(db0, own.namespace, own.service, items);
    LoadAnswers(db1, own.namespace, own.service, InForce(own));
    LoadAnswers(db2, own.namespace, own.service, InForce(own));
  }

  function Joined(own: ConfigItem, global: ConfigItem): Session {
    ConfigConvergence.Session(own.namespace, own.service, Puts(own, global).0, [], [], [], map[], false, false)
  }

  /** The client loads, then each of the two puts is made and delivered. */
  function Deliveries(own: ConfigItem, global: ConfigItem): seq<ConfigMove> {
    var (_, db1, db2) := Puts(own, global);
    [ConfigConvergence.Load(Ok(map[])),
     ConfigConvergence.Serve(db1), ConfigConvergence.Deliver(ServiceScope, Ok(InForce(own))),
     ConfigConvergence.Serve(db2), ConfigConvergence.Deliver(GlobalScope, Ok(InForce(own)))]
  }

  lemma OneMove(s: Session, m: ConfigMove, rest: seq<ConfigMove>)
    ensures ConfigConvergence.SessionRun(s, [m] + rest) == ConfigConvergence.SessionRun(ConfigConvergence.SessionStep(s, m), rest)
    ensures ConfigConvergence.AllPossible(s, [m] + rest) <==>
            ConfigConvergence.Possible(s, m) && ConfigConvergence.AllPossible(ConfigConvergence.SessionStep(s, m), rest)
  {
    assert ([m] + rest)[1..] == rest;
  }

  ghost predicate Idle(s: Session) {
    s.global == [] && s.shared == [] && s.own == [] && !s.stopped
  }

  lemma ScopeEventsOfOne(e: LogEvent, scope: Scope, ns: string, service: string)
    ensures ConfigConvergence.ScopeEvents([e], scope, ns, service) ==
            if ConfigServiceObject.AtScope(e.key, scope, ns, service) then [e] else []
  {
    assert [e][..0] == [];
  }

  lemma ServeIdle(s: Session, later: State, e: LogEvent)
    requires Idle(s) && later.log == s.db.log + [e]
    ensures ConfigConvergence.SessionStep(s, ConfigConvergence.Serve(later)) ==
            s.(db := later,
               global := ConfigConvergence.ScopeEvents([e], GlobalScope, s.ns, s.service),
               shared := ConfigConvergence.ScopeEvents([e], NamespaceScope, s.ns, s.service),
               own := ConfigConvergence.ScopeEvents([e], ServiceScope, s.ns, s.service))
  {
    hide ConfigConvergence.ScopeEvents, ConfigConvergence.Delivered;
    assert later.log[|s.db.log|..] == [e];
    assert forall x: seq<LogEvent> :: [] + x == x;
  }

  /** A put on an idle session queues one event, on the stream of its scope. */
  lemma PutIsQueued(s: Session, k: Key, c: ConfigItem, scope: Scope)
    requires Idle(s) && (scope.ServiceScope? || scope.GlobalScope?)
    requires ConfigServiceObject.AtScope(k, scope, s.ns, s.service)
    ensures var later := Store.Write(s.db, k, ConfigV(c), 0);
            ConfigConvergence.SessionStep(s, ConfigConvergence.Serve(later)) ==
            s.(db := later).WithQueue(scope, [Store.Event(Store.PutEvent, k, ConfigV(c), later.revision)])
  {
    var later := Store.Write(s.db, k, ConfigV(c), 0);
    var e := Store.Event(Store.PutEvent, k, ConfigV(c), later.revision);
    hide ConfigConvergence.ScopeEvents, ConfigConvergence.SessionStep;
    ServeIdle(s, later, e);
    ScopeEventsOfOne(e, GlobalScope, s.ns, s.service);
    ScopeEventsOfOne(e, NamespaceScope, s.ns, s.service);
    ScopeEventsOfOne(e, ServiceScope, s.ns, s.service);
  }

  /** Its delivery leaves the session idle and its value cached. */
  lemma PutIsDelivered(s: Session, e: LogEvent, scope: Scope, effective: Result<ConfigSdk.Items>)
    requires Idle(s) && (scope.ServiceScope? || scope.GlobalScope?) && e.kind.PutEvent? && e.value.ConfigV?
    ensures var c := e.value.config;
            ConfigConvergence.Delivered(s.WithQueue(scope, [e]), scope, effective) ==
            s.(items := s.items[c.key := EffectiveItem(c.key, c.value, c.valueType, c.scope)])
  {
    hide Render;
    assert [e][1..] == [];
  }

  /** Making a put and delivering its event, on an idle session. */
  lemma PutAndDeliver(s: Session, k: Key, c: ConfigItem, scope: Scope, effective: Result<ConfigSdk.Items>)
    requires Idle(s) && (scope.ServiceScope? || scope.GlobalScope?)
    requires ConfigServiceObject.AtScope(k, scope, s.ns, s.service)
    ensures var later := Store.Write(s.db, k, ConfigV(c), 0);
            var s1 := ConfigConvergence.SessionStep(s, ConfigConvergence.Serve(later));
            && s1.db == later && s1.ns == s.ns && s1.service == s.service
            && ConfigConvergence.SessionStep(s1, ConfigConvergence.Deliver(scope, effective)) ==
               s.(db := later, items := s.items[c.key := EffectiveItem(c.key, c.value, c.valueType, c.scope)])
  {
    var later := Store.Write(s.db, k, ConfigV(c), 0);
    var e := Store.Event(Store.PutEvent, k, ConfigV(c), later.revision);
    PutIsQueued(s, k, c, scope);
    PutIsDelivered(s.(db := later), e, scope, effective);
    hide ConfigConvergence.Delivered, ConfigConvergence.ScopeEvents;
  }

  lemma NoMoves(s: Session)
    ensures ConfigConvergence.SessionRun(s, []) == s && ConfigConvergence.AllPossible(s, [])
  {
  }

  /** A put and its delivery at the head of a run. */
  lemma TwoMoves(s: Session, k: Key, c: ConfigItem, scope: Scope, effective: Result<ConfigSdk.Items>, rest: seq<ConfigMove>)
    requires Idle(s) && (scope.ServiceScope? || scope.GlobalScope?)
    requires ConfigServiceObject.AtScope(k, scope, s.ns, s.service)
    requires var later := Store.Write(s.db, k, ConfigV(c), 0);
             WellPlaced(later) && ResolveReturns(effective, later, s.Input())
    ensures var later := Store.Write(s.db, k, ConfigV(c), 0);
            var moves := [ConfigConvergence.Serve(later)] + ([ConfigConvergence.Deliver(scope, effective)] + rest);
            var next := s.(db := later, items := s.items[c.key := EffectiveItem(c.key, c.value, c.valueType, c.scope)]);
            && ConfigConvergence.SessionRun(s, moves) == ConfigConvergence.SessionRun(next, rest)
            && (ConfigConvergence.AllPossible(s, moves) <==> ConfigConvergence.AllPossible(next, rest))
  {
    hide WellPlaced, ResolveReturns, ConfigConvergence.SessionStep, ConfigConvergence.SessionRun, ConfigConvergence.AllPossible;
    var later := Store.Write(s.db, k, ConfigV(c), 0);
    var (serve, deliver) := (ConfigConvergence.Serve(later), ConfigConvergence.Deliver(scope, effective));
    PutAndDeliver(s, k, c, scope, effective);
    OneMove(s, serve, [deliver] + rest);
    OneMove(ConfigConvergence.SessionStep(s, serve), deliver, rest);
  }

  /**
   * A whole session, loaded first and drained at the end, in which the put of a global value replaces
   * the cached service-level value that stays in force.
   */
  lemma GlobalPutHidesServiceValue(own: ConfigItem, global: ConfigItem)
    requires TwoLayers(own, global)
    ensures var (s, moves) := (Joined(own, global), Deliveries(own, global));
            var s' := ConfigConvergence.SessionRun(s, moves);
            && ConfigConvergence.JustOpened(s) && ConfigConvergence.AllPossible(s, moves)
            && s'.synced && Idle(s')
            && ConfigConvergence.Lookup(s'.items, own.key) == Some(Effective(global, own.key, GlobalScope))
            && Stored(s'.db, own.namespace, own.service, own.key) == Some(Effective(own, own.key, ServiceScope))
  {
    hide WellPlaced, Puts, ConfigItem.Valid, ResolveReturns, Stored, Open, InForce, ConfigConvergence.SessionRun,
      ConfigConvergence.AllPossible, ConfigConvergence.Delivered, ConfigConvergence.ScopeEvents;
    PutsSucceed(own, global);
    Loads(own, global);
    StampKeepsValue(own, 0);
    StampKeepsValue(global, 0);
    hide StampedConfig;
    var (db0, db1, db2) := Puts(own, global);
    var (c1, c2) := (StampedConfig(own, 0), StampedConfig(global, 0));
    var effective: Result<ConfigSdk.Items> := Ok(InForce(own));
    var s0 := Joined(own, global);
    var s1 := s0.(synced := true);
    var s2 := s1.(db := db1, items := s1.items[c1.key := EffectiveItem(c1.key, c1.value, c1.valueType, c1.scope)]);
    var s3 := s2.(db := db2, items := s2.items[c2.key := EffectiveItem(c2.key, c2.value, c2.valueType, c2.scope)]);
    TwoMoves(s2, GlobalConfigK(global.key), c2, GlobalScope, effective, []);
    var last := [ConfigConvergence.Serve(db2)] + ([ConfigConvergence.Deliver(GlobalScope, effective)] + []);
    TwoMoves(s1, OwnKey(own), c1, ServiceScope, effective, last);
    var middle := [ConfigConvergence.Serve(db1)] + ([ConfigConvergence.Deliver(ServiceScope, effective)] + last);
    OneMove(s0, ConfigConvergence.Load(Ok(map[])), middle);
    assert Deliveries(own, global) == [ConfigConvergence.Load(Ok(map[]))] + middle;
    NoMoves(s3);
  }

  lemma StampKeepsValue(c: ConfigItem, now: Time)
    ensures var s := StampedConfig(c, now);
            s.key == c.key && s.value == c.value && s.valueType == c.valueType && s.scope == c.scope &&
            s.namespace == c.namespace && s.service == c.service
  {
  }

  // ---------------------------------------------------------------- event streams

  /** An oversized event hides every event after it. */
  lemma OversizedEventEndsTheStream<T(!new)>(m: Sse.Message<T>, later: seq<Sse.Message<T>>, enc: Sse.Message<T> -> string,
                                             dec: string -> Option<Sse.Message<T>>)
    requires Sse.Codec(enc, dec) && '\n' !in m.kind && forall n :: n in later ==> '\n' !in n.kind
    requires |enc(m)| >= Sse.MAX_TOKEN
    ensures Sse.Read(Sse.Written([m] + later, enc), dec) == []
  {
    hide Sse.Codec, Sse.Read, Sse.Written;
    Sse.WrittenEventsReadBack([m] + later, enc, dec);
  }
}
