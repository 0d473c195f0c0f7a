/** The consumer's cache of a whole namespace, which tells instances apart by id alone. */
module NamespaceConvergence {
  import opened Outcome
  import opened Model
  import opened Keyspace
  import opened Services
  import opened Invariants
  import opened Views
  import opened Watching
  import opened DiscoveryServiceObject
  import opened Consumer
  import opened ConsumerConvergence
  import Store

  /** An instance is cached, up to revision and lease. */
  ghost predicate Holds(items: seq<Instance>, z: Instance) {
    exists i :: i in items && Strip(i) == z
  }

  ghost predicate Stores(db: State, ns: string, z: Instance) {
    z.namespace == ns && Held(Store.Cells(db.data), InstanceKeyOf(z)) == Some(z)
  }

  /** The cached instances are exactly the stored instances of the namespace. */
  ghost predicate MirrorsNamespace(items: seq<Instance>, db: State, ns: string) {
    forall z :: Holds(items, z) <==> Stores(db, ns, z)
  }

  lemma HoldsAfterOne(items: seq<Instance>, kind: Store.EventKind, i: Instance, z: Instance)
    ensures Holds(Applied(items, kind, i), z) <==>
            if i.instanceID == z.instanceID then kind.PutEvent? && Strip(i) == z else Holds(items, z)
  {
    WithoutForgetsOneID(items, i.instanceID, "");
    var kept := Without(items, i.instanceID);
    var next := Applied(items, kind, i);
    assert forall j :: j in next <==> j in kept || (kind.PutEvent? && j == i);
    assert forall j: Instance :: Strip(j).instanceID == j.instanceID;
    if i.instanceID != z.instanceID && Holds(items, z) {
      var j :| j in items && Strip(j) == z;
      assert j in next;
    }
    if kind.PutEvent? && Strip(i) == z {
      assert i in next;
    }
  }

  /** After a stream: what its last event about the id says, or what was cached before. */
  lemma {:induction false} HoldsAfterStream(items: seq<Instance>, events: seq<InstanceEvent>, z: Instance)
    ensures Holds(AfterEvents(items, events), z) <==>
            match LastAbout(events, z.instanceID)
            case Some(e) => Effect(e) == Some(z)
            case None => Holds(items, z)
    decreases |events|
  {
    if events != [] {
      var head, rest := events[0], events[1..];
      assert events == [head] + rest;
      LastAboutOfFirst(head, rest, z.instanceID);
      hide Holds;
      if head.Reset? {
        HoldsAfterStream(items, rest, z);
      } else {
        HoldsAfterOne(items, head.kind, head.payload, z);
        HoldsAfterStream(Applied(items, head.kind, head.payload), rest, z);
      }
    }
  }

  lemma StoredKeysAreHeld(db: State, k: Key)
    requires WellPlaced(db) && k.InstanceK?
    ensures var held := Held(Store.Cells(db.data), k);
            && (k in db.data <==> held.Some?)
            && (held.Some? ==> InstanceKeyOf(held.value) == k && k.service != "")
    ensures Store.Cells(db.data) == Store.Replay(db.log)
  {
    hide Store.Replay, Store.Ordered, Normalize;
    if k in db.data {
      assert Placed(k, db.data[k].value);
    }
  }

  lemma SnapshotOfNamespace(snapshot: seq<Instance>, db: State, ns: string)
    requires WellPlaced(db) && SlashFree(ns) && IsListing(snapshot, db, Everything(ns, ""))
    ensures MirrorsNamespace(snapshot, db, ns)
  {
    hide Store.Replay, Store.Ordered, Render, InstanceNamespacePrefix, Instance.Valid, Normalize;
    forall z
      ensures Holds(snapshot, z) <==> Stores(db, ns, z)
    {
      var k := InstanceKeyOf(z);
      if k in db.data {
        assert Placed(k, db.data[k].value);
        PlacedKeysAreValid(k, db.data[k].value);
        NamespaceScopeIsExact(k, Everything(ns, ""));
      }
      if Holds(snapshot, z) {
        var i :| i in snapshot && Strip(i) == z;
        assert Listed(db, Everything(ns, ""), i);
      }
      if Stores(db, ns, z) {
        var i := DecodeInstance(db.data[k]).value;
        assert Strip(i) == z;
        assert Listed(db, Everything(ns, ""), i);
        assert i in snapshot;
      }
    }
  }

  /** The last event about the id of a stored instance, if any since the subscription, is about that very instance. */
  ghost predicate LastEventIsOwn(db: State, from: nat, ns: string, service: string, id: string)
    requires from <= |db.log|
  {
    match LastAbout(ServiceEvents(db.log[from..], ns, "", false), id)
    case Some(e) => e.Changed? && e.payload.service == service
    case None => true
  }

  /**
   * A namespace cache fed by an unfiltered snapshot and all events since an earlier subscription is
   * right exactly if, for every stored instance, no service had a later event with the same id.
   */
  lemma NamespaceCacheConvergesExactly(db: State, past: State, snapshot: seq<Instance>, from: nat, ns: string)
    requires WellPlaced(db) && WellPlaced(past) && SlashFree(ns)
    requires past.log <= db.log && from <= |past.log|
    requires IsListing(snapshot, past, Everything(ns, ""))
    ensures MirrorsNamespace(AfterEvents(snapshot, ServiceEvents(db.log[from..], ns, "", false)), db, ns) <==>
            forall service, id :: InstanceK(ns, service, id) in db.data ==> LastEventIsOwn(db, from, ns, service, id)
  {
    hide WellPlaced, IsListing, AfterEvents, ServiceEvents, Holds, Stores, LastEventIsOwn, Everything;
    var items := AfterEvents(snapshot, ServiceEvents(db.log[from..], ns, "", false));
    SnapshotOfNamespace(snapshot, past, ns);
    if MirrorsNamespace(items, db, ns) {
      forall service, id | InstanceK(ns, service, id) in db.data
        ensures LastEventIsOwn(db, from, ns, service, id)
      {
        StoredKeysAreHeld(db, InstanceK(ns, service, id));
        var z := Held(Store.Cells(db.data), InstanceK(ns, service, id)).value;
        StoredIsStores(db, ns, service, id);
        assert Holds(items, z) <==> Stores(db, ns, z);
        OneInstanceOfNamespace(db, past, snapshot, from, ns, z);
      }
    }
    if forall service, id :: InstanceK(ns, service, id) in db.data ==> LastEventIsOwn(db, from, ns, service, id) {
      forall z
        ensures Holds(items, z) <==> Stores(db, ns, z)
      {
        OneInstanceOfNamespace(db, past, snapshot, from, ns, z);
        if Stores(db, ns, z) {
          StoresMeansStored(db, ns, z);
        }
      }
    }
  }

  lemma StoredIsStores(db: State, ns: string, service: string, id: string)
    requires WellPlaced(db) && InstanceK(ns, service, id) in db.data
    ensures Held(Store.Cells(db.data), InstanceK(ns, service, id)).Some?
    ensures var z := Held(Store.Cells(db.data), InstanceK(ns, service, id)).value;
            z.service == service && z.instanceID == id && Stores(db, ns, z)
  {
    hide WellPlaced, Held, Store.Cells, Store.Replay;
    StoredKeysAreHeld(db, InstanceK(ns, service, id));
  }

  lemma StoresMeansStored(db: State, ns: string, z: Instance)
    requires WellPlaced(db) && Stores(db, ns, z)
    ensures InstanceK(ns, z.service, z.instanceID) in db.data
  {
    hide WellPlaced, Held, Store.Cells, Store.Replay;
    StoredKeysAreHeld(db, InstanceKeyOf(z));
  }

  lemma OneInstanceOfNamespace(db: State, past: State, snapshot: seq<Instance>, from: nat, ns: string, z: Instance)
    requires WellPlaced(db) && WellPlaced(past)
    requires past.log <= db.log && from <= |past.log| && MirrorsNamespace(snapshot, past, ns)
    ensures var items := AfterEvents(snapshot, ServiceEvents(db.log[from..], ns, "", false));
            && (Stores(db, ns, z) ==> (Holds(items, z) <==> LastEventIsOwn(db, from, ns, z.service, z.instanceID)))
            && (!Stores(db, ns, z) ==> !Holds(items, z))
  {
    hide Placed, AfterEvents, ServiceEvents, Holds, Held, Touched, LastAbout, Store.Cells, Store.Replay, Store.Ordered, Strip;
    var events := ServiceEvents(db.log[from..], ns, "", false);
    HoldsAfterStream(snapshot, events, z);
    LastAboutIsLastWord(db.log, from, ns, "", z.instanceID);
    assert Store.Cells(db.data) == Store.Replay(db.log);
    var last := LastAbout(events, z.instanceID);
    if last.None? {
      assert Holds(snapshot, z) <==> Stores(past, ns, z);
      if z.namespace == ns {
        assert Watched(InstanceK(ns, z.service, z.instanceID), ns, "");
        UntouchedPast(db, past, from, InstanceKeyOf(z));
      }
    } else {
      var e := last.value;
      EffectIsItself(e, z);
      if Stores(db, ns, z) && e.payload.service == z.service {
        assert InstanceKeyOf(z) == InstanceK(ns, e.payload.service, z.instanceID);
      }
    }
  }

  lemma EffectIsItself(e: InstanceEvent, z: Instance)
    requires e.Changed?
    ensures Effect(e) == Some(z) ==> z.service == e.payload.service && z.namespace == e.payload.namespace
    ensures Effect(e) == Some(z) ==> InstanceKeyOf(z) == InstanceKeyOf(e.payload)
  {
  }

  /** No two services of the namespace ever used the same instance id. */
  ghost predicate IDsAreUnique(log: seq<LogEvent>, ns: string) {
    forall s, s', id :: Touched(log, InstanceK(ns, s, id)) && Touched(log, InstanceK(ns, s', id)) ==> s == s'
  }

  /** Ids that are unique across the services of the namespace are enough. */
  lemma UniqueIDsConverge(db: State, past: State, snapshot: seq<Instance>, from: nat, ns: string)
    requires WellPlaced(db) && WellPlaced(past) && SlashFree(ns) && IDsAreUnique(db.log, ns)
    requires past.log <= db.log && from <= |past.log|
    requires IsListing(snapshot, past, Everything(ns, ""))
    ensures MirrorsNamespace(AfterEvents(snapshot, ServiceEvents(db.log[from..], ns, "", false)), db, ns)
  {
    hide Placed, IsListing, AfterEvents, ServiceEvents, Touched, LastAbout, Held, Store.Cells, Store.Replay, Store.Ordered,
      MirrorsNamespace, Everything;
    NamespaceCacheConvergesExactly(db, past, snapshot, from, ns);
    forall service, id | InstanceK(ns, service, id) in db.data
      ensures LastEventIsOwn(db, from, ns, service, id)
    {
      LastAboutIsLastWord(db.log, from, ns, "", id);
      StoredKeysWereLogged(db, InstanceK(ns, service, id));
      var last := LastAbout(ServiceEvents(db.log[from..], ns, "", false), id);
      if last.Some? {
        TailIsInLog(db.log, from, InstanceK(ns, last.value.payload.service, id));
      }
    }
  }

  lemma StoredKeysWereLogged(db: State, k: Key)
    requires WellPlaced(db) && k.InstanceK? && k in db.data
    ensures Touched(db.log, k)
  {
    StoredKeysAreHeld(db, k);
    assert db.log[0..] == db.log && db.log[..0] == [];
    if !Touched(db.log[0..], k) {
      UntouchedSince(db.log, 0, k);
    }
  }

  lemma TailIsInLog(log: seq<LogEvent>, from: nat, k: Key)
    requires from <= |log| && Touched(log[from..], k)
    ensures Touched(log, k)
  {
    var n :| 0 <= n < |log[from..]| && log[from..][n].key == k;
    assert log[from + n].key == k;
  }
}
