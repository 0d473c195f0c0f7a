/** The instance registry over the string-keyed store. */
module RegistryServiceObject {
  import opened Outcome
  import opened Model
  import opened Keyspace
  import opened HealthRules
  import opened Services
  import opened Invariants
  import opened Representation
  import opened Views
  import opened Watching
  import opened MemoryStoreObject
  import opened NamespaceServiceObject
  import Store
  import Text

  predicate PathOrder(left: Instance, right: Instance) {
    Text.Less(Path(left), Path(right))
  }

  class RegistryService {
    const store: MemoryStore
    const namespaces: NamespaceService
    var idCounter: nat

    constructor (store: MemoryStore, namespaces: NamespaceService)
      ensures this.store == store && this.namespaces == namespaces && idCounter == 0
    {
      this.store, this.namespaces, idCounter := store, namespaces, 0;
    }

    ghost predicate Serves(a: State)
      reads store
    {
      namespaces.store == store && store.Valid() && Represents(store.Contents(), a)
    }

    method NewInstanceID(service: string) returns (id: string)
      modifies this`idCounter
      ensures idCounter == old(idCounter) + 1 && id == Services.NewInstanceID(service, idCounter)
    {
      idCounter := idCounter + 1;
      id := service + "-" + Decimal(idCounter);
    }

    method Register(input: Instance, now: Time, ghost a: State) returns (r: Result<Instance>)
      requires Serves(a)
      modifies store, this`idCounter
      ensures Serves(Services.Register(a, input, old(idCounter) + 1, now).0)
      ensures r == Services.Register(a, input, old(idCounter) + 1, now).1
      ensures idCounter == old(idCounter) + if input.instanceID == "" then 1 else 0
      ensures Kept(old(store.State()), store.State())
    {
      hide Represents, MemoryStore.Valid, InstanceKey, Services.CheckWrite, Placed, ValidKey,
        Instance.Valid, Services.NewInstanceID, NormalProbe, Instance.Meta, Kept;
      KeptIsReflexive(store.State());
      var instance := FillDefaults(input);
      if instance.instanceID == "" {
        var id := NewInstanceID(instance.service);
        instance := instance.(instanceID := id);
      }
      ghost var registered := Registered(input, old(idCounter) + 1);
      if !instance.Valid() {
        return Err(InvalidArgument);
      }
      RegisteredIsPlaced(a, input, old(idCounter) + 1, now);
      hide Normalize, Registered;
      var _ :- namespaces.CheckWrite(instance.namespace, false, a);
      ghost var (a1, leased) := Leased(a, registered, now);
      instance := instance.(createdAt := now, updatedAt := now, statusUpdatedAt := now);
      if instance.check.Heartbeat? {
        OperationsAreRepresented(store.Contents(), a, Store.GrantOp);
        ResultsAgree(store.Contents(), a, NamespaceK(""), 0, InstanceV(instance), 0);
        var lease := store.GrantLease();
        instance := instance.(leaseID := lease, lastHeartbeatAt := now);
      }
      ghost var granted := store.State();
      PlacedKeysAreValid(InstanceKeyOf(leased), InstanceV(leased));
      OperationsAreRepresented(store.Contents(), a1, Store.CreateOp(InstanceKeyOf(leased), InstanceV(leased), leased.leaseID));
      ResultsAgree(store.Contents(), a1, InstanceKeyOf(leased), 0, InstanceV(leased), leased.leaseID);
      var revision := store.Create(InstanceKey(instance.namespace, instance.service, instance.instanceID),
                                   InstanceV(instance), instance.leaseID);
      KeptIsTransitive(old(store.State()), granted, store.State());
      if revision.Err? {
        return Err(revision.code);
      }
      return Ok(instance.(revision := revision.value));
    }

    method Get(ns: string, service: string, id: string, ghost a: State) returns (r: Result<Instance>)
      requires Represents(store.Contents(), a)
      ensures r == GetInstance(a, ns, service, id)
    {
      hide Represents, InstanceKey;
      LookupsAgree(store.Contents(), a, InstanceK(ns, service, id));
      var record :- store.Get(InstanceKey(ns, service, id));
      return DecodeInstance(record);
    }

    method Update(input: UpdateInput, now: Time, ghost a: State) returns (r: Result<Instance>)
      requires Serves(a)
      modifies store
      ensures Serves(Services.Update(a, input, now).0)
      ensures r == Services.Update(a, input, now).1
      ensures Kept(old(store.State()), store.State())
    {
      hide Represents, MemoryStore.Valid, InstanceKey, Services.CheckWrite, GetInstance, Normalize, Instance.Valid, Kept;
      KeptIsReflexive(store.State());
      if input.expected <= 0 {
        return Err(InvalidArgument);
      }
      var _ :- namespaces.CheckWrite(input.namespace, false, a);
      var current :- Get(input.namespace, input.service, input.instanceID, a);
      if input.weight.Some? {
        current := current.(weight := input.weight.value);
      }
      if input.metadata.Some? {
        current := current.(metadata := input.metadata);
      }
      if input.version.Some? {
        current := current.(version := input.version.value);
      }
      current := current.(updatedAt := now);
      current := FillDefaults(current);
      if !current.Valid() {
        return Err(InvalidArgument);
      }
      ghost var k := InstanceK(input.namespace, input.service, input.instanceID);
      OperationsAreRepresented(store.Contents(), a, Store.CasOp(k, input.expected, InstanceV(current), current.leaseID));
      ResultsAgree(store.Contents(), a, k, input.expected, InstanceV(current), current.leaseID);
      var revision :- store.Cas(InstanceKey(input.namespace, input.service, input.instanceID), input.expected,
                                InstanceV(current), current.leaseID);
      return Ok(current.(revision := revision));
    }

    method Heartbeat(ns: string, service: string, id: string, now: Time, ghost a: State) returns (r: Result<Instance>)
      requires Serves(a)
      modifies store
      ensures Serves(Services.Heartbeat(a, ns, service, id, now).0)
      ensures r == Services.Heartbeat(a, ns, service, id, now).1
      ensures Kept(old(store.State()), store.State())
    {
      hide Represents, MemoryStore.Valid, InstanceKey, Services.CheckWrite, GetInstance, ValidKey, Kept;
      KeptIsReflexive(store.State());
      var _ :- namespaces.CheckWrite(ns, false, a);
      var instance :- Get(ns, service, id, a);
      if !instance.check.Heartbeat? {
        return Err(FailedPrecondition);
      }
      ghost var k := InstanceK(ns, service, id);
      ResultsAgree(store.Contents(), a, k, 0, InstanceV(instance), instance.leaseID);
      if instance.leaseID != 0 {
        var _ :- store.KeepAliveOnce(instance.leaseID);
      }
      instance := instance.(lastHeartbeatAt := now, updatedAt := now);
      instance := instance.(status := Health, statusUpdatedAt := now);
      FoundKeysAreValid(store.Contents(), a, ns, service, id);
      OperationsAreRepresented(store.Contents(), a, Store.PutOp(k, InstanceV(instance), instance.leaseID));
      ResultsAgree(store.Contents(), a, k, 0, InstanceV(instance), instance.leaseID);
      // A plain put has no failure to report.
      var revision := store.Put(InstanceKey(ns, service, id), InstanceV(instance), instance.leaseID);
      return Ok(instance.(revision := revision.value));
    }

    method Deregister(ns: string, service: string, id: string, ghost a: State) returns (r: Result<()>)
      requires Serves(a)
      modifies store
      ensures Serves(Services.Deregister(a, ns, service, id).0)
      ensures r == Services.Deregister(a, ns, service, id).1
      ensures Kept(old(store.State()), store.State())
    {
      hide Represents, MemoryStore.Valid, InstanceKey, Services.CheckWrite, GetInstance, Kept;
      KeptIsReflexive(store.State());
      var _ :- namespaces.CheckWrite(ns, false, a);
      var instance :- Get(ns, service, id, a);
      ghost var a1 := a;
      if instance.leaseID != 0 {
        OperationsAreRepresented(store.Contents(), a, Store.RevokeOp(instance.leaseID));
        a1 := Store.Revoke(a, instance.leaseID);
        store.RevokeLease(instance.leaseID);
      }
      ghost var revoked := store.State();
      ghost var k := InstanceK(ns, service, id);
      OperationsAreRepresented(store.Contents(), a1, Store.DeleteOp(k));
      ResultsAgree(store.Contents(), a1, k, 0, InstanceV(instance), 0);
      var deleted := store.Delete(InstanceKey(ns, service, id));
      KeptIsTransitive(old(store.State()), revoked, store.State());
      if deleted.Err? {
        return Err(deleted.code);
      }
      return Ok(());
    }

    method ApplyProbeResult(ns: string, service: string, id: string, success: bool, override: Option<Policy>, now: Time,
                            ghost a: State)
      returns (r: Result<(Instance, bool)>)
      requires Serves(a)
      modifies store
      ensures Serves(Probe(a, ns, service, id, success, override, now).0)
      ensures r == Probe(a, ns, service, id, success, override, now).1
      ensures Kept(old(store.State()), store.State())
    {
      hide Represents, MemoryStore.Valid, InstanceKey, GetInstance, ApplyProbe, ValidKey, Kept;
      KeptIsReflexive(store.State());
      var instance :- Get(ns, service, id, a);
      if !instance.check.IsProbe() {
        return Err(FailedPrecondition);
      }
      var policy := DEFAULT_POLICY;
      if override.Some? {
        policy := override.value;
      }
      var next, drop := HealthRules.ApplyProbeResult(instance, success, now, policy);
      ghost var k := InstanceK(ns, service, id);
      ResultsAgree(store.Contents(), a, k, 0, InstanceV(next), 0);
      if drop {
        OperationsAreRepresented(store.Contents(), a, Store.DeleteOp(k));
        var _ :- store.Delete(InstanceKey(ns, service, id));
        return Ok((next, true));
      }
      FoundKeysAreValid(store.Contents(), a, ns, service, id);
      OperationsAreRepresented(store.Contents(), a, Store.PutOp(k, InstanceV(next), 0));
      var revision := store.Put(InstanceKey(ns, service, id), InstanceV(next), 0);
      return Ok((next.(revision := revision.value), false));
    }

    /** Decodes the records and keeps the instances that pass, in record order. */
    method Filtered(records: seq<Record>, filter: ListFilter) returns (r: Result<seq<Instance>>)
      requires KeyedByPath(records)
      ensures r.Ok? ==> forall i :: i in r.value <==> Passes(i, filter) && Decoded(records, i)
      ensures r.Ok? ==> Text.Sorted(r.value, PathOrder) && forall x, y :: 0 <= x < y < |r.value| ==> PathOrder(r.value[x], r.value[y])
      ensures r.Err? ==> exists n :: 0 <= n < |records| && DecodeInstance(RecOf(records[n])).Err?
    {
      hide DecodeInstance, Passes, Text.Less, Path, InstanceRootPrefix;
      var instances: seq<Instance> := [];
      for n := 0 to |records|
        invariant forall i :: i in instances <==> Passes(i, filter) && Decoded(records[..n], i)
        invariant forall x, y :: 0 <= x < y < |instances| ==> PathOrder(instances[x], instances[y])
      {
        var instance := DecodeInstance(RecOf(records[n]));
        if instance.Err? {
          return Err(instance.code);
        }
        PathsFollowRecords(records, n, instances, instance.value);
        assert records[..n + 1] == records[..n] + [records[n]];
        if Passes(instance.value, filter) {
          instances := instances + [instance.value];
        }
      }
      assert records[..|records|] == records;
      forall x, y | 0 <= x < y < |instances|
        ensures !PathOrder(instances[y], instances[x])
      {
        Text.LessIsTotal(Path(instances[x]), Path(instances[y]));
      }
      return Ok(instances);
    }

    method List(filter: ListFilter, ghost a: State) returns (r: Result<seq<Instance>>)
      requires namespaces.store == store && Represents(store.Contents(), a) && WellPlaced(a)
      ensures ListReturns(r, a, filter)
    {
      hide Represents, WellPlaced, InstanceServicePrefix, InstanceNamespacePrefix, Services.CheckRead, ListsPrefix,
        IsListing, Passes, DecodeInstance, KeyedByPath, Text.SortBy, PathOrder;
      var _ :- namespaces.CheckRead(filter.namespace, filter.admin, a);
      var prefix := InstanceNamespacePrefix(filter.namespace);
      if filter.service != "" {
        prefix := InstanceServicePrefix(filter.namespace, filter.service);
      }
      var records := store.List(prefix);
      RecordsAreKeyedByPath(store.Contents(), a, filter, records);
      var instances := Filtered(records, filter);
      if instances.Ok? {
        FilteredIsListing(store.Contents(), a, filter, records, instances.value);
        Text.SortByOfSorted(instances.value, PathOrder);
        instances := Ok(Text.SortBy(instances.value, PathOrder));
      }
      return instances;
    }
  }

  lemma FoundKeysAreValid(c: Store.Db<string>, a: State, ns: string, service: string, id: string)
    requires Represents(c, a) && GetInstance(a, ns, service, id).Ok?
    ensures ValidKey(InstanceK(ns, service, id))
  {
    hide Render, ValidKey, SameLog;
    KeysAreValid(c.data, a.data);
  }

  // ------------------------------------------------------ listings of records

  predicate Decoded(records: seq<Record>, i: Instance) {
    exists n :: 0 <= n < |records| && DecodeInstance(RecOf(records[n])) == Ok(i)
  }

  /** The records ascend by key, and each instance's path is the rest of its record's key. */
  ghost predicate KeyedByPath(records: seq<Record>) {
    && (forall i, j :: 0 <= i < j < |records| ==> Text.Less(records[i].key, records[j].key))
    && (forall n :: 0 <= n < |records| ==>
          var i := DecodeInstance(RecOf(records[n]));
          i.Ok? ==> records[n].key == InstanceRootPrefix() + Path(i.value))
  }

  lemma PathsFollowRecords(records: seq<Record>, n: nat, instances: seq<Instance>, next: Instance)
    requires KeyedByPath(records) && n < |records|
    requires DecodeInstance(RecOf(records[n])) == Ok(next)
    requires forall i :: i in instances ==> Decoded(records[..n], i)
    ensures forall i :: i in instances ==> PathOrder(i, next)
  {
    hide DecodeInstance, Text.Less, Path, InstanceRootPrefix;
    forall i | i in instances
      ensures PathOrder(i, next)
    {
      var m :| 0 <= m < n && DecodeInstance(RecOf(records[..n][m])) == Ok(i);
      assert records[..n][m] == records[m];
      Text.LessUnderPrefix(InstanceRootPrefix(), Path(i), Path(next));
    }
  }

  function Prefix(f: ListFilter): string {
    if f.service != "" then InstanceServicePrefix(f.namespace, f.service) else InstanceNamespacePrefix(f.namespace)
  }

  lemma InstanceKeyIsRootAndPath(i: Instance)
    ensures Render(InstanceKeyOf(i)) == InstanceRootPrefix() + Path(i)
  {
    Regroup(InstanceRootPrefix(), i.namespace, i.service, i.instanceID);
    assert i.namespace + "/" + (i.service + "/" + i.instanceID) == Path(i);
  }

  lemma PrefixIsScope(k: Key, f: ListFilter)
    requires ValidKey(k)
    ensures Prefix(f) <= Render(k) <==> InScope(k, f)
  {
    hide Render, InstanceServicePrefix, InstanceNamespacePrefix, ValidKey;
    InstancePrefixesAreExact(k, f.namespace, f.service);
    if f.service == "" && InstanceNamespacePrefix(f.namespace) <= Render(k) {
      NamespacePrefixIsUnderRoot(f.namespace);
      StartsWithHead(k, InstanceK("", "", ""));
    }
  }

  lemma NamespacePrefixIsUnderRoot(ns: string)
    ensures Head(InstanceK("", "", "")) <= InstanceNamespacePrefix(ns)
  {
  }

  /** A listed record is the stored record of the key its instance names. */
  lemma ListedRecord(c: Store.Db<string>, a: State, f: ListFilter, records: seq<Record>, n: nat)
    requires Represents(c, a) && WellPlaced(a)
    requires ListsPrefix(records, c.data, Prefix(f)) && n < |records|
    ensures DecodeInstance(RecOf(records[n])).Ok?
    ensures var i := DecodeInstance(RecOf(records[n])).value;
            && InstanceKeyOf(i) in a.data && a.data[InstanceKeyOf(i)] == RecOf(records[n])
            && InScope(InstanceKeyOf(i), f) && records[n].key == Render(InstanceKeyOf(i))
  {
    hide Render, ValidKey, Store.Sound, SameLog, Instance.Valid, Normalize, Text.Less, InScope, Prefix;
    assert records[n].key in c.data;
    var k :| k in a.data && Render(k) == records[n].key;
    assert ValidKey(k);
    PrefixIsScope(k, f);
    assert k.InstanceK? by {
      assert InScope(k, f);
      ScopeHoldsInstances(k, f);
    }
    assert Placed(k, a.data[k].value);
  }

  lemma ScopeHoldsInstances(k: Key, f: ListFilter)
    requires InScope(k, f)
    ensures k.InstanceK?
  {
  }

  lemma RecordsAreKeyedByPath(c: Store.Db<string>, a: State, f: ListFilter, records: seq<Record>)
    requires Represents(c, a) && WellPlaced(a)
    requires ListsPrefix(records, c.data, Prefix(f))
    ensures KeyedByPath(records)
    ensures forall n :: 0 <= n < |records| ==> DecodeInstance(RecOf(records[n])).Ok?
  {
    hide Represents, WellPlaced, Prefix, InScope, Render, Path, InstanceRootPrefix, DecodeInstance;
    forall n | 0 <= n < |records|
      ensures DecodeInstance(RecOf(records[n])).Ok?
      ensures records[n].key == InstanceRootPrefix() + Path(DecodeInstance(RecOf(records[n])).value)
    {
      ListedRecord(c, a, f, records, n);
      InstanceKeyIsRootAndPath(DecodeInstance(RecOf(records[n])).value);
    }
  }

  lemma FilteredIsListing(c: Store.Db<string>, a: State, f: ListFilter, records: seq<Record>, items: seq<Instance>)
    requires Represents(c, a) && WellPlaced(a)
    requires ListsPrefix(records, c.data, Prefix(f))
    requires forall i :: i in items <==> Passes(i, f) && Decoded(records, i)
    requires forall x, y :: 0 <= x < y < |items| ==> PathOrder(items[x], items[y])
    ensures IsListing(items, a, f)
  {
    hide WellPlaced, Prefix, InScope, Render, Path, DecodeInstance, Passes, SameLog, ValidKey, Text.Less;
    forall i
      ensures i in items <==> Listed(a, f, i)
    {
      if i in items {
        var n :| 0 <= n < |records| && DecodeInstance(RecOf(records[n])) == Ok(i);
        ListedRecord(c, a, f, records, n);
      }
      if Listed(a, f, i) {
        var k := InstanceKeyOf(i);
        assert ValidKey(k);
        PrefixIsScope(k, f);
        assert Render(k) in c.data;
        var n :| 0 <= n < |records| && records[n].key == Render(k);
        assert RecOf(records[n]) == a.data[k];
      }
    }
  }
}
