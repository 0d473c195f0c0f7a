/** Discovery snapshots, and the translation of store events into instance events. */
module DiscoveryServiceObject {
  import opened Outcome
  import opened Model
  import opened Keyspace
  import opened Services
  import opened Invariants
  import opened Representation
  import opened Views
  import opened Watching
  import opened MemoryStoreObject
  import opened RegistryServiceObject
  import Store

  type InstanceEvent = WatchEvent<Instance>

  datatype SnapshotInput = SnapshotInput(
    namespace: string,
    service: string,
    group: string,
    version: string,
    metadata: map<string, string>,
    healthyOnly: Option<bool>)

  /** Only healthy instances unless the caller says otherwise. */
  function HealthyOnly(choice: Option<bool>): bool {
    if choice.Some? then choice.value else true
  }

  function FilterOf(input: SnapshotInput): ListFilter {
    ListFilter(input.namespace, input.service, input.group, input.version, input.metadata, HealthyOnly(input.healthyOnly), false)
  }

  /** One service, or the whole namespace where none is named. */
  function WatchPrefix(ns: string, service: string): string {
    if service != "" then InstanceServicePrefix(ns, service) else InstanceNamespacePrefix(ns)
  }

  /**
   * The instance events of a feed: a healthy-only watch passes over puts of unhealthy instances,
   * a compaction becomes a reset and ends the stream, and so does a document that is no instance.
   */
  function Translated(feed: seq<Feed>, healthyOnly: bool): seq<InstanceEvent>
    decreases |feed|
  {
    if feed == [] then []
    else if feed[0].Compacted? then [Reset(feed[0].revision)]
    else
      var e := feed[0].event;
      if !e.value.InstanceV? then []
      else if healthyOnly && e.kind.PutEvent? && !e.value.instance.status.Health? then Translated(feed[1..], healthyOnly)
      else [Changed(e.kind, e.key, e.revision, e.value.instance)] + Translated(feed[1..], healthyOnly)
  }

  class DiscoveryService {
    const store: MemoryStore
    const registry: RegistryService

    constructor (store: MemoryStore, registry: RegistryService)
      ensures this.store == store && this.registry == registry
    {
      this.store, this.registry := store, registry;
    }

    ghost predicate Wired() {
      registry.store == store && registry.namespaces.store == store
    }

    method Snapshot(input: SnapshotInput, ghost a: State) returns (r: Result<seq<Instance>>)
      requires Wired() && Represents(store.Contents(), a) && WellPlaced(a)
      ensures ListReturns(r, a, FilterOf(input))
    {
      hide Represents, WellPlaced, ListReturns;
      var healthyOnly := true;
      if input.healthyOnly.Some? {
        healthyOnly := input.healthyOnly.value;
      }
      r := registry.List(ListFilter(input.namespace, input.service, input.group, input.version, input.metadata,
                                    healthyOnly, false), a);
    }

    /** Opens the store watch behind a discovery watch. */
    method Watch(ns: string, service: string) returns (id: nat)
      requires store.Valid()
      modifies store
      ensures store.Valid() && id == old(store.nextID)
      ensures store.State() == HubStep(old(store.State()), Subscribe(WatchPrefix(ns, service)))
    {
      hide MemoryStore.Valid, InstanceServicePrefix, InstanceNamespacePrefix;
      var prefix := InstanceNamespacePrefix(ns);
      if service != "" {
        prefix := InstanceServicePrefix(ns, service);
      }
      id := store.Watch(prefix);
    }

    /** The loop of the goroutine behind a watch, over the items its store watch delivers. */
    method Forward(feed: seq<Feed>, choice: Option<bool>) returns (out: seq<InstanceEvent>)
      ensures out == Translated(feed, HealthyOnly(choice))
    {
      hide Translated;
      out := [];
      var healthyOnly := true;
      if choice.Some? {
        healthyOnly := choice.value;
      }
      assert feed[0..] == feed;
      NothingToTell(healthyOnly);
      for n := 0 to |feed|
        invariant out + Translated(feed[n..], healthyOnly) == Translated(feed, healthyOnly)
      {
        assert feed[n..] == [feed[n]] + feed[n + 1..];
        ToldFirst(feed[n], feed[n + 1..], healthyOnly);
        if feed[n].Compacted? {
          out := out + [Reset(feed[n].revision)];
          return;
        }
        var event := feed[n].event;
        if !event.value.InstanceV? {
          return;
        }
        if healthyOnly && event.kind.PutEvent? && !event.value.instance.status.Health? {
          continue;
        }
        out := out + [Changed(event.kind, event.key, event.revision, event.value.instance)];
      }
    }
  }

  lemma NothingToTell(healthyOnly: bool)
    ensures Translated([], healthyOnly) == []
  {
  }

  lemma ToldFirst(item: Feed, rest: seq<Feed>, healthyOnly: bool)
    ensures item.Compacted? ==> Translated([item] + rest, healthyOnly) == [Reset(item.revision)]
    ensures item.Change? && !item.event.value.InstanceV? ==> Translated([item] + rest, healthyOnly) == []
    ensures item.Change? && item.event.value.InstanceV? ==>
      var e := item.event;
      Translated([item] + rest, healthyOnly) ==
      (if healthyOnly && e.kind.PutEvent? && !e.value.instance.status.Health? then []
       else [Changed(e.kind, e.key, e.revision, e.value.instance)]) + Translated(rest, healthyOnly)
  {
    assert ([item] + rest)[1..] == rest;
  }
}
