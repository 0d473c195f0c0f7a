/** The agent directory over the string-keyed store: cards, their capability index, discovery. */
module AgentServiceObject {
  import opened Outcome
  import opened Model
  import opened Keyspace
  import opened Services
  import opened Invariants
  import opened CapabilityIndex
  import opened Representation
  import opened Views
  import opened Watching
  import opened MemoryStoreObject
  import opened NamespaceServiceObject
  import opened RegistryServiceObject
  import Store
  import Text

  predicate ResultBefore(left: DiscoveryResult, right: DiscoveryResult) {
    if left.agentID == right.agentID then Text.Less(left.address, right.address)
    else Text.Less(left.agentID, right.agentID)
  }

  function AgentFilter(input: DiscoverInput, service: string): ListFilter {
    ListFilter(input.namespace, service, "", "", map[], !input.includeUnhealthy, input.admin)
  }

  /** What one index entry contributes: its card, with each listed instance that runs the card's agent. */
  predicate FromEntry(a: State, input: DiscoverInput, v: Value, c: AgentCard, i: Instance) {
    && v.EntryV?
    && GetCard(a, input.namespace, v.entry.agentID, input.admin) == Ok(c)
    && (input.protocol != "" ==> input.protocol in c.protocols)
    && Listed(a, AgentFilter(input, v.entry.service), i)
    && i.agentID == c.agentID
  }

  predicate EntryFails(a: State, input: DiscoverInput, v: Value) {
    || !v.EntryV?
    || GetCard(a, input.namespace, v.entry.agentID, input.admin).Err?
    || CheckRead(a, input.namespace, input.admin).Err?
  }

  predicate FromRecords(a: State, input: DiscoverInput, records: seq<Record>, c: AgentCard, i: Instance) {
    exists n :: 0 <= n < |records| && FromEntry(a, input, records[n].value, c, i)
  }

  /** One result per pair, in the same order. */
  ghost predicate Tells(results: seq<DiscoveryResult>, input: DiscoverInput, pairs: seq<(AgentCard, Instance)>) {
    |results| == |pairs| && forall n :: 0 <= n < |pairs| ==> Describes(results[n], input, pairs[n].0, pairs[n].1)
  }

  class AgentService {
    const store: MemoryStore
    const namespaces: NamespaceService
    const registry: RegistryService

    constructor (store: MemoryStore, namespaces: NamespaceService, registry: RegistryService)
      ensures this.store == store && this.namespaces == namespaces && this.registry == registry
    {
      this.store, this.namespaces, this.registry := store, namespaces, registry;
    }

    ghost predicate Wired() {
      namespaces.store == store && registry.store == store && registry.namespaces == namespaces
    }

    ghost predicate Serves(a: State)
      reads store
    {
      Wired() && store.Valid() && Represents(store.Contents(), a)
    }

    method Get(ns: string, agent: string, admin: bool, ghost a: State) returns (r: Result<AgentCard>)
      requires Wired() && Represents(store.Contents(), a)
      ensures r == GetCard(a, ns, agent, admin)
    {
      hide Represents, AgentCardKey, Services.CheckRead;
      var _ :- namespaces.CheckRead(ns, admin, a);
      LookupsAgree(store.Contents(), a, CardK(ns, agent));
      var record :- store.Get(AgentCardKey(ns, agent));
      return DecodeCard(record);
    }

    method PutCapabilityIndexes(card: AgentCard, ghost a: State)
      requires Serves(a)
      requires forall c :: c in card.capabilities ==> ValidKey(CapabilityK(card.namespace, c, card.agentID))
      modifies store
      ensures Serves(PutEntries(a, card.namespace, card.agentID, card.capabilities, EntryOf(card)))
      ensures Kept(old(store.State()), store.State())
    {
      hide Represents, MemoryStore.Valid, CapabilityKey, ValidKey, Kept;
      KeptIsReflexive(store.State());
      var entry := EntryV(CapabilityEntry(card.agentID, card.service));
      ghost var now := a;
      var caps := card.capabilities;
      for n := 0 to |caps|
        invariant Serves(now) && Kept(old(store.State()), store.State())
        invariant PutEntries(now, card.namespace, card.agentID, caps[n..], entry) ==
                  PutEntries(a, card.namespace, card.agentID, caps, entry)
      {
        ghost var k := CapabilityK(card.namespace, caps[n], card.agentID);
        ghost var before := store.State();
        OperationsAreRepresented(store.Contents(), now, Store.PutOp(k, entry, 0));
        var written := store.Put(CapabilityKey(card.namespace, caps[n], card.agentID), entry, 0);
        assert written.Ok?;
        KeptIsTransitive(old(store.State()), before, store.State());
        now := Store.Put(now, k, entry, 0).0;
        assert caps[n..][0] == caps[n] && caps[n..][1..] == caps[n + 1..];
      }
    }

    /** A capability without an entry is passed over. */
    method DeleteCapabilityIndexes(card: AgentCard, ghost a: State)
      requires Serves(a)
      modifies store
      ensures Serves(DeleteEntries(a, card.namespace, card.agentID, card.capabilities))
      ensures Kept(old(store.State()), store.State())
    {
      hide Represents, MemoryStore.Valid, CapabilityKey, Kept;
      KeptIsReflexive(store.State());
      ghost var now := a;
      var caps := card.capabilities;
      for n := 0 to |caps|
        invariant Serves(now) && Kept(old(store.State()), store.State())
        invariant DeleteEntries(now, card.namespace, card.agentID, caps[n..]) ==
                  DeleteEntries(a, card.namespace, card.agentID, caps)
      {
        ghost var k := CapabilityK(card.namespace, caps[n], card.agentID);
        ghost var before := store.State();
        OperationsAreRepresented(store.Contents(), now, Store.DeleteOp(k));
        var deleted := store.Delete(CapabilityKey(card.namespace, caps[n], card.agentID));
        // Only a missing entry may be passed over, and nothing else can fail here.
        assert deleted.Ok? || deleted.code == NotFound;
        KeptIsTransitive(old(store.State()), before, store.State());
        now := Store.Delete(now, k).0;
        assert caps[n..][0] == caps[n] && caps[n..][1..] == caps[n + 1..];
      }
    }

    /** The two index loops after a successful card write. */
    method Reindex(card: AgentCard, previous: Option<AgentCard>, ghost a: State)
      requires Serves(a)
      requires forall c :: c in card.capabilities ==> ValidKey(CapabilityK(card.namespace, c, card.agentID))
      modifies store
      ensures Serves(Reindexed(a, card, previous))
      ensures Kept(old(store.State()), store.State())
    {
      hide Represents, MemoryStore.Valid, ValidKey, PutEntries, DeleteEntries, Kept;
      KeptIsReflexive(store.State());
      ghost var now := a;
      if previous.Some? {
        DeleteCapabilityIndexes(previous.value, a);
        now := DeleteEntries(a, previous.value.namespace, previous.value.agentID, previous.value.capabilities);
      }
      ghost var removed := store.State();
      PutCapabilityIndexes(card, now);
      KeptIsTransitive(old(store.State()), removed, store.State());
    }

    method Put(input: AgentCard, expected: int, created: Time, updated: Time, ghost a: State) returns (r: Result<AgentCard>)
      requires Serves(a)
      modifies store
      ensures Serves(PutCard(a, input, expected, created, updated).0)
      ensures r == PutCard(a, input, expected, created, updated).1
      ensures Kept(old(store.State()), store.State())
    {
      hide Represents, MemoryStore.Valid, AgentCardKey, Services.CheckWrite, AgentCard.Valid, ValidKey, GetCard, Reindexed, Kept;
      KeptIsReflexive(store.State());
      var card := input;
      var _ :- namespaces.CheckWrite(card.namespace, false, a);
      if !card.Valid() {
        return Err(InvalidArgument);
      }
      ValidCardsHaveValidKeys(input);
      var previous: Option<AgentCard> := None;
      if expected > 0 {
        var current :- Get(card.namespace, card.agentID, false, a);
        previous := Some(current);
        card := card.(createdAt := current.createdAt);
      } else {
        card := card.(createdAt := created);
      }
      card := card.(updatedAt := updated);
      assert PreparedCard(a, input, expected, created, updated) == Ok((card, previous));
      ghost var k := CardK(card.namespace, card.agentID);
      var key := AgentCardKey(card.namespace, card.agentID);
      ResultsAgree(store.Contents(), a, k, expected, CardV(card), 0);
      var revision: Result<int>;
      if expected == 0 {
        OperationsAreRepresented(store.Contents(), a, Store.CreateOp(k, CardV(card), 0));
        revision := store.Create(key, CardV(card), 0);
      } else {
        OperationsAreRepresented(store.Contents(), a, Store.CasOp(k, expected, CardV(card), 0));
        revision := store.Cas(key, expected, CardV(card), 0);
      }
      if revision.Err? {
        return Err(revision.code);
      }
      ghost var swapped := store.State();
      Reindex(card, previous, Store.Write(a, k, CardV(card), 0));
      KeptIsTransitive(old(store.State()), swapped, store.State());
      return Ok(card.(revision := revision.value));
    }

    /** The instances that run the card's agent, as results. */
    method ResultsOf(card: AgentCard, instances: seq<Instance>, input: DiscoverInput) returns (results: seq<DiscoveryResult>)
      ensures Tells(results, input, PairsOf(card, instances))
    {
      results := [];
      for n := 0 to |instances|
        invariant Tells(results, input, PairsOf(card, instances[..n]))
      {
        var instance := instances[n];
        assert instances[..n + 1][..n] == instances[..n];
        if instance.agentID == card.agentID {
          var result := DiscoveryResult(input.namespace, card.agentID, card.service, instance.address, instance.port,
                                        card.protocols, card.authMode, card.metadata, instance.status);
          results := results + [result];
        }
      }
      assert instances[..|instances|] == instances;
    }

    /** What one index record contributes to the results. */
    method EntryResults(record: Record, input: DiscoverInput, ghost a: State)
      returns (r: Result<seq<DiscoveryResult>>, ghost pairs: seq<(AgentCard, Instance)>)
      requires Wired() && Represents(store.Contents(), a) && WellPlaced(a)
      ensures r.Ok? ==> Tells(r.value, input, pairs) && Text.Distinct(pairs)
      ensures r.Ok? ==> forall c, i :: (c, i) in pairs <==> FromEntry(a, input, record.value, c, i)
      ensures r.Err? ==> EntryFails(a, input, record.value)
    {
      hide Represents, WellPlaced, GetCard, Services.CheckRead, Listed, Text.Distinct, Describes, Text.Less;
      pairs := [];
      if !record.value.EntryV? {
        return Err(Internal), pairs;
      }
      var entry := record.value.entry;
      var card := Get(input.namespace, entry.agentID, input.admin, a);
      if card.Err? {
        return Err(card.code), pairs;
      }
      if input.protocol != "" && input.protocol !in card.value.protocols {
        NothingIsDistinct();
        return Ok([]), pairs;
      }
      var instances := registry.List(AgentFilter(input, entry.service), a);
      if instances.Err? {
        return Err(instances.code), pairs;
      }
      ListingIsDistinct(instances.value, a, AgentFilter(input, entry.service));
      PairsRunTheAgent(card.value, instances.value);
      pairs := PairsOf(card.value, instances.value);
      var results := ResultsOf(card.value, instances.value, input);
      return Ok(results), pairs;
    }

    method JoinRecords(records: seq<Record>, input: DiscoverInput, ghost a: State)
      returns (r: Result<seq<DiscoveryResult>>, ghost pairs: seq<(AgentCard, Instance)>)
      requires Wired() && Represents(store.Contents(), a) && WellPlaced(a)
      requires AgentsDiffer(records)
      ensures r.Ok? ==> Tells(r.value, input, pairs) && Text.Distinct(pairs)
      ensures r.Ok? ==> forall c, i :: (c, i) in pairs <==> FromRecords(a, input, records, c, i)
      ensures r.Err? ==> exists n :: 0 <= n < |records| && EntryFails(a, input, records[n].value)
    {
      hide Represents, WellPlaced, FromEntry, Describes, EntryFails, AgentsDiffer, Text.Distinct;
      var results: seq<DiscoveryResult> := [];
      pairs := [];
      NothingIsDistinct();
      for n := 0 to |records|
        invariant Tells(results, input, pairs) && Text.Distinct(pairs)
        invariant forall c, i :: (c, i) in pairs <==> FromRecords(a, input, records[..n], c, i)
      {
        ghost var more;
        var next;
        next, more := EntryResults(records[n], input, a);
        if next.Err? {
          return Err(next.code), pairs;
        }
        NewPairsAreDistinct(records, n, input, a, pairs, more);
        assert records[..n + 1] == records[..n] + [records[n]];
        results := results + next.value;
        pairs := pairs + more;
      }
      assert records[..|records|] == records;
      return Ok(results), pairs;
    }

    method Discover(input: DiscoverInput, ghost a: State) returns (r: Result<seq<DiscoveryResult>>)
      requires Wired() && Represents(store.Contents(), a) && WellPlaced(a) && IndexAgrees(a)
      ensures DiscoverReturns(r, a, input)
    {
      hide Represents, WellPlaced, IndexAgrees, CapabilityPrefix, Services.CheckRead, ListsPrefix, FromRecords, EntryFails, IsJoin,
        ResultsSorted, Text.SortBy, Tells, Described, ResultBefore, AgentsDiffer, ValidCapability, Text.Distinct;
      var _ :- namespaces.CheckRead(input.namespace, input.admin, a);
      if !ValidCapability(input.capability) {
        return Err(InvalidArgument);
      }
      var records := store.List(CapabilityPrefix(input.namespace, input.capability));
      EntriesAreLive(store.Contents(), a, input, records);
      ghost var pairs;
      r, pairs := JoinRecords(records, input, a);
      EntriesMakeTheJoin(store.Contents(), a, input, records, pairs);
      TellingCounts(r.value, input, pairs);
      ResultsGetSorted(r.value);
      r := Ok(Text.SortBy(r.value, ResultBefore));
      assert IsSortedJoin(r.value, pairs, a, input);
    }
  }

  /** Told pair by pair, each result occurs as often as pairs are described by it. */
  lemma {:induction false} TellingCounts(results: seq<DiscoveryResult>, input: DiscoverInput, pairs: seq<(AgentCard, Instance)>)
    requires Tells(results, input, pairs)
    ensures forall r :: multiset(results)[r] == Described(pairs, input, r)
  {
    if pairs != [] {
      var n := |pairs| - 1;
      assert results == results[..n] + [results[n]];
      TellingCounts(results[..n], input, pairs[..n]);
      forall r
        ensures Describes(r, input, pairs[n].0, pairs[n].1) <==> r == results[n]
      {
      }
    }
  }

  /** A card with each listed instance that runs its agent. */
  function PairsOf(card: AgentCard, instances: seq<Instance>): seq<(AgentCard, Instance)> {
    if instances == [] then []
    else
      var rest := PairsOf(card, instances[..|instances| - 1]);
      var last := instances[|instances| - 1];
      if last.agentID == card.agentID then rest + [(card, last)] else rest
  }

  lemma {:induction false} PairsRunTheAgent(card: AgentCard, instances: seq<Instance>)
    requires Text.Distinct(instances)
    ensures Text.Distinct(PairsOf(card, instances))
    ensures forall c, i :: (c, i) in PairsOf(card, instances) <==> c == card && i in instances && i.agentID == card.agentID
  {
    if instances != [] {
      var init, last := instances[..|instances| - 1], instances[|instances| - 1];
      assert instances == init + [last];
      PairsRunTheAgent(card, init);
      assert (card, last) !in PairsOf(card, init);
    }
  }

  lemma ValidCardsHaveValidKeys(card: AgentCard)
    requires card.Valid()
    ensures ValidKey(CardK(card.namespace, card.agentID))
    ensures forall c :: c in card.capabilities ==> ValidKey(CapabilityK(card.namespace, c, card.agentID))
  {
  }

  lemma NothingIsDistinct()
    ensures Text.Distinct<(AgentCard, Instance)>([])
  {
  }

  lemma ListingIsDistinct(items: seq<Instance>, a: State, f: ListFilter)
    requires IsListing(items, a, f)
    ensures Text.Distinct(items)
  {
    hide Listed, Text.Less, Path;
    forall x, y | 0 <= x < y < |items|
      ensures items[x] != items[y]
    {
      Text.LessIsTotal(Path(items[x]), Path(items[y]));
    }
  }

  /** Different index records name different agents. */
  ghost predicate AgentsDiffer(records: seq<Record>) {
    forall x, y :: 0 <= x < y < |records| && records[x].value.EntryV? && records[y].value.EntryV? ==>
      records[x].value.entry.agentID != records[y].value.entry.agentID
  }

  lemma CardNamesItsAgent(a: State, ns: string, agent: string, admin: bool)
    requires WellPlaced(a) && GetCard(a, ns, agent, admin).Ok?
    ensures GetCard(a, ns, agent, admin).value.agentID == agent
  {
    hide Store.Sound, CheckRead;
    assert Placed(CardK(ns, agent), a.data[CardK(ns, agent)].value);
  }

  lemma NewPairsAreDistinct(records: seq<Record>, n: nat, input: DiscoverInput, a: State,
                            pairs: seq<(AgentCard, Instance)>, more: seq<(AgentCard, Instance)>)
    requires WellPlaced(a) && AgentsDiffer(records) && n < |records|
    requires Text.Distinct(pairs) && Text.Distinct(more)
    requires forall c, i :: (c, i) in pairs ==> FromRecords(a, input, records[..n], c, i)
    requires forall c, i :: (c, i) in more ==> FromEntry(a, input, records[n].value, c, i)
    ensures Text.Distinct(pairs + more)
  {
    hide WellPlaced, GetCard, Listed;
    forall x, y | x in pairs && y in more
      ensures x != y
    {
      assert (x.0, x.1) in pairs;
      assert FromRecords(a, input, records[..n], x.0, x.1);
      var m :| 0 <= m < n && FromEntry(a, input, records[..n][m].value, x.0, x.1);
      assert records[..n][m] == records[m];
      assert (y.0, y.1) in more;
      CardNamesItsAgent(a, input.namespace, records[m].value.entry.agentID, input.admin);
      CardNamesItsAgent(a, input.namespace, records[n].value.entry.agentID, input.admin);
    }
    DisjointStaysDistinct(pairs, more);
  }

  lemma DisjointStaysDistinct<T>(s: seq<T>, t: seq<T>)
    requires Text.Distinct(s) && Text.Distinct(t)
    requires forall x, y :: x in s && y in t ==> x != y
    ensures Text.Distinct(s + t)
  {
    forall i, j | 0 <= i < j < |s + t|
      ensures (s + t)[i] != (s + t)[j]
    {
      if i < |s| <= j {
        assert s[i] in s && t[j - |s|] in t;
      }
    }
  }

  /** In an agreeing store a record under the capability's prefix is the entry of a card that lists it. */
  lemma EntryIsLive(c: Store.Db<string>, a: State, input: DiscoverInput, records: seq<Record>, n: nat)
    requires Represents(c, a) && WellPlaced(a) && IndexAgrees(a)
    requires ListsPrefix(records, c.data, CapabilityPrefix(input.namespace, input.capability)) && n < |records|
    ensures records[n].value.EntryV?
    ensures var e := records[n].value.entry;
            && records[n].key == Render(CapabilityK(input.namespace, input.capability, e.agentID))
            && CapabilityK(input.namespace, input.capability, e.agentID) in a.data
            && CardAt(a, input.namespace, e.agentID).Some?
            && var card := CardAt(a, input.namespace, e.agentID).value;
               && card.agentID == e.agentID && card.service == e.service && input.capability in card.capabilities
  {
    hide Render, ValidKey, Store.Sound, SameLog, Text.Less, CapabilityPrefix, CardAt, ValidName, Namespace.Valid,
      Instance.Valid, Normalize, ConfigItem.Valid, AgentCard.Valid, InstanceKeyOf, ConfigKeyOf;
    assert records[n].key in c.data;
    var k :| k in a.data && Render(k) == records[n].key;
    assert ValidKey(k);
    CardAndCapabilityPrefixesAreExact(k, input.namespace, input.capability);
    assert Placed(k, a.data[k].value);
    assert IndexedAt(a, input.namespace, input.capability, k.agent);
    assert a.data[k] == RecOf(records[n]);
  }

  lemma EntriesAreLive(c: Store.Db<string>, a: State, input: DiscoverInput, records: seq<Record>)
    requires Represents(c, a) && WellPlaced(a) && IndexAgrees(a) && CheckRead(a, input.namespace, input.admin).Ok?
    requires ListsPrefix(records, c.data, CapabilityPrefix(input.namespace, input.capability))
    ensures AgentsDiffer(records)
    ensures forall n :: 0 <= n < |records| ==> !EntryFails(a, input, records[n].value)
  {
    hide Represents, WellPlaced, IndexAgrees, CapabilityPrefix, Render, CheckRead, Text.Less;
    forall n | 0 <= n < |records|
      ensures !EntryFails(a, input, records[n].value)
    {
      EntryIsLive(c, a, input, records, n);
    }
    forall x, y | 0 <= x < y < |records| && records[x].value.EntryV? && records[y].value.EntryV?
      ensures records[x].value.entry.agentID != records[y].value.entry.agentID
    {
      EntryIsLive(c, a, input, records, x);
      EntryIsLive(c, a, input, records, y);
      Text.LessIsTotal(records[x].key, records[y].key);
    }
  }

  lemma AgentScope(a: State, input: DiscoverInput, service: string, i: Instance)
    requires ValidName(service)
    ensures Listed(a, AgentFilter(input, service), i) <==>
            && i.namespace == input.namespace && i.service == service
            && InstanceKeyOf(i) in a.data
            && DecodeInstance(a.data[InstanceKeyOf(i)]) == Ok(i)
            && (!input.includeUnhealthy ==> i.status.Health?)
  {
    hide InstanceNamespacePrefix;
    assert service != "";
  }

  /** The pairs the index leads to are exactly the join of the stored cards with the stored instances. */
  lemma EntriesMakeTheJoin(c: Store.Db<string>, a: State, input: DiscoverInput, records: seq<Record>, pairs: seq<(AgentCard, Instance)>)
    requires Represents(c, a) && WellPlaced(a) && IndexAgrees(a) && CheckRead(a, input.namespace, input.admin).Ok?
    requires ListsPrefix(records, c.data, CapabilityPrefix(input.namespace, input.capability))
    requires forall card, i :: (card, i) in pairs <==> FromRecords(a, input, records, card, i)
    requires Text.Distinct(pairs)
    ensures IsJoin(pairs, a, input)
  {
    hide CheckRead, FromEntry, InJoin, Text.Distinct, CapabilityPrefix, Represents, WellPlaced, IndexAgrees, ListsPrefix, FromRecords;
    forall card, i
      ensures (card, i) in pairs <==> InJoin(a, input, card, i)
    {
      if FromRecords(a, input, records, card, i) {
        RecordsLeadIntoJoin(c, a, input, records, card, i);
      }
      if InJoin(a, input, card, i) {
        JoinIsReachedByARecord(c, a, input, records, card, i);
      }
    }
  }

  lemma RecordsLeadIntoJoin(c: Store.Db<string>, a: State, input: DiscoverInput, records: seq<Record>, card: AgentCard, i: Instance)
    requires Represents(c, a) && WellPlaced(a) && IndexAgrees(a) && CheckRead(a, input.namespace, input.admin).Ok?
    requires ListsPrefix(records, c.data, CapabilityPrefix(input.namespace, input.capability))
    requires FromRecords(a, input, records, card, i)
    ensures InJoin(a, input, card, i)
  {
    hide CheckRead, CapabilityPrefix, Represents, WellPlaced, IndexAgrees, ListsPrefix, Listed, Render, DecodeInstance;
    var n :| 0 <= n < |records| && FromEntry(a, input, records[n].value, card, i);
    EntryIsLive(c, a, input, records, n);
    StoredCardIsValid(a, input.namespace, records[n].value.entry.agentID);
    AgentScope(a, input, card.service, i);
  }

  lemma StoredCardIsValid(a: State, ns: string, agent: string)
    requires WellPlaced(a) && CardAt(a, ns, agent).Some?
    ensures var card := CardAt(a, ns, agent).value; card.namespace == ns && card.agentID == agent && card.Valid()
  {
    hide Store.Sound;
    assert Placed(CardK(ns, agent), a.data[CardK(ns, agent)].value);
  }

  lemma JoinIsReachedByARecord(c: Store.Db<string>, a: State, input: DiscoverInput, records: seq<Record>, card: AgentCard, i: Instance)
    requires Represents(c, a) && WellPlaced(a) && IndexAgrees(a) && CheckRead(a, input.namespace, input.admin).Ok?
    requires ListsPrefix(records, c.data, CapabilityPrefix(input.namespace, input.capability))
    requires InJoin(a, input, card, i)
    ensures FromRecords(a, input, records, card, i)
  {
    hide CheckRead, CapabilityPrefix, WellPlaced, Render, Listed, SameLog, ValidKey, Text.Less, DecodeInstance;
    StoredCardIsValid(a, input.namespace, card.agentID);
    hide AgentCard.Valid;
    var k := CapabilityK(input.namespace, input.capability, card.agentID);
    assert IndexedAt(a, input.namespace, input.capability, card.agentID);
    assert ValidKey(k) && Render(k) in c.data && c.data[Render(k)] == a.data[k];
    CardAndCapabilityPrefixesAreExact(k, input.namespace, input.capability);
    var n :| 0 <= n < |records| && records[n].key == Render(k);
    assert RecOf(records[n]) == a.data[k];
    ValidCardHasServiceName(CardAt(a, input.namespace, card.agentID).value);
    AgentScope(a, input, card.service, i);
    assert FromEntry(a, input, records[n].value, card, i);
  }

  lemma ValidCardHasServiceName(card: AgentCard)
    requires card.Valid()
    ensures ValidName(card.service)
  {
  }

  lemma ResultBeforeIsWeakOrder()
    ensures Text.WeakOrder(ResultBefore)
  {
    hide Text.Less;
    Text.LessIsWeakOrder();
    forall x, y, z | !ResultBefore(y, x) && !ResultBefore(z, y)
      ensures !ResultBefore(z, x)
    {
      Text.LessIsTotal(x.agentID, y.agentID);
      Text.LessIsTotal(y.agentID, z.agentID);
      Text.LessIsTotal(x.agentID, z.agentID);
      assert !Text.Less(y.agentID, x.agentID) && !Text.Less(z.agentID, y.agentID);
    }
  }

  lemma ResultsGetSorted(results: seq<DiscoveryResult>)
    ensures ResultsSorted(Text.SortBy(results, ResultBefore))
    ensures multiset(Text.SortBy(results, ResultBefore)) == multiset(results)
  {
    hide Text.Less, Text.SortBy;
    ResultBeforeIsWeakOrder();
    Text.SortByIsSorted(results, ResultBefore);
    var r := Text.SortBy(results, ResultBefore);
    forall x, y | 0 <= x < y < |r|
      ensures ResultOrder(r[x], r[y])
    {
      Text.LessIsTotal(r[x].agentID, r[y].agentID);
      Text.LessIsTotal(r[x].address, r[y].address);
      assert !ResultBefore(r[y], r[x]);
    }
  }
}
