/** What the read operations return, as scans of the store. */
module Views {
  import opened Outcome
  import opened Model
  import opened Keyspace
  import opened Services
  import opened Invariants
  import opened CapabilityIndex
  import Store
  import Text

  // ---------------------------------------------------------- instance listings

  function Path(i: Instance): string {
    i.namespace + "/" + i.service + "/" + i.instanceID
  }

  /** The keys under the listing prefix: one service, or all that start with the namespace. */
  predicate InScope(k: Key, f: ListFilter) {
    && k.InstanceK?
    && if f.service != "" then k.ns == f.namespace && k.service == f.service
       else InstanceNamespacePrefix(f.namespace) <= Render(k)
  }

  lemma NamespaceScopeIsExact(k: Key, f: ListFilter)
    requires ValidKey(k) && SlashFree(f.namespace)
    ensures InScope(k, f) <==> k.InstanceK? && k.ns == f.namespace && (f.service != "" ==> k.service == f.service)
  {
    hide Render, InstanceNamespacePrefix, InstanceServicePrefix;
    InstancePrefixesAreExact(k, f.namespace, "");
  }

  /** The instance is what its stored record decodes to, is in scope and passes the filter. */
  predicate Listed(db: State, f: ListFilter, i: Instance) {
    && InstanceKeyOf(i) in db.data
    && InScope(InstanceKeyOf(i), f)
    && DecodeInstance(db.data[InstanceKeyOf(i)]) == Ok(i)
    && Passes(i, f)
  }

  ghost predicate IsListing(items: seq<Instance>, db: State, f: ListFilter) {
    && (forall i :: i in items <==> Listed(db, f, i))
    && (forall a, b :: 0 <= a < b < |items| ==> Text.Less(Path(items[a]), Path(items[b])))
  }

  /** What listing returns: the access check's error, or all matching instances in path order. */
  ghost predicate ListReturns(r: Result<seq<Instance>>, db: State, f: ListFilter) {
    match CheckRead(db, f.namespace, f.admin)
    case Err(code) => r == Err(code)
    case Ok(_) => r.Ok? && IsListing(r.value, db, f)
  }

  /** The listing is determined: two lists that satisfy the specification are equal. */
  lemma ListingIsUnique(a: seq<Instance>, b: seq<Instance>, db: State, f: ListFilter)
    requires IsListing(a, db, f) && IsListing(b, db, f)
    ensures a == b
  {
    var pa, pb := seq(|a|, n requires 0 <= n < |a| => Path(a[n])), seq(|b|, n requires 0 <= n < |b| => Path(b[n]));
    forall p
      ensures p in pa <==> p in pb
    {
      if p in pa {
        var n :| 0 <= n < |a| && pa[n] == p;
        assert a[n] in a && a[n] in b;
        var m :| 0 <= m < |b| && b[m] == a[n];
        assert pb[m] == p;
      }
      if p in pb {
        var m :| 0 <= m < |b| && pb[m] == p;
        assert b[m] in b && b[m] in a;
        var n :| 0 <= n < |a| && a[n] == b[m];
        assert pa[n] == p;
      }
    }
    Text.AscendingIsUnique(pa, pb);
    forall n | 0 <= n < |a|
      ensures a[n] == b[n]
    {
      assert a[n] in a && a[n] in b;
      var m :| 0 <= m < |b| && b[m] == a[n];
      assert pb[m] == pa[n] == pb[n];
      Text.LessIsTotal(pb[m], pb[n]);
    }
  }

  // ------------------------------------------------------------ raw config items

  /** The item is what its stored record at this scope decodes to. */
  predicate RawItem(db: State, scope: Scope, ns: string, service: string, c: ConfigItem) {
    var k := ConfigKeyOf(scope, ns, service, c.key);
    k in db.data && DecodeConfig(db.data[k]) == Ok(c)
  }

  ghost predicate IsRawListing(items: seq<ConfigItem>, db: State, scope: Scope, ns: string, service: string) {
    && (forall c :: c in items <==> RawItem(db, scope, ns, service, c))
    && (forall x, y :: 0 <= x < y < |items| ==> Text.Less(items[x].key, items[y].key))
  }

  /** Global items are readable by everyone; the other scopes need a readable namespace. */
  ghost predicate RawReturns(r: Result<seq<ConfigItem>>, db: State, scope: Scope, ns: string, service: string, admin: bool) {
    var check := if scope.GlobalScope? then Ok(()) else CheckRead(db, ns, admin);
    match check
    case Err(code) => r == Err(code)
    case Ok(_) => r.Ok? && IsRawListing(r.value, db, scope, ns, service)
  }

  // ------------------------------------------------------------- config overlay

  datatype ResolveInput = ResolveInput(
    namespace: string,
    service: string,
    overrides: map<string, ConfigItem>,
    admin: bool)

  function Effective(c: ConfigItem, key: string, scope: Scope): EffectiveItem {
    EffectiveItem(key, c.value, c.valueType, scope)
  }

  function LayerAt(db: State, k: Key): Option<ConfigItem> {
    if k in db.data && db.data[k].value.ConfigV? then Some(db.data[k].value.config) else None
  }

  /** The first of the given stored layers, strongest first, that holds the key. */
  function FirstLayer(db: State, ns: string, service: string, key: string, scopes: seq<Scope>): Option<EffectiveItem> {
    if scopes == [] then None
    else
      match LayerAt(db, ConfigKeyOf(scopes[0], ns, service, key))
      case Some(c) => Some(Effective(c, key, scopes[0]))
      case None => FirstLayer(db, ns, service, key, scopes[1..])
  }

  const LAYERS := [ServiceScope, NamespaceScope, GlobalScope]

  /** The value in force without client overrides. */
  function Stored(db: State, ns: string, service: string, key: string): Option<EffectiveItem> {
    FirstLayer(db, ns, service, key, LAYERS)
  }

  /** The value in force: client over service over namespace over global. */
  function Strongest(db: State, input: ResolveInput, key: string): Option<EffectiveItem> {
    if key in input.overrides then Some(Effective(input.overrides[key], key, input.overrides[key].scope))
    else Stored(db, input.namespace, input.service, key)
  }

  predicate HoldsStrongest(resolved: map<string, EffectiveItem>, db: State, input: ResolveInput, key: string) {
    (if key in resolved then Some(resolved[key]) else None) == Strongest(db, input, key)
  }

  ghost predicate ResolveReturns(r: Result<map<string, EffectiveItem>>, db: State, input: ResolveInput) {
    match CheckRead(db, input.namespace, input.admin)
    case Err(code) => r == Err(code)
    case Ok(_) =>
      if exists k :: k in input.overrides && !input.overrides[k].Valid() then r == Err(InvalidArgument)
      else r.Ok? && forall key :: HoldsStrongest(r.value, db, input, key)
  }

  lemma StoredUnfolds(db: State, ns: string, service: string, key: string)
    ensures Stored(db, ns, service, key) ==
            match LayerAt(db, ServiceConfigK(ns, service, key))
            case Some(c) => Some(Effective(c, key, ServiceScope))
            case None =>
              match LayerAt(db, NamespaceConfigK(ns, key))
              case Some(c) => Some(Effective(c, key, NamespaceScope))
              case None =>
                match LayerAt(db, GlobalConfigK(key))
                case Some(c) => Some(Effective(c, key, GlobalScope))
                case None => None
  {
    FirstLayerOfCons(db, ns, service, key, GlobalScope, []);
    FirstLayerOfCons(db, ns, service, key, NamespaceScope, [GlobalScope]);
    FirstLayerOfCons(db, ns, service, key, ServiceScope, [NamespaceScope, GlobalScope]);
  }

  lemma FirstLayerOfCons(db: State, ns: string, service: string, key: string, scope: Scope, rest: seq<Scope>)
    ensures FirstLayer(db, ns, service, key, [scope] + rest) ==
            match LayerAt(db, ConfigKeyOf(scope, ns, service, key))
            case Some(c) => Some(Effective(c, key, scope))
            case None => FirstLayer(db, ns, service, key, rest)
    ensures FirstLayer(db, ns, service, key, []) == None
    ensures rest == [] ==> [scope] + rest == [scope]
    ensures forall s1, s2 :: rest == [s1, s2] ==> [scope] + rest == [scope, s1, s2]
    ensures forall s1 :: rest == [s1] ==> [scope] + rest == [scope, s1]
  {
    assert ([scope] + rest)[1..] == rest;
  }

  /** The value in force if one stored layer were absent. */
  function StrongestBut(db: State, input: ResolveInput, key: string, scope: Scope): Option<EffectiveItem> {
    if key in input.overrides then Strongest(db, input, key)
    else FirstLayer(db, input.namespace, input.service, key,
                    match scope
                    case GlobalScope => [ServiceScope, NamespaceScope]
                    case NamespaceScope => [ServiceScope, GlobalScope]
                    case _ => [NamespaceScope, GlobalScope])
  }

  /** Does a delete at this scope and address remove a layer of this view? */
  predicate InView(scope: Scope, ns: string, service: string, input: ResolveInput) {
    match scope
    case GlobalScope => true
    case NamespaceScope => ns == input.namespace
    case _ => ns == input.namespace && service == input.service
  }

  lemma DeleteRemovesOneKey(db: State, scope: Scope, ns: string, service: string, key: string, expected: int)
    requires DeleteConfig(db, scope, ns, service, key, expected).1.Ok?
    ensures DeleteConfig(db, scope, ns, service, key, expected).0.data == db.data - {ConfigKeyOf(scope, ns, service, key)}
    ensures ConfigKeyOf(scope, ns, service, key) in db.data
  {
    hide CheckWrite;
  }

  /**
   * A successful delete of one layer's item leaves, for that key, exactly the next layer's value
   * unless a stronger layer holds it, and changes no other key of any view.
   */
  lemma DeleteFallsBack(db: State, scope: Scope, ns: string, service: string, key: string, expected: int,
                        input: ResolveInput, other: string)
    requires DeleteConfig(db, scope, ns, service, key, expected).1.Ok?
    ensures var db' := DeleteConfig(db, scope, ns, service, key, expected).0;
            && (InView(scope, ns, service, input) ==>
                  Strongest(db', input, key) == StrongestBut(db, input, key, scope))
            && (other != key || !InView(scope, ns, service, input) ==>
                  Strongest(db', input, other) == Strongest(db, input, other))
  {
    DeleteRemovesOneKey(db, scope, ns, service, key, expected);
    var db' := DeleteConfig(db, scope, ns, service, key, expected).0;
    hide DeleteConfig;
    StoredUnfolds(db', input.namespace, input.service, key);
    StoredUnfolds(db, input.namespace, input.service, other);
    StoredUnfolds(db', input.namespace, input.service, other);
    if key !in input.overrides {
      TwoLayers(db, input, key, scope);
    }
  }

  lemma TwoLayers(db: State, input: ResolveInput, key: string, scope: Scope)
    requires key !in input.overrides
    ensures StrongestBut(db, input, key, scope) ==
            var s := LayerAt(db, ServiceConfigK(input.namespace, input.service, key));
            var n := LayerAt(db, NamespaceConfigK(input.namespace, key));
            var g := LayerAt(db, GlobalConfigK(key));
            if s.Some? && (scope.GlobalScope? || scope.NamespaceScope?) then Some(Effective(s.value, key, ServiceScope))
            else if n.Some? && !scope.NamespaceScope? then Some(Effective(n.value, key, NamespaceScope))
            else if g.Some? && !scope.GlobalScope? then Some(Effective(g.value, key, GlobalScope))
            else None
  {
    FirstLayerOfCons(db, input.namespace, input.service, key, GlobalScope, []);
    FirstLayerOfCons(db, input.namespace, input.service, key, NamespaceScope, []);
    FirstLayerOfCons(db, input.namespace, input.service, key, NamespaceScope, [GlobalScope]);
    FirstLayerOfCons(db, input.namespace, input.service, key, ServiceScope, [NamespaceScope]);
    FirstLayerOfCons(db, input.namespace, input.service, key, ServiceScope, [GlobalScope]);
  }

  // ---------------------------------------------------------------- discovery

  datatype DiscoverInput = DiscoverInput(
    namespace: string,
    capability: string,
    protocol: string,
    includeUnhealthy: bool,
    admin: bool)

  /** A stored card with the capability and protocol, and an instance of its service that runs its agent. */
  predicate InJoin(db: State, input: DiscoverInput, c: AgentCard, i: Instance) {
    && CardK(input.namespace, c.agentID) in db.data
    && DecodeCard(db.data[CardK(input.namespace, c.agentID)]) == Ok(c)
    && input.capability in c.capabilities
    && (input.protocol != "" ==> input.protocol in c.protocols)
    && i.namespace == input.namespace && i.service == c.service
    && InstanceKeyOf(i) in db.data
    && DecodeInstance(db.data[InstanceKeyOf(i)]) == Ok(i)
    && i.agentID == c.agentID
    && (!input.includeUnhealthy ==> i.status.Health?)
  }

  /** The result is what a card and a running instance of its agent say, field by field. */
  predicate Describes(r: DiscoveryResult, input: DiscoverInput, c: AgentCard, i: Instance) {
    && r.namespace == input.namespace
    && r.agentID == c.agentID && r.service == c.service
    && r.address == i.address && r.port == i.port && r.status == i.status
    && r.protocols == c.protocols && r.authMode == c.authMode && r.metadata == c.metadata
  }

  /** How many of the pairs a result describes. */
  function Described(pairs: seq<(AgentCard, Instance)>, input: DiscoverInput, r: DiscoveryResult): nat {
    if pairs == [] then 0
    else
      var (c, i) := pairs[|pairs| - 1];
      Described(pairs[..|pairs| - 1], input, r) + if Describes(r, input, c, i) then 1 else 0
  }

  /** Every pair of the join exactly once. */
  ghost predicate IsJoin(pairs: seq<(AgentCard, Instance)>, db: State, input: DiscoverInput) {
    && (forall c, i :: (c, i) in pairs <==> InJoin(db, input, c, i))
    && Text.Distinct(pairs)
  }

  predicate ResultOrder(a: DiscoveryResult, b: DiscoveryResult) {
    Text.Less(a.agentID, b.agentID) || (a.agentID == b.agentID && Text.LessEq(a.address, b.address))
  }

  ghost predicate ResultsSorted(results: seq<DiscoveryResult>) {
    forall a, b :: 0 <= a < b < |results| ==> ResultOrder(results[a], results[b])
  }

  /** Each result occurs as often as the join has pairs that it describes, in order of agent and address. */
  ghost predicate IsSortedJoin(results: seq<DiscoveryResult>, pairs: seq<(AgentCard, Instance)>, db: State, input: DiscoverInput) {
    && IsJoin(pairs, db, input)
    && (forall r :: multiset(results)[r] == Described(pairs, input, r))
    && ResultsSorted(results)
  }

  /** What discovery returns: an error of the checks, or the sorted results of the whole join. */
  ghost predicate DiscoverReturns(r: Result<seq<DiscoveryResult>>, db: State, input: DiscoverInput) {
    match CheckRead(db, input.namespace, input.admin)
    case Err(code) => r == Err(code)
    case Ok(_) =>
      if !ValidCapability(input.capability) then r == Err(InvalidArgument)
      else r.Ok? && exists pairs :: IsSortedJoin(r.value, pairs, db, input)
  }

  lemma {:induction false} DescribedPair(pairs: seq<(AgentCard, Instance)>, input: DiscoverInput, r: DiscoveryResult)
    ensures Described(pairs, input, r) > 0 <==> exists c, i :: (c, i) in pairs && Describes(r, input, c, i)
  {
    hide Describes;
    if pairs != [] {
      var init, last := pairs[..|pairs| - 1], pairs[|pairs| - 1];
      assert pairs == init + [last];
      DescribedPair(init, input, r);
      assert (last.0, last.1) in pairs;
    }
  }

  /**
   * Every result answers with the address, port and status of a stored instance that runs the agent
   * of a stored card, and with that card's own fields.
   */
  lemma ResultsAreStoredEndpoints(results: seq<DiscoveryResult>, pairs: seq<(AgentCard, Instance)>, db: State, input: DiscoverInput,
                                  r: DiscoveryResult) returns (c: AgentCard, i: Instance)
    requires IsSortedJoin(results, pairs, db, input) && r in results
    ensures CardK(input.namespace, c.agentID) in db.data && db.data[CardK(input.namespace, c.agentID)].value.CardV?
    ensures c == db.data[CardK(input.namespace, c.agentID)].value.card.(revision := c.revision)
    ensures input.capability in c.capabilities && (input.protocol != "" ==> input.protocol in c.protocols)
    ensures var k := InstanceK(input.namespace, c.service, i.instanceID);
            && k in db.data && db.data[k].value.InstanceV?
            && i == db.data[k].value.instance.(revision := i.revision, leaseID := i.leaseID)
    ensures i.agentID == c.agentID && (input.includeUnhealthy || i.status == Health)
    ensures r.namespace == input.namespace && r.agentID == c.agentID && r.service == c.service
    ensures r.address == i.address && r.port == i.port && r.status == i.status
    ensures r.protocols == c.protocols && r.authMode == c.authMode && r.metadata == c.metadata
  {
    hide ResultsSorted, Text.Distinct;
    assert r in multiset(results);
    DescribedPair(pairs, input, r);
    c, i :| (c, i) in pairs && Describes(r, input, c, i);
    assert InJoin(db, input, c, i);
  }

  /** Every stored card and instance that match have their result. */
  lemma StoredEndpointsHaveResults(results: seq<DiscoveryResult>, pairs: seq<(AgentCard, Instance)>, db: State, input: DiscoverInput,
                                   c: AgentCard, i: Instance)
    requires IsSortedJoin(results, pairs, db, input)
    requires CardK(input.namespace, c.agentID) in db.data && i.namespace == input.namespace && i.service == c.service
    requires var card := db.data[CardK(input.namespace, c.agentID)];
             card.value.CardV? && c == card.value.card.(revision := card.revision)
    requires input.capability in c.capabilities && (input.protocol == "" || input.protocol in c.protocols)
    requires InstanceK(input.namespace, c.service, i.instanceID) in db.data
    requires var rec := db.data[InstanceK(input.namespace, c.service, i.instanceID)];
             rec.value.InstanceV? && i == rec.value.instance.(revision := rec.revision, leaseID := rec.lease)
    requires i.agentID == c.agentID && (input.includeUnhealthy || i.status == Health)
    ensures exists r :: r in results &&
              r.agentID == c.agentID && r.service == c.service && r.address == i.address && r.port == i.port &&
              r.status == i.status && r.protocols == c.protocols && r.authMode == c.authMode && r.metadata == c.metadata
  {
    hide ResultsSorted, Text.Distinct;
    assert InJoin(db, input, c, i);
    var r := DiscoveryResult(input.namespace, c.agentID, c.service, i.address, i.port, c.protocols, c.authMode, c.metadata, i.status);
    assert Describes(r, input, c, i);
    DescribedPair(pairs, input, r);
    assert multiset(results)[r] > 0;
  }
}
