/** What the configuration operations accept, what they leave behind and what is then in force, field by field. */
module ConfigLaws {
  import opened Outcome
  import opened Model
  import opened Keyspace
  import opened Services
  import opened Invariants
  import opened AccessModes
  import opened Views
  import Store

  /** Global configuration belongs to no namespace and is always open; other layers follow the namespace's mode. */
  predicate LayerOpen(db: State, scope: Scope, ns: string) {
    scope == GlobalScope || Writable(db, ns)
  }

  predicate StorableItem(item: ConfigItem) {
    && ValidConfigKey(item.key)
    && (match item.scope
        case GlobalScope => true
        case NamespaceScope => ValidName(item.namespace)
        case ServiceScope => ValidName(item.namespace) && ValidName(item.service)
        case OtherScope(_) => false)
    && (match item.valueType
        case StringValue => true
        case OtherValue(_) => false
        case _ => item.wellTyped)
  }

  /** With an expected revision the key must be stored at exactly that revision; with none it must be absent. */
  predicate ExpectedAt(db: State, k: Key, expected: int) {
    if expected == 0 then k !in db.data else k in db.data && db.data[k].revision == expected
  }

  lemma ItemIsStorable(item: ConfigItem)
    ensures item.Valid() <==> StorableItem(item)
  {
    hide ValidConfigKey, ValidName;
  }

  // --------------------------------------------------------------------------- put

  /** Exactly which puts are accepted, and what each refusal answers; a refusal changes nothing. */
  lemma PutAcceptedExactly(db: State, item: ConfigItem, expected: int, now: Time)
    requires WellPlaced(db)
    ensures var k := ConfigKeyOf(item.scope, item.namespace, item.service, item.key);
            var (db', r) := PutConfig(db, item, expected, now);
            && (r.Ok? <==> LayerOpen(db, item.scope, item.namespace) && StorableItem(item) && ExpectedAt(db, k, expected))
            && (r.Err? ==>
                  && db' == db
                  && r.code ==
                     if !LayerOpen(db, item.scope, item.namespace) then ClosedCode(db, item.namespace)
                     else if !StorableItem(item) then InvalidArgument
                     else if expected == 0 then AlreadyExists
                     else Conflict)
  {
    hide WellPlaced, CheckWrite, StorableItem, ConfigItem.Valid, Writable, ClosedCode, StampedConfig, ConfigKeyOf;
    ItemIsStorable(item);
    ClosedIsRefused(db, item.namespace);
  }

  /**
   * An accepted put stores the item as sent, with its times and the next revision, in its own layer;
   * every other record and every lease is as before, and the log ends in the put.
   */
  lemma PutStores(db: State, item: ConfigItem, expected: int, now: Time)
    requires PutConfig(db, item, expected, now).1.Ok?
    ensures var k := ConfigKeyOf(item.scope, item.namespace, item.service, item.key);
            var (db', r) := PutConfig(db, item, expected, now);
            var created := if item.createdAt == 0 then now else item.createdAt;
            && r.value == item.(createdAt := created, updatedAt := now, revision := db.revision + 1)
            && RawItem(db', item.scope, item.namespace, item.service, r.value)
            && db'.data == db.data[k := Store.Rec(ConfigV(item.(createdAt := created, updatedAt := now)), db.revision + 1, 0)]
            && db'.log == db.log + [Store.Event(Store.PutEvent, k, db'.data[k].value, db.revision + 1)]
            && db'.leases == db.leases && db'.revision == db.revision + 1
  {
    hide CheckWrite, ConfigItem.Valid;
  }

  // ------------------------------------------------------------------------ delete

  /** Exactly which deletes are accepted; then the one record is gone and the log ends in its removal. */
  lemma DeleteExactly(db: State, scope: Scope, ns: string, service: string, key: string, expected: int)
    requires WellPlaced(db)
    ensures var k := ConfigKeyOf(scope, ns, service, key);
            var (db', r) := DeleteConfig(db, scope, ns, service, key, expected);
            && (r.Ok? <==> LayerOpen(db, scope, ns) && k in db.data && db.data[k].revision == expected)
            && (r.Err? ==>
                  && db' == db
                  && r.code ==
                     if !LayerOpen(db, scope, ns) then ClosedCode(db, ns)
                     else if expected <= 0 then InvalidArgument
                     else Conflict)
            && (r.Ok? ==>
                  && db'.data == db.data - {k}
                  && db'.log == db.log + [Store.Event(Store.DeleteEvent, k, db.data[k].value, db.revision + 1)]
                  && db'.leases == db.leases && db'.revision == db.revision + 1)
  {
    hide WellPlaced, CheckWrite, Writable, ClosedCode;
    ClosedIsRefused(db, ns);
    if ConfigKeyOf(scope, ns, service, key) in db.data {
      RevisionsArePositive(db, ConfigKeyOf(scope, ns, service, key));
    }
    hide ConfigKeyOf;
  }

  // --------------------------------------------------------------------- in force

  predicate HoldsItem(db: State, k: Key) {
    k in db.data && db.data[k].value.ConfigV?
  }

  /** Is this value, of this layer, what the answer gives for the key? */
  predicate Answers(resolved: map<string, EffectiveItem>, key: string, c: ConfigItem, scope: Scope) {
    && key in resolved
    && resolved[key].key == key && resolved[key].value == c.value
    && resolved[key].valueType == c.valueType && resolved[key].scope == scope
  }

  /**
   * Every key of a resolved configuration has the caller's override if there is one, then the item of
   * the service, then of the namespace, then the global one, and is missing only if none has it.
   */
  lemma ResolvesExactly(db: State, input: ResolveInput, r: Result<map<string, EffectiveItem>>, key: string)
    requires ResolveReturns(r, db, input) && r.Ok?
    ensures var own := ServiceConfigK(input.namespace, input.service, key);
            var shared := NamespaceConfigK(input.namespace, key);
            var everywhere := GlobalConfigK(key);
            if key in input.overrides then Answers(r.value, key, input.overrides[key], input.overrides[key].scope)
            else if HoldsItem(db, own) then Answers(r.value, key, db.data[own].value.config, ServiceScope)
            else if HoldsItem(db, shared) then Answers(r.value, key, db.data[shared].value.config, NamespaceScope)
            else if HoldsItem(db, everywhere) then Answers(r.value, key, db.data[everywhere].value.config, GlobalScope)
            else key !in r.value
  {
    StoredUnfolds(db, input.namespace, input.service, key);
    hide Stored, CheckRead, ConfigItem.Valid;
    assert HoldsStrongest(r.value, db, input, key);
  }

  /** Which resolutions are answered: a readable namespace and overrides that could be stored. */
  lemma ResolveAcceptedExactly(db: State, input: ResolveInput, r: Result<map<string, EffectiveItem>>)
    requires WellPlaced(db) && ResolveReturns(r, db, input)
    ensures r.Ok? <==>
              && (input.admin || Readable(db, input.namespace))
              && forall key :: key in input.overrides ==> StorableItem(input.overrides[key])
  {
    ReadCheckExactly(db, input.namespace, input.admin);
    hide WellPlaced, CheckRead, HoldsStrongest, Readable, StorableItem, ConfigItem.Valid;
    forall key | key in input.overrides
      ensures input.overrides[key].Valid() <==> StorableItem(input.overrides[key])
    {
      ItemIsStorable(input.overrides[key]);
    }
  }

  /** The layers that win over a given one, for one key. */
  predicate StrongerLayerHolds(db: State, scope: Scope, input: ResolveInput, key: string) {
    || key in input.overrides
    || (scope != ServiceScope && ServiceConfigK(input.namespace, input.service, key) in db.data)
    || (scope == GlobalScope && NamespaceConfigK(input.namespace, key) in db.data)
  }

  /** An accepted put is in force at once for every caller of its layer, unless a stronger layer holds the key. */
  lemma AcceptedPutIsInForce(db: State, item: ConfigItem, expected: int, now: Time, input: ResolveInput,
                             r: Result<map<string, EffectiveItem>>)
    requires PutConfig(db, item, expected, now).1.Ok?
    requires ResolveReturns(r, PutConfig(db, item, expected, now).0, input) && r.Ok?
    requires item.scope != GlobalScope ==> input.namespace == item.namespace
    requires item.scope == ServiceScope ==> input.service == item.service
    requires !StrongerLayerHolds(db, item.scope, input, item.key)
    ensures item.key in r.value && r.value[item.key] == EffectiveItem(item.key, item.value, item.valueType, item.scope)
  {
    PutStores(db, item, expected, now);
    assert item.scope == GlobalScope || item.scope == NamespaceScope || item.scope == ServiceScope;
    hide PutConfig, ResolveReturns;
    ResolvesExactly(PutConfig(db, item, expected, now).0, input, r, item.key);
  }
}
