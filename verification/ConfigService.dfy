/** The configuration service over the string-keyed store. */
module ConfigServiceObject {
  import opened Outcome
  import opened Model
  import opened Keyspace
  import opened Services
  import opened Invariants
  import opened Representation
  import opened Views
  import opened Watching
  import opened MemoryStoreObject
  import opened NamespaceServiceObject
  import Store
  import Text

  predicate ItemOrder(left: ConfigItem, right: ConfigItem) {
    Text.Less(left.key, right.key)
  }

  class ConfigService {
    const store: MemoryStore
    const namespaces: NamespaceService

    constructor (store: MemoryStore, namespaces: NamespaceService)
      ensures this.store == store && this.namespaces == namespaces
    {
      this.store, this.namespaces := store, namespaces;
    }

    ghost predicate Serves(a: State)
      reads store
    {
      namespaces.store == store && store.Valid() && Represents(store.Contents(), a)
    }

    method Put(input: ConfigItem, expected: int, now: Time, ghost a: State) returns (r: Result<ConfigItem>)
      requires Serves(a)
      modifies store
      ensures Serves(PutConfig(a, input, expected, now).0)
      ensures r == PutConfig(a, input, expected, now).1
      ensures Kept(old(store.State()), store.State())
    {
      hide Represents, MemoryStore.Valid, ConfigKey, Render, Services.CheckWrite, ConfigItem.Valid, ValidKey, ConfigKeyOf, Kept;
      KeptIsReflexive(store.State());
      var item := input;
      if !item.scope.GlobalScope? {
        var _ :- namespaces.CheckWrite(item.namespace, false, a);
      }
      if !item.Valid() {
        return Err(InvalidArgument);
      }
      if item.createdAt == 0 {
        item := item.(createdAt := now);
      }
      item := item.(updatedAt := now);
      ghost var k := ConfigKeyOf(item.scope, item.namespace, item.service, item.key);
      ValidItemsHaveValidKeys(input);
      RenderConfigKey(item.scope, item.namespace, item.service, item.key);
      ResultsAgree(store.Contents(), a, k, expected, ConfigV(item), 0);
      var key := ConfigKey(item.scope, item.namespace, item.service, item.key);
      var revision: Result<int>;
      if expected == 0 {
        OperationsAreRepresented(store.Contents(), a, Store.CreateOp(k, ConfigV(item), 0));
        revision := store.Create(key, ConfigV(item), 0);
      } else {
        OperationsAreRepresented(store.Contents(), a, Store.CasOp(k, expected, ConfigV(item), 0));
        revision := store.Cas(key, expected, ConfigV(item), 0);
      }
      if revision.Err? {
        return Err(revision.code);
      }
      return Ok(item.(revision := revision.value));
    }

    method Delete(scope: Scope, ns: string, service: string, key: string, expected: int, ghost a: State)
      returns (r: Result<()>)
      requires Serves(a)
      modifies store
      ensures Serves(DeleteConfig(a, scope, ns, service, key, expected).0)
      ensures r == DeleteConfig(a, scope, ns, service, key, expected).1
      ensures Kept(old(store.State()), store.State())
    {
      hide Represents, MemoryStore.Valid, ConfigKey, Render, Services.CheckWrite, ConfigKeyOf, Kept;
      KeptIsReflexive(store.State());
      if !scope.GlobalScope? {
        var _ :- namespaces.CheckWrite(ns, false, a);
      }
      if expected <= 0 {
        return Err(InvalidArgument);
      }
      ghost var k := ConfigKeyOf(scope, ns, service, key);
      RenderConfigKey(scope, ns, service, key);
      OperationsAreRepresented(store.Contents(), a, Store.DeleteCasOp(k, expected));
      ResultsAgree(store.Contents(), a, k, expected, NamespaceV(Namespace("", ReadWrite, 0, 0, 0)), 0);
      var _ :- store.DeleteCas(ConfigKey(scope, ns, service, key), expected);
      return Ok(());
    }

    method DecodeAll(records: seq<Record>) returns (r: Result<seq<ConfigItem>>)
      ensures r.Ok? ==> |r.value| == |records| &&
                        forall n :: 0 <= n < |records| ==> DecodeConfig(RecOf(records[n])) == Ok(r.value[n])
      ensures r.Err? ==> exists n :: 0 <= n < |records| && DecodeConfig(RecOf(records[n])).Err?
    {
      hide DecodeConfig;
      var items: seq<ConfigItem> := [];
      for n := 0 to |records|
        invariant |items| == n
        invariant forall m :: 0 <= m < n ==> DecodeConfig(RecOf(records[m])) == Ok(items[m])
      {
        var item := DecodeConfig(RecOf(records[n]));
        if item.Err? {
          return Err(item.code);
        }
        items := items + [item.value];
      }
      return Ok(items);
    }

    method GetRaw(scope: Scope, ns: string, service: string, admin: bool, ghost a: State) returns (r: Result<seq<ConfigItem>>)
      requires namespaces.store == store && Represents(store.Contents(), a) && WellPlaced(a)
      ensures RawReturns(r, a, scope, ns, service, admin)
    {
      hide Represents, WellPlaced, ConfigPrefix, Services.CheckRead, ListsPrefix, IsRawListing, DecodeConfig, Text.SortBy, ItemOrder;
      if !scope.GlobalScope? {
        var _ :- namespaces.CheckRead(ns, admin, a);
      }
      var records := store.List(ConfigPrefix(scope, ns, service));
      RecordsDecode(store.Contents(), a, scope, ns, service, records);
      var items := DecodeAll(records);
      if items.Ok? {
        DecodedIsRawListing(store.Contents(), a, scope, ns, service, records, items.value);
        RawListingIsSorted(items.value, a, scope, ns, service);
        Text.SortByOfSorted(items.value, ItemOrder);
        items := Ok(Text.SortBy(items.value, ItemOrder));
      }
      return items;
    }

    method Merge(resolved: map<string, EffectiveItem>, scope: Scope, items: seq<ConfigItem>)
      returns (merged: map<string, EffectiveItem>)
      requires forall x, y :: 0 <= x < y < |items| ==> items[x].key != items[y].key
      ensures forall c :: c in items ==> c.key in merged && merged[c.key] == Effective(c, c.key, scope)
      ensures forall k :: (forall c :: c in items ==> c.key != k) ==>
        (k in merged <==> k in resolved) && (k in merged ==> merged[k] == resolved[k])
    {
      merged := resolved;
      for n := 0 to |items|
        invariant forall m :: 0 <= m < n ==> items[m].key in merged && merged[items[m].key] == Effective(items[m], items[m].key, scope)
        invariant forall k :: (forall c :: c in items ==> c.key != k) ==>
          (k in merged <==> k in resolved) && (k in merged ==> merged[k] == resolved[k])
      {
        var item := items[n];
        merged := merged[item.key := EffectiveItem(item.key, item.value, item.valueType, scope)];
      }
    }

    method Override(base: map<string, EffectiveItem>, overrides: map<string, ConfigItem>)
      returns (r: Result<map<string, EffectiveItem>>)
      ensures if exists k :: k in overrides && !overrides[k].Valid() then r == Err(InvalidArgument)
              else r.Ok? && forall k :: Lookup(r.value, k) == Overridden(base, overrides, k)
    {
      hide ConfigItem.Valid;
      var resolved := base;
      var todo := overrides.Keys;
      while todo != {}
        invariant todo <= overrides.Keys
        invariant forall k :: k in overrides && k !in todo ==> overrides[k].Valid()
        invariant forall k :: Lookup(resolved, k) == if k in todo then Lookup(base, k) else Overridden(base, overrides, k)
        decreases |todo|
      {
        var key :| key in todo;
        todo := todo - {key};
        var item := overrides[key];
        if !item.Valid() {
          return Err(InvalidArgument);
        }
        resolved := resolved[key := EffectiveItem(key, item.value, item.valueType, item.scope)];
      }
      return Ok(resolved);
    }

    method Resolve(input: ResolveInput, ghost a: State) returns (r: Result<map<string, EffectiveItem>>)
      requires namespaces.store == store && Represents(store.Contents(), a) && WellPlaced(a)
      ensures ResolveReturns(r, a, input)
    {
      hide Represents, WellPlaced, Services.CheckRead, IsRawListing, Strongest, ConfigItem.Valid, Lookup;
      var _ :- namespaces.CheckRead(input.namespace, input.admin, a);
      var globals := GetRaw(GlobalScope, "", "", input.admin, a);
      var shared := GetRaw(NamespaceScope, input.namespace, "", input.admin, a);
      var own := GetRaw(ServiceScope, input.namespace, input.service, input.admin, a);
      // None of the three reads can fail once the check above has passed.
      var globalItems, namespaceItems, serviceItems := globals.value, shared.value, own.value;
      RawKeysDiffer(globalItems, a, GlobalScope, "", "");
      RawKeysDiffer(namespaceItems, a, NamespaceScope, input.namespace, "");
      RawKeysDiffer(serviceItems, a, ServiceScope, input.namespace, input.service);
      var r0: map<string, EffectiveItem> := map[];
      var r1 := Merge(r0, GlobalScope, globalItems);
      var r2 := Merge(r1, NamespaceScope, namespaceItems);
      var r3 := Merge(r2, ServiceScope, serviceItems);
      r := Override(r3, input.overrides);
      forall key
        ensures Lookup(r3, key) == Views.Stored(a, input.namespace, input.service, key)
      {
        MergedLayer(globalItems, a, GlobalScope, "", "", r0, r1, key);
        MergedLayer(namespaceItems, a, NamespaceScope, input.namespace, "", r1, r2, key);
        MergedLayer(serviceItems, a, ServiceScope, input.namespace, input.service, r2, r3, key);
        StoredUnfolds(a, input.namespace, input.service, key);
        NothingYet(r0, key);
      }
      if r.Ok? {
        forall key
          ensures HoldsStrongest(r.value, a, input, key)
        {
          ResolvedHolds(r.value, r3, a, input, key);
        }
      }
    }
  }

  function Lookup(resolved: map<string, EffectiveItem>, key: string): Option<EffectiveItem> {
    if key in resolved then Some(resolved[key]) else None
  }

  function Overridden(base: map<string, EffectiveItem>, overrides: map<string, ConfigItem>, key: string): Option<EffectiveItem> {
    if key in overrides then Some(Effective(overrides[key], key, overrides[key].scope)) else Lookup(base, key)
  }

  lemma NothingYet(r0: map<string, EffectiveItem>, key: string)
    requires r0 == map[]
    ensures Lookup(r0, key) == None
  {
  }

  lemma ResolvedHolds(resolved: map<string, EffectiveItem>, base: map<string, EffectiveItem>, a: State, input: ResolveInput, key: string)
    requires Lookup(base, key) == Views.Stored(a, input.namespace, input.service, key)
    requires Lookup(resolved, key) == Overridden(base, input.overrides, key)
    ensures HoldsStrongest(resolved, a, input, key)
  {
    hide Views.Stored;
  }

  lemma ValidItemsHaveValidKeys(item: ConfigItem)
    requires item.Valid()
    ensures ValidKey(ConfigKeyOf(item.scope, item.namespace, item.service, item.key))
  {
  }

  // -------------------------------------------------------- listings of records

  predicate AtScope(k: Key, scope: Scope, ns: string, service: string) {
    match scope
    case GlobalScope => k.GlobalConfigK?
    case NamespaceScope => k.NamespaceConfigK? && k.ns == ns
    case _ => k.ServiceConfigK? && k.ns == ns && k.service == service
  }

  lemma PrefixIsScope(k: Key, scope: Scope, ns: string, service: string)
    requires ValidKey(k)
    ensures ConfigPrefix(scope, ns, service) <= Render(k) <==> AtScope(k, scope, ns, service)
  {
    hide Render, ValidKey;
    ConfigPrefixesAreExact(k, ns, service);
    SamePrefix(scope, ns, service);
    hide ConfigPrefix;
  }

  lemma SamePrefix(scope: Scope, ns: string, service: string)
    ensures ConfigPrefix(scope, ns, service) ==
            match scope
            case GlobalScope => ConfigPrefix(GlobalScope, "", "")
            case NamespaceScope => ConfigPrefix(NamespaceScope, ns, "")
            case _ => ConfigPrefix(ServiceScope, ns, service)
  {
  }

  lemma KeysAtScope(k: Key, v: Value, scope: Scope, ns: string, service: string)
    requires Placed(k, v) && AtScope(k, scope, ns, service)
    ensures v.ConfigV? && k == ConfigKeyOf(scope, ns, service, v.config.key)
  {
  }

  lemma AddressedKeysAreAtScope(scope: Scope, ns: string, service: string, key: string)
    ensures AtScope(ConfigKeyOf(scope, ns, service, key), scope, ns, service)
  {
  }

  lemma ListedRecord(c: Store.Db<string>, a: State, scope: Scope, ns: string, service: string, records: seq<Record>, n: nat)
    requires Represents(c, a) && WellPlaced(a)
    requires ListsPrefix(records, c.data, ConfigPrefix(scope, ns, service)) && n < |records|
    ensures DecodeConfig(RecOf(records[n])).Ok?
    ensures var item := DecodeConfig(RecOf(records[n])).value;
            var k := ConfigKeyOf(scope, ns, service, item.key);
            k in a.data && a.data[k] == RecOf(records[n]) && records[n].key == Render(k)
  {
    hide Render, ValidKey, Store.Sound, SameLog, Placed, Text.Less, AtScope, ConfigPrefix, ConfigKeyOf;
    assert records[n].key in c.data;
    var k :| k in a.data && Render(k) == records[n].key;
    assert ValidKey(k);
    PrefixIsScope(k, scope, ns, service);
    KeysAtScope(k, a.data[k].value, scope, ns, service);
  }

  lemma RecordsDecode(c: Store.Db<string>, a: State, scope: Scope, ns: string, service: string, records: seq<Record>)
    requires Represents(c, a) && WellPlaced(a)
    requires ListsPrefix(records, c.data, ConfigPrefix(scope, ns, service))
    ensures forall n :: 0 <= n < |records| ==> DecodeConfig(RecOf(records[n])).Ok?
  {
    hide Represents, WellPlaced, ListsPrefix, Render, DecodeConfig, ConfigPrefix, ConfigKeyOf;
    forall n | 0 <= n < |records|
      ensures DecodeConfig(RecOf(records[n])).Ok?
    {
      ListedRecord(c, a, scope, ns, service, records, n);
    }
  }

  lemma DecodedIsRawListing(c: Store.Db<string>, a: State, scope: Scope, ns: string, service: string,
                            records: seq<Record>, items: seq<ConfigItem>)
    requires Represents(c, a) && WellPlaced(a)
    requires ListsPrefix(records, c.data, ConfigPrefix(scope, ns, service))
    requires |items| == |records|
    requires forall n :: 0 <= n < |records| ==> DecodeConfig(RecOf(records[n])) == Ok(items[n])
    ensures IsRawListing(items, a, scope, ns, service)
  {
    hide WellPlaced, Render, SameLog, ValidKey, Text.Less, ConfigPrefix, ConfigKeyOf, DecodeConfig;
    forall item
      ensures item in items <==> RawItem(a, scope, ns, service, item)
    {
      if item in items {
        var n :| 0 <= n < |items| && items[n] == item;
        ListedRecord(c, a, scope, ns, service, records, n);
      }
      if RawItem(a, scope, ns, service, item) {
        var k := ConfigKeyOf(scope, ns, service, item.key);
        assert ValidKey(k);
        PrefixIsScope(k, scope, ns, service);
        AddressedKeysAreAtScope(scope, ns, service, item.key);
        assert Render(k) in c.data;
        var n :| 0 <= n < |records| && records[n].key == Render(k);
        assert RecOf(records[n]) == a.data[k];
        assert items[n] == item;
      }
    }
    forall x, y | 0 <= x < y < |items|
      ensures Text.Less(items[x].key, items[y].key)
    {
      ListedRecord(c, a, scope, ns, service, records, x);
      ListedRecord(c, a, scope, ns, service, records, y);
      KeyOrder(scope, ns, service, items[x].key, items[y].key);
    }
  }

  lemma KeyOrder(scope: Scope, ns: string, service: string, left: string, right: string)
    requires Text.Less(Render(ConfigKeyOf(scope, ns, service, left)), Render(ConfigKeyOf(scope, ns, service, right)))
    ensures Text.Less(left, right)
  {
    hide Render;
    KeyUnderPrefix(scope, ns, service, left);
    KeyUnderPrefix(scope, ns, service, right);
    hide ConfigPrefix, ConfigKeyOf;
    Text.LessUnderPrefix(ConfigPrefix(scope, ns, service), left, right);
  }

  lemma KeyUnderPrefix(scope: Scope, ns: string, service: string, key: string)
    ensures Render(ConfigKeyOf(scope, ns, service, key)) == ConfigPrefix(scope, ns, service) + key
  {
  }

  lemma RawListingIsSorted(items: seq<ConfigItem>, a: State, scope: Scope, ns: string, service: string)
    requires IsRawListing(items, a, scope, ns, service)
    ensures Text.Sorted(items, ItemOrder)
  {
    hide RawItem, Text.Less;
    forall x, y | 0 <= x < y < |items|
      ensures !ItemOrder(items[y], items[x])
    {
      Text.LessIsTotal(items[x].key, items[y].key);
    }
  }

  lemma RawKeysDiffer(items: seq<ConfigItem>, a: State, scope: Scope, ns: string, service: string)
    requires IsRawListing(items, a, scope, ns, service)
    ensures forall x, y :: 0 <= x < y < |items| ==> items[x].key != items[y].key
  {
    hide RawItem, Text.Less;
    forall x, y | 0 <= x < y < |items|
      ensures items[x].key != items[y].key
    {
      Text.LessIsTotal(items[x].key, items[y].key);
    }
  }

  /** Merging a scope's items puts that layer on top of what was resolved before. */
  lemma MergedLayer(items: seq<ConfigItem>, a: State, scope: Scope, ns: string, service: string,
                    resolved: map<string, EffectiveItem>, merged: map<string, EffectiveItem>, key: string)
    requires IsRawListing(items, a, scope, ns, service)
    requires forall c :: c in items ==> c.key in merged && merged[c.key] == Effective(c, c.key, scope)
    requires forall k :: (forall c :: c in items ==> c.key != k) ==>
                           (k in merged <==> k in resolved) && (k in merged ==> merged[k] == resolved[k])
    requires WellPlaced(a)
    ensures Lookup(merged, key) ==
            match LayerAt(a, ConfigKeyOf(scope, ns, service, key))
            case Some(c) => Some(Effective(c, key, scope))
            case None => Lookup(resolved, key)
  {
    hide Text.Less, Store.Sound, Placed, WellPlaced;
    var k := ConfigKeyOf(scope, ns, service, key);
    match LayerAt(a, k)
    case Some(c) =>
      var item := DecodeConfig(a.data[k]).value;
      LayerHasItsKey(a, scope, ns, service, key);
      assert RawItem(a, scope, ns, service, item);
      assert item in items;
    case None =>
      forall c | c in items
        ensures c.key != key
      {
        assert RawItem(a, scope, ns, service, c);
      }
  }

  lemma LayerHasItsKey(a: State, scope: Scope, ns: string, service: string, key: string)
    requires WellPlaced(a)
    requires LayerAt(a, ConfigKeyOf(scope, ns, service, key)).Some?
    ensures LayerAt(a, ConfigKeyOf(scope, ns, service, key)).value.key == key
  {
    hide Store.Sound;
    var k := ConfigKeyOf(scope, ns, service, key);
    assert Placed(k, a.data[k].value);
  }
}
