/** The configuration client's cache of effective values. */
module ConfigSdk {
  import opened Outcome
  import opened Model
  import opened Watching
  import Consumer
  import Store

  type ConfigEvent = WatchEvent<ConfigItem>

  type Items = map<string, EffectiveItem>

  /** An event, with what the transport would answer to a request for the effective values at that moment. */
  datatype Delivery = Delivery(event: ConfigEvent, effective: Result<Items>)

  /** A delete says nothing about the layer below, so it is answered like a reset: by loading everything. */
  function AfterDelivery(items: Items, d: Delivery): Result<Items> {
    if d.event.Reset? || d.event.kind.DeleteEvent? then d.effective
    else
      var c := d.event.payload;
      Ok(items[c.key := EffectiveItem(c.key, c.value, c.valueType, c.scope)])
  }

  class Client {
    var cache: map<string, Items>

    constructor ()
      ensures cache == map[]
    {
      cache := map[];
    }

    function Cached(ns: string, service: string): Items
      reads this
    {
      var key := Consumer.CacheKey(ns, service);
      if key in cache then cache[key] else map[]
    }

    twostate predicate OnlyThisService(ns: string, service: string)
      reads this
    {
      var key := Consumer.CacheKey(ns, service);
      cache - {key} == old(cache) - {key}
    }

    method Sync(ns: string, service: string, effective: Result<Items>) returns (r: Result<()>)
      modifies this
      ensures OnlyThisService(ns, service)
      ensures effective.Err? ==> r == Err(effective.code) && cache == old(cache)
      ensures effective.Ok? ==> r == Ok(()) && Cached(ns, service) == effective.value
    {
      var items :- effective;
      cache := cache[Consumer.CacheKey(ns, service) := items];
      return Ok(());
    }

    method ApplyEvent(ns: string, service: string, d: Delivery) returns (r: Result<()>)
      modifies this
      ensures OnlyThisService(ns, service)
      ensures var next := AfterDelivery(old(Cached(ns, service)), d);
              if next.Ok? then r == Ok(()) && Cached(ns, service) == next.value
              else r == Err(next.code) && cache == old(cache)
    {
      if d.event.Reset? || d.event.kind.DeleteEvent? {
        r := Sync(ns, service, d.effective);
        return;
      }
      var item := d.event.payload;
      var key := Consumer.CacheKey(ns, service);
      if key !in cache {
        cache := cache[key := map[]];
      }
      cache := cache[key := cache[key][item.key := EffectiveItem(item.key, item.value, item.valueType, item.scope)]];
      return Ok(());
    }

    /** A copy, made entry by entry. */
    method EffectiveConfig(ns: string, service: string) returns (copy: Items)
      ensures copy == Cached(ns, service)
    {
      var items := Cached(ns, service);
      copy := map[];
      var todo := items.Keys;
      while todo != {}
        invariant todo <= items.Keys && copy.Keys == items.Keys - todo
        invariant forall key :: key in copy ==> copy[key] == items[key]
        decreases |todo|
      {
        var key :| key in todo;
        todo := todo - {key};
        copy := copy[key := items[key]];
      }
    }
  }
}
