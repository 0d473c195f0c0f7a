/** The consumer's local cache: fed by a snapshot, kept up to date by instance events. */
module Consumer {
  import opened Outcome
  import opened Model
  import opened Keyspace
  import opened Watching
  import opened DiscoveryServiceObject
  import opened Pickers
  import Store

  function CacheKey(ns: string, service: string): string {
    ns + "/" + service
  }

  /** Every instance but those with this id, in order. */
  function Without(items: seq<Instance>, id: string): seq<Instance> {
    if items == [] then []
    else
      var rest := Without(items[..|items| - 1], id);
      var last := items[|items| - 1];
      if last.instanceID != id then rest + [last] else rest
  }

  function Applied(items: seq<Instance>, kind: Store.EventKind, i: Instance): seq<Instance> {
    Without(items, i.instanceID) + if kind.PutEvent? then [i] else []
  }

  /**
   * An event as it reaches the client; `snapshot` is what the transport would answer to a
   * snapshot request at that moment, which only a reset makes.
   */
  datatype Delivery = Delivery(event: InstanceEvent, snapshot: Result<seq<Instance>>)

  function AfterDelivery(items: seq<Instance>, d: Delivery): Result<seq<Instance>> {
    match d.event
    case Reset(_) => d.snapshot
    case Changed(kind, _, _, i) => Ok(Applied(items, kind, i))
  }

  /** The cached list after a stream, which ends early at the first snapshot that fails. */
  function AfterDeliveries(items: seq<Instance>, stream: seq<Delivery>): (seq<Instance>, Result<()>)
    decreases |stream|
  {
    if stream == [] then (items, Ok(()))
    else
      match AfterDelivery(items, stream[0])
      case Err(code) => (items, Err(code))
      case Ok(next) => AfterDeliveries(next, stream[1..])
  }

  /** Whatever was delivered before and would come after: the first failed re-sync ends the stream and keeps the list it found. */
  lemma {:induction false} FailedResyncEndsTheStream(items: seq<Instance>, before: seq<Delivery>, reset: Delivery, after: seq<Delivery>)
    requires AfterDeliveries(items, before).1.Ok? && reset.event.Reset? && reset.snapshot.Err?
    ensures AfterDeliveries(items, before + [reset] + after) == (AfterDeliveries(items, before).0, Err(reset.snapshot.code))
    decreases |before|
  {
    var stream := before + [reset] + after;
    if before == [] {
      assert stream[0] == reset;
    } else {
      assert stream[0] == before[0] && stream[1..] == before[1..] + [reset] + after;
      FailedResyncEndsTheStream(AfterDelivery(items, before[0]).value, before[1..], reset, after);
    }
  }

  /** Compacts the array in place and returns how many instances were kept. */
  method RemoveInstance(items: array<Instance>, id: string) returns (kept: nat)
    modifies items
    ensures kept <= items.Length && items[..kept] == Without(old(items[..]), id)
  {
    kept := 0;
    ghost var before := items[..];
    for n := 0 to items.Length
      invariant kept <= n
      invariant items[..kept] == Without(before[..n], id)
      invariant items[n..] == before[n..]
    {
      var item := items[n];
      assert item == items[n..][0] == before[n];
      assert before[..n + 1][..n] == before[..n];
      if item.instanceID != id {
        items[kept] := item;
        kept := kept + 1;
      }
      assert items[n + 1..] == before[n..][1..];
    }
    assert before[..items.Length] == before;
  }

  class Client {
    var cache: map<string, seq<Instance>>
    var rrCounters: map<string, nat>

    constructor ()
      ensures cache == map[] && rrCounters == map[]
    {
      cache, rrCounters := map[], map[];
    }

    /** The cached instances of a service; none before the first snapshot. */
    function Instances(ns: string, service: string): seq<Instance>
      reads this
    {
      if CacheKey(ns, service) in cache then cache[CacheKey(ns, service)] else []
    }

    /** Only the cached list of this service may differ from before. */
    twostate predicate OnlyThisService(ns: string, service: string)
      reads this
    {
      cache - {CacheKey(ns, service)} == old(cache) - {CacheKey(ns, service)}
    }

    method Sync(ns: string, service: string, snapshot: Result<seq<Instance>>) returns (r: Result<()>)
      modifies this`cache
      ensures OnlyThisService(ns, service)
      ensures snapshot.Err? ==> r == Err(snapshot.code) && cache == old(cache)
      ensures snapshot.Ok? ==> r == Ok(()) && Instances(ns, service) == snapshot.value
    {
      var items :- snapshot;
      cache := cache[CacheKey(ns, service) := items];
      return Ok(());
    }

    method ApplyEvent(ns: string, service: string, d: Delivery) returns (r: Result<()>)
      modifies this`cache
      ensures OnlyThisService(ns, service)
      ensures var next := AfterDelivery(old(Instances(ns, service)), d);
              if next.Ok? then r == Ok(()) && Instances(ns, service) == next.value
              else r == Err(next.code) && cache == old(cache)
    {
      if d.event.Reset? {
        r := Sync(ns, service, d.snapshot);
        return;
      }
      var instance := d.event.payload;
      var key := CacheKey(ns, service);
      var current := Instances(ns, service);
      var items := new Instance[|current|](n requires 0 <= n < |current| => current[n]);
      assert items[..] == current;
      var kept := RemoveInstance(items, instance.instanceID);
      var next := items[..kept];
      if d.event.kind.PutEvent? {
        next := next + [instance];
      }
      cache := cache[key := next];
      return Ok(());
    }

    /** The loop that applies a stream until it ends or an event fails. */
    method Watch(ns: string, service: string, stream: seq<Delivery>) returns (r: Result<()>)
      modifies this`cache
      ensures OnlyThisService(ns, service)
      ensures (Instances(ns, service), r) == AfterDeliveries(old(Instances(ns, service)), stream)
    {
      hide AfterDelivery;
      for n := 0 to |stream|
        invariant OnlyThisService(ns, service)
        invariant AfterDeliveries(Instances(ns, service), stream[n..]) == AfterDeliveries(old(Instances(ns, service)), stream)
      {
        assert stream[n..][0] == stream[n] && stream[n..][1..] == stream[n + 1..];
        var applied := ApplyEvent(ns, service, stream[n]);
        if applied.Err? {
          return applied;
        }
      }
      return Ok(());
    }

    /** How many round-robin picks were made for a service. */
    function Counter(ns: string, service: string): nat
      reads this
    {
      if CacheKey(ns, service) in rrCounters then rrCounters[CacheKey(ns, service)] else 0
    }

    method PickRoundRobin(ns: string, service: string, items: seq<Instance>) returns (picked: Instance)
      requires items != []
      modifies this`rrCounters
      ensures picked == items[old(Counter(ns, service)) % |items|]
      ensures Counter(ns, service) == old(Counter(ns, service)) + 1
      ensures rrCounters - {CacheKey(ns, service)} == old(rrCounters) - {CacheKey(ns, service)}
    {
      var key := CacheKey(ns, service);
      var index := Counter(ns, service) % |items|;
      rrCounters := rrCounters[key := Counter(ns, service) + 1];
      return items[index];
    }

    /** `random` is the library's random index, `draw` its draw for the weighted strategy. */
    method Pick(ns: string, service: string, strategy: string, hashKey: string,
                hash: string -> nat, random: nat, draw: int)
      returns (r: Choice)
      requires Instances(ns, service) != [] ==> random < |Instances(ns, service)|
      modifies this`rrCounters
      ensures var items := old(Instances(ns, service));
              if items == [] then r == Refused
              else match strategy
                case "round_robin" => r == Picked(items[old(Counter(ns, service)) % |items|])
                case "random" => r == Picked(items[random])
                case "weighted_random" =>
                  if Total(items) <= 0 then r == Panics
                  else r.Picked? && exists p: nat :: IsWeightedChoice(items, draw, p) && r.instance == items[p]
                case "consistent_hash" =>
                  r.Picked? && exists p: nat :: IsLowest(items, i => Score(hash, hashKey, i), p) && r.instance == items[p]
                case _ => r == Refused
      ensures strategy != "round_robin" ==> rrCounters == old(rrCounters)
    {
      hide IsWeightedChoice, IsLowest, Total;
      var items := Instances(ns, service);
      if items == [] {
        return Refused;
      }
      match strategy {
        case "round_robin" =>
          var picked := PickRoundRobin(ns, service, items);
          return Picked(picked);
        case "random" =>
          return Picked(items[random]);
        case "weighted_random" =>
          var picked := PickWeightedRandom(items, draw);
          return if picked.Some? then Picked(picked.value) else Panics;
        case "consistent_hash" =>
          var picked := PickConsistentHash(items, hash, hashKey);
          return Picked(picked);
        case _ =>
          return Refused;
      }
    }

    /**
     * A caller's loop: whole rounds of round-robin picks over an unchanged cache return every cached
     * instance equally often, whatever the counter was.
     */
    method PickRounds(ns: string, service: string, rounds: nat) returns (picked: seq<Instance>)
      requires Instances(ns, service) != []
      modifies this`rrCounters
      ensures |picked| == rounds * |Instances(ns, service)|
      ensures forall i :: multiset(picked)[i] == rounds * multiset(Instances(ns, service))[i]
      ensures Counter(ns, service) == old(Counter(ns, service)) + rounds * |Instances(ns, service)|
    {
      hide Picks;
      var items := Instances(ns, service);
      var from := Counter(ns, service);
      picked := [];
      NoPicks(items, from);
      for n := 0 to rounds * |items|
        invariant picked == Picks(items, from, n) && |picked| == n && Counter(ns, service) == from + n
        invariant Instances(ns, service) == items
      {
        var next := PickRoundRobin(ns, service, items);
        OnePick(items, from + n);
        PicksOfSum(items, from, n, 1);
        picked := picked + [next];
      }
      forall i
        ensures multiset(picked)[i] == rounds * multiset(items)[i]
      {
        RoundsAreFair(items, from, rounds, i);
      }
    }
  }

  /** Two services with valid names never share a cache entry. */
  lemma CacheKeysAreInjective(ns: string, service: string, ns': string, service': string)
    requires ValidName(ns) && ValidName(ns')
    requires CacheKey(ns, service) == CacheKey(ns', service')
    ensures ns == ns' && service == service'
  {
    FirstSegment(ns, service, ns', service');
  }
}
