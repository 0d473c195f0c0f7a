/** When the consumer's cache agrees with the registry. */
module ConsumerConvergence {
  import opened Outcome
  import opened Model
  import opened Keyspace
  import opened Services
  import opened Invariants
  import opened Representation
  import opened Views
  import opened Watching
  import opened DiscoveryServiceObject
  import opened Consumer
  import Store
  import Text

  type LogEvent = Store.Event<Key>

  // ------------------------------------------------------ the cache, one id at a time

  /** The cached instance with this id, up to the revision and lease only records carry. */
  function Cached(items: seq<Instance>, id: string): Option<Instance> {
    if items == [] then None
    else if items[|items| - 1].instanceID == id then Some(Strip(items[|items| - 1]))
    else Cached(items[..|items| - 1], id)
  }

  ghost predicate OncePerID(items: seq<Instance>) {
    forall x, y :: 0 <= x < y < |items| ==> items[x].instanceID != items[y].instanceID
  }

  function AfterEvents(items: seq<Instance>, events: seq<InstanceEvent>): seq<Instance>
    decreases |events|
  {
    if events == [] then items
    else if events[0].Reset? then AfterEvents(items, events[1..])
    else AfterEvents(Applied(items, events[0].kind, events[0].payload), events[1..])
  }

  lemma CachedOfAppend(items: seq<Instance>, i: Instance, id: string)
    ensures Cached(items + [i], id) == if i.instanceID == id then Some(Strip(i)) else Cached(items, id)
  {
    assert (items + [i])[..|items|] == items;
  }

  lemma {:induction false} WithoutForgetsOneID(items: seq<Instance>, gone: string, id: string)
    ensures Cached(Without(items, gone), id) == if id == gone then None else Cached(items, id)
    ensures forall i :: i in Without(items, gone) <==> i in items && i.instanceID != gone
    ensures OncePerID(items) ==> OncePerID(Without(items, gone))
  {
    if items != [] {
      var init, last := items[..|items| - 1], items[|items| - 1];
      assert items == init + [last];
      WithoutForgetsOneID(init, gone, id);
      CachedOfAppend(Without(init, gone), last, id);
    }
  }

  lemma AppliedToOneID(items: seq<Instance>, kind: Store.EventKind, i: Instance, id: string)
    ensures Cached(Applied(items, kind, i), id) ==
            if i.instanceID == id then (if kind.PutEvent? then Some(Strip(i)) else None) else Cached(items, id)
    ensures OncePerID(items) ==> OncePerID(Applied(items, kind, i))
  {
    WithoutForgetsOneID(items, i.instanceID, id);
    if kind.PutEvent? {
      CachedOfAppend(Without(items, i.instanceID), i, id);
    } else {
      assert Applied(items, kind, i) == Without(items, i.instanceID);
    }
  }

  lemma {:induction false} EventsKeepIDsUnique(items: seq<Instance>, events: seq<InstanceEvent>)
    requires OncePerID(items)
    ensures OncePerID(AfterEvents(items, events))
    decreases |events|
  {
    if events != [] {
      if events[0].Reset? {
        EventsKeepIDsUnique(items, events[1..]);
      } else {
        AppliedToOneID(items, events[0].kind, events[0].payload, "");
        EventsKeepIDsUnique(Applied(items, events[0].kind, events[0].payload), events[1..]);
      }
    }
  }

  /** The client's own fold over deliveries does exactly this as long as no event is a reset. */
  lemma {:induction false} StreamsWithoutReset(items: seq<Instance>, stream: seq<Delivery>, events: seq<InstanceEvent>)
    requires |stream| == |events|
    requires forall n :: 0 <= n < |stream| ==> stream[n].event == events[n] && events[n].Changed?
    ensures AfterDeliveries(items, stream) == (AfterEvents(items, events), Ok(()))
    decreases |stream|
  {
    if stream != [] {
      assert events[0].Changed?;
      StreamsWithoutReset(Applied(items, events[0].kind, events[0].payload), stream[1..], events[1..]);
    }
  }

  // ------------------------------------------------ what a stream says about one id

  /** The last event of a stream about an instance id. */
  function LastAbout(events: seq<InstanceEvent>, id: string): Option<InstanceEvent> {
    if events == [] then None
    else
      var e := events[|events| - 1];
      if e.Changed? && e.payload.instanceID == id then Some(e) else LastAbout(events[..|events| - 1], id)
  }

  /** What an event leaves under its own id. */
  function Effect(e: InstanceEvent): Option<Instance> {
    if e.Changed? && e.kind.PutEvent? then Some(Strip(e.payload)) else None
  }

  /** What a list and then a stream say about an id: the last event decides, or else the list. */
  function Told(items: seq<Instance>, events: seq<InstanceEvent>, id: string): Option<Instance> {
    match LastAbout(events, id)
    case Some(e) => Effect(e)
    case None => Cached(items, id)
  }

  lemma {:induction false} LastAboutOfFirst(head: InstanceEvent, rest: seq<InstanceEvent>, id: string)
    ensures LastAbout([head] + rest, id) ==
            if LastAbout(rest, id).Some? then LastAbout(rest, id)
            else if head.Changed? && head.payload.instanceID == id then Some(head)
            else None
  {
    if rest == [] {
      assert [head] + rest == [head];
      assert [head][..0] == [];
    } else {
      var init, last := rest[..|rest| - 1], rest[|rest| - 1];
      assert ([head] + rest)[..|rest|] == [head] + init;
      LastAboutOfFirst(head, init, id);
    }
  }

  /** Applying a stream caches exactly what it says. */
  lemma {:induction false} StreamDecides(items: seq<Instance>, events: seq<InstanceEvent>, id: string)
    ensures Cached(AfterEvents(items, events), id) == Told(items, events, id)
    decreases |events|
  {
    if events != [] {
      var head, rest := events[0], events[1..];
      assert events == [head] + rest;
      LastAboutOfFirst(head, rest, id);
      if head.Reset? {
        StreamDecides(items, rest, id);
      } else {
        AppliedToOneID(items, head.kind, head.payload, id);
        StreamDecides(Applied(items, head.kind, head.payload), rest, id);
      }
    }
  }

  // --------------------------------------------------- the registry, one id at a time

  /** The instance a set of stored cells holds under this id. */
  function Held(cells: map<Key, Store.Cell>, k: Key): Option<Instance> {
    if k in cells && cells[k].value.InstanceV? then Some(Strip(cells[k].value.instance)) else None
  }

  ghost predicate LogIsPlaced(log: seq<LogEvent>) {
    forall n :: 0 <= n < |log| ==> Placed(log[n].key, log[n].value)
  }

  ghost predicate Touched(log: seq<LogEvent>, k: Key) {
    exists n :: 0 <= n < |log| && log[n].key == k
  }

  /** A watch of one service, or of a whole namespace where no service is named. */
  predicate Watched(k: Key, ns: string, service: string) {
    k.InstanceK? && k.ns == ns && (service != "" ==> k.service == service)
  }

  /** A healthy-only watch passes over puts of unhealthy instances. */
  predicate Visible(e: LogEvent, healthyOnly: bool) {
    e.value.InstanceV? && (healthyOnly && e.kind.PutEvent? ==> e.value.instance.status.Health?)
  }

  /** What a watch tells about a stretch of the log. */
  function ServiceEvents(log: seq<LogEvent>, ns: string, service: string, healthyOnly: bool): seq<InstanceEvent>
    decreases |log|
  {
    if log == [] then []
    else
      (if Watched(log[0].key, ns, service) && Visible(log[0], healthyOnly)
       then [Changed(log[0].kind, Render(log[0].key), log[0].revision, log[0].value.instance)] else []) +
      ServiceEvents(log[1..], ns, service, healthyOnly)
  }

  lemma {:induction false} UntouchedSince(log: seq<LogEvent>, m: nat, k: Key)
    requires m <= |log| && !Touched(log[m..], k)
    ensures Held(Store.Replay(log), k) == Held(Store.Replay(log[..m]), k)
    decreases |log| - m
  {
    if m == |log| {
      assert log[..m] == log;
    } else {
      var init, last := log[..|log| - 1], log[|log| - 1];
      assert log == init + [last] && init[..m] == log[..m];
      assert log[m..][|log| - 1 - m] == last;
      forall n | 0 <= n < |init[m..]|
        ensures init[m..][n].key != k
      {
        assert log[m..][n] == init[m..][n];
      }
      UntouchedSince(init, m, k);
      Store.ReplayOfAppend(init, last);
    }
  }

  /** The last event about a key decides what replaying the log holds there. */
  lemma LastWord(log: seq<LogEvent>, m: nat, k: Key)
    requires LogIsPlaced(log) && m < |log| && log[m].key == k && k.InstanceK? && !Touched(log[m + 1..], k)
    ensures Held(Store.Replay(log), k) ==
            if log[m].kind.PutEvent? then Some(Strip(log[m].value.instance)) else None
  {
    hide Placed, Strip, Touched, Store.Replay;
    InstanceOfPlaced(log[m].key, log[m].value);
    UntouchedSince(log, m + 1, k);
    assert log[..m + 1] == log[..m] + [log[m]];
    Store.ReplayOfAppend(log[..m], log[m]);
  }

  lemma InstanceOfPlaced(k: Key, v: Value)
    requires Placed(k, v) && k.InstanceK?
    ensures v.InstanceV? && InstanceKeyOf(v.instance) == k
  {
  }

  lemma TouchedTail(log: seq<LogEvent>, m: nat, k: Key)
    requires m < |log|
    ensures Touched(log[m..], k) <==> log[m].key == k || Touched(log[m + 1..], k)
  {
    assert log[m..] == [log[m]] + log[m + 1..];
    if Touched(log[m + 1..], k) {
      var n :| 0 <= n < |log[m + 1..]| && log[m + 1..][n].key == k;
      assert log[m..][n + 1].key == k;
    }
    assert log[m..][0] == log[m];
  }

  lemma ServiceEventsFirst(log: seq<LogEvent>, m: nat, ns: string, service: string, healthyOnly: bool)
    requires m < |log|
    ensures var rest := ServiceEvents(log[m + 1..], ns, service, healthyOnly);
            ServiceEvents(log[m..], ns, service, healthyOnly) ==
            if Watched(log[m].key, ns, service) && Visible(log[m], healthyOnly)
            then [Changed(log[m].kind, Render(log[m].key), log[m].revision, log[m].value.instance)] + rest
            else rest
  {
    hide Render, Watched, Visible;
    assert log[m..][0] == log[m] && log[m..][1..] == log[m + 1..];
  }

  /**
   * The last event about an id in what a watch tells from a log position on: it names the key the
   * store holds its effect under, and if there is none, no watched key with that id was touched.
   */
  lemma {:induction false} LastAboutIsLastWord(log: seq<LogEvent>, m: nat, ns: string, service: string, id: string)
    requires LogIsPlaced(log) && m <= |log|
    ensures match LastAbout(ServiceEvents(log[m..], ns, service, false), id)
            case None => forall s :: Watched(InstanceK(ns, s, id), ns, service) ==> !Touched(log[m..], InstanceK(ns, s, id))
            case Some(e) =>
              && e.Changed?
              && var k := InstanceK(ns, e.payload.service, id);
                 Watched(k, ns, service) && InstanceKeyOf(e.payload) == k && Touched(log[m..], k) &&
                 Held(Store.Replay(log), k) == Effect(e)
    decreases |log| - m
  {
    hide Placed, Strip, Held, Render;
    if m < |log| {
      var e := log[m];
      LastAboutIsLastWord(log, m + 1, ns, service, id);
      ServiceEventsFirst(log, m, ns, service, false);
      forall s
        ensures Touched(log[m..], InstanceK(ns, s, id)) <==> e.key == InstanceK(ns, s, id) || Touched(log[m + 1..], InstanceK(ns, s, id))
      {
        TouchedTail(log, m, InstanceK(ns, s, id));
      }
      if Watched(e.key, ns, service) {
        assert Placed(e.key, e.value);
        InstanceOfPlaced(e.key, e.value);
        var head := Changed(e.kind, Render(e.key), e.revision, e.value.instance);
        var rest := ServiceEvents(log[m + 1..], ns, service, false);
        LastAboutOfFirst(head, rest, id);
        if e.key.id == id && LastAbout(rest, id).None? {
          LastWord(log, m, e.key);
        }
      }
    }
  }

  /**
   * What applying all events from a log position on makes of any cached list: the registry's
   * current instance for every id those events touch, the cached one for every other id.
   */
  lemma TailDecides(log: seq<LogEvent>, m: nat, items: seq<Instance>, k: Key)
    requires LogIsPlaced(log) && m <= |log| && k.InstanceK? && k.service != ""
    ensures Cached(AfterEvents(items, ServiceEvents(log[m..], k.ns, k.service, false)), k.id) ==
            if Touched(log[m..], k) then Held(Store.Replay(log), k) else Cached(items, k.id)
  {
    var events := ServiceEvents(log[m..], k.ns, k.service, false);
    StreamDecides(items, events, k.id);
    LastAboutIsLastWord(log, m, k.ns, k.service, k.id);
    hide ServiceEvents, LastAbout, Held, Touched, AfterEvents, Cached;
    if LastAbout(events, k.id).None? {
      assert Watched(InstanceK(k.ns, k.service, k.id), k.ns, k.service);
    } else {
      TouchedOrNot(log, m, k, LastAbout(events, k.id).value);
    }
  }

  lemma TouchedOrNot(log: seq<LogEvent>, m: nat, k: Key, e: InstanceEvent)
    requires k.InstanceK? && k.service != "" && e.Changed?
    requires Watched(InstanceK(k.ns, e.payload.service, k.id), k.ns, k.service)
    ensures InstanceK(k.ns, e.payload.service, k.id) == k
  {
  }

  // ------------------------------------------------------------------ convergence

  /** Each id at most once, and exactly the service's stored instances up to revision and lease. */
  ghost predicate Mirrors(items: seq<Instance>, db: State, ns: string, service: string) {
    && OncePerID(items)
    && forall id :: Cached(items, id) == Held(Store.Cells(db.data), InstanceK(ns, service, id))
  }

  /** Every instance of one service, healthy or not. */
  function Everything(ns: string, service: string): ListFilter {
    ListFilter(ns, service, "", "", map[], false, false)
  }

  lemma {:induction false} CachedWhen(items: seq<Instance>, id: string)
    ensures Cached(items, id).None? <==> forall i :: i in items ==> i.instanceID != id
    ensures forall i :: OncePerID(items) && i in items && i.instanceID == id ==> Cached(items, id) == Some(Strip(i))
  {
    if items != [] {
      var init, last := items[..|items| - 1], items[|items| - 1];
      assert items == init + [last];
      CachedWhen(init, id);
    }
  }

  lemma ListedOnce(items: seq<Instance>, db: State, f: ListFilter)
    requires IsListing(items, db, f) && f.service != ""
    ensures OncePerID(items)
  {
    hide Text.Less, DecodeInstance, Passes, InstanceNamespacePrefix, Render;
    forall x, y | 0 <= x < y < |items|
      ensures items[x].instanceID != items[y].instanceID
    {
      Text.LessIsTotal(Path(items[x]), Path(items[y]));
      assert items[x] in items && items[y] in items;
      assert Listed(db, f, items[x]) && Listed(db, f, items[y]);
    }
  }

  lemma UnfilteredSnapshotMirrors(items: seq<Instance>, db: State, ns: string, service: string)
    requires WellPlaced(db) && service != "" && IsListing(items, db, Everything(ns, service))
    ensures Mirrors(items, db, ns, service)
  {
    ListedOnce(items, db, Everything(ns, service));
    forall id
      ensures Cached(items, id) == Held(Store.Cells(db.data), InstanceK(ns, service, id))
    {
      SnapshotOfOneID(items, db, ns, service, id);
    }
  }

  lemma SnapshotOfOneID(items: seq<Instance>, db: State, ns: string, service: string, id: string)
    requires WellPlaced(db) && service != "" && IsListing(items, db, Everything(ns, service)) && OncePerID(items)
    ensures Cached(items, id) == Held(Store.Cells(db.data), InstanceK(ns, service, id))
  {
    hide Text.Less, Path, InstanceNamespacePrefix, Render, Store.Sound, Instance.Valid, Normalize;
    var k := InstanceK(ns, service, id);
    CachedWhen(items, id);
    if k in db.data {
      assert Placed(k, db.data[k].value);
      var i := DecodeInstance(db.data[k]).value;
      assert Listed(db, Everything(ns, service), i);
      assert i in items;
    } else {
      forall i | i in items
        ensures i.instanceID != id
      {
        assert Listed(db, Everything(ns, service), i);
      }
    }
  }

  /**
   * The outcome for any snapshot position and any subscription position: an id the stream touches
   * is current; any other id is as the snapshot had it.
   */
  lemma CacheAfterStream(db: State, past: State, snapshot: seq<Instance>, from: nat, ns: string, service: string, id: string)
    requires WellPlaced(db) && WellPlaced(past) && service != ""
    requires past.log <= db.log && from <= |db.log|
    requires IsListing(snapshot, past, Everything(ns, service))
    ensures var k := InstanceK(ns, service, id);
            Cached(AfterEvents(snapshot, ServiceEvents(db.log[from..], ns, service, false)), id) ==
            if Touched(db.log[from..], k) then Held(Store.Cells(db.data), k) else Held(Store.Cells(past.data), k)
  {
    hide Placed, AfterEvents, ServiceEvents, Cached, Held, Touched, IsListing, Store.Cells, Store.Replay, Store.Ordered;
    UnfilteredSnapshotMirrors(snapshot, past, ns, service);
    TailDecides(db.log, from, snapshot, InstanceK(ns, service, id));
  }

  /**
   * Subscribing no later than the snapshot was taken and applying every event since makes the
   * cache mirror the registry, for every run of the registry.
   */
  lemma CacheConverges(db: State, past: State, snapshot: seq<Instance>, from: nat, ns: string, service: string)
    requires WellPlaced(db) && WellPlaced(past) && service != ""
    requires past.log <= db.log && from <= |past.log|
    requires IsListing(snapshot, past, Everything(ns, service))
    ensures Mirrors(AfterEvents(snapshot, ServiceEvents(db.log[from..], ns, service, false)), db, ns, service)
  {
    hide Placed, AfterEvents, ServiceEvents, Cached, Held, IsListing, Store.Cells, Store.Replay, Store.Ordered;
    ListedOnce(snapshot, past, Everything(ns, service));
    EventsKeepIDsUnique(snapshot, ServiceEvents(db.log[from..], ns, service, false));
    forall id
      ensures var k := InstanceK(ns, service, id);
              Cached(AfterEvents(snapshot, ServiceEvents(db.log[from..], ns, service, false)), id) == Held(Store.Cells(db.data), k)
    {
      var k := InstanceK(ns, service, id);
      CacheAfterStream(db, past, snapshot, from, ns, service, id);
      if !Touched(db.log[from..], k) {
        UntouchedPast(db, past, from, k);
      }
    }
  }

  /**
   * For a subscription opened after the snapshot: the cache converges exactly if the events in the
   * gap, taken together, leave every id that is not touched afterwards as the snapshot has it.
   */
  lemma LateSubscriptionConvergesExactly(db: State, past: State, snapshot: seq<Instance>, from: nat, ns: string, service: string)
    requires WellPlaced(db) && WellPlaced(past) && service != ""
    requires past.log <= db.log && |past.log| <= from <= |db.log|
    requires IsListing(snapshot, past, Everything(ns, service))
    ensures Mirrors(AfterEvents(snapshot, ServiceEvents(db.log[from..], ns, service, false)), db, ns, service) <==>
            forall id :: !Touched(db.log[from..], InstanceK(ns, service, id)) ==>
              Told(snapshot, ServiceEvents(db.log[|past.log|..from], ns, service, false), id) == Cached(snapshot, id)
  {
    hide AfterEvents, ServiceEvents, Cached, Held, IsListing, WellPlaced, Store.Cells, OncePerID, Touched, Told;
    ListedOnce(snapshot, past, Everything(ns, service));
    EventsKeepIDsUnique(snapshot, ServiceEvents(db.log[from..], ns, service, false));
    forall id
      ensures var k := InstanceK(ns, service, id);
              Cached(AfterEvents(snapshot, ServiceEvents(db.log[from..], ns, service, false)), id) == Held(Store.Cells(db.data), k) <==>
              (!Touched(db.log[from..], k) ==>
                 Told(snapshot, ServiceEvents(db.log[|past.log|..from], ns, service, false), id) == Cached(snapshot, id))
    {
      CacheAfterStream(db, past, snapshot, from, ns, service, id);
      if !Touched(db.log[from..], InstanceK(ns, service, id)) {
        GapDecides(db, past, snapshot, from, ns, service, id);
      }
    }
  }

  /** What the snapshot and the gap say about an id is what the registry held when the subscription opened. */
  lemma GapDecides(db: State, past: State, snapshot: seq<Instance>, from: nat, ns: string, service: string, id: string)
    requires WellPlaced(db) && WellPlaced(past) && service != ""
    requires past.log <= db.log && |past.log| <= from <= |db.log|
    requires IsListing(snapshot, past, Everything(ns, service))
    requires !Touched(db.log[from..], InstanceK(ns, service, id))
    ensures var k := InstanceK(ns, service, id);
            && Told(snapshot, ServiceEvents(db.log[|past.log|..from], ns, service, false), id) == Held(Store.Cells(db.data), k)
            && Cached(snapshot, id) == Held(Store.Cells(past.data), k)
  {
    hide Placed, AfterEvents, ServiceEvents, Cached, Held, Touched, IsListing, Store.Cells, Store.Replay, Store.Ordered, Told;
    var k, n := InstanceK(ns, service, id), |past.log|;
    var before := db.log[..from];
    assert before[..n] == past.log && before[n..] == db.log[n..from];
    UnfilteredSnapshotMirrors(snapshot, past, ns, service);
    TailDecides(before, n, snapshot, k);
    StreamDecides(snapshot, ServiceEvents(before[n..], ns, service, false), id);
    if !Touched(before[n..], k) {
      UntouchedSince(before, n, k);
    }
    UntouchedSince(db.log, from, k);
  }

  /** A mirroring cache and the current listing hold the same instances, up to revision and lease. */
  lemma MirrorsTheListing(items: seq<Instance>, listing: seq<Instance>, db: State, ns: string, service: string, z: Instance)
    requires WellPlaced(db) && service != ""
    requires Mirrors(items, db, ns, service) && IsListing(listing, db, Everything(ns, service))
    ensures (exists i :: i in items && Strip(i) == z) <==> (exists i :: i in listing && Strip(i) == z)
  {
    hide WellPlaced, IsListing, Held, Store.Cells;
    UnfilteredSnapshotMirrors(listing, db, ns, service);
    CachedWhen(items, z.instanceID);
    CachedWhen(listing, z.instanceID);
  }

  // ------------------------------------------------ from the store's own stream

  lemma {:induction false} MatchingOfFirst(e: Store.Event<string>, log: seq<Store.Event<string>>, prefix: string)
    ensures Matching([e] + log, prefix) == (if prefix <= e.key then [e] else []) + Matching(log, prefix)
  {
    if log == [] {
      assert [e] + log == [] + [e];
      MatchingOfAppend([], e, prefix);
    } else {
      var init, last := log[..|log| - 1], log[|log| - 1];
      assert log == init + [last] && [e] + log == ([e] + init) + [last];
      MatchingOfFirst(e, init, prefix);
      MatchingOfAppend([e] + init, last, prefix);
      MatchingOfAppend(init, last, prefix);
    }
  }

  lemma WatchPrefixIsExact(k: Key, ns: string, service: string)
    requires ValidKey(k) && (service != "" || SlashFree(ns))
    ensures WatchPrefix(ns, service) <= Render(k) <==> Watched(k, ns, service)
  {
    hide Render, ValidKey, InstanceServicePrefix, InstanceNamespacePrefix;
    InstancePrefixesAreExact(k, ns, service);
  }

  /** The events of a watch, as the string-keyed store and the discovery service deliver them. */
  lemma {:induction false} DeliveredEvents(c: seq<Store.Event<string>>, a: seq<LogEvent>, ns: string, service: string, healthyOnly: bool)
    requires SameLog(c, a) && LogIsPlaced(a) && (service != "" || SlashFree(ns))
    ensures Translated(Changes(Matching(c, WatchPrefix(ns, service))), healthyOnly) == ServiceEvents(a, ns, service, healthyOnly)
    decreases |a|
  {
    hide Render, ValidKey, Placed, WatchPrefix, Matching, SlashFree;
    var prefix := WatchPrefix(ns, service);
    if a == [] {
      EmptyStream(c, prefix, healthyOnly);
    } else {
      assert c == [c[0]] + c[1..];
      MatchingOfFirst(c[0], c[1..], prefix);
      DeliveredEvents(c[1..], a[1..], ns, service, healthyOnly);
      WatchPrefixIsExact(a[0].key, ns, service);
      var rest := Matching(c[1..], prefix);
      if Watched(a[0].key, ns, service) {
        assert Placed(a[0].key, a[0].value);
        InstanceOfPlaced(a[0].key, a[0].value);
        assert Matching(c, prefix) == [c[0]] + rest;
        assert Changes([c[0]] + rest) == [Change(c[0])] + Changes(rest);
        ToldFirst(Change(c[0]), Changes(rest), healthyOnly);
      } else {
        assert Matching(c, prefix) == rest;
      }
    }
  }

  lemma EmptyStream(c: seq<Store.Event<string>>, prefix: string, healthyOnly: bool)
    requires c == []
    ensures Translated(Changes(Matching(c, prefix)), healthyOnly) == []
  {
  }

  /** What a subscription would have taken had its buffer never been full. */
  function Undropped(s: Sub, log: seq<Store.Event<string>>): seq<Store.Event<string>> {
    Matching(Window(s, log), s.prefix)
  }

  lemma UndroppedEvents(c: Store.Db<string>, db: State, s: Sub, ns: string, service: string, healthyOnly: bool)
    requires Represents(c, db) && WellPlaced(db) && (service != "" || SlashFree(ns))
    requires s.open && s.start <= |c.log| && s.prefix == WatchPrefix(ns, service)
    ensures Translated(Changes(Undropped(s, c.log)), healthyOnly) == ServiceEvents(db.log[s.start..], ns, service, healthyOnly)
  {
    hide Placed, ServiceEvents, Store.Sound, WatchPrefix, Matching, Translated, SameData, Render, ValidKey, SlashFree;
    assert Window(s, c.log) == c.log[s.start..];
    DeliveredEvents(c.log[s.start..], db.log[s.start..], ns, service, healthyOnly);
  }

  /**
   * End to end: a subscription opened before an unfiltered snapshot leaves the cache mirroring the
   * registry once the client has applied everything it took, exactly if every event lost to a full
   * buffer left the last word about its id to an event that says the same.
   */
  lemma SubscriptionConvergesExactly(c: Store.Db<string>, db: State, past: State, s: Sub, snapshot: seq<Instance>,
                                     ns: string, service: string)
    requires Represents(c, db) && WellPlaced(db) && WellPlaced(past) && service != ""
    requires past.log <= db.log && s.start <= |past.log|
    requires IsListing(snapshot, past, Everything(ns, service))
    requires Faithful(s, c.log) && s.open && s.prefix == WatchPrefix(ns, service)
    ensures Mirrors(AfterEvents(snapshot, Translated(Changes(s.accepted), false)), db, ns, service) <==>
            forall id :: Told(snapshot, Translated(Changes(s.accepted), false), id) ==
                         Told(snapshot, Translated(Changes(Undropped(s, c.log)), false), id)
  {
    hide Placed, AfterEvents, ServiceEvents, IsListing, Store.Sound, WatchPrefix, Matching, Translated, Subsequence,
      SameData, Render, ValidKey, Told, Undropped, OncePerID, Cached, Held;
    var events, all := Translated(Changes(s.accepted), false), Translated(Changes(Undropped(s, c.log)), false);
    UndroppedEvents(c, db, s, ns, service, false);
    CacheConverges(db, past, snapshot, s.start, ns, service);
    ListedOnce(snapshot, past, Everything(ns, service));
    EventsKeepIDsUnique(snapshot, events);
    forall id
      ensures Cached(AfterEvents(snapshot, events), id) == Told(snapshot, events, id)
      ensures Held(Store.Cells(db.data), InstanceK(ns, service, id)) == Told(snapshot, all, id)
    {
      StreamDecides(snapshot, events, id);
      StreamDecides(snapshot, all, id);
    }
  }

  /** In particular it does whenever the buffer was never full. */
  lemma SubscriptionConverges(c: Store.Db<string>, db: State, past: State, s: Sub, snapshot: seq<Instance>,
                              ns: string, service: string)
    requires Represents(c, db) && WellPlaced(db) && WellPlaced(past) && service != ""
    requires past.log <= db.log && s.start <= |past.log|
    requires IsListing(snapshot, past, Everything(ns, service))
    requires Faithful(s, c.log) && s.open && !s.dropped && s.prefix == WatchPrefix(ns, service)
    ensures Mirrors(AfterEvents(snapshot, Translated(Changes(s.accepted), false)), db, ns, service)
  {
    hide WellPlaced, AfterEvents, Mirrors, IsListing, Represents, WatchPrefix, Matching, Translated, Subsequence, Told;
    SubscriptionConvergesExactly(c, db, past, s, snapshot, ns, service);
  }

  // ------------------------------------------------------------ healthy-only consumers

  /** Each id at most once, and exactly the service's stored healthy instances. */
  ghost predicate MirrorsHealthy(items: seq<Instance>, db: State, ns: string, service: string) {
    && OncePerID(items)
    && forall id :: Cached(items, id) == HeldHealthy(db, InstanceK(ns, service, id))
  }

  predicate StoredUnhealthy(db: State, k: Key) {
    k in db.data && db.data[k].value.InstanceV? && !db.data[k].value.instance.status.Health?
  }

  function HeldHealthy(db: State, k: Key): Option<Instance> {
    if StoredUnhealthy(db, k) then None else Held(Store.Cells(db.data), k)
  }

  /** The filter of a snapshot that asks for nothing in particular. */
  function Default(ns: string, service: string): ListFilter {
    FilterOf(SnapshotInput(ns, service, "", "", map[], None))
  }

  lemma HealthySnapshotMirrors(items: seq<Instance>, db: State, ns: string, service: string)
    requires WellPlaced(db) && service != "" && IsListing(items, db, Default(ns, service))
    ensures MirrorsHealthy(items, db, ns, service)
  {
    ListedOnce(items, db, Default(ns, service));
    forall id
      ensures Cached(items, id) == HeldHealthy(db, InstanceK(ns, service, id))
    {
      HealthySnapshotOfOneID(items, db, ns, service, id);
    }
  }

  lemma HealthySnapshotOfOneID(items: seq<Instance>, db: State, ns: string, service: string, id: string)
    requires WellPlaced(db) && service != "" && OncePerID(items)
    requires IsListing(items, db, Default(ns, service))
    ensures Cached(items, id) == HeldHealthy(db, InstanceK(ns, service, id))
  {
    hide Text.Less, Path, InstanceNamespacePrefix, Render, Store.Sound, Instance.Valid, Normalize;
    var f := Default(ns, service);
    var k := InstanceK(ns, service, id);
    CachedWhen(items, id);
    if k in db.data {
      assert Placed(k, db.data[k].value);
      var i := DecodeInstance(db.data[k]).value;
      if i.status.Health? {
        assert Listed(db, f, i);
        assert i in items;
      } else {
        forall j | j in items
          ensures j.instanceID != id
        {
          assert Listed(db, f, j);
        }
      }
    } else {
      forall j | j in items
        ensures j.instanceID != id
      {
        assert Listed(db, f, j);
      }
    }
  }

  /** A reset re-syncs with the default filter: it restores agreement only if nothing is unhealthy. */
  lemma ResetRestoresExactly(db: State, snapshot: seq<Instance>, ns: string, service: string)
    requires WellPlaced(db) && service != ""
    requires IsListing(snapshot, db, Default(ns, service))
    ensures Mirrors(snapshot, db, ns, service) <==> forall id :: !StoredUnhealthy(db, InstanceK(ns, service, id))
  {
    hide Text.Less, IsListing, WellPlaced, OncePerID, Cached;
    HealthySnapshotMirrors(snapshot, db, ns, service);
    forall id
      ensures HeldHealthy(db, InstanceK(ns, service, id)) == Held(Store.Cells(db.data), InstanceK(ns, service, id)) <==>
              !StoredUnhealthy(db, InstanceK(ns, service, id))
    {
    }
  }

  /**
   * What a healthy-only watch says last about an id is right, unless the store now holds an
   * unhealthy instance there; and an id the log does not touch is never mentioned.
   */
  lemma {:induction false} HealthyTail(log: seq<LogEvent>, m: nat, k: Key)
    requires LogIsPlaced(log) && m <= |log| && k.InstanceK? && k.service != ""
    ensures var last := LastAbout(ServiceEvents(log[m..], k.ns, k.service, true), k.id);
            var held := Held(Store.Replay(log), k);
            && (!Touched(log[m..], k) ==> last.None?)
            && (Touched(log[m..], k) && !(held.Some? && !held.value.status.Health?) ==> last.Some? && Effect(last.value) == held)
    decreases |log| - m
  {
    hide Placed, Held, Render;
    if m < |log| {
      var e := log[m];
      HealthyTail(log, m + 1, k);
      ServiceEventsFirst(log, m, k.ns, k.service, true);
      TouchedTail(log, m, k);
      if Watched(e.key, k.ns, k.service) {
        assert Placed(e.key, e.value);
        InstanceOfPlaced(e.key, e.value);
        var head := Changed(e.kind, Render(e.key), e.revision, e.value.instance);
        LastAboutOfFirst(head, ServiceEvents(log[m + 1..], k.ns, k.service, true), k.id);
        if e.key == k && !Touched(log[m + 1..], k) {
          LastWord(log, m, k);
        }
      }
    }
  }

  /** The last visible event about an id is its removal, or there is none and the snapshot lacks it. */
  ghost predicate Forgotten(snapshot: seq<Instance>, events: seq<InstanceEvent>, id: string) {
    match LastAbout(events, id)
    case Some(e) => e.Changed? && e.kind.DeleteEvent?
    case None => forall i :: i in snapshot ==> i.instanceID != id
  }

  /**
   * A healthy-only snapshot and the healthy-only stream since leave exactly the stored healthy
   * instances cached, exactly if for no stored unhealthy instance the last visible event is a put,
   * and none without a visible event is in the snapshot.
   */
  lemma HealthyCacheConvergesExactly(db: State, past: State, snapshot: seq<Instance>, from: nat, ns: string, service: string)
    requires WellPlaced(db) && WellPlaced(past) && service != ""
    requires past.log <= db.log && from <= |past.log|
    requires IsListing(snapshot, past, Default(ns, service))
    ensures var events := ServiceEvents(db.log[from..], ns, service, true);
            MirrorsHealthy(AfterEvents(snapshot, events), db, ns, service) <==>
            forall id :: StoredUnhealthy(db, InstanceK(ns, service, id)) ==> Forgotten(snapshot, events, id)
  {
    hide WellPlaced, IsListing, AfterEvents, ServiceEvents, OncePerID, Cached, HeldHealthy, StoredUnhealthy, Forgotten;
    var events := ServiceEvents(db.log[from..], ns, service, true);
    ListedOnce(snapshot, past, Default(ns, service));
    EventsKeepIDsUnique(snapshot, events);
    forall id
      ensures Cached(AfterEvents(snapshot, events), id) == HeldHealthy(db, InstanceK(ns, service, id)) <==>
              (StoredUnhealthy(db, InstanceK(ns, service, id)) ==> Forgotten(snapshot, events, id))
    {
      HealthyCacheOfOneID(db, past, snapshot, from, ns, service, id);
    }
  }

  lemma HealthyCacheOfOneID(db: State, past: State, snapshot: seq<Instance>, from: nat, ns: string, service: string, id: string)
    requires WellPlaced(db) && WellPlaced(past) && service != ""
    requires past.log <= db.log && from <= |past.log|
    requires IsListing(snapshot, past, Default(ns, service))
    ensures var k := InstanceK(ns, service, id);
            var events := ServiceEvents(db.log[from..], ns, service, true);
            Cached(AfterEvents(snapshot, events), id) == HeldHealthy(db, k) <==>
            (StoredUnhealthy(db, k) ==> Forgotten(snapshot, events, id))
  {
    var k := InstanceK(ns, service, id);
    var events := ServiceEvents(db.log[from..], ns, service, true);
    hide AfterEvents, ServiceEvents, Cached, Touched, IsListing, LastAbout, WellPlaced, OncePerID, HeldHealthy, StoredUnhealthy, Effect;
    StreamDecides(snapshot, events, id);
    HealthyTailInStore(db, from, k);
    CachedWhen(snapshot, id);
    HealthySnapshotMirrors(snapshot, past, ns, service);
    EventsAboutAreChanges(events, id);
    UnhealthyIsNotHeld(db, k);
    if !Touched(db.log[from..], k) {
      UntouchedHealthy(db, past, from, k);
    }
    HealthyCases(LastAbout(events, id), Cached(snapshot, id), HeldHealthy(db, k), StoredUnhealthy(db, k), Touched(db.log[from..], k));
  }

  lemma UnhealthyIsNotHeld(db: State, k: Key)
    ensures StoredUnhealthy(db, k) ==> HeldHealthy(db, k).None?
  {
  }

  lemma HealthyCases(last: Option<InstanceEvent>, before: Option<Instance>, now: Option<Instance>, unhealthy: bool, touched: bool)
    requires last.Some? ==> last.value.Changed?
    requires unhealthy ==> now.None?
    requires !touched ==> last.None? && now == before
    requires touched && !unhealthy ==> last.Some? && Effect(last.value) == now
    ensures (if last.Some? then Effect(last.value) else before) == now <==>
            (unhealthy ==> if last.Some? then last.value.kind.DeleteEvent? else before.None?)
  {
    hide Strip;
  }

  lemma HealthyTailInStore(db: State, from: nat, k: Key)
    requires WellPlaced(db) && from <= |db.log| && k.InstanceK? && k.service != ""
    ensures var last := LastAbout(ServiceEvents(db.log[from..], k.ns, k.service, true), k.id);
            && (!Touched(db.log[from..], k) ==> last.None?)
            && (Touched(db.log[from..], k) && !StoredUnhealthy(db, k) ==> last.Some? && Effect(last.value) == HeldHealthy(db, k))
  {
    hide Placed, Touched, LastAbout, ServiceEvents, Held, StoredUnhealthy, Store.Cells, Store.Replay, Store.Ordered;
    HealthyTail(db.log, from, k);
    HeldAgainstStored(db, k);
  }

  lemma EventsAboutAreChanges(events: seq<InstanceEvent>, id: string)
    ensures LastAbout(events, id).Some? ==> LastAbout(events, id).value.Changed?
  {
    if events != [] {
      EventsAboutAreChanges(events[..|events| - 1], id);
    }
  }

  lemma HeldAgainstStored(db: State, k: Key)
    requires WellPlaced(db)
    ensures Store.Cells(db.data) == Store.Replay(db.log)
    ensures var held := Held(Store.Cells(db.data), k);
            StoredUnhealthy(db, k) <==> held.Some? && !held.value.status.Health?
  {
    hide Placed, Store.Replay, Store.Ordered;
  }

  /** A key the log has not touched since a position no later than the past state is as it was then. */
  lemma UntouchedHealthy(db: State, past: State, from: nat, k: Key)
    requires WellPlaced(db) && WellPlaced(past) && past.log <= db.log && from <= |past.log|
    requires !Touched(db.log[from..], k)
    ensures HeldHealthy(db, k) == HeldHealthy(past, k) && (StoredUnhealthy(db, k) <==> StoredUnhealthy(past, k))
  {
    HeldAgainstStored(db, k);
    HeldAgainstStored(past, k);
    UntouchedPast(db, past, from, k);
    hide WellPlaced, Held, Touched, Store.Cells, Store.Replay;
  }

  lemma UntouchedPast(db: State, past: State, from: nat, k: Key)
    requires WellPlaced(db) && WellPlaced(past) && past.log <= db.log && from <= |past.log|
    requires !Touched(db.log[from..], k)
    ensures Held(Store.Cells(db.data), k) == Held(Store.Cells(past.data), k)
  {
    hide Placed, Held, Store.Cells, Store.Replay, Store.Ordered;
    assert db.log[|past.log|..] == db.log[from..][|past.log| - from..];
    assert !Touched(db.log[|past.log|..], k);
    UntouchedSince(db.log, |past.log|, k);
    assert db.log[..|past.log|] == past.log;
  }
}
