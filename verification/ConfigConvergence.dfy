/**
 * The configuration client against a changing store: three scope streams delivered in any
 * interleaving, with snapshots loaded at any time.
 */
module ConfigConvergence {
  import opened Outcome
  import opened Model
  import opened Keyspace
  import opened Services
  import opened Invariants
  import opened Representation
  import opened Views
  import opened Watching
  import opened ConfigSdk
  import ConfigServiceObject
  import Store

  type LogEvent = Store.Event<Key>

  /** One client of the view of one service; `synced` once it has loaded a snapshot, `stopped` once it gave up. */
  datatype Session = Session(
    ns: string,
    service: string,
    db: State,
    global: seq<LogEvent>,
    shared: seq<LogEvent>,
    own: seq<LogEvent>,
    items: Items,
    synced: bool,
    stopped: bool)
  {
    function Queue(scope: Scope): seq<LogEvent> {
      match scope
      case GlobalScope => global
      case NamespaceScope => shared
      case _ => own
    }

    function WithQueue(scope: Scope, q: seq<LogEvent>): Session {
      match scope
      case GlobalScope => this.(global := q)
      case NamespaceScope => this.(shared := q)
      case _ => this.(own := q)
    }

    function Input(): ResolveInput {
      ResolveInput(ns, service, map[], false)
    }
  }

  /** The log events under one of the three scopes of a view. */
  function ScopeEvents(log: seq<LogEvent>, scope: Scope, ns: string, service: string): seq<LogEvent> {
    if log == [] then []
    else
      var rest := ScopeEvents(log[..|log| - 1], scope, ns, service);
      var e := log[|log| - 1];
      if ConfigServiceObject.AtScope(e.key, scope, ns, service) then rest + [e] else rest
  }

  /** The store moves on; a stream delivers its oldest event; the client loads the effective values. */
  datatype Move =
    | Serve(later: State)
    | Deliver(scope: Scope, effective: Result<Items>)
    | Load(effective: Result<Items>)

  /** The later state extends the log, and a load answers with what resolving returns now. */
  ghost predicate Possible(s: Session, m: Move) {
    match m
    case Serve(later) => WellPlaced(later) && s.db.log <= later.log
    case Deliver(scope, effective) => !scope.OtherScope? && ResolveReturns(effective, s.db, s.Input())
    case Load(effective) => ResolveReturns(effective, s.db, s.Input())
  }

  function EventOf(e: LogEvent): Option<ConfigEvent> {
    if e.value.ConfigV? then Some(Changed(e.kind, Render(e.key), e.revision, e.value.config.(revision := e.revision))) else None
  }

  /** A delivery after the client stopped, or on an idle stream, does nothing. */
  function Delivered(s: Session, scope: Scope, effective: Result<Items>): Session {
    var q := s.Queue(scope);
    if s.stopped || q == [] then s
    else
      var popped := s.WithQueue(scope, q[1..]);
      match EventOf(q[0])
      case None => popped.(stopped := true)
      case Some(event) =>
        match AfterDelivery(s.items, ConfigSdk.Delivery(event, effective))
        case Err(_) => popped.(stopped := true)
        case Ok(items) => popped.(items := items, synced := s.synced || event.kind.DeleteEvent?)
  }

  function SessionStep(s: Session, m: Move): Session {
    match m
    case Serve(later) =>
      if s.db.log <= later.log then
        var tail := later.log[|s.db.log|..];
        s.(db := later,
           global := s.global + ScopeEvents(tail, GlobalScope, s.ns, s.service),
           shared := s.shared + ScopeEvents(tail, NamespaceScope, s.ns, s.service),
           own := s.own + ScopeEvents(tail, ServiceScope, s.ns, s.service))
      else s
    case Deliver(scope, effective) => Delivered(s, scope, effective)
    case Load(effective) => if effective.Ok? then s.(items := effective.value, synced := true) else s
  }

  function SessionRun(s: Session, moves: seq<Move>): Session
    decreases |moves|
  {
    if moves == [] then s else SessionRun(SessionStep(s, moves[0]), moves[1..])
  }

  ghost predicate AllPossible(s: Session, moves: seq<Move>)
    decreases |moves|
  {
    moves == [] || (Possible(s, moves[0]) && AllPossible(SessionStep(s, moves[0]), moves[1..]))
  }

  function Lookup(items: Items, key: string): Option<EffectiveItem> {
    ConfigServiceObject.Lookup(items, key)
  }

  // ------------------------------------------------------------ the last event about a key

  function LastFor(log: seq<LogEvent>, k: Key): Option<LogEvent> {
    if log == [] then None
    else if log[|log| - 1].key == k then Some(log[|log| - 1])
    else LastFor(log[..|log| - 1], k)
  }

  lemma {:induction false} LastForOfConcat(a: seq<LogEvent>, b: seq<LogEvent>, k: Key)
    ensures LastFor(a + b, k) == if LastFor(b, k).Some? then LastFor(b, k) else LastFor(a, k)
    decreases |b|
  {
    if b == [] {
      assert a + b == a;
    } else {
      assert (a + b)[..|a + b| - 1] == a + b[..|b| - 1];
      LastForOfConcat(a, b[..|b| - 1], k);
    }
  }

  lemma {:induction false} LastForOfScope(log: seq<LogEvent>, scope: Scope, ns: string, service: string, k: Key)
    requires ConfigServiceObject.AtScope(k, scope, ns, service)
    ensures LastFor(ScopeEvents(log, scope, ns, service), k) == LastFor(log, k)
  {
    if log != [] {
      var rest := ScopeEvents(log[..|log| - 1], scope, ns, service);
      LastForOfScope(log[..|log| - 1], scope, ns, service, k);
      assert (rest + [log[|log| - 1]])[..|rest|] == rest;
    }
  }

  lemma {:induction false} LastForIsInLog(log: seq<LogEvent>, k: Key)
    ensures LastFor(log, k).Some? ==> LastFor(log, k).value in log && LastFor(log, k).value.key == k
    ensures LastFor(log, k).None? ==> forall e :: e in log ==> e.key != k
  {
    if log != [] {
      assert log == log[..|log| - 1] + [log[|log| - 1]];
      LastForIsInLog(log[..|log| - 1], k);
    }
  }

  /** The store holds under a key what the last event about it says. */
  ghost predicate Reflects(db: State, e: LogEvent) {
    if e.kind.PutEvent? then e.key in db.data && db.data[e.key].value == e.value else e.key !in db.data
  }

  lemma {:induction false} ReplayLast(log: seq<LogEvent>, tail: seq<LogEvent>, k: Key)
    ensures var was, now := Store.Replay(log), Store.Replay(log + tail);
            match LastFor(tail, k)
            case None => (k in now <==> k in was) && (k in was ==> now[k] == was[k])
            case Some(e) =>
              if e.kind.PutEvent? then k in now && now[k].value == e.value else k !in now
    decreases |tail|
  {
    if tail == [] {
      assert log + tail == log;
    } else {
      var init, last := tail[..|tail| - 1], tail[|tail| - 1];
      assert log + tail == (log + init) + [last];
      ReplayLast(log, init, k);
      Store.ReplayOfAppend(log + init, last);
    }
  }

  lemma StoreAfterTail(db: State, later: State, k: Key)
    requires Store.Sound(db) && Store.Sound(later) && db.log <= later.log
    ensures var last := LastFor(later.log[|db.log|..], k);
            && (last.Some? ==> Reflects(later, last.value))
            && (last.None? ==> LayerAt(later, k) == LayerAt(db, k) && (k in later.data <==> k in db.data) &&
                               (k in db.data ==> later.data[k].value == db.data[k].value))
  {
    hide Store.Replay, LastFor, Store.Ordered;
    var tail := later.log[|db.log|..];
    assert later.log == db.log + tail;
    ReplayLast(db.log, tail, k);
    LastForIsInLog(tail, k);
    assert k in Store.Cells(db.data) <==> k in db.data;
    assert k in Store.Cells(later.data) <==> k in later.data;
  }

  // ------------------------------------------------------------- where queued events come from

  /** The log never held this configuration key at another layer of the view. */
  ghost predicate SingleScope(log: seq<LogEvent>, ns: string, service: string, key: string, scope: Scope) {
    forall e, other :: e in log && other in LAYERS && e.key == ConfigKeyOf(other, ns, service, key) ==> other == scope
  }

  /** Every queued event is one the store logged, under the scope of its stream. */
  ghost predicate QueuesFromLog(s: Session) {
    forall scope, e :: scope in LAYERS && e in s.Queue(scope) ==>
      e in s.db.log && ConfigServiceObject.AtScope(e.key, scope, s.ns, s.service)
  }

  lemma LayerKeysDiffer(ns: string, service: string, key: string, a: Scope, b: Scope)
    requires a in LAYERS && b in LAYERS
    ensures ConfigKeyOf(a, ns, service, key) == ConfigKeyOf(b, ns, service, key) <==> a == b
    ensures ConfigServiceObject.AtScope(ConfigKeyOf(a, ns, service, key), b, ns, service) <==> a == b
  {
  }

  lemma ServeKeepsQueues(s: Session, later: State)
    requires QueuesFromLog(s) && s.db.log <= later.log
    ensures QueuesFromLog(SessionStep(s, Serve(later)))
  {
    var tail := later.log[|s.db.log|..];
    var s' := SessionStep(s, Serve(later));
    forall scope, e | scope in LAYERS && e in s'.Queue(scope)
      ensures e in later.log && ConfigServiceObject.AtScope(e.key, scope, s.ns, s.service)
    {
      assert s'.Queue(scope) == s.Queue(scope) + ScopeEvents(tail, scope, s.ns, s.service);
      ScopeEventsAreLogged(tail, scope, s.ns, s.service, e);
      assert later.log == s.db.log + tail;
    }
  }

  lemma {:induction false} ScopeEventsAreLogged(log: seq<LogEvent>, scope: Scope, ns: string, service: string, e: LogEvent)
    ensures e in ScopeEvents(log, scope, ns, service) <==> e in log && ConfigServiceObject.AtScope(e.key, scope, ns, service)
  {
    if log != [] {
      assert log == log[..|log| - 1] + [log[|log| - 1]];
      ScopeEventsAreLogged(log[..|log| - 1], scope, ns, service, e);
    }
  }

  lemma ReflectsStays(db: State, later: State, e: LogEvent)
    requires Reflects(db, e)
    requires e.key in later.data <==> e.key in db.data
    requires e.key in db.data ==> later.data[e.key].value == db.data[e.key].value
    ensures Reflects(later, e)
  {
  }

  lemma PopQueue(s: Session, scope: Scope)
    requires QueuesFromLog(s) && s.Queue(scope) != []
    ensures QueuesFromLog(s.WithQueue(scope, s.Queue(scope)[1..]))
  {
    hide ConfigServiceObject.AtScope;
    var rest := s.Queue(scope)[1..];
    var s' := s.WithQueue(scope, rest);
    forall other, e | other in LAYERS && e in s'.Queue(other)
      ensures e in s.db.log && ConfigServiceObject.AtScope(e.key, other, s.ns, s.service)
    {
      assert s'.Queue(other) == rest || s'.Queue(other) == s.Queue(other);
      assert e in s.Queue(other);
    }
  }

  lemma LoadedIsRight(s: Session, effective: Result<Items>, key: string)
    requires ResolveReturns(effective, s.db, s.Input()) && effective.Ok?
    ensures Lookup(effective.value, key) == Stored(s.db, s.ns, s.service, key)
  {
    assert HoldsStrongest(effective.value, s.db, s.Input(), key);
  }

  lemma QueuesAreSeparate(s: Session, scope: Scope, other: Scope, q: seq<LogEvent>)
    requires scope in LAYERS && other in LAYERS && scope != other
    ensures s.WithQueue(scope, q).Queue(other) == s.Queue(other)
  {
  }

  lemma KeyPartDiffers(ns: string, service: string, a: Scope, b: Scope, key: string, other: string)
    requires a in LAYERS && b in LAYERS
    ensures ConfigKeyOf(a, ns, service, key) == ConfigKeyOf(b, ns, service, other) <==> a == b && key == other
  {
  }

  lemma ScopeOfPlaced(k: Key, v: Value, scope: Scope, ns: string, service: string)
    requires Placed(k, v) && ConfigServiceObject.AtScope(k, scope, ns, service) && scope in LAYERS
    ensures v.ConfigV? && v.config.scope == scope
  {
  }

  /** Items and flags play no part in where the queued events came from. */
  lemma QueuesIgnoreTheRest(s: Session, s': Session)
    requires s' == s.(items := s'.items, synced := s'.synced, stopped := s'.stopped)
    requires QueuesFromLog(s)
    ensures QueuesFromLog(s')
    ensures forall scope :: s'.Queue(scope) == s.Queue(scope)
  {
  }

  lemma ScopesOfAView(scope: Scope)
    requires !scope.OtherScope?
    ensures scope in LAYERS
  {
    assert LAYERS[0] == ServiceScope && LAYERS[1] == NamespaceScope && LAYERS[2] == GlobalScope;
  }

  lemma {:induction false} RunsOnlyExtendTheLog(s: Session, moves: seq<Move>)
    ensures s.db.log <= SessionRun(s, moves).db.log
    ensures SessionRun(s, moves).ns == s.ns && SessionRun(s, moves).service == s.service
    decreases |moves|
  {
    if moves != [] {
      hide ScopeEvents, AfterDelivery, EventOf;
      RunsOnlyExtendTheLog(SessionStep(s, moves[0]), moves[1..]);
    }
  }

  /** A session as it is when its streams have just been opened. */
  ghost predicate JustOpened(s: Session) {
    WellPlaced(s.db) && s.global == [] && s.shared == [] && s.own == [] && !s.synced && !s.stopped
  }

  // --------------------------------------------------------------- keys at any layers

  function StrongerScopes(scope: Scope): seq<Scope> {
    match scope
    case GlobalScope => [ServiceScope, NamespaceScope]
    case NamespaceScope => [ServiceScope]
    case _ => []
  }

  ghost predicate NoStrongerLayer(db: State, ns: string, service: string, key: string, scope: Scope) {
    forall stronger :: stronger in StrongerScopes(scope) ==> LayerAt(db, ConfigKeyOf(stronger, ns, service, key)).None?
  }

  /** A layer's value is the one in force exactly if no stronger layer holds the key. */
  lemma LayerIsInForceExactly(db: State, ns: string, service: string, key: string, scope: Scope)
    requires scope in LAYERS && LayerAt(db, ConfigKeyOf(scope, ns, service, key)).Some?
    ensures Stored(db, ns, service, key) == Some(Effective(LayerAt(db, ConfigKeyOf(scope, ns, service, key)).value, key, scope)) <==>
            NoStrongerLayer(db, ns, service, key, scope)
  {
    StoredUnfolds(db, ns, service, key);
    hide Stored, LayerAt;
    match scope
    case GlobalScope =>
      assert ServiceScope in StrongerScopes(scope) && NamespaceScope in StrongerScopes(scope) by {
        assert StrongerScopes(scope)[0] == ServiceScope && StrongerScopes(scope)[1] == NamespaceScope;
      }
    case NamespaceScope =>
      assert ServiceScope in StrongerScopes(scope) by {
        assert StrongerScopes(scope)[0] == ServiceScope;
      }
    case _ =>
  }

  /** The event of a current item makes the cache right about its key exactly if no stronger layer holds the key. */
  lemma PutEventIsRightExactly(db: State, items: Items, ns: string, service: string, key: string, scope: Scope, revision: int)
    requires WellPlaced(db) && scope in LAYERS && LayerAt(db, ConfigKeyOf(scope, ns, service, key)).Some?
    ensures var c := LayerAt(db, ConfigKeyOf(scope, ns, service, key)).value;
            var event := Changed(Store.PutEvent, "", revision, c);
            var next := AfterDelivery(items, ConfigSdk.Delivery(event, Err(Internal)));
            && next.Ok?
            && (Lookup(next.value, key) == Stored(db, ns, service, key) <==> NoStrongerLayer(db, ns, service, key, scope))
  {
    hide Store.Sound, ConfigItem.Valid, NoStrongerLayer, Stored;
    var k := ConfigKeyOf(scope, ns, service, key);
    assert Placed(k, db.data[k].value);
    LayerKeysDiffer(ns, service, key, scope, scope);
    ScopeOfPlaced(k, db.data[k].value, scope, ns, service);
    ConfigServiceObject.LayerHasItsKey(db, scope, ns, service, key);
    LayerIsInForceExactly(db, ns, service, key, scope);
  }

  /** The layer of the last put about a key delivered since the last load; a delivered delete is a load. */
  function PutSince(s: Session, m: Move, key: string, before: Option<Scope>): Option<Scope> {
    match m
    case Serve(_) => before
    case Load(effective) => if effective.Ok? then None else before
    case Deliver(scope, effective) =>
      var q := s.Queue(scope);
      if s.stopped || q == [] || EventOf(q[0]).None? then before
      else if q[0].kind.DeleteEvent? then (if effective.Ok? then None else before)
      else if q[0].value.config.key == key then Some(scope)
      else before
  }

  function LastPutSinceLoad(s: Session, moves: seq<Move>, key: string, before: Option<Scope>): Option<Scope>
    decreases |moves|
  {
    if moves == [] then before
    else LastPutSinceLoad(SessionStep(s, moves[0]), moves[1..], key, PutSince(s, moves[0], key, before))
  }

  /** No event about the key is queued on any of the three streams. */
  ghost predicate Drained(s: Session, key: string) {
    forall scope :: scope in LAYERS ==> LastFor(s.Queue(scope), ConfigKeyOf(scope, s.ns, s.service, key)).None?
  }

  /** On each stream the last queued event about the key says what the store holds there. */
  ghost predicate StreamsReflect(s: Session, key: string) {
    forall scope :: scope in LAYERS ==>
      var last := LastFor(s.Queue(scope), ConfigKeyOf(scope, s.ns, s.service, key));
      last.Some? ==> Reflects(s.db, last.value)
  }

  /**
   * Where the cached value of a key comes from: the last load, which stays right while nothing about
   * the key is queued, or the layer of the last put since.
   */
  ghost predicate CameFrom(s: Session, key: string, since: Option<Scope>) {
    match since
    case None => s.synced && Drained(s, key) ==> Lookup(s.items, key) == Stored(s.db, s.ns, s.service, key)
    case Some(scope) =>
      && scope in LAYERS
      && var k := ConfigKeyOf(scope, s.ns, s.service, key);
         LastFor(s.Queue(scope), k).None? ==>
           LayerAt(s.db, k).Some? && Lookup(s.items, key) == Some(Effective(LayerAt(s.db, k).value, key, scope))
  }

  ghost predicate Informed(s: Session, key: string, since: Option<Scope>) {
    && WellPlaced(s.db)
    && QueuesFromLog(s)
    && (!s.stopped ==> StreamsReflect(s, key) && CameFrom(s, key, since))
  }

  /** One stream when the store moves on. */
  lemma ServeOneStream(s: Session, later: State, key: string, scope: Scope)
    requires Store.Sound(s.db) && Store.Sound(later) && s.db.log <= later.log && scope in LAYERS
    ensures var k := ConfigKeyOf(scope, s.ns, s.service, key);
            var was, now := LastFor(s.Queue(scope), k), LastFor(SessionStep(s, Serve(later)).Queue(scope), k);
            && ((was.Some? ==> Reflects(s.db, was.value)) ==> (now.Some? ==> Reflects(later, now.value)))
            && (now.None? ==> was.None? && LayerAt(later, k) == LayerAt(s.db, k))
  {
    hide Store.Sound, Reflects, LastFor, LayerAt;
    var k := ConfigKeyOf(scope, s.ns, s.service, key);
    var tail := later.log[|s.db.log|..];
    var more := ScopeEvents(tail, scope, s.ns, s.service);
    LayerKeysDiffer(s.ns, s.service, key, scope, scope);
    LastForOfConcat(s.Queue(scope), more, k);
    LastForOfScope(tail, scope, s.ns, s.service, k);
    StoreAfterTail(s.db, later, k);
    assert SessionStep(s, Serve(later)).Queue(scope) == s.Queue(scope) + more;
    LastForIsInLog(s.Queue(scope), k);
    if LastFor(tail, k).None? && LastFor(s.Queue(scope), k).Some? && Reflects(s.db, LastFor(s.Queue(scope), k).value) {
      ReflectsStays(s.db, later, LastFor(s.Queue(scope), k).value);
    }
  }

  lemma SameLayersSameStored(db: State, later: State, ns: string, service: string, key: string)
    requires forall scope :: scope in LAYERS ==>
      LayerAt(later, ConfigKeyOf(scope, ns, service, key)) == LayerAt(db, ConfigKeyOf(scope, ns, service, key))
    ensures Stored(later, ns, service, key) == Stored(db, ns, service, key)
  {
    StoredUnfolds(db, ns, service, key);
    StoredUnfolds(later, ns, service, key);
    hide Stored, LayerAt;
    assert LAYERS[0] == ServiceScope && LAYERS[1] == NamespaceScope && LAYERS[2] == GlobalScope;
    assert ServiceScope in LAYERS && NamespaceScope in LAYERS && GlobalScope in LAYERS;
  }

  lemma ServeKeepsInformed(s: Session, later: State, key: string, since: Option<Scope>)
    requires Informed(s, key, since) && WellPlaced(later) && s.db.log <= later.log
    ensures Informed(SessionStep(s, Serve(later)), key, since)
  {
    hide Placed, Store.Sound, Reflects, LastFor, LayerAt, Stored, Lookup, ConfigKeyOf, QueuesFromLog, ScopeEvents, Session.Queue;
    ServeKeepsQueues(s, later);
    var s' := SessionStep(s, Serve(later));
    forall scope | scope in LAYERS
      ensures var k := ConfigKeyOf(scope, s.ns, s.service, key);
              var was, now := LastFor(s.Queue(scope), k), LastFor(s'.Queue(scope), k);
              && ((was.Some? ==> Reflects(s.db, was.value)) ==> (now.Some? ==> Reflects(later, now.value)))
              && (now.None? ==> was.None? && LayerAt(later, k) == LayerAt(s.db, k))
    {
      ServeOneStream(s, later, key, scope);
    }
    if since.None? && Drained(s', key) {
      SameLayersSameStored(s.db, later, s.ns, s.service, key);
    }
  }

  /** Taking the first event off one stream. */
  lemma PopOneStream(s: Session, scope: Scope, key: string, other: Scope)
    requires scope in LAYERS && other in LAYERS && s.Queue(scope) != []
    ensures var k := ConfigKeyOf(other, s.ns, s.service, key);
            var was, now := LastFor(s.Queue(other), k), LastFor(s.WithQueue(scope, s.Queue(scope)[1..]).Queue(other), k);
            && (now.Some? ==> was == now)
            && (now.None? && was.Some? ==> scope == other && was.value == s.Queue(scope)[0] && s.Queue(scope)[0].key == k)
  {
    var q := s.Queue(scope);
    var k := ConfigKeyOf(other, s.ns, s.service, key);
    hide ConfigKeyOf;
    if scope == other {
      assert q == [q[0]] + q[1..];
      LastForOfConcat([q[0]], q[1..], k);
      assert LastFor([q[0]], k) == if q[0].key == k then Some(q[0]) else None;
    } else {
      QueuesAreSeparate(s, scope, other, q[1..]);
    }
  }

  lemma PopKeepsReflecting(s: Session, s': Session, scope: Scope, key: string)
    requires StreamsReflect(s, key) && scope in LAYERS && s.Queue(scope) != []
    requires SameQueues(s', s.WithQueue(scope, s.Queue(scope)[1..])) && SameView(s, s')
    ensures StreamsReflect(s', key)
  {
    hide LastFor, Reflects, ConfigKeyOf, Session.Queue, Session.WithQueue;
    forall other | other in LAYERS
      ensures var last := LastFor(s'.Queue(other), ConfigKeyOf(other, s.ns, s.service, key));
              last.Some? ==> Reflects(s.db, last.value)
    {
      PopOneStream(s, scope, key, other);
    }
  }

  ghost predicate SameQueues(s: Session, t: Session) {
    forall scope :: s.Queue(scope) == t.Queue(scope)
  }

  /** The first event of a stream is a logged item of its scope. */
  lemma QueuedItem(s: Session, scope: Scope)
    requires WellPlaced(s.db) && QueuesFromLog(s) && scope in LAYERS && s.Queue(scope) != []
    ensures var e := s.Queue(scope)[0];
            && e.value.ConfigV? && EventOf(e).Some?
            && e.key == ConfigKeyOf(scope, s.ns, s.service, e.value.config.key) && e.value.config.scope == scope
  {
    hide Store.Sound, ConfigItem.Valid, Render;
    var e := s.Queue(scope)[0];
    assert e in s.Queue(scope);
    assert e in s.db.log && ConfigServiceObject.AtScope(e.key, scope, s.ns, s.service);
    assert Placed(e.key, e.value);
    ConfigServiceObject.KeysAtScope(e.key, e.value, scope, s.ns, s.service);
    ScopeOfPlaced(e.key, e.value, scope, s.ns, s.service);
  }

  /** A delivered put about the key: the value now comes from the layer of its stream. */
  lemma PutAboutKey(s: Session, s': Session, scope: Scope, key: string)
    requires WellPlaced(s.db) && QueuesFromLog(s) && scope in LAYERS && s.Queue(scope) != []
    requires StreamsReflect(s, key)
    requires var e := s.Queue(scope)[0];
             e.kind.PutEvent? && e.value.ConfigV? && e.value.config.key == key && e.value.config.scope == scope &&
             e.key == ConfigKeyOf(scope, s.ns, s.service, key)
    requires SameQueues(s', s.WithQueue(scope, s.Queue(scope)[1..])) && s'.db == s.db && s'.ns == s.ns && s'.service == s.service
    requires var c := s.Queue(scope)[0].value.config; Lookup(s'.items, key) == Some(Effective(c, key, scope))
    ensures CameFrom(s', key, Some(scope))
  {
    hide LastFor, ConfigKeyOf, Session.Queue, Session.WithQueue, Stored, WellPlaced, QueuesFromLog;
    var q, k := s.Queue(scope), ConfigKeyOf(scope, s.ns, s.service, key);
    PopOneStream(s, scope, key, scope);
    LastOfFirst(q, k);
    var last := LastFor(q, k);
    assert last.Some? ==> Reflects(s.db, last.value);
  }

  lemma LastOfFirst(q: seq<LogEvent>, k: Key)
    requires q != [] && q[0].key == k
    ensures LastFor(q, k).Some?
  {
    LastForIsInLog(q, k);
    assert q[0] in q;
  }

  /** A delivered put about another key, or a stream that moved for another reason, changes no provenance. */
  lemma PutAboutOtherKey(s: Session, s': Session, scope: Scope, key: string, since: Option<Scope>)
    requires CameFrom(s, key, since) && scope in LAYERS && s.Queue(scope) != []
    requires s.Queue(scope)[0].key != ConfigKeyOf(scope, s.ns, s.service, key)
    requires SameQueues(s', s.WithQueue(scope, s.Queue(scope)[1..])) && s'.db == s.db && s'.ns == s.ns && s'.service == s.service
    requires s'.synced == s.synced && Lookup(s'.items, key) == Lookup(s.items, key)
    ensures CameFrom(s', key, since)
  {
    hide LastFor, ConfigKeyOf, Session.Queue, Session.WithQueue, Stored, LayerAt, Lookup;
    forall other | other in LAYERS
      ensures LastFor(s'.Queue(other), ConfigKeyOf(other, s.ns, s.service, key)).None? ==>
              LastFor(s.Queue(other), ConfigKeyOf(other, s.ns, s.service, key)).None?
    {
      PopOneStream(s, scope, key, other);
    }
  }

  predicate SameView(s: Session, t: Session) {
    s.db == t.db && s.ns == t.ns && s.service == t.service
  }

  /** What a delivery does to the session, told by the kind of its event. */
  lemma DeliveryShape(s: Session, scope: Scope, effective: Result<Items>)
    requires !s.stopped && s.Queue(scope) != [] && s.Queue(scope)[0].value.ConfigV?
    ensures var (s', e) := (Delivered(s, scope, effective), s.Queue(scope)[0]);
            && SameView(s, s') && SameQueues(s', s.WithQueue(scope, s.Queue(scope)[1..]))
            && (if e.kind.PutEvent? then
                  var c := e.value.config;
                  !s'.stopped && s'.synced == s.synced &&
                  s'.items == s.items[c.key := EffectiveItem(c.key, c.value, c.valueType, c.scope)]
                else (s'.stopped <==> effective.Err?) && (effective.Ok? ==> s'.items == effective.value && s'.synced))
  {
    hide Render;
  }

  /** A delivered put leaves its own layer, or for another key nothing, as where the value came from. */
  lemma PutKeepsProvenance(s: Session, s': Session, scope: Scope, key: string, since: Option<Scope>)
    requires WellPlaced(s.db) && QueuesFromLog(s) && scope in LAYERS && s.Queue(scope) != []
    requires StreamsReflect(s, key) && CameFrom(s, key, since)
    requires SameQueues(s', s.WithQueue(scope, s.Queue(scope)[1..])) && SameView(s, s') && s'.synced == s.synced
    requires var e := s.Queue(scope)[0];
             && e.kind.PutEvent? && e.value.ConfigV? && e.value.config.scope == scope
             && e.key == ConfigKeyOf(scope, s.ns, s.service, e.value.config.key)
             && var c := e.value.config; s'.items == s.items[c.key := EffectiveItem(c.key, c.value, c.valueType, c.scope)]
    ensures CameFrom(s', key, if s.Queue(scope)[0].value.config.key == key then Some(scope) else since)
  {
    var e := s.Queue(scope)[0];
    KeyPartDiffers(s.ns, s.service, scope, scope, e.value.config.key, key);
    hide WellPlaced, QueuesFromLog, ConfigKeyOf, StreamsReflect, CameFrom, SameQueues, Session.Queue, Session.WithQueue;
    if e.value.config.key == key {
      PutAboutKey(s, s', scope, key);
    } else {
      PutAboutOtherKey(s, s', scope, key, since);
    }
  }

  lemma DeliveryKeepsInformed(s: Session, scope: Scope, effective: Result<Items>, key: string, since: Option<Scope>)
    requires Informed(s, key, since) && scope in LAYERS
    requires ResolveReturns(effective, s.db, s.Input())
    ensures Informed(Delivered(s, scope, effective), key, PutSince(s, Deliver(scope, effective), key, since))
  {
    hide WellPlaced, QueuesFromLog, Stored, Render, ResolveReturns, ConfigKeyOf, StreamsReflect, CameFrom, SameQueues,
      Session.Queue, Session.WithQueue, EventOf, AfterDelivery, Lookup;
    var q := s.Queue(scope);
    if !s.stopped && q != [] {
      var s' := Delivered(s, scope, effective);
      QueuedItem(s, scope);
      DeliveryShape(s, scope, effective);
      PopQueue(s, scope);
      SameQueuesFromLog(s.WithQueue(scope, q[1..]), s');
      hide Delivered;
      if !s'.stopped {
        PopKeepsReflecting(s, s', scope, key);
        if q[0].kind.PutEvent? {
          PutKeepsProvenance(s, s', scope, key, since);
        } else {
          LoadedIsRight(s, effective, key);
          LoadedComesFromLoad(s', key);
        }
      }
    }
  }

  lemma SameQueuesFromLog(s: Session, t: Session)
    requires QueuesFromLog(s) && SameQueues(t, s) && SameView(s, t)
    ensures QueuesFromLog(t)
  {
    hide Session.Queue, ConfigServiceObject.AtScope;
  }

  lemma LoadedComesFromLoad(s: Session, key: string)
    requires Lookup(s.items, key) == Stored(s.db, s.ns, s.service, key)
    ensures CameFrom(s, key, None)
  {
    hide Lookup, Stored;
  }

  lemma MoveKeepsInformed(s: Session, m: Move, key: string, since: Option<Scope>)
    requires Informed(s, key, since) && Possible(s, m)
    ensures Informed(SessionStep(s, m), key, PutSince(s, m, key, since))
  {
    hide QueuesFromLog, Stored, Lookup, ResolveReturns, LastFor, ConfigKeyOf, Placed, Store.Sound, ScopeEvents, Drained;
    match m
    case Serve(later) => ServeKeepsInformed(s, later, key, since);
    case Deliver(scope, effective) =>
      ScopesOfAView(scope);
      DeliveryKeepsInformed(s, scope, effective, key, since);
    case Load(effective) =>
      if effective.Ok? {
        QueuesIgnoreTheRest(s, SessionStep(s, m));
        LoadedIsRight(s, effective, key);
      }
  }

  lemma {:induction false} RunsKeepInformed(s: Session, moves: seq<Move>, key: string, since: Option<Scope>)
    requires Informed(s, key, since) && AllPossible(s, moves)
    ensures Informed(SessionRun(s, moves), key, LastPutSinceLoad(s, moves, key, since))
    decreases |moves|
  {
    hide Informed, Possible, SessionStep, PutSince;
    if moves != [] {
      MoveKeepsInformed(s, moves[0], key, since);
      RunsKeepInformed(SessionStep(s, moves[0]), moves[1..], key, PutSince(s, moves[0], key, since));
    }
  }

  /**
   * For every interleaving, and whatever layers hold the key: once the client has loaded a snapshot,
   * has not given up and nothing about the key is queued, the key is cached as it resolves exactly if
   * the last put about it since the last load, if there was one, came from a layer no stronger one hides.
   */
  lemma KeysConvergeExactly(s: Session, moves: seq<Move>, key: string)
    requires JustOpened(s) && AllPossible(s, moves)
    requires var s' := SessionRun(s, moves); s'.synced && !s'.stopped && Drained(s', key)
    ensures var s' := SessionRun(s, moves);
            Lookup(s'.items, key) == Stored(s'.db, s.ns, s.service, key) <==>
            match LastPutSinceLoad(s, moves, key, None)
            case None => true
            case Some(scope) => NoStrongerLayer(s'.db, s.ns, s.service, key, scope)
  {
    hide WellPlaced, Stored, Lookup, Possible, SessionStep, ConfigKeyOf, NoStrongerLayer, QueuesFromLog, LayerAt;
    var s' := SessionRun(s, moves);
    OpenedIsInformed(s, key);
    RunsKeepInformed(s, moves, key, None);
    RunsOnlyExtendTheLog(s, moves);
    var since := LastPutSinceLoad(s, moves, key, None);
    if since.Some? {
      LayerIsInForceExactly(s'.db, s.ns, s.service, key, since.value);
    }
  }

  lemma OpenedIsInformed(s: Session, key: string)
    requires JustOpened(s)
    ensures Informed(s, key, None)
  {
    hide WellPlaced, Stored, Lookup;
  }

  // ------------------------------------------------------ keys held at one layer only

  /** A layer the log never mentions is empty, and nothing about it is queued. */
  lemma OtherLayersAreEmpty(s: Session, key: string, tracked: Scope, other: Scope)
    requires WellPlaced(s.db) && QueuesFromLog(s) && other in LAYERS && other != tracked
    requires SingleScope(s.db.log, s.ns, s.service, key, tracked)
    ensures var k := ConfigKeyOf(other, s.ns, s.service, key);
            LayerAt(s.db, k).None? && LastFor(s.Queue(other), k).None?
  {
    hide Store.Ordered, Placed, ConfigKeyOf, ConfigServiceObject.AtScope;
    var k := ConfigKeyOf(other, s.ns, s.service, key);
    ReplayLast([], s.db.log, k);
    assert [] + s.db.log == s.db.log;
    LastForIsInLog(s.db.log, k);
    LastForIsInLog(s.Queue(other), k);
    assert k in Store.Cells(s.db.data) <==> k in s.db.data;
  }

  /**
   * In particular, once nothing about it is queued, a key that only ever had values at one layer is
   * cached exactly as it resolves now, whatever else is still queued.
   */
  lemma SingleScopeKeysConverge(s: Session, moves: seq<Move>, key: string, tracked: Scope)
    requires JustOpened(s) && AllPossible(s, moves) && tracked in LAYERS
    requires var s' := SessionRun(s, moves);
             && s'.synced && !s'.stopped
             && LastFor(s'.Queue(tracked), ConfigKeyOf(tracked, s.ns, s.service, key)).None?
             && SingleScope(s'.db.log, s.ns, s.service, key, tracked)
    ensures var s' := SessionRun(s, moves);
            Lookup(s'.items, key) == Stored(s'.db, s.ns, s.service, key)
  {
    hide WellPlaced, Stored, Lookup, Possible, SessionStep, ConfigKeyOf, QueuesFromLog, LayerAt, LastFor, SingleScope, LAYERS;
    var s' := SessionRun(s, moves);
    OpenedIsInformed(s, key);
    RunsKeepInformed(s, moves, key, None);
    RunsOnlyExtendTheLog(s, moves);
    forall other | other in LAYERS && other != tracked
      ensures var k := ConfigKeyOf(other, s.ns, s.service, key);
              LayerAt(s'.db, k).None? && LastFor(s'.Queue(other), k).None?
    {
      OtherLayersAreEmpty(s', key, tracked, other);
    }
    assert Drained(s', key);
    KeysConvergeExactly(s, moves, key);
    var since := LastPutSinceLoad(s, moves, key, None);
    if since.Some? {
      StrongerAreLayers(since.value);
    }
  }

  lemma StrongerAreLayers(scope: Scope)
    requires scope in LAYERS
    ensures forall stronger :: stronger in StrongerScopes(scope) ==> stronger in LAYERS && stronger != scope
  {
    assert LAYERS[0] == ServiceScope && LAYERS[1] == NamespaceScope && LAYERS[2] == GlobalScope;
  }

  // ---------------------------------------------- from the store's own streams

  function Rendered(log: seq<LogEvent>): seq<Store.Event<string>> {
    seq(|log|, n requires 0 <= n < |log| => RenderEvent(log[n]))
  }

  /** The three streams of a session are what three store watches under the scope prefixes deliver. */
  lemma {:induction false} StreamsAreWatches(c: seq<Store.Event<string>>, a: seq<LogEvent>, scope: Scope, ns: string, service: string)
    requires SameLog(c, a)
    ensures Matching(c, ConfigPrefix(scope, ns, service)) == Rendered(ScopeEvents(a, scope, ns, service))
    decreases |a|
  {
    hide Render, ValidKey, ConfigPrefix;
    if a != [] {
      var init, last := a[..|a| - 1], a[|a| - 1];
      assert SameLog(c[..|c| - 1], init);
      StreamsAreWatches(c[..|c| - 1], init, scope, ns, service);
      ConfigServiceObject.PrefixIsScope(last.key, scope, ns, service);
      assert c[|c| - 1] == RenderEvent(last);
      var rest := ScopeEvents(init, scope, ns, service);
      assert Rendered(rest + [last]) == Rendered(rest) + [RenderEvent(last)];
    }
  }
}
