/** Subscriptions with bounded buffers, fed by the store's broadcast. */
module Watching {
  import opened Model
  import opened Store

  const CAPACITY := 16

  /**
   * One subscription. `accepted` is everything its channel ever took, of which the first `taken`
   * events have been received; the rest is the channel's buffer. `start` and `stop` are log positions.
   */
  datatype Sub = Sub(
    prefix: string,
    open: bool,
    start: nat,
    stop: nat,
    accepted: seq<Event<string>>,
    taken: nat,
    dropped: bool)

  function Buffer(s: Sub): seq<Event<string>> {
    if s.taken <= |s.accepted| then s.accepted[s.taken..] else []
  }

  /** A send that never blocks: a full buffer loses the event. */
  function Offer(s: Sub, e: Event<string>): Sub {
    if !s.open || !(s.prefix <= e.key) then s
    else if |Buffer(s)| < CAPACITY then s.(accepted := s.accepted + [e])
    else s.(dropped := true)
  }

  function Broadcast(subs: map<nat, Sub>, e: Event<string>): map<nat, Sub> {
    map id | id in subs :: Offer(subs[id], e)
  }

  datatype Hub = Hub(db: Db<string>, subs: map<nat, Sub>, nextID: nat)

  datatype HubOp =
    | StoreStep(op: StoreOp<string>)
    | Subscribe(prefix: string)
    | Cancel(id: nat)
    | Receive(id: nat)

  /** A store step broadcasts the event it logged, if any. */
  function Publish(subs: map<nat, Sub>, before: seq<Event<string>>, after: seq<Event<string>>): map<nat, Sub> {
    if |after| == |before| + 1 then Broadcast(subs, after[|before|]) else subs
  }

  function HubStep(h: Hub, op: HubOp): Hub {
    match op
    case StoreStep(o) =>
      var db := Apply(h.db, o);
      h.(db := db, subs := Publish(h.subs, h.db.log, db.log))
    case Subscribe(prefix) =>
      h.(subs := h.subs[h.nextID := Sub(prefix, true, |h.db.log|, 0, [], 0, false)], nextID := h.nextID + 1)
    case Cancel(id) =>
      if id in h.subs && h.subs[id].open
      then h.(subs := h.subs[id := h.subs[id].(open := false, stop := |h.db.log|)])
      else h
    case Receive(id) =>
      if id in h.subs && Buffer(h.subs[id]) != []
      then h.(subs := h.subs[id := h.subs[id].(taken := h.subs[id].taken + 1)])
      else h
  }

  function HubRun(h: Hub, ops: seq<HubOp>): Hub
    decreases |ops|
  {
    if ops == [] then h else HubRun(HubStep(h, ops[0]), ops[1..])
  }

  function EmptyHub(): Hub {
    Hub(Empty(), map[], 0)
  }

  /** The events under a prefix, in log order. */
  function Matching(log: seq<Event<string>>, prefix: string): seq<Event<string>> {
    if log == [] then []
    else
      var rest := Matching(log[..|log| - 1], prefix);
      var e := log[|log| - 1];
      if prefix <= e.key then rest + [e] else rest
  }

  ghost predicate Subsequence(a: seq<Event<string>>, b: seq<Event<string>>) {
    || a == []
    || (b != [] && a[|a| - 1] == b[|b| - 1] && Subsequence(a[..|a| - 1], b[..|b| - 1]))
    || (b != [] && Subsequence(a, b[..|b| - 1]))
  }

  function Window(s: Sub, log: seq<Event<string>>): seq<Event<string>> {
    var stop := if s.open then |log| else s.stop;
    if s.start <= stop <= |log| then log[s.start..stop] else []
  }

  /**
   * What a subscriber may rely on: its channel took an in-order subsequence of the events
   * under its prefix logged while it was open, and all of them unless its buffer was ever full.
   */
  ghost predicate Faithful(s: Sub, log: seq<Event<string>>) {
    && s.start <= |log|
    && (!s.open ==> s.start <= s.stop <= |log|)
    && s.taken <= |s.accepted| <= s.taken + CAPACITY
    && Subsequence(s.accepted, Matching(Window(s, log), s.prefix))
    && (!s.dropped ==> s.accepted == Matching(Window(s, log), s.prefix))
  }

  ghost predicate HubSound(h: Hub) {
    && Sound(h.db)
    && (forall id :: id in h.subs ==> id < h.nextID && Faithful(h.subs[id], h.db.log))
  }

  lemma MatchingOfAppend(log: seq<Event<string>>, e: Event<string>, prefix: string)
    ensures Matching(log + [e], prefix) ==
            if prefix <= e.key then Matching(log, prefix) + [e] else Matching(log, prefix)
  {
    assert (log + [e])[..|log|] == log;
  }

  lemma SubsequenceOfAppend(a: seq<Event<string>>, b: seq<Event<string>>, e: Event<string>)
    requires Subsequence(a, b)
    ensures Subsequence(a, b + [e]) && Subsequence(a + [e], b + [e])
  {
    assert (b + [e])[..|b|] == b && (a + [e])[..|a|] == a;
  }

  lemma WindowGrows(s: Sub, log: seq<Event<string>>, e: Event<string>)
    requires s.start <= |log| && (!s.open ==> s.stop <= |log|)
    ensures Window(s, log + [e]) == if s.open then Window(s, log) + [e] else Window(s, log)
  {
  }

  lemma OfferIsFaithful(s: Sub, log: seq<Event<string>>, e: Event<string>)
    requires Faithful(s, log)
    ensures Faithful(Offer(s, e), log + [e])
  {
    hide Window, Matching, Subsequence, Buffer;
    var w := Window(s, log);
    WindowGrows(s, log, e);
    MatchingOfAppend(w, e, s.prefix);
    SubsequenceOfAppend(s.accepted, Matching(w, s.prefix), e);
    OfferKeepsWindow(s, e, log + [e]);
    BufferLength(s);
  }

  lemma BufferLength(s: Sub)
    requires s.taken <= |s.accepted|
    ensures |Buffer(s)| == |s.accepted| - s.taken
  {
  }

  lemma OfferKeepsWindow(s: Sub, e: Event<string>, log: seq<Event<string>>)
    ensures Window(Offer(s, e), log) == Window(s, log)
  {
  }

  lemma StoreStepIsFaithful(h: Hub, op: StoreOp<string>)
    requires HubSound(h)
    ensures HubSound(HubStep(h, StoreStep(op)))
  {
    var db := Apply(h.db, op);
    ApplyIsSound(h.db, op);
    forall id | id in h.subs
      ensures Faithful(Publish(h.subs, h.db.log, db.log)[id], db.log)
    {
      if |db.log| == |h.db.log| + 1 {
        var e := db.log[|h.db.log|];
        assert db.log == h.db.log + [e];
        OfferIsFaithful(h.subs[id], h.db.log, e);
      } else {
        assert db.log == h.db.log;
      }
    }
  }

  /** A change to one subscription that keeps it faithful keeps the whole hub sound. */
  lemma OneSubChanges(h: Hub, id: nat, s: Sub, nextID: nat)
    requires HubSound(h) && h.nextID <= nextID && id < nextID
    requires Faithful(s, h.db.log)
    ensures HubSound(Hub(h.db, h.subs[id := s], nextID))
  {
    hide Faithful, Sound;
  }

  lemma CancelAndReceiveAreFaithful(s: Sub, log: seq<Event<string>>)
    requires Faithful(s, log)
    ensures s.open ==> Faithful(s.(open := false, stop := |log|), log)
    ensures Buffer(s) != [] ==> Faithful(s.(taken := s.taken + 1), log)
  {
    hide Matching, Subsequence;
    assert s.open ==> Window(s.(open := false, stop := |log|), log) == Window(s, log);
    assert Window(s.(taken := s.taken + 1), log) == Window(s, log);
  }

  lemma HubStepIsSound(h: Hub, op: HubOp)
    requires HubSound(h)
    ensures HubSound(HubStep(h, op))
  {
    if op.StoreStep? {
      StoreStepIsFaithful(h, op.op);
    } else if op.Subscribe? {
      OneSubChanges(h, h.nextID, Sub(op.prefix, true, |h.db.log|, 0, [], 0, false), h.nextID + 1);
    } else if op.id in h.subs {
      var s := h.subs[op.id];
      assert op.id < h.nextID;
      CancelAndReceiveAreFaithful(s, h.db.log);
      hide Faithful, HubSound, Buffer;
      if op.Cancel? && s.open {
        OneSubChanges(h, op.id, s.(open := false, stop := |h.db.log|), h.nextID);
      } else if op.Receive? && Buffer(s) != [] {
        OneSubChanges(h, op.id, s.(taken := s.taken + 1), h.nextID);
      }
    }
  }

  /** Every run of store operations, subscriptions, cancellations and receives keeps all of it. */
  lemma {:induction false} HubRunsAreSound(h: Hub, ops: seq<HubOp>)
    requires HubSound(h)
    ensures HubSound(HubRun(h, ops))
    decreases |ops|
  {
    if ops != [] {
      HubStepIsSound(h, ops[0]);
      HubRunsAreSound(HubStep(h, ops[0]), ops[1..]);
    }
  }

  /**
   * What one store step does to a subscription: if it logged an event under the prefix of an open one,
   * the channel takes it, or loses it exactly when sixteen events wait; nothing else changes.
   */
  lemma StoreStepDelivers(h: Hub, op: StoreOp<string>, id: nat)
    requires HubSound(h) && id in h.subs
    ensures var h' := HubStep(h, StoreStep(op));
            var s := h.subs[id];
            && id in h'.subs
            && h'.subs[id] ==
               if |h'.db.log| == |h.db.log| || !s.open || !(s.prefix <= h'.db.log[|h.db.log|].key) then s
               else if |s.accepted| - s.taken < 16 then s.(accepted := s.accepted + [h'.db.log[|h.db.log|]])
               else s.(dropped := true)
  {
    ApplyIsSound(h.db, op);
    StepLogsAtMostOnce(h.db, op);
    BufferLength(h.subs[id]);
    hide Apply, Sound, Window, Matching, Subsequence, Buffer;
  }

  lemma StepLogsAtMostOnce(db: Db<string>, op: StoreOp<string>)
    ensures |db.log| <= |Apply(db, op).log| <= |db.log| + 1
  {
  }

  /** Over every run: a closed subscription stays closed and its channel takes nothing more. */
  lemma {:induction false} ClosedStaysClosed(h: Hub, id: nat, ops: seq<HubOp>)
    requires id in h.subs && !h.subs[id].open && id < h.nextID
    ensures var h' := HubRun(h, ops);
            id in h'.subs && !h'.subs[id].open && h'.subs[id].accepted == h.subs[id].accepted
    decreases |ops|
  {
    hide Apply;
    if ops != [] {
      ClosedStaysClosed(HubStep(h, ops[0]), id, ops[1..]);
    }
  }

  /** A cancelled watcher receives no event logged after its cancellation. */
  lemma CancelledTakesNothing(h: Hub, id: nat, ops: seq<HubOp>)
    requires HubSound(h) && id in h.subs
    ensures var h' := HubRun(HubStep(h, Cancel(id)), ops);
            id in h'.subs && !h'.subs[id].open && h'.subs[id].accepted == h.subs[id].accepted
  {
    ClosedStaysClosed(HubStep(h, Cancel(id)), id, ops);
  }

  // ------------------------------------------- what store steps leave of the subscriptions

  /** The same subscription, which may have taken or lost further events. */
  predicate Continues(s: Sub, s': Sub) {
    s' == s.(accepted := s'.accepted, dropped := s'.dropped) && s.accepted <= s'.accepted && (s.dropped ==> s'.dropped)
  }

  /** No subscription was opened, cancelled or received from; each goes on where it was. */
  ghost predicate Kept(h: Hub, h': Hub) {
    && h'.nextID == h.nextID
    && h'.subs.Keys == h.subs.Keys
    && forall id :: id in h.subs ==> Continues(h.subs[id], h'.subs[id])
  }

  lemma StoreStepsKeep(h: Hub, op: StoreOp<string>)
    ensures Kept(h, HubStep(h, StoreStep(op)))
  {
    hide Apply;
  }

  lemma KeptIsReflexive(h: Hub)
    ensures Kept(h, h)
  {
  }

  lemma KeptIsTransitive(h: Hub, h': Hub, h'': Hub)
    requires Kept(h, h') && Kept(h', h'')
    ensures Kept(h, h'')
  {
  }

  // ------------------------------------------------ what the services stream

  /** An item of a store watch: a change, or the error that ends a stream which fell behind compaction. */
  datatype Feed = Change(event: Event<string>) | Compacted(revision: int)

  datatype WatchEvent<+T> = Changed(kind: EventKind, key: string, revision: int, payload: T) | Reset(revision: int)

  function Changes(events: seq<Event<string>>): seq<Feed> {
    seq(|events|, n requires 0 <= n < |events| => Change(events[n]))
  }
}
