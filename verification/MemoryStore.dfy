/** The in-memory store: one lock, so each method is one atomic step. */
module MemoryStoreObject {
  import opened Outcome
  import opened Model
  import opened Store
  import opened Watching
  import Text

  datatype Record = Record(key: string, value: Value, revision: int, lease: int)

  function RecOf(r: Record): Rec {
    Rec(r.value, r.revision, r.lease)
  }

  class MemoryStore {
    var revision: int
    var data: map<string, Rec>
    // Registered watchers by id, with their prefix; a channel outlives its watcher.
    var watchers: map<nat, string>
    var channels: map<nat, seq<Event<string>>>
    var nextID: nat
    var leases: set<int>
    ghost var log: seq<Event<string>>
    ghost var subs: map<nat, Sub>

    ghost function Contents(): Db<string>
      reads this
    {
      Db(revision, data, leases, log)
    }

    ghost function State(): Hub
      reads this
    {
      Hub(Contents(), subs, nextID)
    }

    ghost predicate Valid()
      reads this
    {
      HubSound(State()) && Wired(watchers, channels, subs)
    }

    constructor ()
      ensures Valid() && State() == EmptyHub()
    {
      revision, data, watchers, channels, nextID, leases := 0, map[], map[], map[], 0, {};
      log, subs := [], map[];
      new;
      EmptyIsSound<string>();
    }

    /** Sends the event to every matching channel that has room, in any order of the watchers. */
    method BroadcastLocked(event: Event<string>)
      requires watchers.Keys <= channels.Keys
      modifies this`channels
      ensures channels.Keys == old(channels).Keys
      ensures forall id :: id in channels ==> channels[id] == Sent(watchers, old(channels), id, event)
    {
      var todo := watchers.Keys;
      while todo != {}
        invariant todo <= watchers.Keys && channels.Keys == old(channels).Keys
        invariant forall id :: id in channels ==>
          channels[id] == if id in todo then old(channels)[id] else Sent(watchers, old(channels), id, event)
        decreases |todo|
      {
        var id :| id in todo;
        todo := todo - {id};
        if watchers[id] <= event.key && |channels[id]| < CAPACITY {
          channels := channels[id := channels[id] + [event]];
        }
      }
    }

    /** Logs and broadcasts the event of a change already made to the data. */
    method Commit(event: Event<string>)
      requires Wired(watchers, channels, subs)
      modifies this`channels, this`subs, this`log
      ensures Wired(watchers, channels, subs) && log == old(log) + [event] && subs == Publish(old(subs), old(log), log)
    {
      assert watchers.Keys <= channels.Keys;
      hide Wired, Sent, Broadcast;
      log := log + [event];
      BroadcastLocked(event);
      BroadcastStaysWired(watchers, old(channels), subs, event, channels);
      subs := Broadcast(subs, event);
    }

    /** The common end of the three writes: a new revision, the record, the broadcast. */
    method WriteLocked(key: string, value: Value, lease: int)
      requires Valid()
      modifies this
      ensures Valid() && State() == HubStep(old(State()), StoreStep(PutOp(key, value, lease)))
    {
      hide HubSound, Wired, Publish;
      HubStepIsSound(State(), StoreStep(PutOp(key, value, lease)));
      revision := revision + 1;
      data := data[key := Rec(value, revision, lease)];
      Commit(Event(PutEvent, key, value, revision));
    }

    /** The common end of the two deletes; the event carries the removed value. */
    method RemoveLocked(key: string)
      requires Valid() && key in data
      modifies this
      ensures Valid() && State() == HubStep(old(State()), StoreStep(DeleteOp(key)))
    {
      hide HubSound, Wired, Publish;
      HubStepIsSound(State(), StoreStep(DeleteOp(key)));
      var record := data[key];
      data := data - {key};
      revision := revision + 1;
      Commit(Event(DeleteEvent, key, record.value, revision));
    }

    method Create(key: string, value: Value, lease: int) returns (r: Result<int>)
      requires Valid()
      modifies this
      ensures Valid() && State() == HubStep(old(State()), StoreStep(CreateOp(key, value, lease)))
      ensures Kept(old(State()), State())
      ensures r == Store.Create(old(Contents()), key, value, lease).1
    {
      StoreStepsKeep(State(), CreateOp(key, value, lease));
      hide HubSound, Wired, Kept;
      if key in data {
        return Err(AlreadyExists);
      }
      WriteLocked(key, value, lease);
      r := Ok(revision);
    }

    method Put(key: string, value: Value, lease: int) returns (r: Result<int>)
      requires Valid()
      modifies this
      ensures Valid() && State() == HubStep(old(State()), StoreStep(PutOp(key, value, lease)))
      ensures Kept(old(State()), State())
      ensures r == Store.Put(old(Contents()), key, value, lease).1
    {
      StoreStepsKeep(State(), PutOp(key, value, lease));
      hide HubSound, Wired, Kept;
      WriteLocked(key, value, lease);
      r := Ok(revision);
    }

    method Cas(key: string, expected: int, value: Value, lease: int) returns (r: Result<int>)
      requires Valid()
      modifies this
      ensures Valid() && State() == HubStep(old(State()), StoreStep(CasOp(key, expected, value, lease)))
      ensures Kept(old(State()), State())
      ensures r == Store.Cas(old(Contents()), key, expected, value, lease).1
    {
      StoreStepsKeep(State(), CasOp(key, expected, value, lease));
      hide HubSound, Wired, Kept;
      if key !in data || data[key].revision != expected {
        return Err(Conflict);
      }
      WriteLocked(key, value, lease);
      r := Ok(revision);
    }

    method Get(key: string) returns (r: Result<Rec>)
      ensures r == Store.Get(Contents(), key)
    {
      if key !in data {
        return Err(NotFound);
      }
      r := Ok(data[key]);
    }

    method KeysUnder(prefix: string) returns (keys: seq<string>)
      ensures forall k :: k in keys <==> k in data && prefix <= k
      ensures Text.Distinct(keys)
    {
      keys := [];
      var todo := data.Keys;
      while todo != {}
        invariant todo <= data.Keys
        invariant forall k :: k in keys <==> k in data && k !in todo && prefix <= k
        invariant Text.Distinct(keys)
        decreases |todo|
      {
        var key :| key in todo;
        todo := todo - {key};
        if prefix <= key {
          keys := keys + [key];
        }
      }
    }

    /** All records under a prefix, in key order. */
    method List(prefix: string) returns (records: seq<Record>)
      ensures ListsPrefix(records, data, prefix)
    {
      hide Text.SortBy, Text.Less, Text.Distinct;
      var keys := KeysUnder(prefix);
      Text.SortedStringsAscend(keys);
      keys := Text.SortBy(keys, Text.Less);
      records := [];
      for n := 0 to |keys|
        invariant |records| == n
        invariant forall i :: 0 <= i < n ==>
          records[i] == Record(keys[i], data[keys[i]].value, data[keys[i]].revision, data[keys[i]].lease)
      {
        var rec := data[keys[n]];
        records := records + [Record(keys[n], rec.value, rec.revision, rec.lease)];
      }
      forall k | k in data && prefix <= k
        ensures exists i :: 0 <= i < |records| && records[i].key == k
      {
        assert k in keys;
        var i :| 0 <= i < |keys| && keys[i] == k;
        assert records[i].key == k;
      }
    }

    method Delete(key: string) returns (r: Result<int>)
      requires Valid()
      modifies this
      ensures Valid() && State() == HubStep(old(State()), StoreStep(DeleteOp(key)))
      ensures Kept(old(State()), State())
      ensures r == Store.Delete(old(Contents()), key).1
    {
      StoreStepsKeep(State(), DeleteOp(key));
      hide HubSound, Wired, Kept;
      if key !in data {
        return Err(NotFound);
      }
      RemoveLocked(key);
      r := Ok(revision);
    }

    method DeleteCas(key: string, expected: int) returns (r: Result<int>)
      requires Valid()
      modifies this
      ensures Valid() && State() == HubStep(old(State()), StoreStep(DeleteCasOp(key, expected)))
      ensures Kept(old(State()), State())
      ensures r == Store.DeleteCas(old(Contents()), key, expected).1
    {
      StoreStepsKeep(State(), DeleteCasOp(key, expected));
      hide HubSound, Wired, Kept;
      if key !in data || data[key].revision != expected {
        return Err(Conflict);
      }
      RemoveLocked(key);
      r := Ok(revision);
    }

    /** Subscribes to future changes; the start revision the port offers is ignored here. */
    method Watch(prefix: string) returns (id: nat)
      requires Valid()
      modifies this
      ensures Valid() && id == old(nextID) && State() == HubStep(old(State()), Subscribe(prefix))
    {
      hide HubSound, Wired, Kept;
      SubscribeStaysWired(watchers, channels, subs, nextID, prefix, |log|);
      HubStepIsSound(State(), Subscribe(prefix));
      id := nextID;
      nextID := nextID + 1;
      watchers := watchers[id := prefix];
      channels := channels[id := []];
      subs := subs[id := Sub(prefix, true, |log|, 0, [], 0, false)];
    }

    /** What the watcher's goroutine does once its context is cancelled. */
    method CancelWatch(id: nat)
      requires Valid()
      modifies this
      ensures Valid() && State() == HubStep(old(State()), Cancel(id))
    {
      hide HubSound;
      HubStepIsSound(State(), Cancel(id));
      if id in watchers {
        watchers := watchers - {id};
        subs := subs[id := subs[id].(open := false, stop := |log|)];
      }
    }

    /** Takes the oldest buffered event from a channel. */
    method ReceiveFrom(id: nat) returns (event: Option<Event<string>>)
      requires Valid()
      modifies this
      ensures Valid() && State() == HubStep(old(State()), Receive(id))
      ensures event == if id in old(subs) && Buffer(old(subs)[id]) != [] then Some(Buffer(old(subs)[id])[0]) else None
    {
      hide HubSound;
      HubStepIsSound(State(), Receive(id));
      if id !in channels || channels[id] == [] {
        return None;
      }
      event := Some(channels[id][0]);
      channels := channels[id := channels[id][1..]];
      subs := subs[id := subs[id].(taken := subs[id].taken + 1)];
    }

    method GrantLease() returns (id: int)
      requires Valid()
      modifies this
      ensures Valid() && State() == HubStep(old(State()), StoreStep(GrantOp))
      ensures Kept(old(State()), State())
      ensures id == Grant(old(Contents())).1
    {
      StoreStepsKeep(State(), GrantOp);
      hide HubSound;
      HubStepIsSound(State(), StoreStep(GrantOp));
      revision := revision + 1;
      id := revision;
      leases := leases + {id};
    }

    method KeepAliveOnce(lease: int) returns (r: Result<()>)
      ensures r == KeepAlive(Contents(), lease)
    {
      if lease !in leases {
        return Err(NotFound);
      }
      r := Ok(());
    }

    method RevokeLease(lease: int)
      requires Valid()
      modifies this
      ensures Valid() && State() == HubStep(old(State()), StoreStep(RevokeOp(lease)))
      ensures Kept(old(State()), State())
    {
      StoreStepsKeep(State(), RevokeOp(lease));
      hide HubSound;
      HubStepIsSound(State(), StoreStep(RevokeOp(lease)));
      leases := leases - {lease};
    }
  }

  /** The buffer a watcher's channel holds after a send that does not block. */
  ghost function Sent(watchers: map<nat, string>, channels: map<nat, seq<Event<string>>>, id: nat,
                      event: Event<string>): seq<Event<string>>
    requires id in channels
  {
    if id in watchers && watchers[id] <= event.key && |channels[id]| < CAPACITY
    then channels[id] + [event] else channels[id]
  }

  /** The real watchers and channel buffers are those of the open subscriptions. */
  ghost predicate Wired(watchers: map<nat, string>, channels: map<nat, seq<Event<string>>>, subs: map<nat, Sub>) {
    && watchers.Keys <= subs.Keys
    && channels.Keys == subs.Keys
    && forall id :: id in subs ==>
         && (id in watchers <==> subs[id].open)
         && (id in watchers ==> watchers[id] == subs[id].prefix)
         && subs[id].taken <= |subs[id].accepted|
         && channels[id] == Buffer(subs[id])
  }

  lemma BroadcastStaysWired(watchers: map<nat, string>, channels: map<nat, seq<Event<string>>>, subs: map<nat, Sub>,
                            e: Event<string>, channels': map<nat, seq<Event<string>>>)
    requires Wired(watchers, channels, subs)
    requires channels'.Keys == channels.Keys
    requires forall id :: id in channels ==> channels'[id] == Sent(watchers, channels, id, e)
    ensures Wired(watchers, channels', Broadcast(subs, e))
  {
    hide Buffer, Sent;
    forall id | id in subs
      ensures channels'[id] == Buffer(Broadcast(subs, e)[id])
    {
      BufferOfOffer(subs[id], e);
      SentToSub(watchers, channels, subs, id, e);
    }
  }

  lemma SentToSub(watchers: map<nat, string>, channels: map<nat, seq<Event<string>>>, subs: map<nat, Sub>, id: nat,
                  e: Event<string>)
    requires Wired(watchers, channels, subs) && id in subs
    ensures Sent(watchers, channels, id, e) ==
            var s := subs[id];
            if s.open && s.prefix <= e.key && |Buffer(s)| < CAPACITY then Buffer(s) + [e] else Buffer(s)
  {
    hide Buffer;
  }

  lemma SubscribeStaysWired(watchers: map<nat, string>, channels: map<nat, seq<Event<string>>>, subs: map<nat, Sub>,
                            id: nat, prefix: string, start: nat)
    requires Wired(watchers, channels, subs)
    ensures Wired(watchers[id := prefix], channels[id := []], subs[id := Sub(prefix, true, start, 0, [], 0, false)])
  {
  }

  lemma BufferOfOffer(s: Sub, e: Event<string>)
    requires s.taken <= |s.accepted|
    ensures Buffer(Offer(s, e)) ==
            if s.open && s.prefix <= e.key && |Buffer(s)| < CAPACITY then Buffer(s) + [e] else Buffer(s)
  {
  }

  /** Exactly the records under the prefix, each once, strictly ordered by key. */
  ghost predicate ListsPrefix(records: seq<Record>, data: map<string, Rec>, prefix: string) {
    && (forall i :: 0 <= i < |records| ==>
          var r := records[i];
          r.key in data && prefix <= r.key && data[r.key] == RecOf(r))
    && (forall k :: k in data && prefix <= k ==> exists i :: 0 <= i < |records| && records[i].key == k)
    && (forall i, j :: 0 <= i < j < |records| ==> Text.Less(records[i].key, records[j].key))
  }
}
