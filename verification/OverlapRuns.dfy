/** Concrete runs of overlapping card puts, from the empty store, that leave a wrong capability index. */
module OverlapRuns {
  import opened Outcome
  import opened Model
  import opened Keyspace
  import opened Services
  import opened CapabilityIndex
  import opened CardInterleaving
  import Store

  /** Some steps of one call, followed by other moves. */
  function Advances(id: nat, n: nat, rest: seq<Move>): seq<Move> {
    if n == 0 then rest else [Advance(id)] + Advances(id, n - 1, rest)
  }

  function CallSteps(db: State, c: Call, n: nat): (State, Call)
    decreases n
  {
    if n == 0 then (db, c)
    else
      var (db', c') := CallStep(db, c);
      CallSteps(db', c', n - 1)
  }

  lemma RunFirst(w: World, m: Move, rest: seq<Move>)
    ensures WorldRun(w, [m] + rest) == WorldRun(WorldStep(w, m), rest)
  {
    assert ([m] + rest)[1..] == rest;
  }

  lemma {:induction false} RunAdvances(w: World, id: nat, n: nat, rest: seq<Move>)
    requires id in w.calls
    ensures WorldRun(w, Advances(id, n, rest)) ==
            var (db, c) := CallSteps(w.db, w.calls[id], n);
            WorldRun(World(db, w.calls[id := c]), rest)
    decreases n
  {
    hide CallStep, WorldRun;
    if n == 0 {
      assert World(w.db, w.calls[id := w.calls[id]]) == w;
    } else {
      RunFirst(w, Advance(id), Advances(id, n - 1, rest));
      var (db, c) := CallStep(w.db, w.calls[id]);
      RunAdvances(World(db, w.calls[id := c]), id, n - 1, rest);
      assert w.calls[id := c][id := CallSteps(db, c, n - 1).1] == w.calls[id := CallSteps(db, c, n - 1).1];
    }
  }

  lemma RunCall(w: World, id: nat, card: AgentCard, expected: int, n: nat, rest: seq<Move>)
    requires id !in w.calls
    ensures WorldRun(w, [Begin(id, card, expected, 0, 0)] + Advances(id, n, rest)) ==
            var (db, c) := CallSteps(w.db, Call(card, expected, 0, 0, Checking), n);
            WorldRun(World(db, w.calls[id := c]), rest)
  {
    hide CallStep, WorldRun, CallSteps, Advances;
    RunFirst(w, Begin(id, card, expected, 0, 0), Advances(id, n, rest));
    var c := Call(card, expected, 0, 0, Checking);
    RunAdvances(World(w.db, w.calls[id := c]), id, n, rest);
    var c' := CallSteps(w.db, c, n).1;
    assert w.calls[id := c][id := c'] == w.calls[id := c'];
  }

  /** A namespace, then two cards of one agent: the second replaces the first while it is being indexed. */
  function Overlapping(first: AgentCard, second: AgentCard): seq<Move> {
    [Serve(CreateNamespaceOp(first.namespace, 0))] +
    ([Begin(1, first, 0, 0, 0)] +
     Advances(1, 2,
              [Begin(2, second, 2, 0, 0)] +
              Advances(2, 8, Advances(1, 1, []))))
  }

  function Stamp(c: AgentCard): AgentCard {
    c.(createdAt := 0, updatedAt := 0)
  }

  predicate OneCapabilityEach(first: AgentCard, second: AgentCard) {
    && first.Valid() && second.Valid()
    && first.namespace == second.namespace && first.agentID == second.agentID
    && |first.capabilities| == 1 && |second.capabilities| == 1
    && first.capabilities[0] != second.capabilities[0]
  }

  function OneNamespace(ns: string): State {
    Store.Write(Start(), NamespaceK(ns), NamespaceV(Namespace(ns, ReadWrite, 0, 0, 0)), 0)
  }

  predicate Open(db: State, ns: string) {
    CheckWrite(db, ns).Ok? && CheckRead(db, ns, false).Ok?
  }

  lemma NamespaceIsOpen(ns: string)
    requires ValidName(ns)
    ensures Step(Start(), CreateNamespaceOp(ns, 0)) == OneNamespace(ns)
    ensures Open(OneNamespace(ns), ns)
  {
    hide ValidName;
  }

  /** The card is stored at a revision. */
  predicate Holds(db: State, c: AgentCard, revision: int) {
    && revision > 0
    && CardK(c.namespace, c.agentID) in db.data
    && db.data[CardK(c.namespace, c.agentID)] == Store.Rec(CardV(Stamp(c)), revision, 0)
  }

  lemma StaysOpen(db: State, k: Key, v: Value, ns: string)
    requires Open(db, ns) && k != NamespaceK(ns)
    ensures Open(Store.Write(db, k, v, 0), ns)
  {
  }

  lemma FirstGetsItsCardStored(db: State, first: AgentCard)
    requires Open(db, first.namespace) && first.Valid() && CardK(first.namespace, first.agentID) !in db.data
    ensures var (db', c) := CallSteps(db, Call(first, 0, 0, 0, Checking), 2);
            && db' == Store.Write(db, CardK(first.namespace, first.agentID), CardV(Stamp(first)), 0)
            && c == Call(first, 0, 0, 0, Putting(Stamp(first), 0))
  {
    hide AgentCard.Valid, CheckWrite, CheckRead;
    var c0 := Call(first, 0, 0, 0, Checking);
    var (_, c1) := CallStep(db, c0);
    assert c1 == c0.(phase := Writing(Stamp(first), None));
    var (db2, c2) := CallStep(db, c1);
    assert CallSteps(db2, c2, 0) == (db2, c2);
    assert CallSteps(db, c1, 1) == (db2, c2);
  }

  lemma {:induction false} StepsCompose(db: State, c: Call, n: nat, m: nat)
    ensures CallSteps(db, c, n + m) == CallSteps(CallSteps(db, c, n).0, CallSteps(db, c, n).1, m)
    decreases n
  {
    hide CallStep;
    if n > 0 {
      var (db', c') := CallStep(db, c);
      StepsCompose(db', c', n - 1, m);
    }
  }

  /** The second put reads the first card and swaps its own in. */
  lemma SecondSwaps(db: State, first: AgentCard, second: AgentCard, revision: int)
    requires Open(db, first.namespace) && OneCapabilityEach(first, second) && Holds(db, first, revision)
    ensures var (db', c) := CallSteps(db, Call(second, revision, 0, 0, Checking), 4);
            && db' == Store.Write(db, CardK(first.namespace, first.agentID), CardV(Stamp(second)), 0)
            && c.card == second && c.phase.Deleting? && c.phase.next == Stamp(second) && c.phase.done == 0
            && c.phase.prior == Stamp(first).(revision := revision)
  {
    hide AgentCard.Valid, CheckWrite, CheckRead;
    var c0 := Call(second, revision, 0, 0, Checking);
    var c1 := c0.(phase := Rechecking);
    var c2 := c0.(phase := Reading);
    var prior := Stamp(first).(revision := revision);
    var c3 := c0.(phase := Writing(Stamp(second), Some(prior)));
    assert CallStep(db, c0) == (db, c1);
    assert CallStep(db, c1) == (db, c2);
    assert CallStep(db, c2) == (db, c3);
    var (db4, c4) := CallStep(db, c3);
    hide CallStep;
    assert CallSteps(db4, c4, 0) == (db4, c4);
    assert CallSteps(db, c3, 1) == (db4, c4);
    assert CallSteps(db, c2, 2) == (db4, c4);
    assert CallSteps(db, c1, 3) == (db4, c4);
  }

  /** The index phase of a put whose old and new card list one capability each takes four steps. */
  lemma SecondReindexes(db: State, c: Call)
    requires c.phase.Deleting? && c.phase.done == 0 && |c.phase.prior.capabilities| == 1 && |c.phase.next.capabilities| == 1
    requires SameIdentity(c.phase.prior, c.phase.next)
    ensures var next := c.phase.next;
            var k := CapabilityK(next.namespace, c.phase.prior.capabilities[0], next.agentID);
            var (db', c') := CallSteps(db, c, 4);
            && db' == Store.Write(Store.Delete(db, k).0, CapabilityK(next.namespace, next.capabilities[0], next.agentID), EntryOf(next), 0)
            && c'.phase.Finished?
  {
    var c1 := c.(phase := Deleting(c.phase.next, c.phase.prior, 1));
    var c2 := c.(phase := Putting(c.phase.next, 0));
    var c3 := c.(phase := Putting(c.phase.next, 1));
    var (db1, _) := CallStep(db, c);
    assert CallStep(db, c).1 == c1;
    assert CallStep(db1, c1) == (db1, c2);
    var (db3, _) := CallStep(db1, c2);
    assert CallStep(db1, c2).1 == c3;
    var (db4, c4) := CallStep(db3, c3);
    assert db4 == db3 && c4.phase.Finished?;
    hide CallStep;
    assert CallSteps(db4, c4, 0) == (db4, c4);
    assert CallSteps(db3, c3, 1) == (db4, c4);
    assert CallSteps(db1, c2, 2) == (db4, c4);
    assert CallSteps(db1, c1, 3) == (db4, c4);
  }

  predicate SameIdentity(a: AgentCard, b: AgentCard) {
    a.namespace == b.namespace && a.agentID == b.agentID
  }

  lemma FirstWritesItsEntry(db: State, first: AgentCard)
    requires |first.capabilities| == 1
    ensures CallSteps(db, Call(first, 0, 0, 0, Putting(Stamp(first), 0)), 1).0 ==
            Store.Write(db, CapabilityK(first.namespace, first.capabilities[0], first.agentID), EntryOf(Stamp(first)), 0)
  {
    var c := Call(first, 0, 0, 0, Putting(Stamp(first), 0));
    var (db', c') := CallStep(db, c);
    assert CallSteps(db', c', 0) == (db', c');
  }

  /** The store after both calls, written out. */
  function Overlapped(first: AgentCard, second: AgentCard): State
    requires OneCapabilityEach(first, second)
  {
    var (ns, agent) := (first.namespace, first.agentID);
    var db1 := Store.Write(OneNamespace(ns), CardK(ns, agent), CardV(Stamp(first)), 0);
    var db2 := Store.Write(db1, CardK(ns, agent), CardV(Stamp(second)), 0);
    var db3 := Store.Delete(db2, CapabilityK(ns, first.capabilities[0], agent)).0;
    var db4 := Store.Write(db3, CapabilityK(ns, second.capabilities[0], agent), EntryOf(Stamp(second)), 0);
    Store.Write(db4, CapabilityK(ns, first.capabilities[0], agent), EntryOf(Stamp(first)), 0)
  }

  /** From the empty store to the first card stored but not yet indexed. */
  lemma CreationRuns(first: AgentCard, tail: seq<Move>)
    requires first.Valid()
    ensures var c := Call(first, 0, 0, 0, Putting(Stamp(first), 0));
            var db := Store.Write(OneNamespace(first.namespace), CardK(first.namespace, first.agentID), CardV(Stamp(first)), 0);
            WorldRun(World(Start(), map[]),
                                      [Serve(CreateNamespaceOp(first.namespace, 0))] +
                                      ([Begin(1, first, 0, 0, 0)] + Advances(1, 2, tail))) ==
            WorldRun(World(db, map[1 := c]), tail)
  {
    hide CallStep, WorldRun, CallSteps, Open, ValidName, Step, Start, Advances;
    var ns := first.namespace;
    ValidCardsAreNamed(first);
    NamespaceIsOpen(ns);
    StartIsEmpty();
    hide AgentCard.Valid;
    var w0 := World(Start(), map[]);
    RunFirst(w0, Serve(CreateNamespaceOp(ns, 0)),
             [Begin(1, first, 0, 0, 0)] + Advances(1, 2, tail));
    var w1 := World(OneNamespace(ns), map[]);
    RunFirst(w1, Begin(1, first, 0, 0, 0), Advances(1, 2, tail));
    var c := Call(first, 0, 0, 0, Checking);
    RunAdvances(World(w1.db, map[1 := c]), 1, 2, tail);
    FirstGetsItsCardStored(w1.db, first);
    var indexing := c.(phase := Putting(Stamp(first), 0));
    assert map[1 := c][1 := indexing] == map[1 := indexing];
  }

  /** Both phases of the second call, one after the other. */
  lemma SecondRuns(db: State, first: AgentCard, second: AgentCard, revision: int)
    requires Open(db, first.namespace) && OneCapabilityEach(first, second) && Holds(db, first, revision)
    ensures var (ns, agent) := (first.namespace, first.agentID);
            var swapped := Store.Write(db, CardK(ns, agent), CardV(Stamp(second)), 0);
            CallSteps(db, Call(second, revision, 0, 0, Checking), 8).0 ==
            Store.Write(Store.Delete(swapped, CapabilityK(ns, first.capabilities[0], agent)).0,
                        CapabilityK(ns, second.capabilities[0], agent), EntryOf(Stamp(second)), 0)
  {
    hide CallStep, CallSteps, Open, AgentCard.Valid;
    var c := Call(second, revision, 0, 0, Checking);
    SecondSwaps(db, first, second, revision);
    StepsCompose(db, c, 4, 4);
    var (db', c') := CallSteps(db, c, 4);
    SecondReindexes(db', c');
  }

  /** From there through the second call to the first call's entry. */
  lemma UpdateRuns(db: State, first: AgentCard, second: AgentCard)
    requires Open(db, first.namespace) && OneCapabilityEach(first, second)
    requires db == Store.Write(OneNamespace(first.namespace), CardK(first.namespace, first.agentID), CardV(Stamp(first)), 0)
    ensures var c := Call(first, 0, 0, 0, Putting(Stamp(first), 0));
            WorldRun(World(db, map[1 := c]),
                                      [Begin(2, second, 2, 0, 0)] + Advances(2, 8, Advances(1, 1, []))).db ==
            Overlapped(first, second)
  {
    hide CallStep, WorldRun, CallSteps, Open, AgentCard.Valid, Advances, EntryOf;
    var indexing := Call(first, 0, 0, 0, Putting(Stamp(first), 0));
    var w := World(db, map[1 := indexing]);
    RunFirst(w, Begin(2, second, 2, 0, 0), Advances(2, 8, Advances(1, 1, [])));
    var c := Call(second, 2, 0, 0, Checking);
    RunAdvances(World(db, w.calls[2 := c]), 2, 8, Advances(1, 1, []));
    SecondRuns(db, first, second, 2);
    var (db', c') := CallSteps(db, c, 8);
    var w' := World(db', w.calls[2 := c][2 := c']);
    RunAdvances(w', 1, 1, []);
    FirstWritesItsEntry(db', first);
    EmptyRun(World(CallSteps(db', indexing, 1).0, w'.calls[1 := CallSteps(db', indexing, 1).1]));
  }

  lemma OverlappedDisagrees(first: AgentCard, second: AgentCard)
    requires OneCapabilityEach(first, second)
    ensures CardAt(Overlapped(first, second), first.namespace, first.agentID) == Some(Stamp(second))
    ensures !IndexedAt(Overlapped(first, second), first.namespace, first.capabilities[0], first.agentID)
  {
    hide AgentCard.Valid, OneNamespace, EntryOf;
    assert Stamp(second).capabilities == [second.capabilities[0]];
  }

  /**
   * From an empty store, an update of a card that overtakes its creation leaves an entry for a
   * capability the stored card does not list.
   */
  lemma OverlappingPutsBreakAgreement(first: AgentCard, second: AgentCard)
    requires OneCapabilityEach(first, second)
    ensures var db := WorldRun(World(Start(), map[]), Overlapping(first, second)).db;
            && CardAt(db, first.namespace, first.agentID) == Some(Stamp(second))
            && !IndexedAt(db, first.namespace, first.capabilities[0], first.agentID)
  {
    hide WorldRun, Advances, Open, EntryOf, Start;
    var ns := first.namespace;
    CreationRuns(first, [Begin(2, second, 2, 0, 0)] + Advances(2, 8, Advances(1, 1, [])));
    ValidCardsAreNamed(first);
    hide AgentCard.Valid, ValidName;
    NamespaceIsOpen(ns);
    StaysOpen(OneNamespace(ns), CardK(ns, first.agentID), CardV(Stamp(first)), ns);
    UpdateRuns(Store.Write(OneNamespace(ns), CardK(ns, first.agentID), CardV(Stamp(first)), 0), first, second);
    OverlappedDisagrees(first, second);
    hide Overlapped, OneNamespace, IndexedAt, CardAt;
  }

  lemma EmptyRun(w: World)
    ensures WorldRun(w, []) == w
  {
  }

  lemma StartIsEmpty()
    ensures Start() == Store.Db(0, map[], {}, [])
  {
  }

  lemma ValidCardsAreNamed(c: AgentCard)
    requires c.Valid()
    ensures ValidName(c.namespace)
  {
  }

  // ------------------------------------------------------- a put that is still removing

  /**
   * A card, an update whose removals are held up, and a second update that restores the first
   * card's capability before the removals go on.
   */
  function Restoring(base: AgentCard, first: AgentCard, second: AgentCard): seq<Move> {
    [Serve(CreateNamespaceOp(base.namespace, 0))] +
    ([Begin(1, base, 0, 0, 0)] +
     Advances(1, 4,
              [Begin(2, first, 2, 0, 0)] +
              Advances(2, 4,
                       [Begin(3, second, 4, 0, 0)] +
                       Advances(3, 8, Advances(2, 4, [])))))
  }

  predicate RestoresCapability(base: AgentCard, first: AgentCard, second: AgentCard) {
    && OneCapabilityEach(base, first) && OneCapabilityEach(first, second)
    && second.capabilities[0] == base.capabilities[0]
  }

  /** The entry a put writes for its one capability. */
  function OwnEntry(c: AgentCard): Key
    requires |c.capabilities| == 1
  {
    CapabilityK(c.namespace, c.capabilities[0], c.agentID)
  }

  /** An uninterrupted first put of a card with one capability takes four steps. */
  lemma CreationCompletes(db: State, base: AgentCard)
    requires Open(db, base.namespace) && base.Valid() && |base.capabilities| == 1
    requires CardK(base.namespace, base.agentID) !in db.data
    ensures CallSteps(db, Call(base, 0, 0, 0, Checking), 4).0 ==
            Store.Write(Store.Write(db, CardK(base.namespace, base.agentID), CardV(Stamp(base)), 0),
                        OwnEntry(base), EntryOf(Stamp(base)), 0)
  {
    var c := Call(base, 0, 0, 0, Checking);
    FirstGetsItsCardStored(db, base);
    StepsCompose(db, c, 2, 2);
    var (db', c') := CallSteps(db, c, 2);
    WritesAndFinishes(db', base);
    hide AgentCard.Valid, Open, CallSteps, CallStep, EntryOf;
  }

  lemma WritesAndFinishes(db: State, base: AgentCard)
    requires |base.capabilities| == 1
    ensures CallSteps(db, Call(base, 0, 0, 0, Putting(Stamp(base), 0)), 2).0 ==
            Store.Write(db, OwnEntry(base), EntryOf(Stamp(base)), 0)
  {
    hide EntryOf;
    var c := Call(base, 0, 0, 0, Putting(Stamp(base), 0));
    var (db1, c1) := CallStep(db, c);
    var (db2, c2) := CallStep(db1, c1);
    assert db2 == db1;
    hide CallStep;
    assert CallSteps(db2, c2, 0) == (db2, c2);
    assert CallSteps(db1, c1, 1) == (db2, c2);
  }

  /** The store before the held-up removals go on. */
  function Restored(base: AgentCard, first: AgentCard, second: AgentCard): State
    requires RestoresCapability(base, first, second)
  {
    var k := CardK(base.namespace, base.agentID);
    var db1 := Store.Write(OneNamespace(base.namespace), k, CardV(Stamp(base)), 0);
    var db2 := Store.Write(db1, OwnEntry(base), EntryOf(Stamp(base)), 0);
    var db3 := Store.Write(db2, k, CardV(Stamp(first)), 0);
    var db4 := Store.Write(db3, k, CardV(Stamp(second)), 0);
    Store.Write(Store.Delete(db4, OwnEntry(first)).0, OwnEntry(second), EntryOf(Stamp(second)), 0)
  }

  lemma SecondHeldUp(db: State, base: AgentCard, first: AgentCard, second: AgentCard)
    requires RestoresCapability(base, first, second) && Open(db, base.namespace)
    requires var k := CardK(base.namespace, base.agentID);
             db == Store.Write(Store.Write(OneNamespace(base.namespace), k, CardV(Stamp(base)), 0), OwnEntry(base), EntryOf(Stamp(base)), 0)
    ensures var (db', c) := CallSteps(db, Call(first, 2, 0, 0, Checking), 4);
            && c.phase.Deleting? && c.phase.done == 0 && c.phase.next == Stamp(first)
            && c.phase.prior == Stamp(base).(revision := 2)
            && CallSteps(db', Call(second, 4, 0, 0, Checking), 8).0 == Restored(base, first, second)
  {
    hide CallStep, CallSteps, AgentCard.Valid, EntryOf;
    SecondSwaps(db, base, first, 2);
    var db' := CallSteps(db, Call(first, 2, 0, 0, Checking), 4).0;
    StaysOpen(db, CardK(base.namespace, base.agentID), CardV(Stamp(first)), base.namespace);
    hide Open;
    SecondRuns(db', first, second, 4);
  }

  lemma RestoringRuns(base: AgentCard, first: AgentCard, second: AgentCard)
    requires RestoresCapability(base, first, second)
    ensures WorldRun(World(Start(), map[]), Restoring(base, first, second)).db ==
            Store.Write(Store.Delete(Restored(base, first, second), OwnEntry(base)).0, OwnEntry(first), EntryOf(Stamp(first)), 0)
  {
    hide CallStep, WorldRun, CallSteps, Open, ValidName, Step, Start, Advances, EntryOf, Restored;
    var ns := base.namespace;
    ValidCardsAreNamed(base);
    NamespaceIsOpen(ns);
    StartIsEmpty();
    hide AgentCard.Valid;
    var removals := Advances(2, 4, []);
    var third := [Begin(3, second, 4, 0, 0)] + Advances(3, 8, removals);
    var heldUp := [Begin(2, first, 2, 0, 0)] + Advances(2, 4, third);
    RunFirst(World(Start(), map[]), Serve(CreateNamespaceOp(ns, 0)), [Begin(1, base, 0, 0, 0)] + Advances(1, 4, heldUp));
    var db0 := OneNamespace(ns);
    RunCall(World(db0, map[]), 1, base, 0, 4, heldUp);
    CreationCompletes(db0, base);
    var (db1, c1) := CallSteps(db0, Call(base, 0, 0, 0, Checking), 4);
    StaysOpen(db0, CardK(ns, base.agentID), CardV(Stamp(base)), ns);
    StaysOpen(Store.Write(db0, CardK(ns, base.agentID), CardV(Stamp(base)), 0), OwnEntry(base), EntryOf(Stamp(base)), ns);
    RunCall(World(db1, map[1 := c1]), 2, first, 2, 4, third);
    SecondHeldUp(db1, base, first, second);
    var (db2, c2) := CallSteps(db1, Call(first, 2, 0, 0, Checking), 4);
    RunCall(World(db2, map[1 := c1, 2 := c2]), 3, second, 4, 8, removals);
    var (db3, c3) := CallSteps(db2, Call(second, 4, 0, 0, Checking), 8);
    RunAdvances(World(db3, map[1 := c1, 2 := c2, 3 := c3]), 2, 4, []);
    SecondReindexes(db3, c2);
    var (db4, c4) := CallSteps(db3, c2, 4);
    EmptyRun(World(db4, map[1 := c1, 2 := c2, 3 := c3][2 := c4]));
  }

  /**
   * From an empty store, an update that restores a capability while an earlier update is still
   * removing it leaves the stored card without an entry for it, so discovery misses the agent.
   */
  lemma LateRemovalLosesAnEntry(base: AgentCard, first: AgentCard, second: AgentCard)
    requires RestoresCapability(base, first, second)
    ensures var db := WorldRun(World(Start(), map[]), Restoring(base, first, second)).db;
            && CardAt(db, base.namespace, base.agentID) == Some(Stamp(second))
            && OwnEntry(second) !in db.data
  {
    RestoringRuns(base, first, second);
    RestoredThenRemoved(base, first, second);
    hide WorldRun, Restoring, RestoresCapability, Restored, CardAt, EntryOf, Start;
  }

  lemma RestoredThenRemoved(base: AgentCard, first: AgentCard, second: AgentCard)
    requires RestoresCapability(base, first, second)
    ensures var db := Store.Write(Store.Delete(Restored(base, first, second), OwnEntry(base)).0,
                                  OwnEntry(first), EntryOf(Stamp(first)), 0);
            && CardAt(db, base.namespace, base.agentID) == Some(Stamp(second))
            && OwnEntry(second) !in db.data
  {
    hide AgentCard.Valid, OneNamespace, EntryOf;
  }
}
