/**
 * What is left when one put of an agent's card swaps its card in while another is still
 * re-indexing, for every interleaving of the two re-indexings.
 */
module CardOverlap {
  import opened Outcome
  import opened Model
  import opened Keyspace
  import opened Services
  import opened Invariants
  import opened CapabilityIndex
  import opened CardInterleaving
  import Store

  // ------------------------------------------------ what one re-indexing still does

  /** The entries of the card it read that a put still has to remove. */
  function Rest(c: Call): seq<string> {
    if c.phase.Deleting? && c.phase.done <= |c.phase.prior.capabilities| then c.phase.prior.capabilities[c.phase.done..] else []
  }

  /** The entries of its own card that a put still has to write. */
  function Unwritten(c: Call): seq<string> {
    if c.phase.Deleting? then c.phase.next.capabilities
    else if c.phase.Putting? && c.phase.done <= |c.phase.next.capabilities| then c.phase.next.capabilities[c.phase.done..]
    else []
  }

  datatype Touch = Removed | Written(entry: Value)

  /** What the next step of a put does to the entry of a capability, if anything. */
  function NextTouch(c: Call, capability: string): Option<Touch> {
    if Rest(c) != [] then (if Rest(c)[0] == capability then Some(Removed) else None)
    else if c.phase.Putting? && Unwritten(c) != [] && Unwritten(c)[0] == capability then Some(Written(EntryOf(c.phase.next)))
    else None
  }

  /** The last thing a put still does to the entry of a capability. */
  function LastTouch(c: Call, capability: string): Option<Touch> {
    if Indexing(c) && capability in Unwritten(c) then Some(Written(EntryOf(c.phase.next)))
    else if capability in Rest(c) then Some(Removed)
    else None
  }

  /** A call that is re-indexing its own agent, or has finished. */
  predicate Settled(c: Call) {
    match c.phase
    case Deleting(next, prior, _) => SameAgent(next, c.card) && SameAgent(prior, c.card)
    case Putting(next, _) => SameAgent(next, c.card)
    case Finished(_) => true
    case _ => false
  }

  ghost predicate EntryIs(db: State, k: Key, touch: Touch) {
    match touch
    case Removed => k !in db.data
    case Written(entry) => k in db.data && db.data[k].value == entry
  }

  lemma StepTouches(db: State, c: Call, capability: string)
    requires Settled(c)
    ensures var (db', c') := CallStep(db, c);
            var k := CapabilityK(c.card.namespace, capability, c.card.agentID);
            && Settled(c') && c'.card == c.card
            && Same(db, db', CardK(c.card.namespace, c.card.agentID))
            && (match NextTouch(c, capability) case Some(touch) => EntryIs(db', k, touch) case None => Same(db, db', k))
            && LastTouch(c, capability) ==
               (if LastTouch(c', capability).Some? then LastTouch(c', capability) else NextTouch(c, capability))
            && (Remaining(c') < Remaining(c) || (c.phase.Finished? && c' == c))
  {
    var c' := CallStep(db, c).1;
    match c.phase
    case Deleting(next, prior, done) =>
      if done < |prior.capabilities| {
        assert Rest(c) == [prior.capabilities[done]] + Rest(c');
      } else {
        assert Rest(c) == [];
      }
    case Putting(next, done) =>
      if done < |next.capabilities| {
        assert Unwritten(c) == [next.capabilities[done]] + Unwritten(c');
      } else {
        assert Unwritten(c) == [];
      }
    case _ =>
  }

  // ---------------------------------------------------- two re-indexings interleaved

  /** Two calls taking store steps in turns: true is a step of the first. */
  function Woven(db: State, first: Call, second: Call, turns: seq<bool>): (State, Call, Call)
    decreases |turns|
  {
    if turns == [] then (db, first, second)
    else if turns[0] then
      var (db', first') := CallStep(db, first);
      Woven(db', first', second, turns[1..])
    else
      var (db', second') := CallStep(db, second);
      Woven(db', first, second', turns[1..])
  }

  /** The last step about a capability's entry, whichever call takes it. */
  function WovenTouch(db: State, first: Call, second: Call, turns: seq<bool>, capability: string): Option<Touch>
    decreases |turns|
  {
    if turns == [] then None
    else
      var mover := if turns[0] then first else second;
      var (db', mover') := CallStep(db, mover);
      var later :=
        if turns[0] then WovenTouch(db', mover', second, turns[1..], capability)
        else WovenTouch(db', first, mover', turns[1..], capability);
      if later.Some? then later else NextTouch(mover, capability)
  }

  predicate BothFinish(db: State, first: Call, second: Call, turns: seq<bool>) {
    var (_, first', second') := Woven(db, first, second, turns);
    first'.phase.Finished? && second'.phase.Finished?
  }

  function Moves(one: nat, two: nat, turns: seq<bool>): seq<Move>
    decreases |turns|
  {
    if turns == [] then [] else [Advance(if turns[0] then one else two)] + Moves(one, two, turns[1..])
  }

  /** Taking turns is a run of the interleaved world. */
  lemma {:induction false} WovenIsARun(w: World, one: nat, two: nat, turns: seq<bool>)
    requires one in w.calls && two in w.calls && one != two
    ensures var (db, first, second) := Woven(w.db, w.calls[one], w.calls[two], turns);
            WorldRun(w, Moves(one, two, turns)) == World(db, w.calls[one := first][two := second])
    decreases |turns|
  {
    hide CallStep;
    if turns == [] {
      assert w.calls[one := w.calls[one]][two := w.calls[two]] == w.calls;
    } else {
      var id := if turns[0] then one else two;
      var next := WorldStep(w, Advance(id));
      assert Moves(one, two, turns)[1..] == Moves(one, two, turns[1..]);
      WovenIsARun(next, one, two, turns[1..]);
      var (db, first, second) := Woven(w.db, w.calls[one], w.calls[two], turns);
      assert next.calls[one := first][two := second] == w.calls[one := first][two := second];
    }
  }

  /** Whoever touches an entry last decides it. */
  lemma {:induction false} LastTouchDecides(db: State, first: Call, second: Call, turns: seq<bool>, capability: string)
    requires Settled(first) && Settled(second) && SameAgent(first.card, second.card)
    ensures var db' := Woven(db, first, second, turns).0;
            var k := CapabilityK(first.card.namespace, capability, first.card.agentID);
            && Same(db, db', CardK(first.card.namespace, first.card.agentID))
            && (match WovenTouch(db, first, second, turns, capability)
                case Some(touch) => EntryIs(db', k, touch)
                case None => Same(db, db', k))
    decreases |turns|
  {
    if turns != [] {
      var mover := if turns[0] then first else second;
      StepTouches(db, mover, capability);
      var (db', mover') := CallStep(db, mover);
      hide CallStep, Settled, NextTouch, LastTouch;
      if turns[0] {
        LastTouchDecides(db', mover', second, turns[1..], capability);
      } else {
        LastTouchDecides(db', first, mover', turns[1..], capability);
      }
    }
  }

  /** If both finish, the last step about an entry is the last one of one of the two calls. */
  lemma {:induction false} LastTouchIsSomeones(db: State, first: Call, second: Call, turns: seq<bool>, capability: string)
    requires Settled(first) && Settled(second) && BothFinish(db, first, second, turns)
    ensures var touch := WovenTouch(db, first, second, turns, capability);
            && (touch == LastTouch(first, capability) || touch == LastTouch(second, capability))
            && (touch.None? ==> LastTouch(first, capability).None? && LastTouch(second, capability).None?)
    decreases |turns|
  {
    if turns != [] {
      var mover := if turns[0] then first else second;
      StepTouches(db, mover, capability);
      var (db', mover') := CallStep(db, mover);
      hide CallStep, Settled, NextTouch, LastTouch;
      if turns[0] {
        LastTouchIsSomeones(db', mover', second, turns[1..], capability);
      } else {
        LastTouchIsSomeones(db', first, mover', turns[1..], capability);
      }
    }
  }

  /** The second call runs to its end before the first takes another step. */
  function FirstLast(n: nat, m: nat): seq<bool>
    decreases n + m
  {
    if n > 0 then [false] + FirstLast(n - 1, m) else if m > 0 then [true] + FirstLast(0, m - 1) else []
  }

  lemma {:induction false} FirstHasTheLastWord(db: State, first: Call, second: Call, n: nat, m: nat, capability: string)
    requires Settled(first) && Settled(second) && Remaining(second) <= n && Remaining(first) <= m
    ensures BothFinish(db, first, second, FirstLast(n, m))
    ensures WovenTouch(db, first, second, FirstLast(n, m), capability) ==
            if LastTouch(first, capability).Some? then LastTouch(first, capability) else LastTouch(second, capability)
    decreases n + m
  {
    var turns := FirstLast(n, m);
    if n > 0 {
      assert turns[1..] == FirstLast(n - 1, m);
      StepTouches(db, second, capability);
      FinishedIsDone(second, capability);
      var (db', second') := CallStep(db, second);
      hide CallStep, Settled, NextTouch, LastTouch, Remaining;
      FirstHasTheLastWord(db', first, second', n - 1, m, capability);
    } else if m > 0 {
      assert turns[1..] == FirstLast(0, m - 1);
      StepTouches(db, first, capability);
      FinishedIsDone(first, capability);
      FinishedIsDone(second, capability);
      var (db', first') := CallStep(db, first);
      hide CallStep, Settled, NextTouch, LastTouch, Remaining;
      FirstHasTheLastWord(db', first', second, 0, m - 1, capability);
    } else {
      FinishedIsDone(first, capability);
      FinishedIsDone(second, capability);
    }
  }

  lemma FinishedIsDone(c: Call, capability: string)
    requires Settled(c)
    ensures c.phase.Finished? <==> Remaining(c) == 0
    ensures c.phase.Finished? ==> LastTouch(c, capability).None?
  {
  }

  // ------------------------------------------------------- the outcome of an overlap

  /** One put is re-indexing while another put of the same agent is about to swap its card in. */
  ghost predicate Overlap(db: State, first: Call, second: Call) {
    && WellPlaced(db) && CallSafe(db, first) && CallSafe(db, second)
    && SameAgent(first.card, second.card)
    && Indexing(first) && Progress(db, first)
    && second.phase.Writing? && CallIssued(db, second) && Indexing(CallStep(db, second).1)
  }

  /** The swap of the second put replaces the first put's card, which it has read. */
  lemma OverlapSwap(db: State, first: Call, second: Call)
    requires Overlap(db, first, second)
    ensures var (db', second') := CallStep(db, second);
            && db' == Store.Write(db, CardK(first.card.namespace, first.card.agentID), CardV(second.phase.next), 0)
            && Settled(first) && Settled(second') && second'.card == second.card
            && second'.phase.Deleting? && second'.phase.done == 0 && second'.phase.next == second.phase.next
            && second'.phase.prior.capabilities == first.phase.next.capabilities
    ensures first.phase.next.service == first.card.service && first.phase.next.capabilities == first.card.capabilities
    ensures second.phase.next.service == second.card.service && second.phase.next.capabilities == second.card.capabilities
    ensures first.phase.next.agentID == second.phase.next.agentID
  {
    OverlapShapes(db, first);
    OverlapShapes(db, second);
    SwapReadsItsPrior(db, first, second);
    hide WellPlaced, CallStep, CallSafe, CallIssued, Progress, AgentCard.Valid;
  }

  lemma OverlapShapes(db: State, c: Call)
    requires CallSafe(db, c) && (Indexing(c) || c.phase.Writing?)
    ensures Indexing(c) ==> Settled(c)
    ensures c.phase.next.service == c.card.service && c.phase.next.capabilities == c.card.capabilities
    ensures SameAgent(c.phase.next, c.card)
    ensures c.phase.Writing? && c.phase.previous.Some? ==> SameAgent(c.phase.previous.value, c.card)
  {
    hide AgentCard.Valid, HasCard;
  }

  lemma SwapReadsItsPrior(db: State, first: Call, second: Call)
    requires Overlap(db, first, second)
    ensures var ck := CardK(first.card.namespace, first.card.agentID);
            && second.phase.previous.Some?
            && second.phase.previous.value.capabilities == first.phase.next.capabilities
            && CallStep(db, second) ==
               (Store.Write(db, ck, CardV(second.phase.next), 0), second.(phase := Afterwards(second.phase.next, second.phase.previous)))
  {
    var ck := CardK(first.card.namespace, first.card.agentID);
    assert CardAt(db, first.card.namespace, first.card.agentID) == Some(first.phase.next);
    StoredRevision(db, ck);
    hide WellPlaced, CallSafe, Progress, AgentCard.Valid;
  }

  lemma StoredRevision(db: State, k: Key)
    requires WellPlaced(db) && k in db.data
    ensures db.data[k].revision > 0
  {
    hide Placed;
  }

  /** An entry a call has neither to remove nor written is not there. */
  lemma AbsentByProgress(db: State, c: Call, capability: string)
    requires Indexing(c) && ProgressAt(db, c, capability)
    requires capability !in Rest(c) && (c.phase.Putting? ==> capability !in c.phase.next.capabilities)
    ensures CapabilityK(c.card.namespace, capability, c.card.agentID) !in db.data
  {
    var all := if c.phase.Deleting? then c.phase.prior.capabilities else c.phase.next.capabilities;
    assert all == all[..c.phase.done] + all[c.phase.done..];
    hide EntryOf;
  }

  /** An entry that neither put touches any more is not there. */
  lemma UntouchedIsAbsent(db: State, first: Call, second: Call, capability: string)
    requires Overlap(db, first, second)
    requires LastTouch(first, capability).None? && LastTouch(CallStep(db, second).1, capability).None?
    ensures CapabilityK(first.card.namespace, capability, first.card.agentID) !in db.data
    ensures capability !in second.card.capabilities
  {
    OverlapSwap(db, first, second);
    assert ProgressAt(db, first, capability);
    var second' := CallStep(db, second).1;
    hide Overlap, CallStep, ProgressAt, Settled;
    assert Rest(second') == second'.phase.prior.capabilities;
    AbsentByProgress(db, first, capability);
  }

  /** What the newer card asks of the last step about an entry. */
  predicate Wanted(touch: Option<Touch>, card: AgentCard, capability: string) {
    if capability in card.capabilities then touch == Some(Written(EntryOf(card))) else !(touch.Some? && touch.value.Written?)
  }

  /**
   * After any interleaving of the two re-indexings the newer card is stored, the last step about
   * each entry decides it, and an entry is right iff that step is what the newer card asks.
   */
  lemma OverlapEntry(db: State, first: Call, second: Call, turns: seq<bool>, capability: string)
    requires Overlap(db, first, second)
    requires BothFinish(CallStep(db, second).0, first, CallStep(db, second).1, turns)
    ensures var (swapped, second') := CallStep(db, second);
            var db' := Woven(swapped, first, second', turns).0;
            var (ns, agent) := (first.card.namespace, first.card.agentID);
            var touch := WovenTouch(swapped, first, second', turns, capability);
            && CardAt(db', ns, agent) == Some(second.phase.next)
            && EntryIs(db', CapabilityK(ns, capability, agent), if touch.Some? then touch.value else Removed)
            && (IndexedAt(db', ns, capability, agent) <==> Wanted(touch, second.phase.next, capability))
  {
    OverlapSwap(db, first, second);
    var (swapped, second') := CallStep(db, second);
    var touch := WovenTouch(swapped, first, second', turns, capability);
    LastTouchDecides(swapped, first, second', turns, capability);
    LastTouchIsSomeones(swapped, first, second', turns, capability);
    if touch.None? {
      UntouchedIsAbsent(db, first, second, capability);
    }
    hide Overlap, CallStep, Woven, WovenTouch, BothFinish, Settled, LastTouch, EntryOf;
  }

  /** Nothing the first put still does to an entry contradicts the newer card. */
  ghost predicate Compatible(first: Call, newer: AgentCard) {
    forall capability ::
      && (capability in Unwritten(first) ==> capability in newer.capabilities && first.card.service == newer.service)
      && (capability in Rest(first) && capability !in Unwritten(first) ==> capability !in newer.capabilities)
  }

  lemma CompatibleAt(db: State, first: Call, second: Call, capability: string)
    requires Overlap(db, first, second)
    ensures Wanted(LastTouch(CallStep(db, second).1, capability), second.phase.next, capability)
    ensures (LastTouch(first, capability).Some? ==> Wanted(LastTouch(first, capability), second.phase.next, capability)) <==>
            && (capability in Unwritten(first) ==>
                  capability in second.card.capabilities && first.card.service == second.card.service)
            && (capability in Rest(first) && capability !in Unwritten(first) ==> capability !in second.card.capabilities)
  {
    OverlapSwap(db, first, second);
    var second' := CallStep(db, second).1;
    hide Overlap, CallStep;
    assert Unwritten(second') == second.phase.next.capabilities;
  }

  /** The store when the second put finishes before the first takes another step. */
  function AfterOverlap(db: State, first: Call, second: Call): State {
    var (swapped, second') := CallStep(db, second);
    Woven(swapped, first, second', FirstLast(Remaining(second'), Remaining(first))).0
  }

  ghost predicate AgreesAfter(db: State, first: Call, second: Call, turns: seq<bool>) {
    var (swapped, second') := CallStep(db, second);
    BothFinish(swapped, first, second', turns) ==>
      forall capability ::
        IndexedAt(Woven(swapped, first, second', turns).0, first.card.namespace, capability, first.card.agentID)
  }

  /**
   * The index agrees after every interleaving of two overlapping re-indexings exactly when the
   * slower put has no entry left to write that the newer card does not list for the same service, and
   * none left to remove for good that the newer card lists. When it takes all its steps last, this is
   * also exactly when that one interleaving leaves agreement.
   */
  lemma OverlapAgreesExactly(db: State, first: Call, second: Call)
    requires Overlap(db, first, second)
    ensures (forall turns :: AgreesAfter(db, first, second, turns)) <==> Compatible(first, second.card)
    ensures (forall capability ::
               IndexedAt(AfterOverlap(db, first, second), first.card.namespace, capability, first.card.agentID)) <==>
            Compatible(first, second.card)
  {
    var (swapped, second') := CallStep(db, second);
    OverlapSwap(db, first, second);
    var last := FirstLast(Remaining(second'), Remaining(first));
    forall capability
      ensures BothFinish(swapped, first, second', last)
      ensures IndexedAt(AfterOverlap(db, first, second), first.card.namespace, capability, first.card.agentID) <==>
              && (capability in Unwritten(first) ==>
                    capability in second.card.capabilities && first.card.service == second.card.service)
              && (capability in Rest(first) && capability !in Unwritten(first) ==> capability !in second.card.capabilities)
    {
      WorstCase(db, first, second, capability);
    }
    hide Overlap, CallStep, Woven, BothFinish, Settled, IndexedAt, FirstLast, Unwritten, Rest;
    if Compatible(first, second.card) {
      forall turns
        ensures AgreesAfter(db, first, second, turns)
      {
        CompatibleAgrees(db, first, second, turns);
      }
    }
    if forall turns :: AgreesAfter(db, first, second, turns) {
      assert AgreesAfter(db, first, second, last);
    }
  }

  lemma WorstCase(db: State, first: Call, second: Call, capability: string)
    requires Overlap(db, first, second)
    ensures var (swapped, second') := CallStep(db, second);
            BothFinish(swapped, first, second', FirstLast(Remaining(second'), Remaining(first)))
    ensures IndexedAt(AfterOverlap(db, first, second), first.card.namespace, capability, first.card.agentID) <==>
            && (capability in Unwritten(first) ==>
                  capability in second.card.capabilities && first.card.service == second.card.service)
            && (capability in Rest(first) && capability !in Unwritten(first) ==> capability !in second.card.capabilities)
  {
    var (swapped, second') := CallStep(db, second);
    OverlapSwap(db, first, second);
    var n, m := Remaining(second'), Remaining(first);
    CompatibleAt(db, first, second, capability);
    hide Overlap, CallStep, Woven, WovenTouch, BothFinish, Settled, LastTouch, IndexedAt, FirstLast, Remaining, Wanted, EntryIs, CardAt;
    FirstHasTheLastWord(swapped, first, second', n, m, capability);
    OverlapEntry(db, first, second, FirstLast(n, m), capability);
  }

  lemma CompatibleAgrees(db: State, first: Call, second: Call, turns: seq<bool>)
    requires Overlap(db, first, second) && Compatible(first, second.card)
    ensures AgreesAfter(db, first, second, turns)
  {
    var (swapped, second') := CallStep(db, second);
    OverlapSwap(db, first, second);
    hide Overlap, CallStep, Woven, WovenTouch, BothFinish, Settled, LastTouch, IndexedAt, Wanted, EntryIs, CardAt, Unwritten, Rest;
    if BothFinish(swapped, first, second', turns) {
      forall capability
        ensures IndexedAt(Woven(swapped, first, second', turns).0, first.card.namespace, capability, first.card.agentID)
      {
        CompatibleAt(db, first, second, capability);
        LastTouchIsSomeones(swapped, first, second', turns, capability);
        OverlapEntry(db, first, second, turns, capability);
      }
    }
  }
}
