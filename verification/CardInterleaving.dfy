/**
 * Agent card puts as they really run: one store step at a time, interleaved with one another
 * and with every other service operation.
 */
module CardInterleaving {
  import opened Outcome
  import opened Model
  import opened Keyspace
  import opened Services
  import opened Invariants
  import opened CapabilityIndex
  import Store

  /** Where one put stands; `next` is the card it stores, `previous` the card it read. */
  datatype Phase =
    | Checking
    | Rechecking
    | Reading
    | Writing(next: AgentCard, previous: Option<AgentCard>)
    | Deleting(next: AgentCard, prior: AgentCard, done: nat)
    | Putting(next: AgentCard, done: nat)
    | Finished(outcome: Result<()>)

  datatype Call = Call(card: AgentCard, expected: int, created: Time, updated: Time, phase: Phase)

  predicate Indexing(c: Call) {
    c.phase.Deleting? || c.phase.Putting?
  }

  function Afterwards(next: AgentCard, previous: Option<AgentCard>): Phase {
    if previous.Some? then Deleting(next, previous.value, 0) else Putting(next, 0)
  }

  /** The next step of a call: at most one store operation. */
  function CallStep(db: State, c: Call): (State, Call) {
    match c.phase
    case Checking =>
      var check := CheckWrite(db, c.card.namespace);
      if check.Err? then (db, c.(phase := Finished(Err(check.code))))
      else if !c.card.Valid() then (db, c.(phase := Finished(Err(InvalidArgument))))
      else if c.expected > 0 then (db, c.(phase := Rechecking))
      else (db, c.(phase := Writing(c.card.(createdAt := c.created, updatedAt := c.updated), None)))
    case Rechecking =>
      var check := CheckRead(db, c.card.namespace, false);
      if check.Err? then (db, c.(phase := Finished(Err(check.code)))) else (db, c.(phase := Reading))
    case Reading =>
      var read := Store.Get(db, CardK(c.card.namespace, c.card.agentID));
      if read.Err? then (db, c.(phase := Finished(Err(read.code))))
      else
        var decoded := DecodeCard(read.value);
        if decoded.Err? then (db, c.(phase := Finished(Err(decoded.code))))
        else
          var next := c.card.(createdAt := decoded.value.createdAt, updatedAt := c.updated);
          (db, c.(phase := Writing(next, Some(decoded.value))))
    case Writing(next, previous) =>
      var key := CardK(c.card.namespace, c.card.agentID);
      var (db', r) :=
        if c.expected == 0 then Store.Create(db, key, CardV(next), 0)
        else Store.Cas(db, key, c.expected, CardV(next), 0);
      (db', c.(phase := if r.Err? then Finished(Err(r.code)) else Afterwards(next, previous)))
    case Deleting(next, prior, done) =>
      if done < |prior.capabilities| then
        (Store.Delete(db, CapabilityK(prior.namespace, prior.capabilities[done], prior.agentID)).0,
         c.(phase := Deleting(next, prior, done + 1)))
      else (db, c.(phase := Putting(next, 0)))
    case Putting(next, done) =>
      if done < |next.capabilities| then
        (Store.Put(db, CapabilityK(next.namespace, next.capabilities[done], next.agentID), EntryOf(next), 0).0,
         c.(phase := Putting(next, done + 1)))
      else (db, c.(phase := Finished(Ok(()))))
    case Finished(_) => (db, c)
  }

  // ------------------------------------------- alone, the steps are the serial put

  /** A bound on the steps a call still has to take. */
  function Left(c: Call): nat {
    match c.phase
    case Checking => 4
    case Rechecking => 3
    case Reading => 2
    case Writing(_, _) => 1
    case _ => 0
  }

  function Remaining(c: Call): nat {
    match c.phase
    case Deleting(next, prior, done) => 2 + |next.capabilities| + (if done < |prior.capabilities| then |prior.capabilities| - done else 0)
    case Putting(next, done) => 1 + (if done < |next.capabilities| then |next.capabilities| - done else 0)
    case _ => 0
  }

  /** Runs the index phase of a call to its end with nothing in between. */
  function FinishIndexing(db: State, c: Call): State
    decreases Remaining(c)
  {
    if Indexing(c) then
      var (db', c') := CallStep(db, c);
      FinishIndexing(db', c')
    else db
  }

  /** Runs a call to its end with nothing in between. */
  function Alone(db: State, c: Call): State
    decreases Left(c)
  {
    if Left(c) == 0 then FinishIndexing(db, c)
    else
      var (db', c') := CallStep(db, c);
      Alone(db', c')
  }

  lemma {:induction false} PuttingAlone(db: State, c: Call)
    requires c.phase.Putting? && c.phase.done <= |c.phase.next.capabilities|
    ensures var n := c.phase.next;
            FinishIndexing(db, c) == PutEntries(db, n.namespace, n.agentID, n.capabilities[c.phase.done..], EntryOf(n))
    decreases Remaining(c)
  {
    var n, done := c.phase.next, c.phase.done;
    var (db', c') := CallStep(db, c);
    if done < |n.capabilities| {
      PuttingAlone(db', c');
      assert n.capabilities[done..][0] == n.capabilities[done];
      assert n.capabilities[done..][1..] == n.capabilities[done + 1..];
    } else {
      assert n.capabilities[done..] == [];
    }
  }

  lemma {:induction false} DeletingAlone(db: State, c: Call)
    requires c.phase.Deleting? && c.phase.done <= |c.phase.prior.capabilities|
    ensures var n, o := c.phase.next, c.phase.prior;
            FinishIndexing(db, c) ==
            PutEntries(DeleteEntries(db, o.namespace, o.agentID, o.capabilities[c.phase.done..]),
                       n.namespace, n.agentID, n.capabilities, EntryOf(n))
    decreases Remaining(c)
  {
    var n, o, done := c.phase.next, c.phase.prior, c.phase.done;
    var (db', c') := CallStep(db, c);
    if done < |o.capabilities| {
      DeletingAlone(db', c');
      assert o.capabilities[done..][0] == o.capabilities[done];
      assert o.capabilities[done..][1..] == o.capabilities[done + 1..];
    } else {
      assert o.capabilities[done..] == [];
      PuttingAlone(db, c');
      assert n.capabilities[0..] == n.capabilities;
    }
  }

  lemma AfterwardsAlone(db: State, c: Call, next: AgentCard, previous: Option<AgentCard>)
    ensures FinishIndexing(db, c.(phase := Afterwards(next, previous))) == Reindexed(db, next, previous)
  {
    var c' := c.(phase := Afterwards(next, previous));
    if previous.Some? {
      DeletingAlone(db, c');
      assert previous.value.capabilities[0..] == previous.value.capabilities;
    } else {
      PuttingAlone(db, c');
      assert next.capabilities[0..] == next.capabilities;
    }
  }

  /** Uninterrupted, the store steps of a put compose to the serial operation. */
  lemma AloneIsSerial(db: State, card: AgentCard, expected: int, created: Time, updated: Time)
    ensures Alone(db, Call(card, expected, created, updated, Checking)) == PutCard(db, card, expected, created, updated).0
  {
    hide AgentCard.Valid, CheckWrite, CheckRead, Reindexed, FinishIndexing;
    var c0 := Call(card, expected, created, updated, Checking);
    var (_, c1) := CallStep(db, c0);
    if c1.phase.Rechecking? {
      var (_, c2) := CallStep(db, c1);
      assert Alone(db, c0) == Alone(db, c1) == Alone(db, c2);
      if c2.phase.Reading? {
        var (_, c3) := CallStep(db, c2);
        assert Alone(db, c2) == Alone(db, c3);
        if c3.phase.Writing? {
          WritingAlone(db, c3);
        } else {
          FinishedAlone(db, c3);
        }
      } else {
        FinishedAlone(db, c2);
      }
    } else if c1.phase.Writing? {
      WritingAlone(db, c1);
    } else {
      FinishedAlone(db, c1);
    }
  }

  lemma FinishedAlone(db: State, c: Call)
    requires c.phase.Finished?
    ensures Alone(db, c) == db
  {
  }

  lemma WritingAlone(db: State, c: Call)
    requires c.phase.Writing?
    ensures var key := CardK(c.card.namespace, c.card.agentID);
            var (db', r) :=
              if c.expected == 0 then Store.Create(db, key, CardV(c.phase.next), 0)
              else Store.Cas(db, key, c.expected, CardV(c.phase.next), 0);
            Alone(db, c) == if r.Err? then db' else Reindexed(db', c.phase.next, c.phase.previous)
  {
    hide Reindexed;
    var (db', c') := CallStep(db, c);
    AfterwardsAlone(db', c, c.phase.next, c.phase.previous);
  }

  // --------------------------------------------------------------- interleaved runs

  datatype World = World(db: State, calls: map<nat, Call>)

  datatype Move =
    | Begin(id: nat, card: AgentCard, expected: int, created: Time, updated: Time)
    | Advance(id: nat)
    | Serve(op: Op)

  /** A new call starts, a call takes one step, or another service operation runs. */
  function WorldStep(w: World, m: Move): World {
    match m
    case Begin(id, card, expected, created, updated) =>
      if id in w.calls then w else w.(calls := w.calls[id := Call(card, expected, created, updated, Checking)])
    case Advance(id) =>
      if id !in w.calls then w
      else
        var (db', c') := CallStep(w.db, w.calls[id]);
        World(db', w.calls[id := c'])
    case Serve(op) => if op.PutCardOp? then w else w.(db := Step(w.db, op))
  }

  function WorldRun(w: World, moves: seq<Move>): World
    decreases |moves|
  {
    if moves == [] then w else WorldRun(WorldStep(w, moves[0]), moves[1..])
  }

  predicate OnAgent(c: Call, ns: string, agent: string) {
    c.card.namespace == ns && c.card.agentID == agent
  }

  predicate SameAgent(a: AgentCard, b: AgentCard) {
    a.namespace == b.namespace && a.agentID == b.agentID
  }

  predicate Stores(c: Call, next: AgentCard) {
    c.card.Valid() && next == c.card.(createdAt := next.createdAt, updatedAt := next.updatedAt)
  }

  predicate HasCard(db: State, c: Call) {
    CardAt(db, c.card.namespace, c.card.agentID).Some?
  }

  ghost predicate CallSafe(db: State, c: Call) {
    match c.phase
    case Checking => true
    case Finished(_) => true
    case Rechecking => c.card.Valid()
    case Reading => c.card.Valid()
    case Writing(next, previous) => Stores(c, next) && (previous.Some? ==> SameAgent(previous.value, next))
    case Deleting(next, prior, done) => Stores(c, next) && SameAgent(prior, next) && HasCard(db, c)
    case Putting(next, done) => Stores(c, next) && HasCard(db, c)
  }

  /** Every entry names a stored card, and so will every entry a call is about to write. */
  ghost predicate NothingDangles(w: World) {
    && WellPlaced(w.db)
    && (forall ns, capability, agent ::
          CapabilityK(ns, capability, agent) in w.db.data ==> CardAt(w.db, ns, agent).Some?)
    && (forall id :: id in w.calls ==> CallSafe(w.db, w.calls[id]))
  }

  /** Cards are never removed: any step that keeps the card keys keeps them for everyone. */
  lemma SafeCallsStaySafe(db: State, db': State, c: Call)
    requires CallSafe(db, c)
    requires HasCard(db, c) ==> HasCard(db', c)
    ensures CallSafe(db', c)
  {
  }

  /** What one call step does to the keys of the store. */
  lemma CallStepFootprint(db: State, c: Call, k: Key)
    requires CallSafe(db, c)
    ensures var db' := CallStep(db, c).0;
            && (k == CardK(c.card.namespace, c.card.agentID) && c.phase.Writing? ==>
                  Same(db, db', k) || (k in db'.data && db'.data[k].value == CardV(c.phase.next)))
            && (k.CapabilityK? && k.ns == c.card.namespace && k.agent == c.card.agentID && Indexing(c) ==>
                  Same(db, db', k) || k !in db'.data
                  || (c.phase.Putting? && db'.data[k].value == EntryOf(c.phase.next)))
            && (!(k == CardK(c.card.namespace, c.card.agentID) && c.phase.Writing?)
                && !(k.CapabilityK? && k.ns == c.card.namespace && k.agent == c.card.agentID && Indexing(c)) ==>
                  Same(db, db', k))
  {
    hide CheckWrite, CheckRead, AgentCard.Valid;
  }

  lemma CallStepStaysPlaced(db: State, c: Call)
    requires WellPlaced(db) && CallSafe(db, c)
    ensures WellPlaced(CallStep(db, c).0)
  {
    hide WellPlaced, CheckWrite, CheckRead;
    match c.phase
    case Writing(next, previous) =>
      assert Placed(CardK(c.card.namespace, c.card.agentID), CardV(next));
      WriteStaysPlaced(db, CardK(c.card.namespace, c.card.agentID), CardV(next), 0);
    case Deleting(next, prior, done) =>
      if done < |prior.capabilities| {
        RemoveStaysPlaced(db, CapabilityK(prior.namespace, prior.capabilities[done], prior.agentID));
      }
    case Putting(next, done) =>
      if done < |next.capabilities| {
        var k := CapabilityK(next.namespace, next.capabilities[done], next.agentID);
        assert next.capabilities[done] in c.card.capabilities;
        assert Placed(k, EntryOf(next));
        WriteStaysPlaced(db, k, EntryOf(next), 0);
      }
    case _ =>
  }

  /** After its own step a safe call is safe again. */
  lemma CallStepIsSafe(db: State, c: Call)
    requires WellPlaced(db) && CallSafe(db, c)
    ensures var (db', c') := CallStep(db, c); CallSafe(db', c') && c'.card == c.card && c'.expected == c.expected
  {
    hide CheckWrite, CheckRead, AgentCard.Valid;
    if c.phase.Reading? {
      var k := CardK(c.card.namespace, c.card.agentID);
      if k in db.data {
        assert Placed(k, db.data[k].value);
      }
    }
    hide WellPlaced;
  }

  lemma CallStepKeepsCards(db: State, c: Call, ns: string, agent: string)
    requires CallSafe(db, c)
    ensures CardAt(db, ns, agent).Some? ==> CardAt(CallStep(db, c).0, ns, agent).Some?
  {
    hide CallStep, CallSafe;
    CallStepFootprint(db, c, CardK(ns, agent));
  }

  lemma AdvanceKeepsNothingDangling(w: World, id: nat)
    requires NothingDangles(w) && id in w.calls
    ensures NothingDangles(WorldStep(w, Advance(id)))
  {
    var c := w.calls[id];
    var (db', c') := CallStep(w.db, c);
    assert CallSafe(w.db, c);
    CallStepStaysPlaced(w.db, c);
    CallStepIsSafe(w.db, c);
    assert Indexing(c) ==> HasCard(w.db, c);
    hide WellPlaced, CallStep, CallSafe;
    forall ns, capability, agent | CapabilityK(ns, capability, agent) in db'.data
      ensures CardAt(db', ns, agent).Some?
    {
      CallStepFootprint(w.db, c, CapabilityK(ns, capability, agent));
      CallStepKeepsCards(w.db, c, ns, agent);
    }
    forall i | i in w.calls && i != id
      ensures CallSafe(db', w.calls[i])
    {
      CallStepKeepsCards(w.db, c, w.calls[i].card.namespace, w.calls[i].card.agentID);
      SafeCallsStaySafe(w.db, db', w.calls[i]);
    }
  }

  lemma ServeKeepsIndexKeys(db: State, op: Op, ns: string, capability: string, agent: string)
    requires WellPlaced(db) && !op.PutCardOp?
    ensures Same(db, Step(db, op), CardK(ns, agent)) && Same(db, Step(db, op), CapabilityK(ns, capability, agent))
  {
    hide WellPlaced, Step, Same;
    OnlyTheTargetChanges(db, op, CardK(ns, agent));
    OnlyTheTargetChanges(db, op, CapabilityK(ns, capability, agent));
  }

  ghost predicate SameIndex(db: State, db': State) {
    && (forall ns, agent :: CardAt(db', ns, agent) == CardAt(db, ns, agent))
    && (forall ns, capability, agent :: Same(db, db', CapabilityK(ns, capability, agent)))
  }

  lemma ServeKeepsIndex(db: State, op: Op)
    requires WellPlaced(db) && !op.PutCardOp?
    ensures SameIndex(db, Step(db, op))
  {
    hide WellPlaced, Step;
    forall ns, agent
      ensures CardAt(Step(db, op), ns, agent) == CardAt(db, ns, agent)
    {
      ServeKeepsIndexKeys(db, op, ns, "", agent);
    }
    forall ns, capability, agent
      ensures Same(db, Step(db, op), CapabilityK(ns, capability, agent))
    {
      ServeKeepsIndexKeys(db, op, ns, capability, agent);
    }
  }

  lemma ServeKeepsNothingDangling(w: World, op: Op)
    requires NothingDangles(w) && !op.PutCardOp?
    ensures NothingDangles(WorldStep(w, Serve(op)))
  {
    var db' := Step(w.db, op);
    StepStaysPlaced(w.db, op);
    ServeKeepsIndex(w.db, op);
    hide Step, CallSafe, WellPlaced, CardAt;
    forall i | i in w.calls
      ensures CallSafe(db', w.calls[i])
    {
      SafeCallsStaySafe(w.db, db', w.calls[i]);
    }
    forall ns, capability, agent | CapabilityK(ns, capability, agent) in db'.data
      ensures CardAt(db', ns, agent).Some?
    {
      assert Same(w.db, db', CapabilityK(ns, capability, agent));
    }
  }

  /** Under any interleaving of puts and other operations every index entry names a stored card. */
  lemma {:induction false} NothingEverDangles(w: World, moves: seq<Move>)
    requires NothingDangles(w)
    ensures NothingDangles(WorldRun(w, moves))
    decreases |moves|
  {
    if moves != [] {
      var m := moves[0];
      if m.Advance? && m.id in w.calls {
        AdvanceKeepsNothingDangling(w, m.id);
      } else if m.Serve? && !m.op.PutCardOp? {
        ServeKeepsNothingDangling(w, m.op);
      } else {
        BeginKeepsNothingDangling(w, m);
      }
      hide NothingDangles, WorldStep;
      NothingEverDangles(WorldStep(w, m), moves[1..]);
    }
  }

  lemma BeginKeepsNothingDangling(w: World, m: Move)
    requires NothingDangles(w) && (m.Begin? || (m.Advance? && m.id !in w.calls) || (m.Serve? && m.op.PutCardOp?))
    ensures NothingDangles(WorldStep(w, m))
  {
    hide WellPlaced;
  }

  // ---------------------------------------------- agreement when phases do not overlap

  /** The expected revision was issued, and a pending swap that can succeed has read what it replaces. */
  ghost predicate CallIssued(db: State, c: Call) {
    && c.expected <= db.revision
    && (c.phase.Rechecking? || c.phase.Reading? ==> c.expected > 0)
    && (c.phase.Writing? ==>
          && (c.phase.previous.Some? <==> c.expected > 0)
          && (c.phase.previous.Some? ==>
                var k := CardK(c.card.namespace, c.card.agentID);
                k in db.data && db.data[k].revision == c.expected ==>
                  DecodeCard(db.data[k]) == Ok(c.phase.previous.value)))
  }

  /** How far a call in its index phase has brought the entries of its agent. */
  ghost predicate ProgressAt(db: State, c: Call, capability: string) {
    var k := CapabilityK(c.card.namespace, capability, c.card.agentID);
    match c.phase
    case Deleting(_, prior, done) =>
      && done <= |prior.capabilities|
      && (k in db.data <==> capability in prior.capabilities && capability !in prior.capabilities[..done])
    case Putting(next, done) =>
      && done <= |next.capabilities|
      && (k in db.data <==> capability in next.capabilities[..done])
      && (k in db.data ==> db.data[k].value == EntryOf(next))
    case _ => true
  }

  /** A call in its index phase has its own card stored and its entries as far as it got. */
  ghost predicate Progress(db: State, c: Call) {
    Indexing(c) ==>
      && CardAt(db, c.card.namespace, c.card.agentID) == Some(c.phase.next)
      && forall capability :: ProgressAt(db, c, capability)
  }

  ghost predicate Quiet(w: World, ns: string, agent: string) {
    forall id :: id in w.calls && Indexing(w.calls[id]) ==> !OnAgent(w.calls[id], ns, agent)
  }

  /** At most one call per agent is in its index phase. */
  ghost predicate Exclusive(w: World) {
    forall i, j ::
      && i in w.calls && j in w.calls && Indexing(w.calls[i]) && Indexing(w.calls[j])
      && OnAgent(w.calls[i], w.calls[j].card.namespace, w.calls[j].card.agentID)
      ==> i == j
  }

  ghost predicate Orderly(w: World) {
    && NothingDangles(w)
    && Exclusive(w)
    && (forall id :: id in w.calls ==> CallIssued(w.db, w.calls[id]) && Progress(w.db, w.calls[id]))
    && (forall ns, capability, agent :: Quiet(w, ns, agent) ==> IndexedAt(w.db, ns, capability, agent))
  }

  /**
   * The scheduling condition: revisions are not guessed before they are issued, and no swap
   * succeeds while another put of the same agent is still re-indexing.
   */
  ghost predicate Allowed(w: World, m: Move) {
    match m
    case Begin(_, _, expected, _, _) => expected <= w.db.revision
    case Advance(id) =>
      id in w.calls && w.calls[id].phase.Writing? && Indexing(CallStep(w.db, w.calls[id]).1) ==>
        Quiet(w, w.calls[id].card.namespace, w.calls[id].card.agentID)
    case Serve(_) => true
  }

  ghost predicate AllAllowed(w: World, moves: seq<Move>)
    decreases |moves|
  {
    moves == [] || (Allowed(w, moves[0]) && AllAllowed(WorldStep(w, moves[0]), moves[1..]))
  }

  lemma IssuedSurvives(db: State, db': State, c: Call)
    requires CallIssued(db, c) && db.revision <= db'.revision
    requires var k := CardK(c.card.namespace, c.card.agentID);
             k in db'.data ==> (k in db.data && db.data[k] == db'.data[k]) || db'.data[k].revision > db.revision
    ensures CallIssued(db', c)
  {
  }

  lemma ProgressSurvives(db: State, db': State, c: Call)
    requires Progress(db, c)
    requires CardAt(db', c.card.namespace, c.card.agentID) == CardAt(db, c.card.namespace, c.card.agentID)
    requires forall capability :: Same(db, db', CapabilityK(c.card.namespace, capability, c.card.agentID))
    ensures Progress(db', c)
  {
    hide CardAt;
    if Indexing(c) {
      forall capability
        ensures ProgressAt(db', c, capability)
      {
        assert ProgressAt(db, c, capability) && Same(db, db', CapabilityK(c.card.namespace, capability, c.card.agentID));
      }
    }
  }

  lemma CallStepRevisions(db: State, c: Call, k: Key)
    requires Store.RevisionsIssued(db)
    ensures var db' := CallStep(db, c).0;
            && db.revision <= db'.revision
            && (k in db'.data ==> (k in db.data && db.data[k] == db'.data[k]) || db'.data[k].revision > db.revision)
  {
    hide CheckWrite, CheckRead, AgentCard.Valid, EntryOf, DecodeCard;
  }

  lemma OwnCallStaysIssued(db: State, c: Call)
    requires WellPlaced(db) && CallIssued(db, c)
    ensures CallIssued(CallStep(db, c).0, CallStep(db, c).1)
  {
    hide CheckWrite, CheckRead, AgentCard.Valid;
    assert Store.Sound(db);
    hide WellPlaced;
  }

  lemma ServedRevisions(db: State, op: Op)
    requires !op.PutCardOp?
    ensures db.revision <= Step(db, op).revision
  {
    hide CheckWrite, GetInstance, GetNamespace, Registered, UpdatedInstance, StampedConfig,
      Instance.Valid, Namespace.Valid, ConfigItem.Valid, ValidName, ConfigKeyOf;
  }

  /** A successful swap starts the index phase from exactly the entries of the replaced card. */
  lemma SwapStartsProgress(db: State, c: Call, capability: string)
    requires WellPlaced(db) && CallSafe(db, c) && CallIssued(db, c) && c.phase.Writing?
    requires IndexedAt(db, c.card.namespace, capability, c.card.agentID)
    requires Indexing(CallStep(db, c).1)
    ensures ProgressAt(CallStep(db, c).0, CallStep(db, c).1, capability)
    ensures CardAt(CallStep(db, c).0, c.card.namespace, c.card.agentID) == Some(c.phase.next)
    ensures CallStep(db, c).1.phase.next == c.phase.next
  {
    hide AgentCard.Valid;
    var k := CardK(c.card.namespace, c.card.agentID);
    if k in db.data {
      assert Placed(k, db.data[k].value) && db.data[k].revision > 0;
    }
    hide WellPlaced;
  }

  lemma IndexPhaseAdvances(db: State, c: Call, capability: string)
    requires CallSafe(db, c) && Indexing(c) && ProgressAt(db, c, capability)
    ensures var (db', c') := CallStep(db, c);
            if c'.phase.Finished? then c.phase.Putting? && c.phase.done >= |c.phase.next.capabilities| && db' == db
            else Indexing(c') && c'.phase.next == c.phase.next && c'.card == c.card
  {
  }

  lemma DeletingProgress(db: State, c: Call, capability: string)
    requires CallSafe(db, c) && c.phase.Deleting? && ProgressAt(db, c, capability)
    ensures ProgressAt(CallStep(db, c).0, CallStep(db, c).1, capability)
  {
    var prior, done := c.phase.prior, c.phase.done;
    if done < |prior.capabilities| {
      assert prior.capabilities[..done + 1] == prior.capabilities[..done] + [prior.capabilities[done]];
    } else {
      assert prior.capabilities[..done] == prior.capabilities;
    }
  }

  lemma PuttingProgress(db: State, c: Call, capability: string)
    requires CallSafe(db, c) && c.phase.Putting? && ProgressAt(db, c, capability)
    requires CardAt(db, c.card.namespace, c.card.agentID) == Some(c.phase.next)
    ensures var (db', c') := CallStep(db, c);
            && (Indexing(c') ==> ProgressAt(db', c', capability))
            && (!Indexing(c') ==> db' == db && IndexedAt(db, c.card.namespace, capability, c.card.agentID))
  {
    var next, done := c.phase.next, c.phase.done;
    if done < |next.capabilities| {
      assert next.capabilities[..done + 1] == next.capabilities[..done] + [next.capabilities[done]];
    } else {
      assert next.capabilities[..done] == next.capabilities;
    }
  }

  /** The calls other than the one that moved keep what they rely on. */
  lemma OtherCallsSurvive(w: World, id: nat, i: nat)
    requires Orderly(w) && Allowed(w, Advance(id)) && id in w.calls && i in w.calls && i != id
    ensures CallIssued(CallStep(w.db, w.calls[id]).0, w.calls[i]) && Progress(CallStep(w.db, w.calls[id]).0, w.calls[i])
  {
    var c, o := w.calls[id], w.calls[i];
    var db' := CallStep(w.db, c).0;
    assert CallIssued(w.db, o) && Progress(w.db, o) && CallSafe(w.db, c) && Store.RevisionsIssued(w.db);
    var ns, agent := o.card.namespace, o.card.agentID;
    CallStepRevisions(w.db, c, CardK(ns, agent));
    hide WellPlaced, CallStep, CallSafe, Progress, CallIssued;
    IssuedSurvives(w.db, db', o);
    if c.phase.Writing? && !Indexing(CallStep(w.db, c).1) {
      UnfinishedWriteChangesNothing(w.db, c);
    } else if Indexing(o) {
      assert !(OnAgent(c, ns, agent) && (c.phase.Writing? || Indexing(c)));
      forall capability
        ensures Same(w.db, db', CapabilityK(ns, capability, agent))
      {
        CallStepFootprint(w.db, c, CapabilityK(ns, capability, agent));
      }
      CallStepFootprint(w.db, c, CardK(ns, agent));
      ProgressSurvives(w.db, db', o);
    } else {
      IdleCallsHaveNoProgress(db', o);
    }
  }

  lemma IdleCallsHaveNoProgress(db: State, c: Call)
    requires !Indexing(c)
    ensures Progress(db, c)
  {
  }

  /** The call that moved is as far as its new phase says; if it left its index phase the index agrees. */
  lemma OwnCallProgresses(w: World, id: nat)
    requires Orderly(w) && Allowed(w, Advance(id)) && id in w.calls
    ensures var c := w.calls[id];
            var (db', c') := CallStep(w.db, c);
            && CallIssued(db', c') && Progress(db', c')
            && (Indexing(c) && !Indexing(c') ==>
                  db' == w.db && forall capability :: IndexedAt(w.db, c.card.namespace, capability, c.card.agentID))
  {
    var c := w.calls[id];
    var ns, agent := c.card.namespace, c.card.agentID;
    var (db', c') := CallStep(w.db, c);
    assert CallIssued(w.db, c) && Progress(w.db, c) && CallSafe(w.db, c) && WellPlaced(w.db);
    OwnCallStaysIssued(w.db, c);
    CallStepIsSafe(w.db, c);
    if c.phase.Writing? && Indexing(c') {
      assert forall capability :: IndexedAt(w.db, ns, capability, agent);
      hide CallStep, CallIssued, CallSafe, WellPlaced;
      SwapStartsProgress(w.db, c, "");
      forall capability
        ensures ProgressAt(db', c', capability)
      {
        SwapStartsProgress(w.db, c, capability);
      }
    } else if Indexing(c) {
      assert CardAt(w.db, ns, agent) == Some(c.phase.next) && forall capability :: ProgressAt(w.db, c, capability);
      OwnIndexPhase(w.db, c);
      hide CallStep, CallIssued, CallSafe, WellPlaced;
    } else {
      assert !Indexing(c');
    }
  }

  lemma OwnIndexPhase(db: State, c: Call)
    requires CallSafe(db, c) && Indexing(c) && CardAt(db, c.card.namespace, c.card.agentID) == Some(c.phase.next)
    requires forall capability :: ProgressAt(db, c, capability)
    ensures var (db', c') := CallStep(db, c);
            && Progress(db', c')
            && (!Indexing(c') ==>
                  db' == db && forall capability :: IndexedAt(db, c.card.namespace, capability, c.card.agentID))
  {
    var (db', c') := CallStep(db, c);
    CallStepFootprint(db, c, CardK(c.card.namespace, c.card.agentID));
    IndexPhaseAdvances(db, c, "");
    hide CallStep, CallSafe;
    forall capability
      ensures Indexing(c') ==> ProgressAt(db', c', capability)
      ensures !Indexing(c') ==> db' == db && IndexedAt(db, c.card.namespace, capability, c.card.agentID)
    {
      if c.phase.Deleting? {
        DeletingProgress(db, c, capability);
      } else {
        PuttingProgress(db, c, capability);
      }
    }
    if !Indexing(c') {
      IdleCallsHaveNoProgress(db', c');
    }
  }

  lemma MoverAgentAgrees(w: World, id: nat, ns: string, capability: string, agent: string)
    requires Orderly(w) && Allowed(w, Advance(id)) && id in w.calls
    requires Quiet(WorldStep(w, Advance(id)), ns, agent) && OnAgent(w.calls[id], ns, agent)
    ensures IndexedAt(CallStep(w.db, w.calls[id]).0, ns, capability, agent)
  {
    var c := w.calls[id];
    var (db', c') := CallStep(w.db, c);
    OwnCallProgresses(w, id);
    assert WorldStep(w, Advance(id)).calls[id] == c';
    assert CallSafe(w.db, c) && WellPlaced(w.db);
    CallStepIsSafe(w.db, c);
    assert !Indexing(c');
    if !Indexing(c) {
      forall i | i in w.calls && Indexing(w.calls[i])
        ensures !OnAgent(w.calls[i], ns, agent)
      {
        assert WorldStep(w, Advance(id)).calls[i] == w.calls[i];
      }
      assert Quiet(w, ns, agent);
      assert IndexedAt(w.db, ns, capability, agent);
      UnfinishedWriteChangesNothing(w.db, c);
    }
  }

  lemma UnfinishedWriteChangesNothing(db: State, c: Call)
    requires !Indexing(c) && !Indexing(CallStep(db, c).1)
    ensures CallStep(db, c).0 == db
  {
    hide CheckWrite, CheckRead, AgentCard.Valid;
  }

  lemma OtherAgentAgrees(w: World, id: nat, ns: string, capability: string, agent: string)
    requires Orderly(w) && id in w.calls
    requires Quiet(WorldStep(w, Advance(id)), ns, agent) && !OnAgent(w.calls[id], ns, agent)
    ensures IndexedAt(CallStep(w.db, w.calls[id]).0, ns, capability, agent)
  {
    var c := w.calls[id];
    forall i | i in w.calls && Indexing(w.calls[i])
      ensures !OnAgent(w.calls[i], ns, agent)
    {
      if i != id {
        assert WorldStep(w, Advance(id)).calls[i] == w.calls[i];
      }
    }
    assert Quiet(w, ns, agent);
    assert IndexedAt(w.db, ns, capability, agent) && CallSafe(w.db, c);
    hide CallStep, CallSafe, WorldStep;
    CallStepFootprint(w.db, c, CardK(ns, agent));
    CallStepFootprint(w.db, c, CapabilityK(ns, capability, agent));
  }

  lemma AdvanceIsExclusive(w: World, id: nat)
    requires Orderly(w) && Allowed(w, Advance(id)) && id in w.calls
    ensures Exclusive(WorldStep(w, Advance(id)))
  {
    var w' := WorldStep(w, Advance(id));
    var c, c' := w.calls[id], w'.calls[id];
    assert CallSafe(w.db, c) && WellPlaced(w.db);
    CallStepIsSafe(w.db, c);
    if Indexing(c') {
      IndexPhaseIsEnteredBySwap(w.db, c);
    }
    assert forall i :: i in w.calls && i != id ==> w'.calls[i] == w.calls[i];
    hide WorldStep, CallSafe, NothingDangles, CallIssued, Progress, IndexedAt;
    forall i, j | && i in w'.calls && j in w'.calls && Indexing(w'.calls[i]) && Indexing(w'.calls[j])
                  && OnAgent(w'.calls[i], w'.calls[j].card.namespace, w'.calls[j].card.agentID)
      ensures i == j
    {
      if c.phase.Writing? && Indexing(c') {
        assert Quiet(w, c.card.namespace, c.card.agentID);
      }
    }
  }

  lemma IndexPhaseIsEnteredBySwap(db: State, c: Call)
    requires Indexing(CallStep(db, c).1)
    ensures c.phase.Writing? || Indexing(c)
  {
    hide CheckWrite, CheckRead, AgentCard.Valid;
  }

  lemma AdvanceStaysOrderly(w: World, id: nat)
    requires Orderly(w) && Allowed(w, Advance(id)) && id in w.calls
    ensures Orderly(WorldStep(w, Advance(id)))
  {
    var w' := WorldStep(w, Advance(id));
    AdvanceKeepsNothingDangling(w, id);
    AdvanceIsExclusive(w, id);
    OwnCallProgresses(w, id);
    assert w'.db == CallStep(w.db, w.calls[id]).0 && w'.calls[id] == CallStep(w.db, w.calls[id]).1;
    assert forall i :: i in w.calls && i != id ==> w'.calls[i] == w.calls[i];
    forall i | i in w'.calls
      ensures CallIssued(w'.db, w'.calls[i]) && Progress(w'.db, w'.calls[i])
    {
      if i != id {
        OtherCallsSurvive(w, id, i);
      }
    }
    forall ns, capability, agent | Quiet(w', ns, agent)
      ensures IndexedAt(w'.db, ns, capability, agent)
    {
      if OnAgent(w.calls[id], ns, agent) {
        MoverAgentAgrees(w, id, ns, capability, agent);
      } else {
        OtherAgentAgrees(w, id, ns, capability, agent);
      }
    }
  }

  lemma ServeStaysOrderly(w: World, op: Op)
    requires Orderly(w) && !op.PutCardOp?
    ensures Orderly(WorldStep(w, Serve(op)))
  {
    var w' := WorldStep(w, Serve(op));
    assert WellPlaced(w.db);
    ServeKeepsNothingDangling(w, op);
    ServeKeepsIndex(w.db, op);
    ServedRevisions(w.db, op);
    forall i | i in w.calls
      ensures CallIssued(w'.db, w.calls[i]) && Progress(w'.db, w.calls[i])
    {
      var ns, agent := w.calls[i].card.namespace, w.calls[i].card.agentID;
      assert CallIssued(w.db, w.calls[i]) && Progress(w.db, w.calls[i]);
      ServeKeepsIndexKeys(w.db, op, ns, "", agent);
      hide Step, CallIssued, Progress, NothingDangles, Exclusive, CardAt, WellPlaced;
      IssuedSurvives(w.db, w'.db, w.calls[i]);
      ProgressSurvives(w.db, w'.db, w.calls[i]);
    }
    hide Step, CallIssued, Progress, NothingDangles, CardAt, WellPlaced;
    assert Exclusive(w');
    forall ns, capability, agent | Quiet(w', ns, agent)
      ensures IndexedAt(w'.db, ns, capability, agent)
    {
      assert Quiet(w, ns, agent);
      assert IndexedAt(w.db, ns, capability, agent) && Same(w.db, w'.db, CapabilityK(ns, capability, agent));
    }
  }

  lemma BeginStaysOrderly(w: World, m: Move)
    requires Orderly(w) && Allowed(w, m)
    requires m.Begin? || (m.Advance? && m.id !in w.calls) || (m.Serve? && m.op.PutCardOp?)
    ensures Orderly(WorldStep(w, m))
  {
    BeginKeepsNothingDangling(w, m);
    if m.Begin? && m.id !in w.calls {
      var w' := WorldStep(w, m);
      assert !Indexing(w'.calls[m.id]) && CallIssued(w.db, w'.calls[m.id]);
      IdleCallsHaveNoProgress(w.db, w'.calls[m.id]);
      hide NothingDangles, CallIssued, Progress, IndexedAt;
      assert Exclusive(w');
      forall ns, capability, agent | Quiet(w', ns, agent)
        ensures IndexedAt(w'.db, ns, capability, agent)
      {
        forall i | i in w.calls && Indexing(w.calls[i])
          ensures !OnAgent(w.calls[i], ns, agent)
        {
          assert w'.calls[i] == w.calls[i];
        }
        assert Quiet(w, ns, agent);
      }
    }
  }

  /**
   * However puts of different agents and the other operations interleave, and whatever puts of one
   * agent do outside their index phases, failed swaps included, the index agrees for every agent
   * with no put re-indexing.
   */
  lemma {:induction false} AgreementWithoutOverlap(w: World, moves: seq<Move>)
    requires Orderly(w) && AllAllowed(w, moves)
    ensures Orderly(WorldRun(w, moves))
    decreases |moves|
  {
    if moves != [] {
      var m := moves[0];
      if m.Advance? && m.id in w.calls {
        AdvanceStaysOrderly(w, m.id);
      } else if m.Serve? && !m.op.PutCardOp? {
        ServeStaysOrderly(w, m.op);
      } else {
        BeginStaysOrderly(w, m);
      }
      hide Orderly, WorldStep, Allowed;
      AgreementWithoutOverlap(WorldStep(w, m), moves[1..]);
    }
  }

  lemma EmptyWorldIsOrderly()
    ensures Orderly(World(Start(), map[]))
  {
    StartIsPlaced();
  }
}
