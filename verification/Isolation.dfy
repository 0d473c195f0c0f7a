/** Operations addressed to one namespace do not reach another. */
module Isolation {
  import opened Outcome
  import opened Model
  import opened Keyspace
  import opened HealthRules
  import opened Services
  import opened Invariants
  import opened CapabilityIndex
  import opened Views
  import Store

  /** The namespace an operation names; global configuration belongs to none. */
  function Addressed(op: Op): string {
    match op
    case CreateNamespaceOp(name, _) => name
    case UpdateAccessModeOp(name, _, _, _) => name
    case RegisterOp(instance, _, _) => instance.namespace
    case UpdateOp(update, _) => update.namespace
    case HeartbeatOp(ns, _, _, _) => ns
    case DeregisterOp(ns, _, _) => ns
    case ProbeOp(ns, _, _, _, _, _) => ns
    case PutConfigOp(item, _, _) => if item.scope.GlobalScope? then "" else item.namespace
    case DeleteConfigOp(scope, ns, _, _, _) => if scope.GlobalScope? then "" else ns
    case PutCardOp(card, _, _, _) => card.namespace
  }

  predicate TouchesGlobalConfig(op: Op) {
    || (op.PutConfigOp? && op.item.scope.GlobalScope?)
    || (op.DeleteConfigOp? && op.scope.GlobalScope?)
  }

  lemma PutCardStaysInItsNamespace(db: State, card: AgentCard, expected: int, now: Time, later: Time, k: Key)
    requires WellPlaced(db) && Owner(k) != card.namespace
    ensures Same(db, PutCard(db, card, expected, now, later).0, k)
  {
    if PutCard(db, card, expected, now, later).1.Ok? {
      PutCardReplacesWhatItRead(db, card, expected, now, later);
      var (next, previous) := PreparedCard(db, card, expected, now, later).value;
      var db1 := Store.Write(db, CardK(card.namespace, card.agentID), CardV(next), 0);
      hide WellPlaced, PutCard, PreparedCard, Reindexed;
      ReindexedEntries(db1, next, previous, k);
    } else {
      PutCardFailureChangesNothing(db, card, expected, now, later);
    }
  }

  lemma StepStaysInItsNamespace(db: State, op: Op, k: Key)
    requires WellPlaced(db) && Owner(k) != Addressed(op)
    requires k.GlobalConfigK? ==> !TouchesGlobalConfig(op)
    ensures Same(db, Step(db, op), k)
  {
    hide WellPlaced, Same, PutCard;
    if op.PutCardOp? {
      PutCardStaysInItsNamespace(db, op.card, op.expected, op.now, op.later, k);
    } else {
      assert Target(op) != k by {
        hide Step;
      }
      OnlyTheTargetChanges(db, op, k);
    }
  }

  /** The records one namespace's readers depend on: its own and the global configuration. */
  ghost predicate SameFor(db: State, db': State, ns: string) {
    forall k :: Owner(k) == ns || k.GlobalConfigK? ==> Same(db, db', k)
  }

  /** A whole run addressed to other namespaces leaves every record of this one as it was. */
  lemma {:induction false} RunsStayInTheirNamespaces(db: State, ops: seq<Op>, ns: string)
    requires WellPlaced(db) && ns != ""
    requires forall i :: 0 <= i < |ops| ==> Addressed(ops[i]) != ns && !TouchesGlobalConfig(ops[i])
    ensures SameFor(db, Run(db, ops), ns)
    decreases |ops|
  {
    if ops != [] {
      hide WellPlaced, Step;
      var next := Step(db, ops[0]);
      StepStaysPlaced(db, ops[0]);
      forall k | Owner(k) == ns || k.GlobalConfigK?
        ensures Same(db, next, k)
      {
        if Owner(k) == Addressed(ops[0]) {
          GlobalOnlyByGlobal(db, ops[0], k);
        } else {
          StepStaysInItsNamespace(db, ops[0], k);
        }
      }
      RunsStayInTheirNamespaces(next, ops[1..], ns);
    }
  }

  /** An operation addressed to the empty namespace name is refused unless it is global configuration. */
  lemma GlobalOnlyByGlobal(db: State, op: Op, k: Key)
    requires WellPlaced(db) && k.GlobalConfigK? && Addressed(op) == "" && !TouchesGlobalConfig(op)
    ensures Same(db, Step(db, op), k)
  {
    hide WellPlaced, Same, PutCard;
    if op.PutCardOp? {
      CheckWriteNeedsAName(db);
      assert PutCard(db, op.card, op.expected, op.now, op.later).0 == db by {
        RefusedCardPut(db, op.card, op.expected, op.now, op.later);
      }
      SameIsReflexive(db, k);
    } else {
      assert Target(op) != k by {
        hide Step;
      }
      OnlyTheTargetChanges(db, op, k);
    }
  }

  lemma SameIsReflexive(db: State, k: Key)
    ensures Same(db, db, k)
  {
  }

  lemma CheckWriteNeedsAName(db: State)
    ensures CheckWrite(db, "").Err?
  {
  }

  lemma RefusedCardPut(db: State, card: AgentCard, expected: int, now: Time, later: Time)
    requires CheckWrite(db, card.namespace).Err?
    ensures PutCard(db, card, expected, now, later).0 == db
  {
    hide CheckWrite, PreparedCard, AgentCard.Valid, Reindexed;
  }

  /** So every read of that namespace returns what it returned before. */
  lemma ReadersSeeNoChange(db: State, db': State, ns: string)
    requires WellPlaced(db) && WellPlaced(db') && SameFor(db, db', ns) && SlashFree(ns)
    ensures forall admin :: CheckRead(db, ns, admin) == CheckRead(db', ns, admin)
    ensures forall f: ListFilter, i :: f.namespace == ns ==> (Listed(db, f, i) <==> Listed(db', f, i))
    ensures forall input: ResolveInput, key :: input.namespace == ns ==> Strongest(db, input, key) == Strongest(db', input, key)
    ensures forall input: DiscoverInput, c, i :: input.namespace == ns ==> (InJoin(db, input, c, i) <==> InJoin(db', input, c, i))
  {
    assert Same(db, db', NamespaceK(ns));
    forall f: ListFilter, i | f.namespace == ns
      ensures Listed(db, f, i) <==> Listed(db', f, i)
    {
      SameListing(db, db', f, i);
    }
    forall input: ResolveInput, key | input.namespace == ns
      ensures Strongest(db, input, key) == Strongest(db', input, key)
    {
      hide WellPlaced;
      StoredUnfolds(db, ns, input.service, key);
      StoredUnfolds(db', ns, input.service, key);
      assert Same(db, db', ServiceConfigK(ns, input.service, key));
      assert Same(db, db', NamespaceConfigK(ns, key));
      assert Same(db, db', GlobalConfigK(key));
    }
    forall input: DiscoverInput, c: AgentCard, i: Instance | input.namespace == ns
      ensures InJoin(db, input, c, i) <==> InJoin(db', input, c, i)
    {
      hide WellPlaced;
      assert Same(db, db', CardK(ns, c.agentID));
      assert Same(db, db', InstanceK(ns, i.service, i.instanceID));
    }
  }

  lemma SameListing(db: State, db': State, f: ListFilter, i: Instance)
    requires WellPlaced(db) && WellPlaced(db') && SameFor(db, db', f.namespace) && SlashFree(f.namespace)
    ensures Listed(db, f, i) <==> Listed(db', f, i)
  {
    hide InScope;
    var k := InstanceKeyOf(i);
    if k in db.data || k in db'.data {
      PlacedKeysAreValid(k, if k in db.data then db.data[k].value else db'.data[k].value);
      hide WellPlaced;
      NamespaceScopeIsExact(k, f);
      if k.ns == f.namespace {
        assert Same(db, db', k);
      }
    }
  }

  /** A guarded operation on a namespace that refuses writes leaves the store exactly as it was. */
  lemma RefusedOperationsChangeNothing(db: State, op: Op)
    requires CheckWrite(db, Addressed(op)).Err?
    requires !op.CreateNamespaceOp? && !op.UpdateAccessModeOp? && !op.ProbeOp? && !TouchesGlobalConfig(op)
    ensures Step(db, op) == db
  {
    hide CheckWrite, Instance.Valid, ConfigItem.Valid, AgentCard.Valid, PreparedCard, GetInstance, UpdatedInstance;
    match op
    case RegisterOp(instance, serial, now) => assert Registered(instance, serial).namespace == instance.namespace;
    case _ =>
  }
}
