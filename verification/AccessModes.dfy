/** What each access mode lets through, over every run. */
module AccessModes {
  import opened Outcome
  import opened Model
  import opened Keyspace
  import opened HealthRules
  import opened Services
  import opened Invariants
  import opened CapabilityIndex
  import opened Isolation
  import opened Views
  import Store

  /** The mode a namespace is stored with. */
  function ModeAt(db: State, ns: string): Option<AccessMode> {
    if NamespaceK(ns) in db.data && db.data[NamespaceK(ns)].value.NamespaceV?
    then Some(db.data[NamespaceK(ns)].value.namespace.mode) else None
  }

  predicate Writable(db: State, ns: string) {
    ModeAt(db, ns) == Some(ReadWrite) || ModeAt(db, ns) == Some(WriteOnly)
  }

  predicate Readable(db: State, ns: string) {
    ModeAt(db, ns) == Some(ReadWrite) || ModeAt(db, ns) == Some(ReadOnly)
  }

  /** What a write to a namespace that is not writable answers. */
  function ClosedCode(db: State, ns: string): Code {
    if !ValidName(ns) then InvalidArgument else if NamespaceK(ns) in db.data then Forbidden else NotFound
  }

  lemma StoredMode(db: State, ns: string)
    requires WellPlaced(db)
    ensures NamespaceK(ns) in db.data <==> ModeAt(db, ns).Some?
    ensures ModeAt(db, ns).Some? ==> ValidName(ns) && ModeAt(db, ns).value.Valid()
  {
    hide Store.Sound;
    if NamespaceK(ns) in db.data {
      assert Placed(NamespaceK(ns), db.data[NamespaceK(ns)].value);
    }
  }

  /** The write check lets through exactly the namespaces stored read-write or write-only. */
  lemma WriteCheckExactly(db: State, ns: string)
    requires WellPlaced(db)
    ensures CheckWrite(db, ns) ==
            if !ValidName(ns) then Err(InvalidArgument)
            else if NamespaceK(ns) !in db.data then Err(NotFound)
            else if ModeAt(db, ns) == Some(ReadOnly) || ModeAt(db, ns) == Some(NoReadNoWrite) then Err(Forbidden)
            else Ok(())
    ensures CheckWrite(db, ns).Ok? <==> Writable(db, ns)
  {
    StoredMode(db, ns);
    hide WellPlaced, ValidName;
  }

  lemma ClosedIsRefused(db: State, ns: string)
    requires WellPlaced(db)
    ensures CheckWrite(db, ns) == if Writable(db, ns) then Ok(()) else Err(ClosedCode(db, ns))
  {
    WriteCheckExactly(db, ns);
    StoredMode(db, ns);
    hide WellPlaced, CheckWrite, ValidName;
  }

  /** The read check lets through administrators and the namespaces stored read-write or read-only. */
  lemma ReadCheckExactly(db: State, ns: string, admin: bool)
    requires WellPlaced(db)
    ensures CheckRead(db, ns, admin) ==
            if admin then Ok(())
            else if !ValidName(ns) then Err(InvalidArgument)
            else if NamespaceK(ns) !in db.data then Err(NotFound)
            else if ModeAt(db, ns) == Some(WriteOnly) || ModeAt(db, ns) == Some(NoReadNoWrite) then Err(Forbidden)
            else Ok(())
    ensures CheckRead(db, ns, admin).Ok? <==> admin || Readable(db, ns)
  {
    StoredMode(db, ns);
    hide WellPlaced, ValidName;
  }

  // --------------------------------------------------------- namespace operations

  /** A namespace is created exactly under a valid free name, and is read-write from then on. */
  lemma CreationExactly(db: State, name: string, now: Time)
    requires WellPlaced(db)
    ensures var (db', r) := CreateNamespace(db, name, now);
            && (r.Ok? <==> ValidName(name) && NamespaceK(name) !in db.data)
            && (r.Err? ==> db' == db && r.code == if ValidName(name) then AlreadyExists else InvalidArgument)
            && (r.Ok? ==>
                  && r.value == Namespace(name, ReadWrite, now, now, db.revision + 1)
                  && GetNamespace(db', name) == r
                  && ModeAt(db', name) == Some(ReadWrite))
  {
    hide WellPlaced, ValidName;
  }

  /**
   * A mode change is accepted exactly for a supported mode and the revision a reader sees; it leaves
   * the namespace with that mode and nothing else changed but its update time and revision.
   */
  lemma ModeChangeExactly(db: State, name: string, mode: AccessMode, expected: int, now: Time)
    requires WellPlaced(db)
    ensures var before := GetNamespace(db, name);
            var (db', r) := UpdateAccessMode(db, name, mode, expected, now);
            && (r.Ok? <==> before.Ok? && before.value.revision == expected && expected > 0 && !mode.OtherMode?)
            && (r.Err? ==> db' == db)
            && (r.Ok? ==>
                  && r.value == Namespace(name, mode, before.value.createdAt, now, db.revision + 1)
                  && GetNamespace(db', name) == r
                  && ModeAt(db', name) == Some(mode))
  {
    StoredMode(db, name);
    if GetNamespace(db, name).Ok? {
      NamespaceHasItsName(db, name);
    }
    hide WellPlaced, ValidName;
  }

  // ------------------------------------------------------------- the mode over runs

  predicate ChangesModeOf(op: Op, name: string) {
    op.UpdateAccessModeOp? && op.name == name
  }

  /** Nothing but a mode change of that namespace changes a stored mode; creating it again is refused. */
  lemma StepKeepsMode(db: State, op: Op, name: string)
    requires WellPlaced(db) && ModeAt(db, name).Some? && !ChangesModeOf(op, name)
    ensures ModeAt(Step(db, op), name) == ModeAt(db, name)
  {
    var k := NamespaceK(name);
    if op.PutCardOp? {
      CardPutKeepsNamespaces(db, op.card, op.expected, op.now, op.later, name);
      hide WellPlaced, PutCard;
    } else if op.CreateNamespaceOp? {
      StoredMode(db, name);
      CreationExactly(db, op.name, op.now);
      hide WellPlaced, CreateNamespace;
      if op.name != name {
        CreateNamespaceChangesItsTarget(db, op.name, op.now, k);
      }
    } else {
      hide WellPlaced, Step;
      assert Target(op) != k by {
        TargetIsNoOtherNamespace(op, name);
      }
      OnlyTheTargetChanges(db, op, k);
    }
  }

  lemma TargetIsNoOtherNamespace(op: Op, name: string)
    requires !op.PutCardOp? && !op.CreateNamespaceOp? && !ChangesModeOf(op, name)
    ensures Target(op) != NamespaceK(name)
  {
    hide Registered;
  }

  lemma CardPutKeepsNamespaces(db: State, card: AgentCard, expected: int, now: Time, later: Time, name: string)
    requires WellPlaced(db)
    ensures Same(db, PutCard(db, card, expected, now, later).0, NamespaceK(name))
  {
    hide WellPlaced, PutCard, PreparedCard, Reindexed;
    if PutCard(db, card, expected, now, later).1.Ok? {
      PutCardReplacesWhatItRead(db, card, expected, now, later);
      var (next, previous) := PreparedCard(db, card, expected, now, later).value;
      var db1 := Store.Write(db, CardK(card.namespace, card.agentID), CardV(next), 0);
      ReindexedEntries(db1, next, previous, NamespaceK(name));
    } else {
      PutCardFailureChangesNothing(db, card, expected, now, later);
    }
  }

  /** Whatever else runs, a namespace keeps its mode until the mode is changed. */
  lemma {:induction false} RunsKeepMode(db: State, ops: seq<Op>, name: string)
    requires WellPlaced(db) && ModeAt(db, name).Some?
    requires forall op :: op in ops ==> !ChangesModeOf(op, name)
    ensures WellPlaced(Run(db, ops)) && ModeAt(Run(db, ops), name) == ModeAt(db, name)
    decreases |ops|
  {
    hide WellPlaced, Step, ModeAt;
    if ops != [] {
      StepStaysPlaced(db, ops[0]);
      StepKeepsMode(db, ops[0], name);
      RunsKeepMode(Step(db, ops[0]), ops[1..], name);
    }
  }

  // -------------------------------------------------------- what a mode lets through

  /** The error an operation answers with, if it does. */
  function Refusal(db: State, op: Op): Option<Code> {
    match op
    case CreateNamespaceOp(name, now) => CodeOf(CreateNamespace(db, name, now).1)
    case UpdateAccessModeOp(name, mode, expected, now) => CodeOf(UpdateAccessMode(db, name, mode, expected, now).1)
    case RegisterOp(instance, serial, now) => CodeOf(Register(db, instance, serial, now).1)
    case UpdateOp(update, now) => CodeOf(Update(db, update, now).1)
    case HeartbeatOp(ns, service, id, now) => CodeOf(Services.Heartbeat(db, ns, service, id, now).1)
    case DeregisterOp(ns, service, id) => CodeOf(Deregister(db, ns, service, id).1)
    case ProbeOp(ns, service, id, success, override, now) => CodeOf(Probe(db, ns, service, id, success, override, now).1)
    case PutConfigOp(item, expected, now) => CodeOf(PutConfig(db, item, expected, now).1)
    case DeleteConfigOp(scope, ns, service, key, expected) => CodeOf(DeleteConfig(db, scope, ns, service, key, expected).1)
    case PutCardOp(card, expected, now, later) => CodeOf(PutCard(db, card, expected, now, later).1)
  }

  function CodeOf<T>(r: Result<T>): Option<Code> {
    if r.Err? then Some(r.code) else None
  }

  /** The business writes: everything but namespace administration, probing and global configuration. */
  predicate Guarded(op: Op) {
    match op
    case RegisterOp(_, _, _) => true
    case UpdateOp(_, _) => true
    case HeartbeatOp(_, _, _, _) => true
    case DeregisterOp(_, _, _) => true
    case PutConfigOp(item, _, _) => !item.scope.GlobalScope?
    case DeleteConfigOp(scope, _, _, _, _) => !scope.GlobalScope?
    case PutCardOp(_, _, _, _) => true
    case _ => false
  }

  /** The two operations that look at their arguments before the access check refuse bad ones first. */
  predicate ArgumentsRefused(op: Op) {
    || (op.RegisterOp? && !Registered(op.instance, op.serial).Valid())
    || (op.UpdateOp? && op.update.expected <= 0)
  }

  lemma GuardedRegistry(db: State, op: Op)
    requires op.RegisterOp? || op.UpdateOp? || op.HeartbeatOp? || op.DeregisterOp?
    ensures ArgumentsRefused(op) ==> Refusal(db, op) == Some(InvalidArgument)
    ensures !ArgumentsRefused(op) && CheckWrite(db, Addressed(op)).Err? ==>
              Refusal(db, op) == Some(CheckWrite(db, Addressed(op)).code)
    ensures CheckWrite(db, Addressed(op)).Ok? ==> Refusal(db, op) != Some(Forbidden)
  {
    hide CheckWrite, Instance.Valid, UpdatedInstance;
    if op.RegisterOp? {
      assert Registered(op.instance, op.serial).namespace == op.instance.namespace;
      hide Registered;
    }
  }

  lemma GuardedConfigAndCards(db: State, op: Op)
    requires Guarded(op) && (op.PutConfigOp? || op.DeleteConfigOp? || op.PutCardOp?)
    ensures CheckWrite(db, Addressed(op)).Err? ==> Refusal(db, op) == Some(CheckWrite(db, Addressed(op)).code)
    ensures CheckWrite(db, Addressed(op)).Ok? ==>
              (Refusal(db, op) == Some(Forbidden) <==>
               op.PutCardOp? && op.card.Valid() && op.expected > 0 && CheckRead(db, op.card.namespace, false) == Err(Forbidden))
  {
    hide CheckWrite, CheckRead, ConfigItem.Valid, AgentCard.Valid, StampedConfig, ConfigKeyOf, Reindexed;
  }

  /** Updating a card reads the stored one first, as an ordinary reader would. */
  predicate ReadsToo(op: Op) {
    op.PutCardOp? && op.card.Valid() && op.expected > 0
  }

  /**
   * Exactly which business writes a namespace's mode forbids: all in the modes read-only and
   * no-read-no-write, and in the mode write-only still the update of an agent card, which reads.
   */
  lemma ForbiddenWritesExactly(db: State, op: Op)
    requires WellPlaced(db) && Guarded(op) && ModeAt(db, Addressed(op)).Some?
    ensures var mode := ModeAt(db, Addressed(op)).value;
            Refusal(db, op) == Some(Forbidden) <==>
            || ((mode == ReadOnly || mode == NoReadNoWrite) && !ArgumentsRefused(op))
            || (mode == WriteOnly && ReadsToo(op))
    ensures var mode := ModeAt(db, Addressed(op)).value;
            mode == ReadOnly || mode == NoReadNoWrite ==>
              && Step(db, op) == db
              && Refusal(db, op) == Some(if ArgumentsRefused(op) then InvalidArgument else Forbidden)
  {
    var ns := Addressed(op);
    StoredMode(db, ns);
    WriteCheckExactly(db, ns);
    ReadCheckExactly(db, ns, false);
    hide WellPlaced, CheckWrite, CheckRead, Refusal, ModeAt, Step, ArgumentsRefused, AgentCard.Valid, ValidName;
    if op.PutConfigOp? || op.DeleteConfigOp? || op.PutCardOp? {
      GuardedConfigAndCards(db, op);
      OthersTakeAnyArguments(op);
    } else {
      GuardedRegistry(db, op);
    }
    if CheckWrite(db, ns).Err? {
      RefusedOperationsChangeNothing(db, op);
    }
  }

  lemma OthersTakeAnyArguments(op: Op)
    requires !op.RegisterOp? && !op.UpdateOp?
    ensures !ArgumentsRefused(op)
  {
  }

  /**
   * Over runs: once a namespace was closed to writes, every business write to it is refused and
   * changes nothing until its mode is changed again, whatever happens in between.
   */
  lemma ClosedNamespacesStayClosed(db: State, name: string, mode: AccessMode, expected: int, now: Time, ops: seq<Op>, op: Op)
    requires WellPlaced(db) && UpdateAccessMode(db, name, mode, expected, now).1.Ok?
    requires forall o :: o in ops ==> !ChangesModeOf(o, name)
    requires Guarded(op) && Addressed(op) == name
    ensures var later := Run(UpdateAccessMode(db, name, mode, expected, now).0, ops);
            && (mode == ReadOnly || mode == NoReadNoWrite ==>
                  Step(later, op) == later && Refusal(later, op) == Some(if ArgumentsRefused(op) then InvalidArgument else Forbidden))
            && (mode == ReadWrite || mode == WriteOnly ==>
                  (Refusal(later, op) == Some(Forbidden) <==> mode == WriteOnly && ReadsToo(op)))
  {
    hide WellPlaced, Step, ModeAt, Refusal, Guarded, Addressed, ArgumentsRefused, ReadsToo, UpdateAccessMode;
    var next := UpdateAccessMode(db, name, mode, expected, now).0;
    NamespaceStepsStayPlaced(db, name, mode, expected, now);
    ModeChangeExactly(db, name, mode, expected, now);
    RunsKeepMode(next, ops, name);
    ForbiddenWritesExactly(Run(next, ops), op);
  }

  /** Over runs, for readers: listing, raw and resolved configuration, cards and discovery. */
  lemma ClosedNamespacesCannotBeRead(db: State, name: string, mode: AccessMode, expected: int, now: Time, ops: seq<Op>,
                                     admin: bool)
    requires WellPlaced(db) && UpdateAccessMode(db, name, mode, expected, now).1.Ok?
    requires forall o :: o in ops ==> !ChangesModeOf(o, name)
    ensures var later := Run(UpdateAccessMode(db, name, mode, expected, now).0, ops);
            var closed := (mode == WriteOnly || mode == NoReadNoWrite) && !admin;
            && CheckRead(later, name, admin) == (if closed then Err(Forbidden) else Ok(()))
            && (forall f: ListFilter, r :: f.namespace == name && f.admin == admin && ListReturns(r, later, f) ==>
                  (r == Err(Forbidden) <==> closed))
            && (forall input: ResolveInput, r :: input.namespace == name && input.admin == admin && ResolveReturns(r, later, input) ==>
                  (r == Err(Forbidden) <==> closed))
            && (forall scope: Scope, service, r :: !scope.GlobalScope? && RawReturns(r, later, scope, name, service, admin) ==>
                  (r == Err(Forbidden) <==> closed))
            && (forall input: DiscoverInput, r :: input.namespace == name && input.admin == admin && DiscoverReturns(r, later, input) ==>
                  (r == Err(Forbidden) <==> closed))
            && (forall agent :: GetCard(later, name, agent, admin) == Err(Forbidden) <==> closed)
  {
    hide WellPlaced, Step, ModeAt, UpdateAccessMode;
    var next := UpdateAccessMode(db, name, mode, expected, now).0;
    NamespaceStepsStayPlaced(db, name, mode, expected, now);
    ModeChangeExactly(db, name, mode, expected, now);
    RunsKeepMode(next, ops, name);
    var later := Run(next, ops);
    StoredMode(later, name);
    ReadCheckExactly(later, name, admin);
    hide CheckRead, Run, IsListing, IsRawListing, HoldsStrongest, ValidName, IsSortedJoin, ValidCapability;
  }
}
