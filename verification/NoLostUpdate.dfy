/** Revision-checked updates under arbitrary interleaving with other clients' store steps. */
module NoLostUpdate {
  import opened Outcome
  import opened Model
  import opened Keyspace
  import opened Services
  import opened Invariants
  import opened CapabilityIndex
  import Store

  type Others = seq<Store.StoreOp<Key>>

  /** The store steps other clients take before each store step of one call. */
  datatype Schedule = Schedule(beforeCheck: Others, beforeRecheck: Others, beforeRead: Others, beforeSwap: Others)

  function AtCheck(db: State, s: Schedule): State {
    Store.ApplyAll(db, s.beforeCheck)
  }

  function AtRecheck(db: State, s: Schedule): State {
    Store.ApplyAll(AtCheck(db, s), s.beforeRecheck)
  }

  function AtRead(db: State, s: Schedule): State {
    Store.ApplyAll(AtRecheck(db, s), s.beforeRead)
  }

  function AtSwap(db: State, s: Schedule): State {
    Store.ApplyAll(AtRead(db, s), s.beforeSwap)
  }

  /** An instance update whose store steps are separated by other clients' steps. */
  function InterleavedUpdate(db: State, s: Schedule, input: UpdateInput, now: Time): (State, Result<Instance>) {
    if input.expected <= 0 then (db, Err(InvalidArgument))
    else match CheckWrite(AtCheck(db, s), input.namespace)
      case Err(code) => (AtCheck(db, s), Err(code))
      case Ok(_) =>
        match GetInstance(AtRead(db, s), input.namespace, input.service, input.instanceID)
        case Err(code) => (AtRead(db, s), Err(code))
        case Ok(current) =>
          var next := UpdatedInstance(current, input, now);
          if !next.Valid() then (AtRead(db, s), Err(InvalidArgument))
          else match Store.Cas(AtSwap(db, s), InstanceK(input.namespace, input.service, input.instanceID), input.expected,
                               InstanceV(next), next.leaseID)
            case (db', Ok(revision)) => (db', Ok(next.(revision := revision)))
            case (db', Err(code)) => (db', Err(code))
  }

  /** An access-mode update whose read and swap are separated by other clients' steps. */
  function InterleavedAccessMode(db: State, s: Schedule, name: string, mode: AccessMode, expected: int, now: Time)
    : (State, Result<Namespace>)
  {
    if !ValidName(name) || expected <= 0 then (db, Err(InvalidArgument))
    else match GetNamespace(AtRead(db, s), name)
      case Err(code) => (AtRead(db, s), Err(code))
      case Ok(current) =>
        var changed := ChangedNamespace(current, mode, now);
        if !changed.Valid() then (AtRead(db, s), Err(InvalidArgument))
        else match Store.Cas(AtSwap(db, s), NamespaceK(changed.name), expected, NamespaceV(changed), 0)
          case (db', Ok(revision)) => (db', Ok(changed.(revision := revision)))
          case (db', Err(code)) => (db', Err(code))
  }

  /** A card update up to its swap: checks, read and swap are separated by other clients' steps. */
  function InterleavedCardSwap(db: State, s: Schedule, card: AgentCard, expected: int, later: Time)
    : (State, Result<AgentCard>)
  {
    if CheckWrite(AtCheck(db, s), card.namespace).Err? then (AtCheck(db, s), Err(CheckWrite(AtCheck(db, s), card.namespace).code))
    else if !card.Valid() then (AtCheck(db, s), Err(InvalidArgument))
    else if CheckRead(AtRecheck(db, s), card.namespace, false).Err?
    then (AtRecheck(db, s), Err(CheckRead(AtRecheck(db, s), card.namespace, false).code))
    else
      var read := Store.Get(AtRead(db, s), CardK(card.namespace, card.agentID));
      if read.Err? then (AtRead(db, s), Err(read.code))
      else match DecodeCard(read.value)
        case Err(code) => (AtRead(db, s), Err(code))
        case Ok(current) =>
          var next := card.(createdAt := current.createdAt, updatedAt := later);
          match Store.Cas(AtSwap(db, s), CardK(card.namespace, card.agentID), expected, CardV(next), 0)
          case (db', Ok(revision)) => (db', Ok(next.(revision := revision)))
          case (db', Err(code)) => (db', Err(code))
  }

  /** A configuration put whose access check and write are separated by other clients' steps. */
  function InterleavedPutConfig(db: State, s: Schedule, item: ConfigItem, expected: int, now: Time)
    : (State, Result<ConfigItem>)
  {
    var check := if item.scope.GlobalScope? then Ok(()) else CheckWrite(AtCheck(db, s), item.namespace);
    if check.Err? then (AtCheck(db, s), Err(check.code))
    else if !item.Valid() then (AtCheck(db, s), Err(InvalidArgument))
    else
      var stamped := StampedConfig(item, now);
      var k := ConfigKeyOf(item.scope, item.namespace, item.service, item.key);
      var (db', r) :=
        if expected == 0 then Store.Create(AtSwap(db, s), k, ConfigV(stamped), 0)
        else Store.Cas(AtSwap(db, s), k, expected, ConfigV(stamped), 0);
      (db', if r.Ok? then Ok(stamped.(revision := r.value)) else Err(r.code))
  }

  /** A configuration delete whose access check and conditional removal are separated by other clients' steps. */
  function InterleavedDeleteConfig(db: State, s: Schedule, scope: Scope, ns: string, service: string, key: string, expected: int)
    : (State, Result<()>)
  {
    var check := if scope.GlobalScope? then Ok(()) else CheckWrite(AtCheck(db, s), ns);
    if check.Err? then (AtCheck(db, s), Err(check.code))
    else if expected <= 0 then (AtCheck(db, s), Err(InvalidArgument))
    else
      var (db', r) := Store.DeleteCas(AtSwap(db, s), ConfigKeyOf(scope, ns, service, key), expected);
      (db', if r.Ok? then Ok(()) else Err(r.code))
  }

  /**
   * When a swap succeeds, the record read before it is exactly the record it replaces if and
   * only if the expected revision had been issued by the time of the read.
   */
  lemma SwapReplacesWhatWasRead(read: State, others: Others, k: Key, expected: int, v: Value, lease: int)
    requires Store.RevisionsIssued(read)
    requires Store.Cas(Store.ApplyAll(read, others), k, expected, v, lease).1.Ok?
    ensures expected <= read.revision <==>
            k in read.data && read.data[k] == Store.ApplyAll(read, others).data[k]
  {
    if expected <= read.revision {
      Store.IssuedRevisionIsUntouched(read, others, k);
    }
  }

  lemma IssuedStaysIssued(db: State, s: Schedule)
    requires Store.RevisionsIssued(db)
    ensures Store.RevisionsIssued(AtRead(db, s)) && db.revision <= AtRead(db, s).revision
  {
    Store.RevisionsStayIssued(db, s.beforeCheck);
    Store.RevisionsStayIssued(AtCheck(db, s), s.beforeRecheck);
    Store.RevisionsStayIssued(AtRecheck(db, s), s.beforeRead);
  }

  /** A successful update is the requested change applied to exactly the record it replaced. */
  lemma UpdateIsNotLost(db: State, s: Schedule, input: UpdateInput, now: Time)
    requires Store.RevisionsIssued(db) && input.expected <= db.revision
    requires InterleavedUpdate(db, s, input, now).1.Ok?
    ensures var k := InstanceK(input.namespace, input.service, input.instanceID);
            && k in AtSwap(db, s).data
            && DecodeInstance(AtSwap(db, s).data[k]).Ok?
            && var next := UpdatedInstance(DecodeInstance(AtSwap(db, s).data[k]).value, input, now);
               InterleavedUpdate(db, s, input, now).0 == Store.Write(AtSwap(db, s), k, InstanceV(next), next.leaseID)
  {
    hide AtRead, UpdatedInstance, Instance.Valid, CheckWrite, Store.ApplyAll;
    IssuedStaysIssued(db, s);
    var k := InstanceK(input.namespace, input.service, input.instanceID);
    var next := UpdatedInstance(GetInstance(AtRead(db, s), input.namespace, input.service, input.instanceID).value, input, now);
    SwapReplacesWhatWasRead(AtRead(db, s), s.beforeSwap, k, input.expected, InstanceV(next), next.leaseID);
  }

  /** Store steps that put documents at their own keys, as every service operation does. */
  ghost predicate PlacesRecords(others: Others) {
    forall i :: 0 <= i < |others| ==>
      match others[i]
      case CreateOp(k, v, _) => Placed(k, v)
      case PutOp(k, v, _) => Placed(k, v)
      case CasOp(k, _, v, _) => Placed(k, v)
      case _ => true
  }

  lemma {:induction false} OthersStayPlaced(db: State, others: Others)
    requires WellPlaced(db) && PlacesRecords(others)
    ensures WellPlaced(Store.ApplyAll(db, others))
    decreases |others|
  {
    if others != [] {
      var op := others[0];
      assert PlacesRecords(others[1..]);
      hide WellPlaced, Placed;
      match op {
        case CreateOp(k, v, lease) => WriteStaysPlaced(db, k, v, lease);
        case PutOp(k, v, lease) => WriteStaysPlaced(db, k, v, lease);
        case CasOp(k, expected, v, lease) => WriteStaysPlaced(db, k, v, lease);
        case DeleteOp(k) => RemoveStaysPlaced(db, k);
        case DeleteCasOp(k, expected) => RemoveStaysPlaced(db, k);
        case GrantOp => LeaseStepsStayPlaced(db, 0);
        case RevokeOp(lease) => LeaseStepsStayPlaced(db, lease);
      }
      OthersStayPlaced(Store.Apply(db, op), others[1..]);
    }
  }

  lemma ReadsArePlaced(db: State, s: Schedule)
    requires WellPlaced(db)
    requires PlacesRecords(s.beforeCheck) && PlacesRecords(s.beforeRecheck) && PlacesRecords(s.beforeRead)
    ensures WellPlaced(AtRead(db, s))
  {
    hide WellPlaced, PlacesRecords;
    OthersStayPlaced(db, s.beforeCheck);
    OthersStayPlaced(AtCheck(db, s), s.beforeRecheck);
    OthersStayPlaced(AtRecheck(db, s), s.beforeRead);
  }

  /** A successful access-mode change is applied to exactly the namespace record it replaced. */
  lemma AccessModeIsNotLost(db: State, s: Schedule, name: string, mode: AccessMode, expected: int, now: Time)
    requires WellPlaced(db) && expected <= db.revision
    requires PlacesRecords(s.beforeCheck) && PlacesRecords(s.beforeRecheck) && PlacesRecords(s.beforeRead)
    requires InterleavedAccessMode(db, s, name, mode, expected, now).1.Ok?
    ensures NamespaceK(name) in AtSwap(db, s).data
    ensures var current := DecodeNamespace(AtSwap(db, s).data[NamespaceK(name)]);
            && current.Ok?
            && InterleavedAccessMode(db, s, name, mode, expected, now).0 ==
               Store.Write(AtSwap(db, s), NamespaceK(name), NamespaceV(current.value.(mode := mode, updatedAt := now)), 0)
  {
    ReadsArePlaced(db, s);
    IssuedStaysIssued(db, s);
    NamespaceHasItsName(AtRead(db, s), name);
    hide WellPlaced, PlacesRecords, AtRead, Namespace.Valid, Store.ApplyAll;
    var changed := ChangedNamespace(GetNamespace(AtRead(db, s), name).value, mode, now);
    SwapReplacesWhatWasRead(AtRead(db, s), s.beforeSwap, NamespaceK(name), expected, NamespaceV(changed), 0);
  }

  /** A card keeps the creation time of exactly the card it replaced. */
  lemma CardUpdateIsNotLost(db: State, s: Schedule, card: AgentCard, expected: int, later: Time)
    requires Store.RevisionsIssued(db) && expected <= db.revision
    requires InterleavedCardSwap(db, s, card, expected, later).1.Ok?
    ensures var k := CardK(card.namespace, card.agentID);
            && k in AtSwap(db, s).data
            && DecodeCard(AtSwap(db, s).data[k]).Ok?
            && var replaced := DecodeCard(AtSwap(db, s).data[k]).value;
               && DecodeCard(AtRead(db, s).data[k]) == Ok(replaced)
               && InterleavedCardSwap(db, s, card, expected, later).0 ==
                  Store.Write(AtSwap(db, s), k, CardV(card.(createdAt := replaced.createdAt, updatedAt := later)), 0)
  {
    hide AtRead, AtCheck, AtRecheck, AgentCard.Valid, CheckWrite, CheckRead, Store.ApplyAll;
    IssuedStaysIssued(db, s);
    var k := CardK(card.namespace, card.agentID);
    var current := DecodeCard(AtRead(db, s).data[k]).value;
    SwapReplacesWhatWasRead(AtRead(db, s), s.beforeSwap, k, expected,
                            CardV(card.(createdAt := current.createdAt, updatedAt := later)), 0);
  }

  /** A record at swap time that carries a revision issued by `db` is the record `db` holds. */
  lemma IssuedRecordIsStillThere(db: State, s: Schedule, k: Key)
    requires Store.RevisionsIssued(db)
    requires k in AtSwap(db, s).data && AtSwap(db, s).data[k].revision <= db.revision
    ensures k in db.data && db.data[k] == AtSwap(db, s).data[k]
  {
    hide Store.RevisionsIssued, Store.ApplyAll;
    Store.RevisionsStayIssued(db, s.beforeCheck);
    Store.RevisionsStayIssued(AtCheck(db, s), s.beforeRecheck);
    Store.RevisionsStayIssued(AtRecheck(db, s), s.beforeRead);
    Store.IssuedRevisionIsUntouched(AtRead(db, s), s.beforeSwap, k);
    Store.IssuedRevisionIsUntouched(AtRecheck(db, s), s.beforeRead, k);
    Store.IssuedRevisionIsUntouched(AtCheck(db, s), s.beforeRecheck, k);
    Store.IssuedRevisionIsUntouched(db, s.beforeCheck, k);
  }

  /**
   * A successful configuration update replaces exactly the record the caller saw at its revision, if
   * and only if that revision had been issued by then; a successful creation replaces nothing.
   */
  lemma ConfigPutIsNotLost(db: State, s: Schedule, item: ConfigItem, expected: int, now: Time)
    requires Store.RevisionsIssued(db)
    requires InterleavedPutConfig(db, s, item, expected, now).1.Ok?
    ensures var k := ConfigKeyOf(item.scope, item.namespace, item.service, item.key);
            var before := AtSwap(db, s);
            var (after, r) := InterleavedPutConfig(db, s, item, expected, now);
            var created := if item.createdAt == 0 then now else item.createdAt;
            && (expected == 0 ==> k !in before.data)
            && (expected != 0 ==>
                  && k in before.data && before.data[k].revision == expected
                  && (expected <= db.revision <==> k in db.data && db.data[k] == before.data[k]))
            && after.data == before.data[k := Store.Rec(ConfigV(item.(createdAt := created, updatedAt := now)), before.revision + 1, 0)]
            && r.value == item.(createdAt := created, updatedAt := now, revision := before.revision + 1)
  {
    hide AtSwap, AtCheck, ConfigItem.Valid, CheckWrite, ConfigKeyOf;
    var k := ConfigKeyOf(item.scope, item.namespace, item.service, item.key);
    if expected != 0 && expected <= db.revision {
      IssuedRecordIsStillThere(db, s, k);
    }
  }

  /** A successful delete removes exactly the record the caller saw, if and only if its revision had been issued by then. */
  lemma ConfigDeleteRemovesWhatWasSeen(db: State, s: Schedule, scope: Scope, ns: string, service: string, key: string, expected: int)
    requires Store.RevisionsIssued(db)
    requires InterleavedDeleteConfig(db, s, scope, ns, service, key, expected).1.Ok?
    ensures var k := ConfigKeyOf(scope, ns, service, key);
            var before := AtSwap(db, s);
            && k in before.data && before.data[k].revision == expected
            && (expected <= db.revision <==> k in db.data && db.data[k] == before.data[k])
            && InterleavedDeleteConfig(db, s, scope, ns, service, key, expected).0.data == before.data - {k}
  {
    hide AtSwap, AtCheck, CheckWrite, ConfigKeyOf;
    var k := ConfigKeyOf(scope, ns, service, key);
    if expected <= db.revision {
      IssuedRecordIsStillThere(db, s, k);
    }
  }

  function Uninterrupted(): Schedule {
    Schedule([], [], [], [])
  }

  /** With nothing in between, the interleaved operations are the serial ones. */
  lemma UninterruptedUpdateIsSerial(db: State, input: UpdateInput, now: Time)
    ensures InterleavedUpdate(db, Uninterrupted(), input, now) == Update(db, input, now)
  {
  }

  lemma UninterruptedAccessModeIsSerial(db: State, name: string, mode: AccessMode, expected: int, now: Time)
    ensures InterleavedAccessMode(db, Uninterrupted(), name, mode, expected, now) ==
            UpdateAccessMode(db, name, mode, expected, now)
  {
  }

  lemma UninterruptedConfigIsSerial(db: State, item: ConfigItem, expected: int, now: Time,
                                    scope: Scope, ns: string, service: string, key: string)
    ensures InterleavedPutConfig(db, Uninterrupted(), item, expected, now) == PutConfig(db, item, expected, now)
    ensures InterleavedDeleteConfig(db, Uninterrupted(), scope, ns, service, key, expected) ==
            DeleteConfig(db, scope, ns, service, key, expected)
  {
    hide CheckWrite, ConfigItem.Valid, ConfigKeyOf;
  }

  /** A serial card update is the uninterrupted swap followed by the re-indexing of the card it read. */
  lemma UninterruptedCardSwapIsSerial(db: State, card: AgentCard, expected: int, created: Time, later: Time)
    requires expected > 0
    ensures var (swapped, r) := InterleavedCardSwap(db, Uninterrupted(), card, expected, later);
            PutCard(db, card, expected, created, later) ==
            if r.Err? then (swapped, r)
            else
              var current := DecodeCard(db.data[CardK(card.namespace, card.agentID)]).value;
              (Reindexed(swapped, card.(createdAt := current.createdAt, updatedAt := later), Some(current)), r)
  {
    hide CheckWrite, CheckRead, AgentCard.Valid, Reindexed;
  }

  /** A revision guessed before it was issued can match another client's write, whose value is then lost. */
  lemma GuessedRevisionLosesAnUpdate(k: Key, first: Value, second: Value, mine: Value)
    requires first != second
    ensures var read := Store.Write(Store.Empty(), k, first, 0);
            var others: Others := [Store.PutOp(k, second, 0)];
            && Store.RevisionsIssued(read)
            && Store.Cas(Store.ApplyAll(read, others), k, 2, mine, 0).1.Ok?
            && read.data[k].value == first
            && Store.ApplyAll(read, others).data[k].value == second
  {
    var read := Store.Write(Store.Empty(), k, first, 0);
    var others: Others := [Store.PutOp(k, second, 0)];
    assert others[1..] == [];
    assert Store.ApplyAll(read, others) == Store.Apply(read, others[0]);
  }
}
