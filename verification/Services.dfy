/**
 * What each service operation does to the store, over structured keys. The objects in
 * NamespaceServiceObject, RegistryServiceObject, ConfigServiceObject and AgentServiceObject carry
 * the same operations out step by step over the string keys.
 */
module Services {
  import opened Outcome
  import opened Model
  import opened Keyspace
  import opened HealthRules
  import Store

  type State = Store.Db<Key>

  // ------------------------------------------------------------- namespaces

  function DecodeNamespace(r: Store.Rec): Result<Namespace> {
    match r.value
    case NamespaceV(n) => Ok(n.(revision := r.revision))
    case _ => Err(Internal)
  }

  function GetNamespace(db: State, name: string): Result<Namespace> {
    if !ValidName(name) then Err(InvalidArgument)
    else match Store.Get(db, NamespaceK(name))
      case Err(code) => Err(code)
      case Ok(r) => DecodeNamespace(r)
  }

  function CheckRead(db: State, name: string, admin: bool): Result<()> {
    if admin then Ok(())
    else match GetNamespace(db, name)
      case Err(code) => Err(code)
      case Ok(n) => if n.mode.AllowsRead() then Ok(()) else Err(Forbidden)
  }

  function CheckWrite(db: State, name: string): Result<()> {
    match GetNamespace(db, name)
    case Err(code) => Err(code)
    case Ok(n) => if n.mode.AllowsWrite() then Ok(()) else Err(Forbidden)
  }

  function CreateNamespace(db: State, name: string, now: Time): (State, Result<Namespace>) {
    var n := Namespace(name, ReadWrite, now, now, 0);
    if !n.Valid() then (db, Err(InvalidArgument))
    else match Store.Create(db, NamespaceK(name), NamespaceV(n), 0)
      case (db', Ok(revision)) => (db', Ok(n.(revision := revision)))
      case (db', Err(code)) => (db', Err(code))
  }

  /** The record an access-mode update writes, given the record it read. */
  function ChangedNamespace(current: Namespace, mode: AccessMode, now: Time): Namespace {
    current.(mode := mode, updatedAt := now)
  }

  function UpdateAccessMode(db: State, name: string, mode: AccessMode, expected: int, now: Time): (State, Result<Namespace>) {
    if !ValidName(name) || expected <= 0 then (db, Err(InvalidArgument))
    else match GetNamespace(db, name)
      case Err(code) => (db, Err(code))
      case Ok(current) =>
        var changed := ChangedNamespace(current, mode, now);
        if !changed.Valid() then (db, Err(InvalidArgument))
        else match Store.Cas(db, NamespaceK(changed.name), expected, NamespaceV(changed), 0)
          case (db', Ok(revision)) => (db', Ok(changed.(revision := revision)))
          case (db', Err(code)) => (db', Err(code))
  }

  // --------------------------------------------------------------- registry

  datatype UpdateInput = UpdateInput(
    namespace: string,
    service: string,
    instanceID: string,
    weight: Option<int>,
    metadata: Option<map<string, string>>,
    version: Option<string>,
    expected: int)

  datatype ListFilter = ListFilter(
    namespace: string,
    service: string,
    group: string,
    version: string,
    metadata: map<string, string>,
    healthyOnly: bool,
    admin: bool)

  /** The stored revision and lease replace whatever the document says. */
  function DecodeInstance(r: Store.Rec): Result<Instance> {
    match r.value
    case InstanceV(i) => Ok(i.(revision := r.revision, leaseID := r.lease))
    case _ => Err(Internal)
  }

  function GetInstance(db: State, ns: string, service: string, id: string): Result<Instance> {
    match Store.Get(db, InstanceK(ns, service, id))
    case Err(code) => Err(code)
    case Ok(r) => DecodeInstance(r)
  }

  function InstanceKeyOf(i: Instance): Key {
    InstanceK(i.namespace, i.service, i.instanceID)
  }

  function Decimal(n: nat): string {
    if n < 10 then [('0' as int + n) as char] else Decimal(n / 10) + Decimal(n % 10)
  }

  function NewInstanceID(service: string, serial: nat): string {
    service + "-" + Decimal(serial)
  }

  /** The record to register, before its timestamps and lease are known. */
  function Registered(input: Instance, serial: nat): Instance {
    var i := Normalize(input);
    i.(instanceID := if i.instanceID == "" then NewInstanceID(i.service, serial) else i.instanceID)
  }

  function Stamped(i: Instance, now: Time): Instance {
    i.(createdAt := now, updatedAt := now, statusUpdatedAt := now)
  }

  /** The final record and the store after the lease step, if the check mode needs one. */
  function Leased(db: State, i: Instance, now: Time): (State, Instance) {
    if i.check.Heartbeat? then
      var (db', lease) := Store.Grant(db);
      (db', Stamped(i, now).(leaseID := lease, lastHeartbeatAt := now))
    else (db, Stamped(i, now))
  }

  function Register(db: State, input: Instance, serial: nat, now: Time): (State, Result<Instance>) {
    var i := Registered(input, serial);
    if !i.Valid() then (db, Err(InvalidArgument))
    else match CheckWrite(db, i.namespace)
      case Err(code) => (db, Err(code))
      case Ok(_) =>
        var (db1, leased) := Leased(db, i, now);
        match Store.Create(db1, InstanceKeyOf(leased), InstanceV(leased), leased.leaseID)
        case (db2, Ok(revision)) => (db2, Ok(leased.(revision := revision)))
        case (db2, Err(code)) => (db2, Err(code))
  }

  /** The record an update writes, given the record it read. */
  function UpdatedInstance(current: Instance, input: UpdateInput, now: Time): Instance {
    Normalize(current.(
      weight := if input.weight.Some? then input.weight.value else current.weight,
      metadata := if input.metadata.Some? then input.metadata else current.metadata,
      version := if input.version.Some? then input.version.value else current.version,
      updatedAt := now))
  }

  function Update(db: State, input: UpdateInput, now: Time): (State, Result<Instance>) {
    if input.expected <= 0 then (db, Err(InvalidArgument))
    else match CheckWrite(db, input.namespace)
      case Err(code) => (db, Err(code))
      case Ok(_) =>
        match GetInstance(db, input.namespace, input.service, input.instanceID)
        case Err(code) => (db, Err(code))
        case Ok(current) =>
          var next := UpdatedInstance(current, input, now);
          if !next.Valid() then (db, Err(InvalidArgument))
          else match Store.Cas(db, InstanceK(input.namespace, input.service, input.instanceID), input.expected,
                               InstanceV(next), next.leaseID)
            case (db', Ok(revision)) => (db', Ok(next.(revision := revision)))
            case (db', Err(code)) => (db', Err(code))
  }

  function Heartbeat(db: State, ns: string, service: string, id: string, now: Time): (State, Result<Instance>) {
    match CheckWrite(db, ns)
    case Err(code) => (db, Err(code))
    case Ok(_) =>
      match GetInstance(db, ns, service, id)
      case Err(code) => (db, Err(code))
      case Ok(i) =>
        if !i.check.Heartbeat? then (db, Err(FailedPrecondition))
        else if i.leaseID != 0 && Store.KeepAlive(db, i.leaseID).Err? then (db, Err(NotFound))
        else
          var beat := i.(lastHeartbeatAt := now, updatedAt := now, status := Health, statusUpdatedAt := now);
          match Store.Put(db, InstanceK(ns, service, id), InstanceV(beat), beat.leaseID)
          case (db', Ok(revision)) => (db', Ok(beat.(revision := revision)))
          case (db', Err(code)) => (db', Err(code))
  }

  function Deregister(db: State, ns: string, service: string, id: string): (State, Result<()>) {
    match CheckWrite(db, ns)
    case Err(code) => (db, Err(code))
    case Ok(_) =>
      match GetInstance(db, ns, service, id)
      case Err(code) => (db, Err(code))
      case Ok(i) =>
        var db1 := if i.leaseID != 0 then Store.Revoke(db, i.leaseID) else db;
        match Store.Delete(db1, InstanceK(ns, service, id))
        case (db', Ok(_)) => (db', Ok(()))
        case (db', Err(code)) => (db', Err(code))
  }

  /** Returns the new record and whether it was deleted. No access check guards probing. */
  function Probe(db: State, ns: string, service: string, id: string, success: bool, override: Option<Policy>, now: Time)
    : (State, Result<(Instance, bool)>)
  {
    match GetInstance(db, ns, service, id)
    case Err(code) => (db, Err(code))
    case Ok(i) =>
      if !i.check.IsProbe() then (db, Err(FailedPrecondition))
      else
        var policy := if override.Some? then override.value else DEFAULT_POLICY;
        var (next, drop) := ApplyProbe(i, success, now, policy);
        if drop then
          match Store.Delete(db, InstanceK(ns, service, id))
          case (db', Ok(_)) => (db', Ok((next, true)))
          case (db', Err(code)) => (db', Err(code))
        else
          match Store.Put(db, InstanceK(ns, service, id), InstanceV(next), 0)
          case (db', Ok(revision)) => (db', Ok((next.(revision := revision), false)))
          case (db', Err(code)) => (db', Err(code))
  }

  predicate MatchesMetadata(have: map<string, string>, want: map<string, string>) {
    forall k :: k in want ==> (if k in have then have[k] else "") == want[k]
  }

  predicate Passes(i: Instance, f: ListFilter) {
    && (f.healthyOnly ==> i.status.Health?)
    && (f.group != "" ==> i.group == f.group)
    && (f.version != "" ==> i.version == f.version)
    && MatchesMetadata(i.Meta(), f.metadata)
  }

  // ----------------------------------------------------------------- config

  function StampedConfig(item: ConfigItem, now: Time): ConfigItem {
    item.(createdAt := if item.createdAt == 0 then now else item.createdAt, updatedAt := now)
  }

  function PutConfig(db: State, item: ConfigItem, expected: int, now: Time): (State, Result<ConfigItem>) {
    var check := if item.scope.GlobalScope? then Ok(()) else CheckWrite(db, item.namespace);
    if check.Err? then (db, Err(check.code))
    else if !item.Valid() then (db, Err(InvalidArgument))
    else
      var stamped := StampedConfig(item, now);
      var key := ConfigKeyOf(item.scope, item.namespace, item.service, item.key);
      var (db', r) :=
        if expected == 0 then Store.Create(db, key, ConfigV(stamped), 0)
        else Store.Cas(db, key, expected, ConfigV(stamped), 0);
      (db', if r.Ok? then Ok(stamped.(revision := r.value)) else Err(r.code))
  }

  function DeleteConfig(db: State, scope: Scope, ns: string, service: string, key: string, expected: int): (State, Result<()>) {
    var check := if scope.GlobalScope? then Ok(()) else CheckWrite(db, ns);
    if check.Err? then (db, Err(check.code))
    else if expected <= 0 then (db, Err(InvalidArgument))
    else
      var (db', r) := Store.DeleteCas(db, ConfigKeyOf(scope, ns, service, key), expected);
      (db', if r.Ok? then Ok(()) else Err(r.code))
  }

  function DecodeConfig(r: Store.Rec): Result<ConfigItem> {
    match r.value
    case ConfigV(c) => Ok(c.(revision := r.revision))
    case _ => Err(Internal)
  }

  // ------------------------------------------------------------ agent cards

  function DecodeCard(r: Store.Rec): Result<AgentCard> {
    match r.value
    case CardV(c) => Ok(c.(revision := r.revision))
    case _ => Err(Internal)
  }

  function GetCard(db: State, ns: string, agent: string, admin: bool): Result<AgentCard> {
    match CheckRead(db, ns, admin)
    case Err(code) => Err(code)
    case Ok(_) =>
      match Store.Get(db, CardK(ns, agent))
      case Err(code) => Err(code)
      case Ok(r) => DecodeCard(r)
  }

  function EntryOf(c: AgentCard): Value {
    EntryV(CapabilityEntry(c.agentID, c.service))
  }

  /** Deletes the entries of some capabilities, one store step each; a missing one is skipped. */
  function DeleteEntries(db: State, ns: string, agent: string, capabilities: seq<string>): State
    decreases |capabilities|
  {
    if capabilities == [] then db
    else
      DeleteEntries(Store.Delete(db, CapabilityK(ns, capabilities[0], agent)).0, ns, agent, capabilities[1..])
  }

  /** Writes one entry per listed capability, one store step each. */
  function PutEntries(db: State, ns: string, agent: string, capabilities: seq<string>, entry: Value): State
    decreases |capabilities|
  {
    if capabilities == [] then db
    else
      PutEntries(Store.Put(db, CapabilityK(ns, capabilities[0], agent), entry, 0).0, ns, agent, capabilities[1..], entry)
  }

  /** The card to store and, for an update, the card it read. */
  function PreparedCard(db: State, card: AgentCard, expected: int, created: Time, updated: Time)
    : Result<(AgentCard, Option<AgentCard>)>
  {
    if expected > 0 then
      match GetCard(db, card.namespace, card.agentID, false)
      case Err(code) => Err(code)
      case Ok(current) => Ok((card.(createdAt := current.createdAt, updatedAt := updated), Some(current)))
    else Ok((card.(createdAt := created, updatedAt := updated), None))
  }

  function Reindexed(db: State, card: AgentCard, previous: Option<AgentCard>): State {
    var db1 :=
      if previous.Some?
      then DeleteEntries(db, previous.value.namespace, previous.value.agentID, previous.value.capabilities)
      else db;
    PutEntries(db1, card.namespace, card.agentID, card.capabilities, EntryOf(card))
  }

  function PutCard(db: State, card: AgentCard, expected: int, created: Time, updated: Time): (State, Result<AgentCard>) {
    match CheckWrite(db, card.namespace)
    case Err(code) => (db, Err(code))
    case Ok(_) =>
      if !card.Valid() then (db, Err(InvalidArgument))
      else match PreparedCard(db, card, expected, created, updated)
        case Err(code) => (db, Err(code))
        case Ok((next, previous)) =>
          var key := CardK(card.namespace, card.agentID);
          var (db1, r) :=
            if expected == 0 then Store.Create(db, key, CardV(next), 0)
            else Store.Cas(db, key, expected, CardV(next), 0);
          if r.Err? then (db1, Err(r.code))
          else (Reindexed(db1, next, previous), Ok(next.(revision := r.value)))
  }

  // -------------------------------------------------------------- whole runs

  datatype Op =
    | CreateNamespaceOp(name: string, now: Time)
    | UpdateAccessModeOp(name: string, mode: AccessMode, expected: int, now: Time)
    | RegisterOp(instance: Instance, serial: nat, now: Time)
    | UpdateOp(update: UpdateInput, now: Time)
    | HeartbeatOp(ns: string, service: string, id: string, now: Time)
    | DeregisterOp(ns: string, service: string, id: string)
    | ProbeOp(ns: string, service: string, id: string, success: bool, override: Option<Policy>, now: Time)
    | PutConfigOp(item: ConfigItem, expected: int, now: Time)
    | DeleteConfigOp(scope: Scope, ns: string, service: string, key: string, expected: int)
    | PutCardOp(card: AgentCard, expected: int, now: Time, later: Time)

  function Step(db: State, op: Op): State {
    match op
    case CreateNamespaceOp(name, now) => CreateNamespace(db, name, now).0
    case UpdateAccessModeOp(name, mode, expected, now) => UpdateAccessMode(db, name, mode, expected, now).0
    case RegisterOp(instance, serial, now) => Register(db, instance, serial, now).0
    case UpdateOp(update, now) => Update(db, update, now).0
    case HeartbeatOp(ns, service, id, now) => Heartbeat(db, ns, service, id, now).0
    case DeregisterOp(ns, service, id) => Deregister(db, ns, service, id).0
    case ProbeOp(ns, service, id, success, override, now) => Probe(db, ns, service, id, success, override, now).0
    case PutConfigOp(item, expected, now) => PutConfig(db, item, expected, now).0
    case DeleteConfigOp(scope, ns, service, key, expected) => DeleteConfig(db, scope, ns, service, key, expected).0
    case PutCardOp(card, expected, now, later) => PutCard(db, card, expected, now, later).0
  }

  function Run(db: State, ops: seq<Op>): State
    decreases |ops|
  {
    if ops == [] then db else Run(Step(db, ops[0]), ops[1..])
  }

  function Start(): State {
    Store.Empty()
  }
}
