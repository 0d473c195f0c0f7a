/**
 * What each store operation does, as functions on the store's contents. The key type is a
 * parameter: the store itself is keyed by strings, the services are specified over structured keys.
 */
module Store {
  import opened Outcome
  import opened Model

  datatype Rec = Rec(value: Value, revision: int, lease: int)

  datatype EventKind = PutEvent | DeleteEvent

  datatype Event<+K> = Event(kind: EventKind, key: K, value: Value, revision: int)

  /** The contents together with the log of every event broadcast so far. */
  datatype Db<K> = Db(revision: int, data: map<K, Rec>, leases: set<int>, log: seq<Event<K>>)

  function Empty<K>(): Db<K> {
    Db(0, map[], {}, [])
  }

  function Write<K>(db: Db<K>, key: K, value: Value, lease: int): Db<K> {
    var revision := db.revision + 1;
    Db(revision, db.data[key := Rec(value, revision, lease)], db.leases,
       db.log + [Event(PutEvent, key, value, revision)])
  }

  function Remove<K>(db: Db<K>, key: K): Db<K>
    requires key in db.data
  {
    var revision := db.revision + 1;
    Db(revision, db.data - {key}, db.leases,
       db.log + [Event(DeleteEvent, key, db.data[key].value, revision)])
  }

  function Create<K>(db: Db<K>, key: K, value: Value, lease: int): (Db<K>, Result<int>) {
    if key in db.data then (db, Err(AlreadyExists))
    else (Write(db, key, value, lease), Ok(db.revision + 1))
  }

  function Put<K>(db: Db<K>, key: K, value: Value, lease: int): (Db<K>, Result<int>) {
    (Write(db, key, value, lease), Ok(db.revision + 1))
  }

  function Cas<K>(db: Db<K>, key: K, expected: int, value: Value, lease: int): (Db<K>, Result<int>) {
    if key !in db.data || db.data[key].revision != expected then (db, Err(Conflict))
    else (Write(db, key, value, lease), Ok(db.revision + 1))
  }

  function Get<K>(db: Db<K>, key: K): Result<Rec> {
    if key in db.data then Ok(db.data[key]) else Err(NotFound)
  }

  function Delete<K>(db: Db<K>, key: K): (Db<K>, Result<int>) {
    if key !in db.data then (db, Err(NotFound))
    else (Remove(db, key), Ok(db.revision + 1))
  }

  function DeleteCas<K>(db: Db<K>, key: K, expected: int): (Db<K>, Result<int>) {
    if key !in db.data || db.data[key].revision != expected then (db, Err(Conflict))
    else (Remove(db, key), Ok(db.revision + 1))
  }

  /** A lease id is a fresh revision number. */
  function Grant<K>(db: Db<K>): (Db<K>, int) {
    var id := db.revision + 1;
    (db.(revision := id, leases := db.leases + {id}), id)
  }

  function KeepAlive<K>(db: Db<K>, lease: int): Result<()> {
    if lease in db.leases then Ok(()) else Err(NotFound)
  }

  function Revoke<K>(db: Db<K>, lease: int): Db<K> {
    db.(leases := db.leases - {lease})
  }

  // ------------------------------------------------------------------ runs

  datatype StoreOp<+K> =
    | CreateOp(key: K, value: Value, lease: int)
    | PutOp(key: K, value: Value, lease: int)
    | CasOp(key: K, expected: int, value: Value, lease: int)
    | DeleteOp(key: K)
    | DeleteCasOp(key: K, expected: int)
    | GrantOp
    | RevokeOp(lease: int)

  function Apply<K>(db: Db<K>, op: StoreOp<K>): Db<K> {
    match op
    case CreateOp(key, value, lease) => Create(db, key, value, lease).0
    case PutOp(key, value, lease) => Put(db, key, value, lease).0
    case CasOp(key, expected, value, lease) => Cas(db, key, expected, value, lease).0
    case DeleteOp(key) => Delete(db, key).0
    case DeleteCasOp(key, expected) => DeleteCas(db, key, expected).0
    case GrantOp => Grant(db).0
    case RevokeOp(lease) => Revoke(db, lease)
  }

  function ApplyAll<K>(db: Db<K>, ops: seq<StoreOp<K>>): Db<K>
    decreases |ops|
  {
    if ops == [] then db else ApplyAll(Apply(db, ops[0]), ops[1..])
  }

  // ------------------------------------------------- the log explains the data

  datatype Cell = Cell(value: Value, revision: int)

  function Cells<K>(data: map<K, Rec>): map<K, Cell> {
    map k | k in data :: Cell(data[k].value, data[k].revision)
  }

  function ReplayStep<K>(cells: map<K, Cell>, e: Event<K>): map<K, Cell> {
    if e.kind.PutEvent? then cells[e.key := Cell(e.value, e.revision)] else cells - {e.key}
  }

  function Replay<K>(log: seq<Event<K>>): map<K, Cell> {
    if log == [] then map[] else ReplayStep(Replay(log[..|log| - 1]), log[|log| - 1])
  }

  ghost predicate Ordered<K>(log: seq<Event<K>>, bound: int) {
    && (forall i :: 0 <= i < |log| ==> 0 < log[i].revision <= bound)
    && (forall i, j :: 0 <= i < j < |log| ==> log[i].revision < log[j].revision)
  }

  /** Replaying the log gives all keys, values and revisions; revisions are never reused. */
  ghost predicate Sound<K(!new)>(db: Db<K>) {
    && db.revision >= 0
    && Cells(db.data) == Replay(db.log)
    && Ordered(db.log, db.revision)
    && (forall k :: k in db.data ==> 0 < db.data[k].revision <= db.revision)
  }

  lemma ReplayOfAppend<K>(log: seq<Event<K>>, e: Event<K>)
    ensures Replay(log + [e]) == ReplayStep(Replay(log), e)
  {
    assert (log + [e])[..|log|] == log;
  }

  lemma CellsOfWrite<K>(data: map<K, Rec>, key: K, rec: Rec)
    ensures Cells(data[key := rec]) == Cells(data)[key := Cell(rec.value, rec.revision)]
    ensures Cells(data - {key}) == Cells(data) - {key}
  {
  }

  lemma OrderedAppend<K>(log: seq<Event<K>>, bound: int, e: Event<K>)
    requires Ordered(log, bound) && bound >= 0 && e.revision == bound + 1
    ensures Ordered(log + [e], bound + 1)
  {
  }

  lemma WriteIsSound<K(!new)>(db: Db<K>, key: K, value: Value, lease: int)
    requires Sound(db)
    ensures Sound(Write(db, key, value, lease))
  {
    hide Cells, Replay, Ordered;
    var e := Event(PutEvent, key, value, db.revision + 1);
    ReplayOfAppend(db.log, e);
    CellsOfWrite(db.data, key, Rec(value, db.revision + 1, lease));
    OrderedAppend(db.log, db.revision, e);
  }

  lemma RemoveIsSound<K(!new)>(db: Db<K>, key: K)
    requires Sound(db) && key in db.data
    ensures Sound(Remove(db, key))
  {
    hide Cells, Replay, Ordered;
    var e := Event(DeleteEvent, key, db.data[key].value, db.revision + 1);
    ReplayOfAppend(db.log, e);
    CellsOfWrite(db.data, key, db.data[key]);
    OrderedAppend(db.log, db.revision, e);
  }

  lemma ApplyIsSound<K(!new)>(db: Db<K>, op: StoreOp<K>)
    requires Sound(db)
    ensures Sound(Apply(db, op))
    ensures db.log <= Apply(db, op).log && db.revision <= Apply(db, op).revision
  {
    hide Sound;
    match op
    case CreateOp(key, value, lease) => WriteIsSound(db, key, value, lease);
    case PutOp(key, value, lease) => WriteIsSound(db, key, value, lease);
    case CasOp(key, expected, value, lease) => WriteIsSound(db, key, value, lease);
    case DeleteOp(key) => if key in db.data { RemoveIsSound(db, key); }
    case DeleteCasOp(key, expected) => if key in db.data { RemoveIsSound(db, key); }
    case GrantOp => LeasesAreNotLogged(db, 0);
    case RevokeOp(lease) => LeasesAreNotLogged(db, lease);
  }

  lemma LeasesAreNotLogged<K(!new)>(db: Db<K>, lease: int)
    requires Sound(db)
    ensures Sound(Grant(db).0) && Sound(Revoke(db, lease))
  {
    hide Cells, Replay;
  }

  /** For every run from any sound store: the log only grows and still explains the data. */
  lemma {:induction false} RunsAreSound<K(!new)>(db: Db<K>, ops: seq<StoreOp<K>>)
    requires Sound(db)
    ensures Sound(ApplyAll(db, ops))
    ensures db.log <= ApplyAll(db, ops).log && db.revision <= ApplyAll(db, ops).revision
    decreases |ops|
  {
    if ops != [] {
      ApplyIsSound(db, ops[0]);
      RunsAreSound(Apply(db, ops[0]), ops[1..]);
    }
  }

  lemma EmptyIsSound<K(!new)>()
    ensures Sound<K>(Empty())
  {
  }

  // -------------------------------------------------------- no ABA on revisions

  ghost predicate RevisionsIssued<K(!new)>(db: Db<K>) {
    forall k :: k in db.data ==> db.data[k].revision <= db.revision
  }

  /**
   * A record whose revision was already issued before some other store steps ran was in the
   * store, unchanged, before those steps: no delete and re-create can bring a revision back.
   */
  lemma {:induction false} IssuedRevisionIsUntouched<K(!new)>(db: Db<K>, ops: seq<StoreOp<K>>, k: K)
    requires RevisionsIssued(db)
    requires k in ApplyAll(db, ops).data && ApplyAll(db, ops).data[k].revision <= db.revision
    ensures k in db.data && db.data[k] == ApplyAll(db, ops).data[k]
    decreases |ops|
  {
    if ops != [] {
      var next := Apply(db, ops[0]);
      IssuedRevisionIsUntouched(next, ops[1..], k);
    }
  }

  lemma {:induction false} RevisionsStayIssued<K(!new)>(db: Db<K>, ops: seq<StoreOp<K>>)
    requires RevisionsIssued(db)
    ensures RevisionsIssued(ApplyAll(db, ops)) && db.revision <= ApplyAll(db, ops).revision
    decreases |ops|
  {
    if ops != [] {
      RevisionsStayIssued(Apply(db, ops[0]), ops[1..]);
    }
  }
}
