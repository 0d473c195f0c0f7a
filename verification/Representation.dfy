/**
 * The string-keyed store represents a store over structured keys: every operation the services
 * perform has the same result on both and keeps them related.
 */
module Representation {
  import opened Outcome
  import opened Model
  import opened Keyspace
  import opened Services
  import opened Invariants
  import opened Store

  function RenderEvent(e: Event<Key>): Event<string> {
    Event(e.kind, Render(e.key), e.value, e.revision)
  }

  ghost predicate SameData(c: map<string, Rec>, a: map<Key, Rec>) {
    && (forall k :: k in a ==> ValidKey(k) && Render(k) in c && c[Render(k)] == a[k])
    && (forall s :: s in c ==> exists k :: k in a && Render(k) == s)
  }

  ghost predicate SameLog(c: seq<Event<string>>, a: seq<Event<Key>>) {
    && |c| == |a|
    && forall i :: 0 <= i < |a| ==> ValidKey(a[i].key) && c[i] == RenderEvent(a[i])
  }

  ghost predicate Represents(c: Db<string>, a: State) {
    && c.revision == a.revision
    && c.leases == a.leases
    && SameData(c.data, a.data)
    && SameLog(c.log, a.log)
  }

  function RenderOp(op: StoreOp<Key>): StoreOp<string> {
    match op
    case CreateOp(key, value, lease) => CreateOp(Render(key), value, lease)
    case PutOp(key, value, lease) => PutOp(Render(key), value, lease)
    case CasOp(key, expected, value, lease) => CasOp(Render(key), expected, value, lease)
    case DeleteOp(key) => DeleteOp(Render(key))
    case DeleteCasOp(key, expected) => DeleteCasOp(Render(key), expected)
    case GrantOp => GrantOp
    case RevokeOp(lease) => RevokeOp(lease)
  }

  /** Only the two operations that may add a key need it to be well formed. */
  predicate AddsValidKey(op: StoreOp<Key>) {
    match op
    case CreateOp(key, _, _) => ValidKey(key)
    case PutOp(key, _, _) => ValidKey(key)
    case _ => true
  }

  /** A lookup may use any key at all: no malformed key can reach another key's record. */
  lemma LookupsAgree(c: Db<string>, a: State, k: Key)
    requires Represents(c, a)
    ensures Render(k) in c.data <==> k in a.data
    ensures Store.Get(c, Render(k)) == Store.Get(a, k)
  {
    hide Render, ValidKey, SameLog;
    if Render(k) in c.data {
      var k' :| k' in a.data && Render(k') == Render(k);
      RenderIsInjective(k, k');
    }
  }

  lemma WriteIsRepresented(c: Db<string>, a: State, k: Key, v: Value, lease: int)
    requires Represents(c, a) && ValidKey(k)
    ensures Represents(Write(c, Render(k), v, lease), Write(a, k, v, lease))
  {
    hide Render, ValidKey;
    var c', a' := Write(c, Render(k), v, lease), Write(a, k, v, lease);
    forall k' | k' in a'.data
      ensures ValidKey(k') && Render(k') in c'.data && c'.data[Render(k')] == a'.data[k']
    {
      if k' != k && Render(k') == Render(k) {
        RenderIsInjective(k', k);
      }
    }
    forall s | s in c'.data
      ensures exists k' :: k' in a'.data && Render(k') == s
    {
      if s == Render(k) {
        assert k in a'.data;
      } else {
        var k' :| k' in a.data && Render(k') == s;
        assert k' in a'.data;
      }
    }
  }

  lemma RemoveIsRepresented(c: Db<string>, a: State, k: Key)
    requires Represents(c, a) && k in a.data
    ensures Render(k) in c.data && Represents(Remove(c, Render(k)), Remove(a, k))
  {
    hide Render, ValidKey;
    var c', a' := Remove(c, Render(k)), Remove(a, k);
    forall k' | k' in a'.data
      ensures ValidKey(k') && Render(k') in c'.data && c'.data[Render(k')] == a'.data[k']
    {
      if Render(k') == Render(k) {
        RenderIsInjective(k', k);
      }
    }
    forall s | s in c'.data
      ensures exists k' :: k' in a'.data && Render(k') == s
    {
      var k' :| k' in a.data && Render(k') == s;
      assert k' in a'.data;
    }
  }

  /** The simulation: related stores stay related under every operation. */
  lemma OperationsAreRepresented(c: Db<string>, a: State, op: StoreOp<Key>)
    requires Represents(c, a) && AddsValidKey(op)
    ensures Represents(Apply(c, RenderOp(op)), Apply(a, op))
  {
    hide SameData, SameLog, Render, ValidKey, Write, Remove;
    match op
    case GrantOp =>
    case RevokeOp(lease) =>
    case _ =>
      var key := op.key;
      assert key in a.data ==> ValidKey(key) by {
        assert SameData(c.data, a.data);
        KeysAreValid(c.data, a.data);
      }
      LookupsAgree(c, a, key);
      if ValidKey(key) {
        match op {
          case CreateOp(_, value, lease) => WriteIsRepresented(c, a, key, value, lease);
          case PutOp(_, value, lease) => WriteIsRepresented(c, a, key, value, lease);
          case CasOp(_, _, value, lease) => WriteIsRepresented(c, a, key, value, lease);
          case _ =>
        }
      }
      if key in a.data {
        RemoveIsRepresented(c, a, key);
      }
  }

  lemma KeysAreValid(c: map<string, Rec>, a: map<Key, Rec>)
    requires SameData(c, a)
    ensures forall k :: k in a ==> ValidKey(k)
  {
    hide Render, ValidKey;
  }

  /** The results agree as well. */
  lemma ResultsAgree(c: Db<string>, a: State, k: Key, expected: int, v: Value, lease: int)
    requires Represents(c, a)
    ensures Create(c, Render(k), v, lease).1 == Create(a, k, v, lease).1
    ensures Put(c, Render(k), v, lease).1 == Put(a, k, v, lease).1
    ensures Cas(c, Render(k), expected, v, lease).1 == Cas(a, k, expected, v, lease).1
    ensures Delete(c, Render(k)).1 == Delete(a, k).1
    ensures DeleteCas(c, Render(k), expected).1 == DeleteCas(a, k, expected).1
    ensures KeepAlive(c, lease) == KeepAlive(a, lease)
    ensures Grant(c).1 == Grant(a).1
  {
    hide Render, SameData, SameLog;
    LookupsAgree(c, a, k);
  }

  lemma EmptyIsRepresented()
    ensures Represents(Empty(), Start())
  {
  }
}
