/**
 * The namespace service over the string-keyed store. Throughout the service objects the ghost
 * argument `a` is the structured-key store that the real one represents before the call.
 */
module NamespaceServiceObject {
  import opened Outcome
  import opened Model
  import opened Keyspace
  import opened Services
  import opened Representation
  import opened Watching
  import opened MemoryStoreObject
  import Store

  class NamespaceService {
    const store: MemoryStore

    constructor (store: MemoryStore)
      ensures this.store == store
    {
      this.store := store;
    }

    method Create(name: string, now: Time, ghost a: State) returns (r: Result<Namespace>)
      requires store.Valid() && Represents(store.Contents(), a)
      modifies store
      ensures store.Valid() && Represents(store.Contents(), CreateNamespace(a, name, now).0)
      ensures r == CreateNamespace(a, name, now).1
      ensures Kept(old(store.State()), store.State())
    {
      hide Represents, MemoryStore.Valid, NamespaceKey, ValidName, Kept;
      KeptIsReflexive(store.State());
      var ns := Namespace(name, ReadWrite, 0, 0, 0);
      ns := ns.(createdAt := now, updatedAt := now);
      if !ns.Valid() {
        return Err(InvalidArgument);
      }
      OperationsAreRepresented(store.Contents(), a, Store.CreateOp(NamespaceK(name), NamespaceV(ns), 0));
      ResultsAgree(store.Contents(), a, NamespaceK(name), 0, NamespaceV(ns), 0);
      var revision :- store.Create(NamespaceKey(ns.name), NamespaceV(ns), 0);
      return Ok(ns.(revision := revision));
    }

    method Get(name: string, ghost a: State) returns (r: Result<Namespace>)
      requires Represents(store.Contents(), a)
      ensures r == GetNamespace(a, name)
    {
      hide Represents, NamespaceKey, ValidName;
      if !ValidName(name) {
        return Err(InvalidArgument);
      }
      LookupsAgree(store.Contents(), a, NamespaceK(name));
      var record :- store.Get(NamespaceKey(name));
      return DecodeNamespace(record);
    }

    method UpdateAccessMode(name: string, mode: AccessMode, expected: int, now: Time, ghost a: State)
      returns (r: Result<Namespace>)
      requires store.Valid() && Represents(store.Contents(), a)
      modifies store
      ensures store.Valid() && Represents(store.Contents(), Services.UpdateAccessMode(a, name, mode, expected, now).0)
      ensures r == Services.UpdateAccessMode(a, name, mode, expected, now).1
      ensures Kept(old(store.State()), store.State())
    {
      hide Represents, MemoryStore.Valid, NamespaceKey, ValidName, GetNamespace, Kept;
      KeptIsReflexive(store.State());
      if !ValidName(name) || expected <= 0 {
        return Err(InvalidArgument);
      }
      var current :- Get(name, a);
      current := current.(mode := mode);
      current := current.(updatedAt := now);
      if !current.Valid() {
        return Err(InvalidArgument);
      }
      OperationsAreRepresented(store.Contents(), a, Store.CasOp(NamespaceK(current.name), expected, NamespaceV(current), 0));
      ResultsAgree(store.Contents(), a, NamespaceK(current.name), expected, NamespaceV(current), 0);
      var revision :- store.Cas(NamespaceKey(current.name), expected, NamespaceV(current), 0);
      return Ok(current.(revision := revision));
    }

    method CheckRead(name: string, admin: bool, ghost a: State) returns (r: Result<()>)
      requires Represents(store.Contents(), a)
      ensures r == Services.CheckRead(a, name, admin)
    {
      hide Represents, GetNamespace;
      if admin {
        return Ok(());
      }
      var ns :- Get(name, a);
      if !ns.mode.AllowsRead() {
        return Err(Forbidden);
      }
      return Ok(());
    }

    method CheckWrite(name: string, admin: bool, ghost a: State) returns (r: Result<()>)
      requires Represents(store.Contents(), a)
      ensures r == if admin then Ok(()) else Services.CheckWrite(a, name)
    {
      hide Represents, GetNamespace;
      if admin {
        return Ok(());
      }
      var ns :- Get(name, a);
      if !ns.mode.AllowsWrite() {
        return Err(Forbidden);
      }
      return Ok(());
    }
  }
}
