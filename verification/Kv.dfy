/**
 The versioned key/value store: the handlers of src/kvsrv1/server.go, which are also the
 DoOp of src/kvraft1/server.go, as functions and as the object whose map they update, and
 their relation to the register that the linearizability checker uses
 (src/models1/kv.go).
 */
module Kv {
  datatype Err = OK | ErrNoKey | ErrVersion | ErrMaybe | ErrWrongLeader

  datatype Versioned = Versioned(value: string, version: nat)

  type Store = map<string, Versioned>

  datatype GetReply = GetReply(err: Err, value: string, version: nat)

  /** A key that was never put counts as version 0. */
  function VersionOf(store: Store, key: string): nat {
    if key in store then store[key].version else 0
  }

  function DoGet(store: Store, key: string): GetReply {
    if key !in store then GetReply(ErrNoKey, "", 0) else GetReply(OK, store[key].value, store[key].version)
  }

  function DoPut(store: Store, key: string, value: string, version: nat): (Store, Err) {
    if key !in store then
      if version == 0 then (store[key := Versioned(value, 1)], OK) else (store, ErrNoKey)
    else if store[key].version != version then
      (store, ErrVersion)
    else
      (store[key := Versioned(value, version + 1)], OK)
  }

  /** Versions of stored keys start at 1. */
  predicate StoreOk(store: Store) {
    forall k | k in store :: store[k].version >= 1
  }

  /** A put succeeds exactly when the versions agree, then adds one to the version of its key, and touches no other
      key. */
  lemma {:induction false} PutExact(store: Store, key: string, value: string, version: nat)
    requires StoreOk(store)
    ensures var (store', err) := DoPut(store, key, value, version);
            && StoreOk(store')
            && (err == OK <==> VersionOf(store, key) == version)
            && (err == OK ==> key in store' && store'[key] == Versioned(value, version + 1))
            && (err == OK ==> forall k | k != key :: k in store' <==> k in store)
            && (err == OK ==> forall k | k != key && k in store :: store'[k] == store[k])
            && (err != OK ==> store' == store && err == if key in store then ErrVersion else ErrNoKey)
  {
  }

  /** A get says OK exactly for a stored key, and what it returns is what a put needs: a put with the version just read
      succeeds, and a get after it returns the value put, one version up. */
  lemma {:induction false} GetThenPut(store: Store, key: string, value: string)
    requires StoreOk(store)
    ensures var r := DoGet(store, key);
            && (r.err == OK <==> key in store) && (r.err != OK ==> r == GetReply(ErrNoKey, "", 0))
            && (key in store ==> Versioned(r.value, r.version) == store[key])
            && var (store', err) := DoPut(store, key, value, r.version);
               err == OK && DoGet(store', key) == GetReply(OK, value, r.version + 1)
  {
  }

  class Server {
    var kvMap: Store

    constructor ()
      ensures kvMap == map[]
    {
      kvMap := map[];
    }

    method Get(key: string) returns (r: GetReply)
      ensures r == DoGet(kvMap, key)
    {
      if key !in kvMap {
        return GetReply(ErrNoKey, "", 0);
      }
      r := GetReply(OK, kvMap[key].value, kvMap[key].version);
    }

    method Put(key: string, value: string, version: nat) returns (err: Err)
      modifies this
      ensures (kvMap, err) == DoPut(old(kvMap), key, value, version)
    {
      if key !in kvMap {
        if version == 0 {
          kvMap := kvMap[key := Versioned(value, version + 1)];
          return OK;
        }
        return ErrNoKey;
      }
      if kvMap[key].version != version {
        return ErrVersion;
      }
      kvMap := kvMap[key := Versioned(value, version + 1)];
      return OK;
    }
  }

  // ---------------------------------------------------------------- the checker's register

  datatype Register = Register(value: string, version: nat)

  function RegisterOf(store: Store, key: string): Register {
    if key in store then Register(store[key].value, store[key].version) else Register("", 0)
  }

  /** The model's step for a get: whether the answer is allowed. */
  predicate ModelGet(r: Register, value: string) {
    value == r.value
  }

  /** The model's step for a put: whether the answer is allowed, and the next register. */
  function ModelPut(r: Register, value: string, version: nat, err: Err): (bool, Register) {
    if r.version == version then (err == OK || err == ErrMaybe, Register(value, version + 1))
    else (err == ErrVersion || err == ErrMaybe, r)
  }

  /** The handlers follow the model's register on every key. The model refuses an answer exactly when a put with a
      nonzero version meets a key that does not exist: the server says ErrNoKey, which the model does not know. */
  lemma {:induction false} ServerFollowsModel(store: Store, key: string, value: string, version: nat, k: string)
    requires StoreOk(store)
    ensures ModelGet(RegisterOf(store, key), DoGet(store, key).value)
    ensures var (store', err) := DoPut(store, key, value, version);
            && RegisterOf(store', k) ==
                 (if k == key then ModelPut(RegisterOf(store, k), value, version, err).1 else RegisterOf(store, k))
            && (ModelPut(RegisterOf(store, key), value, version, err).0 <==> !(key !in store && version != 0))
  {
    PutExact(store, key, value, version);
  }
}
