/**
 The lock of src/kvsrv1/lock/lock.go: any number of clients that create, acquire and
 release locks by name, each through the clerk of Clerk.dfy, over the same network. The
 loops of MakeLock, Acquire and Release are state machines whose transitions are the
 returns of Get and Put; every wait is a point where other clients and the network act.
 */
module Lock {
  import opened Basics
  import opened Kv
  import opened Clerk

  const UNLOCKED := "None"

  /** Where a client is. Held lies between the return of Acquire and the call of Release. */
  datatype Pc =
    | New
    | MakeGet
    | MakePut(id: nat)
    | Idle
    | AcqGet
    | AcqPut(id: nat, token: string)
    | AcqCheck(id: nat, token: string)
    | Held(token: string)
    | RelGet(token: string)
    | RelPut(id: nat, token: string)
    | RelCheck(id: nat, token: string)

  /** read: what the server answered to the Get that is running, once it has been executed. */
  datatype Client = Client(name: string, pc: Pc, read: Option<GetReply>)

  /** Why a put was started. Auxiliary. */
  datatype Purpose = Create | Acquire(c: nat, token: string) | Release(c: nat, token: string)

  /** used: the random ids drawn so far. purposes[i] belongs to kv.calls[i]. */
  datatype World = World(kv: State, clients: seq<Client>, purposes: seq<Purpose>, used: set<string>)

  datatype Move =
    | Net(step: Step)                  // the network: execute, fail or return a put
    | CallMake(c: nat)
    | CallAcquire(c: nat)
    | CallRelease(c: nat)
    | Read(c: nat)                     // the server executes a running Get
    | GotMake(c: nat)
    | GotAcquire(c: nat, token: string)
    | GotCheck(c: nat)
    | GotRelease(c: nat)
    | GotRelCheck(c: nat)
    | PutMade(c: nat)
    | PutAcquired(c: nat)
    | PutReleased(c: nat)

  predicate Getting(pc: Pc) {
    pc.MakeGet? || pc.AcqGet? || pc.AcqCheck? || pc.RelGet? || pc.RelCheck?
  }

  predicate Returned(w: World, id: nat) {
    id < |w.kv.calls| && w.kv.calls[id].answer.Some?
  }

  predicate Possible(w: World, move: Move) {
    if move.Net? then
      !move.step.Begin? && Enabled(w.kv, move.step)
    else
      && move.c < |w.clients|
      && var x := w.clients[move.c];
         match move
         case CallMake(c) => x.pc.New?
         case CallAcquire(c) => x.pc.Idle?
         case CallRelease(c) => x.pc.Held?
         case Read(c) => Getting(x.pc)
         case GotMake(c) => x.pc.MakeGet? && x.read.Some?
         case GotAcquire(c, token) => x.pc.AcqGet? && x.read.Some? && token !in w.used && token != UNLOCKED
         case GotCheck(c) => x.pc.AcqCheck? && x.read.Some?
         case GotRelease(c) => x.pc.RelGet? && x.read.Some?
         case GotRelCheck(c) => x.pc.RelCheck? && x.read.Some?
         case PutMade(c) => x.pc.MakePut? && Returned(w, x.pc.id)
         case PutAcquired(c) => x.pc.AcqPut? && Returned(w, x.pc.id)
         case PutReleased(c) => x.pc.RelPut? && Returned(w, x.pc.id)
         case Net(_) => true
  }

  function Goto(w: World, c: nat, pc: Pc): World
    requires c < |w.clients|
  {
    w.(clients := w.clients[c := w.clients[c].(pc := pc, read := None)])
  }

  /** Start a put on the client's lock. */
  function StartPut(w: World, c: nat, value: string, version: nat, why: Purpose, pc: Pc): World
    requires c < |w.clients|
  {
    Goto(w, c, pc).(kv := BeginPut(w.kv, w.clients[c].name, value, version), purposes := w.purposes + [why])
  }

  function Next(w: World, move: Move): World
    requires Possible(w, move)
  {
    if move.Net? then w.(kv := Clerk.Next(w.kv, move.step)) else
    var c := move.c;
    var x := w.clients[c];
    match move
    case CallMake(_) => Goto(w, c, MakeGet)
    case CallAcquire(_) => Goto(w, c, AcqGet)
    case CallRelease(_) => Goto(w, c, RelGet(x.pc.token))
    case Read(_) => w.(clients := w.clients[c := x.(read := Some(DoGet(w.kv.store, x.name)))])
    case GotMake(_) =>
      if x.read.value.err == OK then Goto(w, c, Idle)
      else StartPut(w, c, UNLOCKED, 0, Create, MakePut(|w.kv.calls|))
    case GotAcquire(_, token) =>
      if x.read.value.value != UNLOCKED then Goto(w, c, AcqGet)
      else
        var w1 := StartPut(w, c, token, x.read.value.version, Acquire(c, token), AcqPut(|w.kv.calls|, token));
        w1.(used := w1.used + {token})
    case GotCheck(_) => Goto(w, c, if x.read.value.value == x.pc.token then Held(x.pc.token) else AcqGet)
    case GotRelease(_) =>
      var mine := x.read.value.value;
      StartPut(w, c, UNLOCKED, x.read.value.version, Release(c, mine), RelPut(|w.kv.calls|, mine))
    case GotRelCheck(_) => Goto(w, c, if x.read.value.value != x.pc.token then Idle else RelGet(x.pc.token))
    case PutMade(_) => Goto(w, c, Idle)
    case PutAcquired(_) =>
      Goto(w, c, match w.kv.calls[x.pc.id].answer.value
                 case OK => Held(x.pc.token)
                 case ErrMaybe => AcqCheck(x.pc.id, x.pc.token)
                 case _ => AcqGet)
    case PutReleased(_) =>
      Goto(w, c, match w.kv.calls[x.pc.id].answer.value
                 case OK => Idle
                 case ErrMaybe => RelCheck(x.pc.id, x.pc.token)
                 case _ => RelGet(x.pc.token))
    case Net(_) => w
  }

  // ---------------------------------------------------------------- the invariant

  /** The value a key had at version v >= 1. */
  function ValueAt(kv: State, key: string, v: nat): string {
    if 1 <= v <= |Wins(kv, key)| && Wins(kv, key)[v - 1].id < |kv.calls|
    then kv.calls[Wins(kv, key)[v - 1].id].value
    else ""
  }

  /** The value now stored is the token, and it was put there by client c's Acquire. */
  predicate Owns(w: World, key: string, c: nat, token: string) {
    && key in w.kv.store && w.kv.store[key].value == token
    && |Wins(w.kv, key)| == w.kv.store[key].version >= 1
    && var id := Wins(w.kv, key)[|Wins(w.kv, key)| - 1].id;
       id < |w.purposes| && w.purposes[id] == Acquire(c, token)
  }

  /** An answered call that had no effect can never have one any more. */
  predicate Dead(w: World, id: nat)
    requires id < |w.kv.calls|
  {
    w.kv.calls[id].answer.Some? && !CallTookEffect(w.kv, id) ==>
      w.kv.calls[id].version < VersionOf(w.kv.store, w.kv.calls[id].key)
  }

  ghost predicate PurposeOk(w: World, id: nat)
    requires id < |w.purposes| == |w.kv.calls|
  {
    var call := w.kv.calls[id];
    match w.purposes[id]
    case Create => call.value == UNLOCKED && call.version == 0
    case Acquire(c, token) =>
      && c < |w.clients| && w.clients[c].name == call.key
      && call.value == token && token != UNLOCKED && token in w.used
      && 1 <= call.version <= call.known && ValueAt(w.kv, call.key, call.version) == UNLOCKED
      && (call.answer.None? ==> w.clients[c].pc == AcqPut(id, token))
      && Dead(w, id)
    case Release(c, token) =>
      && c < |w.clients| && w.clients[c].name == call.key
      && call.value == UNLOCKED && token != UNLOCKED
      && 1 <= call.version <= call.known && ValueAt(w.kv, call.key, call.version) == token
      && (call.answer.None? ==> w.clients[c].pc == RelPut(id, token))
      && Dead(w, id)
  }

  ghost predicate ClientOk(w: World, c: nat)
    requires c < |w.clients| && |w.purposes| == |w.kv.calls|
  {
    var x := w.clients[c];
    && (x.read.Some? ==> ReadOk(w, x.name, x.read.value))
    && match x.pc
       case AcqPut(id, token) =>
         id < |w.purposes| && w.purposes[id] == Acquire(c, token) &&
           (CallTookEffect(w.kv, id) ==> Owns(w, x.name, c, token))
       case AcqCheck(id, token) =>
         && id < |w.purposes| && w.purposes[id] == Acquire(c, token) && w.kv.calls[id].answer.Some?
         && (CallTookEffect(w.kv, id) ==> Owns(w, x.name, c, token))
         && (x.read.Some? ==> (x.read.value.value == token <==> CallTookEffect(w.kv, id)))
       case Held(token) => token != UNLOCKED && Owns(w, x.name, c, token)
       case RelGet(token) =>
         && token != UNLOCKED && Owns(w, x.name, c, token)
         && (x.read.Some? ==> x.read.value == GetReply(OK, token, VersionOf(w.kv.store, x.name)))
       case RelPut(id, token) =>
         && id < |w.purposes| && w.purposes[id] == Release(c, token)
         && (!CallTookEffect(w.kv, id) ==>
               Owns(w, x.name, c, token) && w.kv.calls[id].version == VersionOf(w.kv.store, x.name))
       case RelCheck(id, token) =>
         && id < |w.purposes| && w.purposes[id] == Release(c, token) && CallTookEffect(w.kv, id)
         && (x.read.Some? ==> x.read.value.value != token)
       case _ => true
  }

  /** What a Get returned was the value of the key at the version it names. */
  ghost predicate ReadOk(w: World, key: string, r: GetReply) {
    if r.err == OK then 1 <= r.version <= VersionOf(w.kv.store, key) && ValueAt(w.kv, key, r.version) == r.value
    else r == GetReply(ErrNoKey, "", 0)
  }

  ghost predicate TokensUnique(w: World) {
    forall i, j | 0 <= i < |w.purposes| && 0 <= j < |w.purposes| && w.purposes[i].Acquire? && w.purposes[j].Acquire?
                  && w.purposes[i].token == w.purposes[j].token :: i == j
  }

  ghost predicate LockInv(w: World) {
    && Clerk.Inv(w.kv)
    && |w.purposes| == |w.kv.calls|
    && TokensUnique(w)
    && (forall id {:trigger PurposeOk(w, id)} | 0 <= id < |w.purposes| :: PurposeOk(w, id))
    && (forall c {:trigger ClientOk(w, c)} | 0 <= c < |w.clients| :: ClientOk(w, c))
  }

  // ---------------------------------------------------------------- who owns what is stored

  /** A stored value other than "None" is the token of an acquire that took effect last. */
  lemma {:induction false} StoredByAcquire(w: World, key: string)
    requires LockInv(w) && key in w.kv.store && w.kv.store[key].value != UNLOCKED
    ensures |Wins(w.kv, key)| == w.kv.store[key].version >= 1
    ensures var id := Wins(w.kv, key)[|Wins(w.kv, key)| - 1].id;
            && id < |w.purposes| && w.purposes[id].Acquire? && w.purposes[id].token == w.kv.store[key].value
            && CallTookEffect(w.kv, id) && w.kv.calls[id].key == key && w.kv.calls[id].version == |Wins(w.kv, key)| - 1
  {
    assert KeyOk(w.kv, key);
    var v := |Wins(w.kv, key)| - 1;
    assert WinOk(w.kv, key, v);
    assert PurposeOk(w, Wins(w.kv, key)[v].id);
  }

  /** Two owners of the same key are the same client with the same token. */
  lemma {:induction false} OneOwner(w: World, key: string, c: nat, token: string, c': nat, token': string)
    requires Owns(w, key, c, token) && Owns(w, key, c', token')
    ensures c == c' && token == token'
  {
  }

  /** A put that is about to take effect belongs to a call that has not returned. */
  lemma {:induction false} EffectiveCallIsOpen(w: World, a: Attempt)
    requires LockInv(w) && a in w.kv.flight && a.id < |w.kv.calls|
    requires VersionOf(w.kv.store, w.kv.calls[a.id].key) == w.kv.calls[a.id].version
    requires !w.purposes[a.id].Create?
    ensures w.kv.calls[a.id].answer.None? && !CallTookEffect(w.kv, a.id)
  {
    assert PurposeOk(w, a.id);
    assert KeyOk(w.kv, w.kv.calls[a.id].key);
  }

  /** While a client owns the key, only that client's own release can take effect on it. */
  lemma {:induction false} OnlyOwnReleaseTakesEffect(w: World, a: Attempt, c: nat, token: string)
    requires LockInv(w) && a in w.kv.flight && a.id < |w.kv.calls| && c < |w.clients| && token != UNLOCKED
    requires VersionOf(w.kv.store, w.kv.calls[a.id].key) == w.kv.calls[a.id].version
    requires Owns(w, w.kv.calls[a.id].key, c, token)
    ensures w.purposes[a.id] == Release(c, token) && w.clients[c].pc == RelPut(a.id, token)
  {
    var call := w.kv.calls[a.id];
    assert PurposeOk(w, a.id);
    assert KeyOk(w.kv, call.key);
    assert WinOk(w.kv, call.key, |Wins(w.kv, call.key)| - 1);
    EffectiveCallIsOpen(w, a);
    assert ValueAt(w.kv, call.key, call.version) == token;
    var c' := w.purposes[a.id].c;
    assert ClientOk(w, c');
  }

  // ---------------------------------------------------------------- the network's steps

  /** Values at old versions do not change. */
  lemma {:induction false} ValueAtStays(s: State, s': State, key: string, v: nat)
    requires Later(s, s') && v <= |Wins(s, key)| && KeyOk(s, key)
    ensures ValueAt(s', key, v) == ValueAt(s, key, v)
  {
    if 1 <= v {
      assert WinOk(s, key, v - 1);
      assert Wins(s', key)[..|Wins(s, key)|][v - 1] == Wins(s, key)[v - 1];
      assert SameCall(s.calls[Wins(s, key)[v - 1].id], s'.calls[Wins(s, key)[v - 1].id]);
    }
  }

  lemma {:induction false} ReadStays(w: World, w': World, key: string, r: GetReply)
    requires ReadOk(w, key, r) && Later(w.kv, w'.kv) && KeyOk(w.kv, key)
    requires VersionOf(w.kv.store, key) <= VersionOf(w'.kv.store, key)
    ensures ReadOk(w', key, r)
  {
    if r.err == OK {
      ValueAtStays(w.kv, w'.kv, key, r.version);
    }
  }

  lemma {:induction false} ExecuteKeepsPurpose(w: World, a: Attempt, id: nat)
    requires LockInv(w) && a in w.kv.flight && a.id < |w.kv.calls| && id < |w.purposes|
    ensures PurposeOk(w.(kv := ExecutePut(w.kv, a)), id)
  {
    var kv' := ExecutePut(w.kv, a);
    assert PurposeOk(w, id);
    assert CallOk(w.kv, id);
    var key := w.kv.calls[id].key;
    StepIsLater(w.kv, Clerk.Execute(a));
    ExecuteKeepsKeys(w.kv, a, key);
    assert KeyOk(w.kv, key);
    ValueAtStays(w.kv, kv', key, w.kv.calls[id].version);
  }

  /** The put takes no effect on key. */
  lemma {:induction false} QuietFrame(kv: State, a: Attempt, key: string)
    requires Clerk.Inv(kv) && a in kv.flight && a.id < |kv.calls|
    requires kv.calls[a.id].key != key || VersionOf(kv.store, kv.calls[a.id].key) != kv.calls[a.id].version
    ensures var kv' := ExecutePut(kv, a);
            && kv'.calls == kv.calls && Wins(kv', key) == Wins(kv, key)
            && (key in kv'.store <==> key in kv.store) && (key in kv.store ==> kv'.store[key] == kv.store[key])
  {
    assert KeyOk(kv, kv.calls[a.id].key);
  }

  /** An execution that leaves the client's key alone, or has no effect, changes nothing the client sees. */
  lemma {:induction false} QuietExecute(w: World, a: Attempt, c: nat)
    requires LockInv(w) && a in w.kv.flight && a.id < |w.kv.calls| && c < |w.clients|
    requires w.kv.calls[a.id].key != w.clients[c].name ||
               VersionOf(w.kv.store, w.kv.calls[a.id].key) != w.kv.calls[a.id].version
    ensures ClientOk(w.(kv := ExecutePut(w.kv, a)), c)
  {
    var w' := w.(kv := ExecutePut(w.kv, a));
    var x := w.clients[c];
    QuietFrame(w.kv, a, x.name);
    ClientCallKey(w, c);
    SameKeySameClient(w, w', c);
  }

  /** What is known of a client depends only on its own calls, its read and its own key. */
  lemma {:induction false} SameKeySameClient(w: World, w': World, c: nat)
    requires c < |w.clients| && |w.purposes| == |w.kv.calls| && ClientOk(w, c)
    requires var pc := w.clients[c].pc;
             pc.AcqPut? || pc.AcqCheck? || pc.RelPut? || pc.RelCheck? ==>
               pc.id < |w.kv.calls| && w.kv.calls[pc.id].key == w.clients[c].name
    requires c < |w'.clients| && w'.clients[c] == w.clients[c] && w.purposes <= w'.purposes
    requires |w.kv.calls| <= |w'.kv.calls| == |w'.purposes|
    requires forall id {:trigger w'.kv.calls[id]} | 0 <= id < |w.kv.calls| :: SameCall(w.kv.calls[id], w'.kv.calls[id])
    requires var key := w.clients[c].name;
             && Wins(w'.kv, key) == Wins(w.kv, key)
             && (key in w'.kv.store <==> key in w.kv.store)
             && (key in w.kv.store ==> w'.kv.store[key] == w.kv.store[key])
    requires w.clients[c].read.Some? ==> ReadOk(w', w.clients[c].name, w.clients[c].read.value)
    ensures ClientOk(w', c)
  {
  }

  lemma {:induction false} ClientCallKey(w: World, c: nat)
    requires LockInv(w) && c < |w.clients|
    ensures var pc := w.clients[c].pc;
            pc.AcqPut? || pc.AcqCheck? || pc.RelPut? || pc.RelCheck? ==>
              pc.id < |w.kv.calls| && w.kv.calls[pc.id].key == w.clients[c].name && PurposeOk(w, pc.id)
  {
    assert ClientOk(w, c);
    var pc := w.clients[c].pc;
    if pc.AcqPut? || pc.AcqCheck? || pc.RelPut? || pc.RelCheck? {
      assert PurposeOk(w, pc.id);
    }
  }

  /** A put that takes effect on the client's key: the client's own, or one that finds the client not an owner. */
  lemma {:induction false} EffectiveExecute(w: World, a: Attempt, c: nat)
    requires LockInv(w) && a in w.kv.flight && a.id < |w.kv.calls| && c < |w.clients|
    requires w.kv.calls[a.id].key == w.clients[c].name
    requires VersionOf(w.kv.store, w.kv.calls[a.id].key) == w.kv.calls[a.id].version
    ensures ClientOk(w.(kv := ExecutePut(w.kv, a)), c)
  {
    var w' := w.(kv := ExecutePut(w.kv, a));
    var x, call := w.clients[c], w.kv.calls[a.id];
    assert ClientOk(w, c);
    assert KeyOk(w.kv, x.name);
    StepIsLater(w.kv, Clerk.Execute(a));
    if x.read.Some? {
      ReadStays(w, w', x.name, x.read.value);
    }
    ClientCallKey(w, c);
    EffectiveExecutePc(w, a, c);
  }

  ghost predicate Owning(w: World, c: nat)
    requires c < |w.clients|
  {
    match w.clients[c].pc
    case AcqPut(id, token) => CallTookEffect(w.kv, id)
    case AcqCheck(id, token) => CallTookEffect(w.kv, id)
    case Held(token) => true
    case RelGet(token) => true
    case RelPut(id, token) => !CallTookEffect(w.kv, id)
    case _ => false
  }

  lemma {:induction false} OwningOwns(w: World, c: nat)
    requires LockInv(w) && c < |w.clients| && Owning(w, c)
    ensures w.clients[c].pc.token != UNLOCKED && Owns(w, w.clients[c].name, c, w.clients[c].pc.token)
  {
    assert ClientOk(w, c);
    ClientCallKey(w, c);
  }

  lemma {:induction false} EffectiveExecutePc(w: World, a: Attempt, c: nat)
    requires LockInv(w) && a in w.kv.flight && a.id < |w.kv.calls| && c < |w.clients|
    requires w.kv.calls[a.id].key == w.clients[c].name
    requires VersionOf(w.kv.store, w.kv.calls[a.id].key) == w.kv.calls[a.id].version
    requires var w' := w.(kv := ExecutePut(w.kv, a));
             w.clients[c].read.Some? ==> ReadOk(w', w.clients[c].name, w.clients[c].read.value)
    ensures ClientOk(w.(kv := ExecutePut(w.kv, a)), c)
  {
    var w' := w.(kv := ExecutePut(w.kv, a));
    var x, call := w.clients[c], w.kv.calls[a.id];
    assert ClientOk(w, c);
    assert KeyOk(w.kv, x.name);
    ClientCallKey(w, c);
    if Owning(w, c) {
      OwningOwns(w, c);
      OnlyOwnReleaseTakesEffect(w, a, c, x.pc.token);
    } else {
      assert PurposeOk(w, a.id);
      if w.purposes[a.id].Acquire? && w.purposes[a.id].c == c {
        EffectiveCallIsOpen(w, a);
      }
    }
  }

  lemma {:induction false} ExecuteKeepsLock(w: World, a: Attempt)
    requires LockInv(w) && a in w.kv.flight && a.id < |w.kv.calls|
    ensures LockInv(w.(kv := ExecutePut(w.kv, a)))
  {
    var w' := w.(kv := ExecutePut(w.kv, a));
    ExecuteKeepsInv(w.kv, a);
    forall id | 0 <= id < |w'.purposes| ensures PurposeOk(w', id) {
      ExecuteKeepsPurpose(w, a, id);
    }
    forall c | 0 <= c < |w'.clients| ensures ClientOk(w', c) {
      if w.kv.calls[a.id].key == w.clients[c].name &&
        VersionOf(w.kv.store, w.kv.calls[a.id].key) == w.kv.calls[a.id].version
      {
        EffectiveExecute(w, a, c);
      } else {
        QuietExecute(w, a, c);
      }
    }
  }

  /** A failed attempt or a returned call: the store and the effects stay as they are. */
  lemma {:induction false} NoEffectKeepsLock(w: World, step: Step)
    requires LockInv(w) && Enabled(w.kv, step) && (step.Fail? || step.Return?)
    ensures LockInv(w.(kv := Clerk.Next(w.kv, step)))
  {
    var w' := w.(kv := Clerk.Next(w.kv, step));
    StepKeepsInv(w.kv, step);
    StepIsLater(w.kv, step);
    forall id | 0 <= id < |w'.purposes| ensures PurposeOk(w', id) {
      NoEffectKeepsPurpose(w, step, id);
    }
    forall c | 0 <= c < |w'.clients| ensures ClientOk(w', c) {
      NoEffectKeepsClient(w, step, c);
    }
  }

  lemma {:induction false} NoEffectKeepsPurpose(w: World, step: Step, id: nat)
    requires LockInv(w) && Enabled(w.kv, step) && (step.Fail? || step.Return?) && id < |w.purposes|
    ensures PurposeOk(w.(kv := Clerk.Next(w.kv, step)), id)
  {
    var kv' := Clerk.Next(w.kv, step);
    assert PurposeOk(w, id);
    assert CallOk(w.kv, id);
    var call := w.kv.calls[id];
    StepIsLater(w.kv, step);
    assert KeyOk(w.kv, call.key);
    ValueAtStays(w.kv, kv', call.key, call.version);
    if step.Return? && step.id == id {
      assert ReplyOk(w.kv, Current(w.kv, id));
    }
  }

  lemma {:induction false} NoEffectKeepsClient(w: World, step: Step, c: nat)
    requires LockInv(w) && Enabled(w.kv, step) && (step.Fail? || step.Return?) && c < |w.clients|
    ensures ClientOk(w.(kv := Clerk.Next(w.kv, step)), c)
  {
    var w' := w.(kv := Clerk.Next(w.kv, step));
    StepIsLater(w.kv, step);
    ReadStaysOk(w, w', c);
    ClientCallKey(w, c);
    SameKeySameClient(w, w', c);
  }

  lemma {:induction false} ReadStaysOk(w: World, w': World, c: nat)
    requires LockInv(w) && c < |w.clients| && Later(w.kv, w'.kv)
    requires VersionOf(w.kv.store, w.clients[c].name) <= VersionOf(w'.kv.store, w.clients[c].name)
    ensures w.clients[c].read.Some? ==> ReadOk(w', w.clients[c].name, w.clients[c].read.value)
  {
    var x := w.clients[c];
    assert ClientOk(w, c);
    assert KeyOk(w.kv, x.name);
    if x.read.Some? {
      ReadStays(w, w', x.name, x.read.value);
    }
  }

  // ---------------------------------------------------------------- the clients' moves

  /** A move of client c that starts no put: its own new place, and no unanswered call left behind. */
  lemma {:induction false} GotoKeepsLock(w: World, c: nat, x: Client)
    requires LockInv(w) && c < |w.clients| && x.name == w.clients[c].name
    requires w.clients[c].pc.AcqPut? || w.clients[c].pc.RelPut? ==> Returned(w, w.clients[c].pc.id)
    requires ClientOk(w.(clients := w.clients[c := x]), c)
    ensures LockInv(w.(clients := w.clients[c := x]))
  {
    var w' := w.(clients := w.clients[c := x]);
    forall id | 0 <= id < |w'.purposes| ensures PurposeOk(w', id) {
      assert PurposeOk(w, id);
    }
    forall d | 0 <= d < |w'.clients| ensures ClientOk(w', d) {
      assert d != c ==> ClientOk(w, d);
    }
  }

  lemma {:induction false} ReadOkNow(w: World, c: nat, key: string)
    requires Clerk.Inv(w.kv) && c < |w.clients|
    ensures var x := w.clients[c].(read := Some(DoGet(w.kv.store, key)));
            ReadOk(w.(clients := w.clients[c := x]), key, DoGet(w.kv.store, key))
  {
    assert KeyOk(w.kv, key);
    if key in w.kv.store {
      assert WinOk(w.kv, key, |Wins(w.kv, key)| - 1);
    }
  }

  /** What the server answers to a Get of a client fits what is known of the client. */
  lemma {:induction false} ReadClientOk(w: World, c: nat)
    requires LockInv(w) && c < |w.clients| && Getting(w.clients[c].pc)
    ensures var x := w.clients[c].(read := Some(DoGet(w.kv.store, w.clients[c].name)));
            ClientOk(w.(clients := w.clients[c := x]), c)
  {
    var x := w.clients[c];
    assert ClientOk(w, c);
    ClientCallKey(w, c);
    ReadOkNow(w, c, x.name);
    if x.name in w.kv.store && w.kv.store[x.name].value != UNLOCKED {
      StoredByAcquire(w, x.name);
    }
    if x.pc.RelCheck? {
      ReleasedStays(w, c);
    }
  }

  lemma {:induction false} ReadKeepsLock(w: World, c: nat)
    requires LockInv(w) && Possible(w, Read(c))
    ensures LockInv(Next(w, Read(c)))
  {
    ReadClientOk(w, c);
    GotoKeepsLock(w, c, w.clients[c].(read := Some(DoGet(w.kv.store, w.clients[c].name))));
  }

  /** After its release took effect, a token is not stored again. */
  lemma {:induction false} ReleasedStays(w: World, c: nat)
    requires LockInv(w) && c < |w.clients| && w.clients[c].pc.RelCheck?
    ensures var x := w.clients[c]; x.name in w.kv.store && w.kv.store[x.name].value != x.pc.token
  {
    var x := w.clients[c];
    var id := x.pc.id;
    assert ClientOk(w, c);
    ClientCallKey(w, c);
    var u := w.kv.calls[id].version;
    assert KeyOk(w.kv, x.name);
    assert WinOk(w.kv, x.name, u - 1);
    var i := Wins(w.kv, x.name)[u - 1].id;
    assert PurposeOk(w, i);
    if w.kv.store[x.name].value == x.pc.token {
      StoredByAcquire(w, x.name);
    }
  }

  lemma {:induction false} GotCheckKeepsLock(w: World, c: nat)
    requires LockInv(w) && Possible(w, GotCheck(c))
    ensures LockInv(Next(w, GotCheck(c)))
  {
    var x := w.clients[c];
    assert ClientOk(w, c);
    ClientCallKey(w, c);
    GotoKeepsLock(w, c, x.(pc := if x.read.value.value == x.pc.token then Held(x.pc.token) else AcqGet, read := None));
  }

  lemma {:induction false} PutAcquiredKeepsLock(w: World, c: nat)
    requires LockInv(w) && Possible(w, PutAcquired(c))
    ensures LockInv(Next(w, PutAcquired(c)))
  {
    var x := w.clients[c];
    assert ClientOk(w, c);
    ClientCallKey(w, c);
    assert CallOk(w.kv, x.pc.id);
    GotoKeepsLock(w, c, Next(w, PutAcquired(c)).clients[c]);
  }

  /** A release that was answered without OK or ErrMaybe cannot be: its put would have found its version. */
  lemma {:induction false} ReleaseAnswers(w: World, c: nat)
    requires LockInv(w) && Possible(w, PutReleased(c))
    ensures CallTookEffect(w.kv, w.clients[c].pc.id)
    ensures w.kv.calls[w.clients[c].pc.id].answer.value in {OK, ErrMaybe}
  {
    var id := w.clients[c].pc.id;
    assert ClientOk(w, c);
    ClientCallKey(w, c);
    assert CallOk(w.kv, id);
    var call := w.kv.calls[id];
    assert KeyOk(w.kv, call.key);
    assert WinOk(w.kv, call.key, call.version);
    assert ReplyOk(w.kv, Wins(w.kv, call.key)[call.version]);
  }

  lemma {:induction false} PutReleasedKeepsLock(w: World, c: nat)
    requires LockInv(w) && Possible(w, PutReleased(c))
    ensures LockInv(Next(w, PutReleased(c)))
  {
    assert ClientOk(w, c);
    ReleaseAnswers(w, c);
    GotoKeepsLock(w, c, Next(w, PutReleased(c)).clients[c]);
  }

  lemma {:induction false} GotRelCheckKeepsLock(w: World, c: nat)
    requires LockInv(w) && Possible(w, GotRelCheck(c))
    ensures LockInv(Next(w, GotRelCheck(c))) && Next(w, GotRelCheck(c)).clients[c].pc == Idle
  {
    assert ClientOk(w, c);
    GotoKeepsLock(w, c, Next(w, GotRelCheck(c)).clients[c]);
  }

  // ---------------------------------------------------------------- moves that start a put

  lemma {:induction false} StartPutKeepsPurpose(w: World, c: nat, value: string, version: nat, why: Purpose, pc: Pc,
                                                used: set<string>, id: nat)
    requires LockInv(w) && c < |w.clients| && id < |w.purposes| && w.used <= used
    requires !w.clients[c].pc.AcqPut? && !w.clients[c].pc.RelPut?
    ensures PurposeOk(StartPut(w, c, value, version, why, pc).(used := used), id)
  {
    var w' := StartPut(w, c, value, version, why, pc).(used := used);
    assert PurposeOk(w, id);
    assert CallOk(w.kv, id);
    var call := w.kv.calls[id];
    assert KeyOk(w.kv, call.key);
    StepIsLater(w.kv, Begin(w.clients[c].name, value, version));
    ValueAtStays(w.kv, w'.kv, call.key, call.version);
    assert w'.kv.calls[id] == call;
  }

  lemma {:induction false} StartPutKeepsClient(w: World, c: nat, value: string, version: nat, why: Purpose, pc: Pc,
                                               used: set<string>, d: nat)
    requires LockInv(w) && c < |w.clients| && d < |w.clients| && d != c
    ensures ClientOk(StartPut(w, c, value, version, why, pc).(used := used), d)
  {
    var w' := StartPut(w, c, value, version, why, pc).(used := used);
    StepIsLater(w.kv, Begin(w.clients[c].name, value, version));
    ReadStaysOk(w, w', d);
    ClientCallKey(w, d);
    SameKeySameClient(w, w', d);
  }

  lemma {:induction false} StartPutKeepsLock(w: World, c: nat, value: string, version: nat, why: Purpose, pc: Pc,
                                             used: set<string>)
    requires LockInv(w) && c < |w.clients| && w.used <= used
    requires !w.clients[c].pc.AcqPut? && !w.clients[c].pc.RelPut?
    requires why.Acquire? ==> why.token !in w.used
    requires var w' := StartPut(w, c, value, version, why, pc).(used := used);
             PurposeOk(w', |w.purposes|) && ClientOk(w', c)
    ensures LockInv(StartPut(w, c, value, version, why, pc).(used := used))
  {
    var w' := StartPut(w, c, value, version, why, pc).(used := used);
    BeginKeepsInv(w.kv, w.clients[c].name, value, version);
    forall id | 0 <= id < |w'.purposes| ensures PurposeOk(w', id) {
      if id < |w.purposes| {
        StartPutKeepsPurpose(w, c, value, version, why, pc, used, id);
      }
    }
    forall d | 0 <= d < |w'.clients| ensures ClientOk(w', d) {
      if d != c {
        StartPutKeepsClient(w, c, value, version, why, pc, used, d);
      }
    }
    NewTokenUnique(w, w', why);
  }

  /** An id that has not been drawn is in no purpose. */
  lemma {:induction false} NewTokenUnique(w: World, w': World, why: Purpose)
    requires LockInv(w) && w'.purposes == w.purposes + [why] && (why.Acquire? ==> why.token !in w.used)
    ensures TokensUnique(w')
  {
    forall i | 0 <= i < |w.purposes| ensures w.purposes[i].Acquire? ==> w.purposes[i].token in w.used {
      assert PurposeOk(w, i);
    }
  }

  lemma {:induction false} GotMakeKeepsLock(w: World, c: nat)
    requires LockInv(w) && Possible(w, GotMake(c))
    ensures LockInv(Next(w, GotMake(c)))
  {
    assert ClientOk(w, c);
    if w.clients[c].read.value.err == OK {
      GotoKeepsLock(w, c, Next(w, GotMake(c)).clients[c]);
    } else {
      StartPutKeepsLock(w, c, UNLOCKED, 0, Create, MakePut(|w.kv.calls|), w.used);
    }
  }

  /** The call a client starts is on the version that its Get returned. */
  lemma {:induction false} StartedOk(w: World, c: nat, value: string, why: Purpose, pc: Pc)
    requires LockInv(w) && c < |w.clients| && w.clients[c].read.Some? && w.clients[c].read.value.err == OK
    ensures var w' := StartPut(w, c, value, w.clients[c].read.value.version, why, pc);
            var id := |w.kv.calls|;
            var r := w.clients[c].read.value;
            && !CallTookEffect(w'.kv, id)
            && w'.kv.calls[id] ==
                 Call(w.clients[c].name, value, r.version, VersionOf(w.kv.store, w.clients[c].name), 1, None)
            && 1 <= r.version <= VersionOf(w.kv.store, w.clients[c].name)
            && ValueAt(w'.kv, w.clients[c].name, r.version) == r.value
  {
    var x := w.clients[c];
    var w' := StartPut(w, c, value, x.read.value.version, why, pc);
    assert ClientOk(w, c);
    assert KeyOk(w.kv, x.name);
    StepIsLater(w.kv, Begin(x.name, value, x.read.value.version));
    ValueAtStays(w.kv, w'.kv, x.name, x.read.value.version);
    if x.read.value.version < |Wins(w.kv, x.name)| {
      assert WinOk(w.kv, x.name, x.read.value.version);
    }
  }

  lemma {:induction false} GotAcquireKeepsLock(w: World, c: nat, token: string)
    requires LockInv(w) && Possible(w, GotAcquire(c, token))
    ensures LockInv(Next(w, GotAcquire(c, token)))
  {
    var x := w.clients[c];
    assert ClientOk(w, c);
    if x.read.value.value != UNLOCKED {
      GotoKeepsLock(w, c, x.(pc := AcqGet, read := None));
    } else {
      StartedOk(w, c, token, Acquire(c, token), AcqPut(|w.kv.calls|, token));
      StartPutKeepsLock(w, c, token, x.read.value.version, Acquire(c, token), AcqPut(|w.kv.calls|, token),
        w.used + {token});
    }
  }

  lemma {:induction false} GotReleaseKeepsLock(w: World, c: nat)
    requires LockInv(w) && Possible(w, GotRelease(c))
    ensures LockInv(Next(w, GotRelease(c)))
  {
    var x := w.clients[c];
    assert ClientOk(w, c);
    var mine := x.read.value.value;
    StartedOk(w, c, UNLOCKED, Release(c, mine), RelPut(|w.kv.calls|, mine));
    StartPutKeepsLock(w, c, UNLOCKED, x.read.value.version, Release(c, mine), RelPut(|w.kv.calls|, mine), w.used);
  }

  /** Every move of every client and of the network keeps the invariant. */
  lemma {:induction false} MoveKeepsLock(w: World, move: Move)
    requires LockInv(w) && Possible(w, move)
    ensures LockInv(Next(w, move))
  {
    match move
    case Net(step) =>
      if step.Execute? {
        ExecuteKeepsLock(w, step.a);
      } else {
        NoEffectKeepsLock(w, step);
      }
    case CallMake(c) => GotoKeepsLock(w, c, Next(w, move).clients[c]);
    case CallAcquire(c) => GotoKeepsLock(w, c, Next(w, move).clients[c]);
    case CallRelease(c) =>
      assert ClientOk(w, c);
      GotoKeepsLock(w, c, Next(w, move).clients[c]);
    case Read(c) => ReadKeepsLock(w, c);
    case GotMake(c) => GotMakeKeepsLock(w, c);
    case GotAcquire(c, token) => GotAcquireKeepsLock(w, c, token);
    case GotCheck(c) => GotCheckKeepsLock(w, c);
    case GotRelease(c) => GotReleaseKeepsLock(w, c);
    case GotRelCheck(c) => GotRelCheckKeepsLock(w, c);
    case PutMade(c) => GotoKeepsLock(w, c, Next(w, move).clients[c]);
    case PutAcquired(c) => PutAcquiredKeepsLock(w, c);
    case PutReleased(c) => PutReleasedKeepsLock(w, c);
  }

  // ---------------------------------------------------------------- runs

  ghost predicate Start(w: World) {
    && w.kv == EMPTY && w.purposes == [] && w.used == {}
    && forall c | 0 <= c < |w.clients| :: w.clients[c].pc == New && w.clients[c].read == None
  }

  ghost predicate IsLockRun(worlds: seq<World>, moves: seq<Move>) {
    && |worlds| == |moves| + 1
    && Start(worlds[0])
    && forall k {:trigger moves[k]} | 0 <= k < |moves| ::
         Possible(worlds[k], moves[k]) && worlds[k + 1] == Next(worlds[k], moves[k])
  }

  lemma {:induction false} RunKeepsLock(worlds: seq<World>, moves: seq<Move>, a: nat)
    requires IsLockRun(worlds, moves) && a < |worlds|
    ensures LockInv(worlds[a])
  {
    if a == 0 {
      EmptyInv();
    } else {
      RunKeepsLock(worlds, moves, a - 1);
      assert moves[a - 1] == moves[a - 1];
      MoveKeepsLock(worlds[a - 1], moves[a - 1]);
    }
  }

  /** From the return of Acquire until the put of Release takes effect. */
  predicate Holds(w: World, c: nat)
    requires c < |w.clients|
  {
    var pc := w.clients[c].pc;
    pc.Held? || pc.RelGet? || (pc.RelPut? && !CallTookEffect(w.kv, pc.id))
  }

  /**
   Mutual exclusion: in every run, at most one client holds a lock of a given name, and
   while it does, the value stored under that name is the client's own id.
   */
  lemma {:induction false} MutualExclusion(worlds: seq<World>, moves: seq<Move>, a: nat, c: nat, d: nat)
    requires IsLockRun(worlds, moves) && a < |worlds|
    requires c < |worlds[a].clients| && d < |worlds[a].clients|
    requires Holds(worlds[a], c)
    ensures var x := worlds[a].clients[c];
            x.name in worlds[a].kv.store && worlds[a].kv.store[x.name].value == x.pc.token != UNLOCKED
    ensures Holds(worlds[a], d) && worlds[a].clients[d].name == worlds[a].clients[c].name ==> d == c
  {
    RunKeepsLock(worlds, moves, a);
    OwningOwns(worlds[a], c);
    if Holds(worlds[a], d) && worlds[a].clients[d].name == worlds[a].clients[c].name {
      OwningOwns(worlds[a], d);
      OneOwner(worlds[a], worlds[a].clients[c].name, c, worlds[a].clients[c].pc.token, d,
        worlds[a].clients[d].pc.token);
    }
  }

  /** Release always ends with its own put: it returns only after that put took effect, and never gives up another's
      lock. */
  lemma {:induction false} ReleaseReleasesOwn(worlds: seq<World>, moves: seq<Move>, a: nat, c: nat)
    requires IsLockRun(worlds, moves) && a < |moves| && c < |worlds[a].clients|
    requires moves[a] == PutReleased(c) || moves[a] == GotRelCheck(c)
    ensures var id := worlds[a].clients[c].pc.id;
            && id < |worlds[a].purposes| && CallTookEffect(worlds[a].kv, id)
            && worlds[a].purposes[id] == Release(c, worlds[a].clients[c].pc.token)
            && (worlds[a + 1].clients[c].pc == Idle ||
                  worlds[a + 1].clients[c].pc == RelCheck(id, worlds[a].clients[c].pc.token))
  {
    RunKeepsLock(worlds, moves, a);
    assert moves[a] == moves[a];
    assert ClientOk(worlds[a], c);
    if moves[a] == PutReleased(c) {
      ReleaseAnswers(worlds[a], c);
    } else {
      GotRelCheckKeepsLock(worlds[a], c);
    }
  }

  // ---------------------------------------------------------------- no lock is taken by nobody

  /** A stored id is the id of a client that holds the lock or is still inside the Acquire that put it there. */
  ghost predicate Tenanted(w: World, key: string) {
    key in w.kv.store && w.kv.store[key].value != UNLOCKED ==>
      exists c :: TenantIs(w, key, c)
  }

  ghost predicate TenantIs(w: World, key: string, c: nat) {
    c < |w.clients| && w.clients[c].name == key && Owning(w, c) && key in w.kv.store &&
      w.clients[c].pc.token == w.kv.store[key].value
  }

  ghost predicate NoOrphan(w: World) {
    forall key {:trigger Tenanted(w, key)} :: Tenanted(w, key)
  }

  lemma {:induction false} ExecuteKeepsTenant(w: World, a: Attempt, key: string)
    requires LockInv(w) && Tenanted(w, key) && a in w.kv.flight && a.id < |w.kv.calls|
    ensures Tenanted(w.(kv := ExecutePut(w.kv, a)), key)
  {
    var w' := w.(kv := ExecutePut(w.kv, a));
    var call := w.kv.calls[a.id];
    assert PurposeOk(w, a.id);
    assert KeyOk(w.kv, key);
    if call.key == key && VersionOf(w.kv.store, key) == call.version {
      if w.purposes[a.id].Acquire? {
        EffectiveCallIsOpen(w, a);
        assert TenantIs(w', key, w.purposes[a.id].c);
      }
    } else if key in w.kv.store && w.kv.store[key].value != UNLOCKED {
      var c :| TenantIs(w, key, c);
      ClientCallKey(w, c);
      assert KeyOk(w.kv, call.key);
      assert TenantIs(w', key, c);
    }
  }

  lemma {:induction false} NoEffectKeepsTenant(w: World, step: Step, key: string)
    requires LockInv(w) && Tenanted(w, key) && Enabled(w.kv, step) && (step.Fail? || step.Return?)
    ensures Tenanted(w.(kv := Clerk.Next(w.kv, step)), key)
  {
    if key in w.kv.store && w.kv.store[key].value != UNLOCKED {
      var c :| TenantIs(w, key, c);
      ClientCallKey(w, c);
      assert TenantIs(w.(kv := Clerk.Next(w.kv, step)), key, c);
    }
  }

  /** A put answered ErrVersion or ErrNoKey by an existing key took no effect. */
  lemma {:induction false} RefusedHadNoEffect(w: World, c: nat)
    requires LockInv(w) && Possible(w, PutAcquired(c))
    ensures var id := w.clients[c].pc.id;
            w.kv.calls[id].answer.value in {OK, ErrMaybe} || !CallTookEffect(w.kv, id)
  {
    var id := w.clients[c].pc.id;
    assert ClientOk(w, c);
    ClientCallKey(w, c);
    assert CallOk(w.kv, id);
    if CallTookEffect(w.kv, id) {
      var call := w.kv.calls[id];
      assert KeyOk(w.kv, call.key);
      assert WinOk(w.kv, call.key, call.version);
      assert ReplyOk(w.kv, Wins(w.kv, call.key)[call.version]);
    }
  }

  /** A client's own move leaves it an owner if it was one. */
  lemma {:induction false} OwnMoveKeepsOwning(w: World, move: Move)
    requires LockInv(w) && Possible(w, move) && !move.Net? && Owning(w, move.c)
    ensures Owning(Next(w, move), move.c) && Next(w, move).clients[move.c].pc.token == w.clients[move.c].pc.token
  {
    var c := move.c;
    assert ClientOk(w, c);
    ClientCallKey(w, c);
    match move
    case PutAcquired(_) =>
      assert CallOk(w.kv, w.clients[c].pc.id);
      RefusedHadNoEffect(w, c);
    case PutReleased(_) => ReleaseAnswers(w, c);
    case GotRelease(_) =>
      var mine := w.clients[c].read.value.value;
      StartedOk(w, c, UNLOCKED, Release(c, mine), RelPut(|w.kv.calls|, mine));
    case _ =>
  }

  /** A client's own move does not change the store and only adds to the calls. */
  lemma {:induction false} OwnMoveStore(w: World, move: Move)
    requires Possible(w, move) && !move.Net?
    ensures var w' := Next(w, move);
            w'.kv.store == w.kv.store && w'.kv.won == w.kv.won && w.kv.calls <= w'.kv.calls
  {
  }

  /** A client's own move changes neither its lock's name nor any other client. */
  lemma {:induction false} OwnMoveClients(w: World, move: Move)
    requires Possible(w, move) && !move.Net?
    ensures var w' := Next(w, move);
            && |w'.clients| == |w.clients| && w'.clients[move.c].name == w.clients[move.c].name
            && forall d | 0 <= d < |w.clients| && d != move.c :: w'.clients[d] == w.clients[d]
  {
  }

  lemma {:induction false} OthersKeepOwning(w: World, w': World, c: nat)
    requires LockInv(w) && c < |w.clients| && c < |w'.clients| && Owning(w, c)
    requires w'.clients[c] == w.clients[c] && w'.kv.won == w.kv.won && w.kv.calls <= w'.kv.calls
    ensures Owning(w', c)
  {
    ClientCallKey(w, c);
  }

  lemma {:induction false} OwnMoveKeepsTenant(w: World, move: Move, key: string)
    requires LockInv(w) && Tenanted(w, key) && Possible(w, move) && !move.Net?
    ensures Tenanted(Next(w, move), key)
  {
    OwnMoveStore(w, move);
    OwnMoveClients(w, move);
    if key in w.kv.store && w.kv.store[key].value != UNLOCKED {
      var c :| TenantIs(w, key, c);
      if c == move.c {
        OwnMoveKeepsOwning(w, move);
      } else {
        OthersKeepOwning(w, Next(w, move), c);
      }
      assert TenantIs(Next(w, move), key, c);
    }
  }

  lemma {:induction false} MoveKeepsTenants(w: World, move: Move)
    requires LockInv(w) && NoOrphan(w) && Possible(w, move)
    ensures NoOrphan(Next(w, move))
  {
    forall key ensures Tenanted(Next(w, move), key) {
      assert Tenanted(w, key);
      if !move.Net? {
        OwnMoveKeepsTenant(w, move, key);
      } else if move.step.Execute? {
        ExecuteKeepsTenant(w, move.step.a, key);
      } else {
        NoEffectKeepsTenant(w, move.step, key);
      }
    }
  }

  lemma {:induction false} RunKeepsTenants(worlds: seq<World>, moves: seq<Move>, a: nat)
    requires IsLockRun(worlds, moves) && a < |worlds|
    ensures NoOrphan(worlds[a])
  {
    if a > 0 {
      RunKeepsTenants(worlds, moves, a - 1);
      RunKeepsLock(worlds, moves, a - 1);
      assert moves[a - 1] == moves[a - 1];
      MoveKeepsTenants(worlds[a - 1], moves[a - 1]);
    }
  }

  /** In every run, a lock whose stored value is not "None" has a client that holds it or is about to learn that it
      does. */
  lemma {:induction false} NoLockIsOrphaned(worlds: seq<World>, moves: seq<Move>, a: nat, key: string)
    requires IsLockRun(worlds, moves) && a < |worlds|
    requires key in worlds[a].kv.store && worlds[a].kv.store[key].value != UNLOCKED
    ensures exists c :: TenantIs(worlds[a], key, c)
  {
    RunKeepsTenants(worlds, moves, a);
    assert Tenanted(worlds[a], key);
  }
}
