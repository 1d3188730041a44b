/**
 What the lock of Lock.dfy can still do from every state of every run. Whatever was lost,
 delayed, retried or executed late and wherever the clients stand: every client can come
 to hold its lock, and a client that holds it can give it back.
 */
module LockProgress {
  import opened Basics
  import opened Kv
  import opened Clerk
  import opened Lock
  import opened ClerkProgress
  import Runs

  // ---------------------------------------------------------------- what Acquire does, exactly

  /**
   A client whose Get returned "None" at some version starts exactly one put, of the new id on its own lock at that
   version; a client that read anything else starts nothing and reads again.
   */
  lemma {:induction false} AcquireTries(w: World, c: nat, token: string)
    requires Possible(w, GotAcquire(c, token))
    ensures var w', x := Lock.Next(w, GotAcquire(c, token)), w.clients[c];
            && w'.kv.store == w.kv.store && OnlyMoves(w, w', c)
            && if x.read.value.value != UNLOCKED then
                 w'.kv == w.kv && w'.clients[c].pc == AcqGet && w'.used == w.used
               else
                 && Starts(w, w', x.name, token, x.read.value.version) && token in w'.used && token !in w.used
                 && w'.clients[c].pc == AcqPut(|w.kv.calls|, token)
  {
  }

  /**
   What Acquire makes of the answer to its put: OK means held, ErrMaybe means that the lock is read again, and what
   that read shows decides rightly: held exactly when the put took effect. Trying again means that it did not.
   */
  lemma {:induction false} AcquireDecides(worlds: seq<World>, moves: seq<Move>, a: nat, c: nat)
    requires IsLockRun(worlds, moves) && a < |moves| && c < |worlds[a].clients|
    requires moves[a] == PutAcquired(c) || moves[a] == GotCheck(c)
    ensures |worlds[a + 1].clients| == |worlds[a].clients|
    ensures var w, w' := worlds[a], worlds[a + 1];
            var id, token, pc' := w.clients[c].pc.id, w.clients[c].pc.token, w'.clients[c].pc;
            && id < |w.kv.calls| && w.kv.calls[id].answer.Some?
            && pc' in {Held(token), AcqGet, AcqCheck(id, token)}
            && (pc'.Held? ==> CallTookEffect(w.kv, id)) && (pc'.AcqGet? ==> !CallTookEffect(w.kv, id))
            && (moves[a].PutAcquired? ==> (pc'.Held? <==> w.kv.calls[id].answer == Some(OK)))
            && (pc'.AcqCheck? <==> moves[a].PutAcquired? && w.kv.calls[id].answer == Some(ErrMaybe))
  {
    RunKeepsLock(worlds, moves, a);
    assert moves[a] == moves[a];
    assert ClientOk(worlds[a], c);
    ClientCallKey(worlds[a], c);
    assert CallOk(worlds[a].kv, worlds[a].clients[c].pc.id);
    if moves[a].PutAcquired? {
      RefusedHadNoEffect(worlds[a], c);
    }
  }

  /** MakeLock puts "None" at version 0 on its own lock exactly when there is no such key yet. */
  lemma {:induction false} MakeTries(w: World, c: nat)
    requires Possible(w, GotMake(c))
    ensures var w', x := Lock.Next(w, GotMake(c)), w.clients[c];
            && w'.kv.store == w.kv.store && OnlyMoves(w, w', c)
            && if x.read.value.err == OK then
                 w'.kv == w.kv && w'.clients[c].pc == Idle
               else
                 Starts(w, w', x.name, UNLOCKED, 0) && w'.clients[c].pc == MakePut(|w.kv.calls|)
  {
  }

  /** Release puts "None" on its own lock at the version it has read, and remembers what it read. */
  lemma {:induction false} ReleaseTries(w: World, c: nat)
    requires Possible(w, GotRelease(c))
    ensures var w', x := Lock.Next(w, GotRelease(c)), w.clients[c];
            && w'.kv.store == w.kv.store && OnlyMoves(w, w', c)
            && Starts(w, w', x.name, UNLOCKED, x.read.value.version)
            && w'.clients[c].pc == RelPut(|w.kv.calls|, x.read.value.value)
  {
  }

  /** Exactly one put is started. */
  predicate Starts(w: World, w': World, key: string, value: string, version: nat) {
    && |w'.kv.calls| == |w.kv.calls| + 1 && w.kv.calls <= w'.kv.calls
    && w'.kv.flight == w.kv.flight + {Attempt(|w.kv.calls|, 0)}
    && var call := w'.kv.calls[|w.kv.calls|];
       call.key == key && call.value == value && call.version == version && call.sent == 1
  }

  /** What Release makes of the answer to its put: OK ends it, ErrMaybe makes it read again, and what it then reads
      always ends it. Its put has taken effect in every case, so it never tries twice. */
  lemma {:induction false} ReleaseDecides(worlds: seq<World>, moves: seq<Move>, a: nat, c: nat)
    requires IsLockRun(worlds, moves) && a < |moves| && c < |worlds[a].clients|
    requires moves[a] == PutReleased(c) || moves[a] == GotRelCheck(c)
    ensures |worlds[a + 1].clients| == |worlds[a].clients|
    ensures var w, pc' := worlds[a], worlds[a + 1].clients[c].pc;
            var id, token := w.clients[c].pc.id, w.clients[c].pc.token;
            && id < |w.kv.calls| && CallTookEffect(w.kv, id)
            && (moves[a].PutReleased? ==> w.kv.calls[id].answer in {Some(OK), Some(ErrMaybe)})
            && pc' == if moves[a].PutReleased? && w.kv.calls[id].answer == Some(ErrMaybe) then RelCheck(id, token)
                      else Idle
  {
    RunKeepsLock(worlds, moves, a);
    assert moves[a] == moves[a];
    assert ClientOk(worlds[a], c);
    ReleaseReleasesOwn(worlds, moves, a, c);
    if moves[a].PutReleased? {
      ReleaseAnswers(worlds[a], c);
    }
  }

  // ---------------------------------------------------------------- every lock in use exists

  /** MakeLock leaves an existing key behind. */
  ghost predicate MadeOk(w: World, c: nat)
    requires c < |w.clients|
  {
    var x := w.clients[c];
    match x.pc
    case New => true
    case MakeGet => true
    case MakePut(id) =>
      && id < |w.kv.calls| && w.kv.calls[id].key == x.name
      && w.kv.calls[id].version == 0 && w.kv.calls[id].value == UNLOCKED
    case _ => x.name in w.kv.store
  }

  ghost predicate Made(w: World) {
    forall c {:trigger MadeOk(w, c)} | 0 <= c < |w.clients| :: MadeOk(w, c)
  }

  /** Keys stay, and calls keep what they ask for. */
  lemma {:induction false} NetKeepsMade(w: World, step: Step)
    requires LockInv(w) && Made(w) && Possible(w, Net(step))
    ensures Made(Lock.Next(w, Net(step)))
  {
    var w' := Lock.Next(w, Net(step));
    forall c | 0 <= c < |w'.clients| ensures MadeOk(w', c) {
      assert MadeOk(w, c);
    }
  }

  /** A put with version 0 that has been answered left the key there. */
  lemma {:induction false} PutMadeKey(w: World, c: nat)
    requires LockInv(w) && Possible(w, PutMade(c)) && MadeOk(w, c)
    ensures w.clients[c].name in w.kv.store
  {
    var id := w.clients[c].pc.id;
    assert CallOk(w.kv, id);
    assert KeyOk(w.kv, w.clients[c].name);
    var last := Attempt(id, w.kv.calls[id].sent - 1);
    assert last in w.kv.replies ==> ReplyOk(w.kv, last);
  }

  lemma {:induction false} OwnMoveKeepsMade(w: World, move: Move)
    requires LockInv(w) && Made(w) && Possible(w, move) && !move.Net?
    ensures MadeOk(Lock.Next(w, move), move.c)
  {
    var c := move.c;
    assert MadeOk(w, c) && ClientOk(w, c);
    if move.PutMade? {
      PutMadeKey(w, c);
    }
  }

  lemma {:induction false} MoveKeepsMade(w: World, move: Move)
    requires LockInv(w) && Made(w) && Possible(w, move)
    ensures Made(Lock.Next(w, move))
  {
    if move.Net? {
      NetKeepsMade(w, move.step);
    } else {
      var w' := Lock.Next(w, move);
      OwnMoveStore(w, move);
      OwnMoveClients(w, move);
      OwnMoveKeepsMade(w, move);
      forall c | 0 <= c < |w'.clients| ensures MadeOk(w', c) {
        assert MadeOk(w, c);
      }
    }
  }

  // ---------------------------------------------------------------- where a world leads

  ghost predicate Good(w: World) {
    LockInv(w) && NoOrphan(w) && Made(w)
  }

  lemma {:induction false} GoodAt(worlds: seq<World>, moves: seq<Move>, a: nat)
    requires IsLockRun(worlds, moves) && a < |worlds|
    ensures Good(worlds[a])
  {
    RunKeepsLock(worlds, moves, a);
    RunKeepsTenants(worlds, moves, a);
    if a > 0 {
      GoodAt(worlds, moves, a - 1);
      assert moves[a - 1] == moves[a - 1];
      MoveKeepsMade(worlds[a - 1], moves[a - 1]);
    }
  }

  function Can(): (World, Move) -> bool {
    (w: World, move: Move) => Possible(w, move)
  }

  function After(): (World, Move) -> World {
    (w: World, move: Move) => if Possible(w, move) then Lock.Next(w, move) else w
  }

  ghost predicate Leads(w: World, v: World) {
    Runs.Leads(Can(), After(), w, v)
  }

  lemma {:induction false} Go(w: World, v: World, move: Move) returns (u: World)
    requires Leads(w, v) && Good(v) && Possible(v, move)
    ensures u == Lock.Next(v, move) && Leads(w, u) && Good(u)
  {
    u := Lock.Next(v, move);
    Runs.One(Can(), After(), v, move);
    Runs.Join(Can(), After(), w, v, u);
    MoveKeepsLock(v, move);
    MoveKeepsTenants(v, move);
    MoveKeepsMade(v, move);
  }

  lemma {:induction false} Continue(worlds: seq<World>, moves: seq<Move>, v: World)
    returns (worlds': seq<World>, moves': seq<Move>)
    requires IsLockRun(worlds, moves) && Leads(worlds[|moves|], v)
    ensures IsLockRun(worlds', moves') && worlds <= worlds' && moves <= moves' && worlds'[|moves'|] == v
  {
    worlds', moves' := Runs.Continue(Can(), After(), worlds, moves, v);
    assert worlds'[0] == worlds[0];
  }

  /** Only client c has moved. */
  ghost predicate OnlyMoves(v: World, u: World, c: nat) {
    && |u.clients| == |v.clients|
    && (forall d | 0 <= d < |v.clients| && d != c :: u.clients[d] == v.clients[d])
    && (c < |v.clients| ==> u.clients[c].name == v.clients[c].name)
  }

  /** The Get that is running has been executed. */
  lemma {:induction false} HasRead(w: World, v: World, c: nat) returns (u: World)
    requires Leads(w, v) && Good(v) && c < |v.clients| && Getting(v.clients[c].pc)
    ensures Leads(w, u) && Good(u) && OnlyMoves(v, u, c) && u.kv == v.kv && u.used == v.used
    ensures u.clients[c].pc == v.clients[c].pc && u.clients[c].read == Some(DoGet(v.kv.store, v.clients[c].name))
  {
    u := Go(w, v, Read(c));
  }

  // ---------------------------------------------------------------- a put gets its answer

  lemma {:induction false} GoNet(w: World, v: World, step: Step) returns (u: World)
    requires Leads(w, v) && Good(v) && !step.Begin? && Enabled(v.kv, step)
    ensures u == v.(kv := Clerk.Next(v.kv, step)) && Leads(w, u) && Good(u)
  {
    u := Go(w, v, Net(step));
  }

  lemma {:induction false} Retries(w: World, v: World, id: nat) returns (u: World)
    requires Leads(w, v) && Good(v) && id < |v.kv.calls| && v.kv.calls[id].answer.None?
    ensures Leads(w, u) && Good(u) && u == v.(kv := Retried(v.kv, id))
  {
    RetryEnabled(v.kv, id);
    u := GoNet(w, v, Fail(id, false));
    u := GoNet(w, u, Execute(Attempt(id, v.kv.calls[id].sent)));
    u := GoNet(w, u, Return(id));
  }

  /** One more attempt, executed and returned: a put that has not taken effect does so now, if its version still
      stands. */
  lemma {:induction false} PutReturns(w: World, v: World, id: nat) returns (u: World)
    requires Leads(w, v) && Good(v) && id < |v.kv.calls| && v.kv.calls[id].answer.None?
    ensures Leads(w, u) && Good(u) && u.clients == v.clients && u.purposes == v.purposes && u.used == v.used
    ensures |u.kv.calls| == |v.kv.calls| && u.kv.calls[id].answer.Some?
    ensures var call := v.kv.calls[id];
            if Effective(v.kv, id) then
              && u.kv.store == v.kv.store[call.key := Versioned(call.value, call.version + 1)]
              && CallTookEffect(u.kv, id) && u.kv.calls[id].answer == Some(OK)
            else
              u.kv.store == v.kv.store && (CallTookEffect(u.kv, id) <==> CallTookEffect(v.kv, id))
  {
    u := Retries(w, v, id);
    RetryExact(v.kv, id);
  }

  // ---------------------------------------------------------------- an Acquire comes to an end

  /** The read that follows an unsure put. */
  lemma {:induction false} CheckSettles(w: World, v: World, c: nat) returns (u: World)
    requires Leads(w, v) && Good(v) && c < |v.clients| && v.clients[c].pc.AcqCheck?
    ensures Leads(w, u) && Good(u) && OnlyMoves(v, u, c) && u.kv.store == v.kv.store
    ensures if Owning(v, c) then u.clients[c].pc.Held? else u.clients[c].pc == AcqGet
  {
    u := HasRead(w, v, c);
    assert ClientOk(u, c);
    u := Go(w, u, GotCheck(c));
  }

  /** What the answer to the put of an Acquire leads to. */
  lemma {:induction false} AnswerLeadsTo(v: World, c: nat)
    requires LockInv(v) && Possible(v, PutAcquired(c))
    ensures var u := Lock.Next(v, PutAcquired(c));
            && OnlyMoves(v, u, c) && u.kv == v.kv
            && match u.clients[c].pc {
                 case Held(_) => Owning(v, c)
                 case AcqGet => !Owning(v, c)
                 case AcqCheck(_, _) => Owning(u, c) <==> Owning(v, c)
                 case _ => false
               }
  {
    assert ClientOk(v, c);
    assert CallOk(v.kv, v.clients[c].pc.id);
    RefusedHadNoEffect(v, c);
  }

  /** A put of Acquire that has its answer. */
  lemma {:induction false} AnswerSettles(w: World, v: World, c: nat) returns (u: World)
    requires Leads(w, v) && Good(v) && c < |v.clients| && Possible(v, PutAcquired(c))
    ensures Leads(w, u) && Good(u) && OnlyMoves(v, u, c) && u.kv.store == v.kv.store
    ensures if Owning(v, c) then u.clients[c].pc.Held? else u.clients[c].pc == AcqGet
  {
    AnswerLeadsTo(v, c);
    u := Go(w, v, PutAcquired(c));
    if u.clients[c].pc.AcqCheck? {
      u := CheckSettles(w, u, c);
    }
  }

  /** An Acquire that has sent its put ends held, or reads again with nothing changed. */
  lemma {:induction false} AcquireSettles(w: World, v: World, c: nat) returns (u: World)
    requires Leads(w, v) && Good(v) && c < |v.clients| && (v.clients[c].pc.AcqPut? || v.clients[c].pc.AcqCheck?)
    ensures Leads(w, u) && Good(u) && OnlyMoves(v, u, c)
    ensures u.clients[c].pc.Held? || (u.clients[c].pc == AcqGet && u.kv.store == v.kv.store && !Owning(v, c))
    ensures Owning(v, c) ==> u.kv.store == v.kv.store
  {
    if v.clients[c].pc.AcqCheck? {
      u := CheckSettles(w, v, c);
    } else {
      u := v;
      var id := v.clients[c].pc.id;
      assert ClientOk(v, c);
      if v.kv.calls[id].answer.None? {
        u := PutReturns(w, v, id);
      }
      u := AnswerSettles(w, u, c);
    }
  }

  // ---------------------------------------------------------------- a Release comes to an end

  /** The read that follows an unsure put. */
  lemma {:induction false} RelCheckEnds(w: World, v: World, c: nat) returns (u: World)
    requires Leads(w, v) && Good(v) && c < |v.clients| && v.clients[c].pc.RelCheck?
    ensures Leads(w, u) && Good(u) && OnlyMoves(v, u, c) && u.kv.store == v.kv.store && u.clients[c].pc == Idle
  {
    u := HasRead(w, v, c);
    assert ClientOk(u, c);
    u := Go(w, u, GotRelCheck(c));
  }

  /** A put of Release that took effect and has its answer. */
  lemma {:induction false} RelAnswerEnds(w: World, v: World, c: nat) returns (u: World)
    requires Leads(w, v) && Good(v) && c < |v.clients| && Possible(v, PutReleased(c))
    ensures Leads(w, u) && Good(u) && OnlyMoves(v, u, c) && u.kv.store == v.kv.store && u.clients[c].pc == Idle
  {
    ReleaseAnswers(v, c);
    u := Go(w, v, PutReleased(c));
    if u.clients[c].pc.RelCheck? {
      u := RelCheckEnds(w, u, c);
    }
  }

  /** The release took effect and the client learns of it. */
  lemma {:induction false} ReleaseEnds(w: World, v: World, c: nat) returns (u: World)
    requires Leads(w, v) && Good(v) && c < |v.clients|
    requires v.clients[c].pc.RelCheck? || (v.clients[c].pc.RelPut? && !Owning(v, c))
    ensures Leads(w, u) && Good(u) && OnlyMoves(v, u, c) && u.kv.store == v.kv.store && u.clients[c].pc == Idle
  {
    u := v;
    if u.clients[c].pc.RelCheck? {
      u := RelCheckEnds(w, u, c);
    } else {
      var id := u.clients[c].pc.id;
      assert ClientOk(u, c);
      if u.kv.calls[id].answer.None? {
        u := PutReturns(w, u, id);
      }
      u := RelAnswerEnds(w, u, c);
    }
  }

  /** The put of a Release that has not taken effect does so. */
  lemma {:induction false} ReleaseTakesEffect(w: World, v: World, c: nat) returns (u: World)
    requires Leads(w, v) && Good(v) && c < |v.clients| && v.clients[c].pc.RelPut? && Owning(v, c)
    ensures Leads(w, u) && Good(u) && OnlyMoves(v, u, c) && u.clients[c].pc == Idle
    ensures var key := v.clients[c].name; key in u.kv.store && u.kv.store[key].value == UNLOCKED
  {
    var id := v.clients[c].pc.id;
    assert ClientOk(v, c);
    ClientCallKey(v, c);
    u := PutReturns(w, v, id);
    u := RelAnswerEnds(w, u, c);
  }

  /** Whoever has the lock, wherever it stands, can go on to give it back. */
  lemma {:induction false} OwnerReleases(w: World, v: World, c: nat) returns (u: World)
    requires Leads(w, v) && Good(v) && c < |v.clients| && Owning(v, c)
    ensures Leads(w, u) && Good(u) && OnlyMoves(v, u, c) && u.clients[c].pc == Idle
    ensures var key := v.clients[c].name; key in u.kv.store && u.kv.store[key].value == UNLOCKED
  {
    u := v;
    if u.clients[c].pc.AcqPut? || u.clients[c].pc.AcqCheck? {
      u := AcquireSettles(w, u, c);
    }
    if u.clients[c].pc.Held? {
      u := Go(w, u, CallRelease(c));
    }
    if u.clients[c].pc.RelGet? {
      u := HasRead(w, u, c);
      u := ReadReleases(w, u, c);
    } else {
      u := ReleaseTakesEffect(w, u, c);
    }
  }

  lemma {:induction false} ReadReleases(w: World, v: World, c: nat) returns (u: World)
    requires Leads(w, v) && Good(v) && c < |v.clients| && Possible(v, GotRelease(c))
    ensures Leads(w, u) && Good(u) && OnlyMoves(v, u, c) && u.clients[c].pc == Idle
    ensures var key := v.clients[c].name; key in u.kv.store && u.kv.store[key].value == UNLOCKED
  {
    OwnMoveKeepsOwning(v, GotRelease(c));
    u := Go(w, v, GotRelease(c));
    u := ReleaseTakesEffect(w, u, c);
  }

  // ---------------------------------------------------------------- a free lock can be had

  predicate Free(v: World, key: string) {
    key in v.kv.store ==> v.kv.store[key].value == UNLOCKED
  }

  lemma {:induction false} MakePutEnds(w: World, v: World, c: nat) returns (u: World)
    requires Leads(w, v) && Good(v) && c < |v.clients| && Free(v, v.clients[c].name) && v.clients[c].pc.MakePut?
    ensures Leads(w, u) && Good(u) && OnlyMoves(v, u, c) && u.clients[c].pc == Idle && Free(u, v.clients[c].name)
  {
    var id := v.clients[c].pc.id;
    assert MadeOk(v, c);
    u := v;
    if u.kv.calls[id].answer.None? {
      u := PutReturns(w, u, id);
    }
    u := Go(w, u, PutMade(c));
  }

  lemma {:induction false} MakeGetEnds(w: World, v: World, c: nat) returns (u: World)
    requires Leads(w, v) && Good(v) && c < |v.clients| && Free(v, v.clients[c].name) && v.clients[c].pc.MakeGet?
    ensures Leads(w, u) && Good(u) && OnlyMoves(v, u, c) && u.clients[c].pc == Idle && Free(u, v.clients[c].name)
  {
    u := HasRead(w, v, c);
    u := Go(w, u, GotMake(c));
    if u.clients[c].pc.MakePut? {
      u := MakePutEnds(w, u, c);
    }
  }

  /** MakeLock comes to an end. */
  lemma {:induction false} MakeEnds(w: World, v: World, c: nat) returns (u: World)
    requires Leads(w, v) && Good(v) && c < |v.clients| && Free(v, v.clients[c].name)
    requires v.clients[c].pc.New? || v.clients[c].pc.MakeGet? || v.clients[c].pc.MakePut?
    ensures Leads(w, u) && Good(u) && OnlyMoves(v, u, c) && u.clients[c].pc == Idle && Free(u, v.clients[c].name)
  {
    u := v;
    if u.clients[c].pc.New? {
      u := Go(w, u, CallMake(c));
    }
    if u.clients[c].pc.MakeGet? {
      u := MakeGetEnds(w, u, c);
    } else {
      u := MakePutEnds(w, u, c);
    }
  }

  /** There is always an id that has not been drawn. */
  lemma {:induction false} FreshToken(used: set<string>) returns (token: string)
    ensures token !in used && token != UNLOCKED
  {
    var n := LongerThanAll(used + {UNLOCKED});
    token := seq(n, i => 'x');
  }

  lemma {:induction false} LongerThanAll(used: set<string>) returns (n: nat)
    ensures forall x | x in used :: |x| < n
  {
    if x :| x in used {
      n := LongerThanAll(used - {x});
      n := if n > |x| then n else |x| + 1;
    } else {
      n := 0;
    }
  }

  /** A client that has just read a free lock puts a new id, which cannot fail. */
  lemma {:induction false} PutsId(w: World, v: World, c: nat) returns (u: World)
    requires Leads(w, v) && Good(v) && c < |v.clients| && v.clients[c].pc == AcqGet
    requires v.clients[c].read == Some(DoGet(v.kv.store, v.clients[c].name))
    requires v.clients[c].name in v.kv.store && Free(v, v.clients[c].name)
    ensures Leads(w, u) && Good(u) && OnlyMoves(v, u, c) && u.clients[c].pc.AcqPut?
    ensures var id := u.clients[c].pc.id;
            id < |u.kv.calls| && u.kv.calls[id].answer.None? && Effective(u.kv, id)
  {
    var token := FreshToken(v.used);
    assert KeyOk(v.kv, v.clients[c].name);
    forall x | 0 <= x < |Wins(v.kv, v.clients[c].name)| ensures WinOk(v.kv, v.clients[c].name, x) {
    }
    u := Go(w, v, GotAcquire(c, token));
  }

  /** Reading a free lock and putting a new id. */
  lemma {:induction false} TryAcquires(w: World, v: World, c: nat) returns (u: World)
    requires Leads(w, v) && Good(v) && c < |v.clients| && v.clients[c].pc == AcqGet && Free(v, v.clients[c].name)
    ensures Leads(w, u) && Good(u) && OnlyMoves(v, u, c) && u.clients[c].pc.Held?
  {
    assert MadeOk(v, c);
    u := HasRead(w, v, c);
    u := PutsId(w, u, c);
    u := PutReturns(w, u, u.clients[c].pc.id);
    u := AnswerSettles(w, u, c);
  }

  /** A free lock is nobody's. */
  lemma {:induction false} FreeNotOwned(v: World, c: nat)
    requires Good(v) && c < |v.clients| && Free(v, v.clients[c].name)
    ensures !Owning(v, c)
  {
    if Owning(v, c) {
      OwningOwns(v, c);
    }
  }

  /** Whatever the client is doing comes to an end. */
  lemma {:induction false} FinishesFirst(w: World, v: World, c: nat) returns (u: World)
    requires Leads(w, v) && Good(v) && c < |v.clients| && Free(v, v.clients[c].name)
    ensures Leads(w, u) && Good(u) && OnlyMoves(v, u, c)
    ensures u.clients[c].pc.Held? || (u.clients[c].pc in {Idle, AcqGet} && Free(u, v.clients[c].name))
  {
    FreeNotOwned(v, c);
    var pc := v.clients[c].pc;
    u := v;
    if pc.New? || pc.MakeGet? || pc.MakePut? {
      u := MakeEnds(w, v, c);
    } else if pc.RelPut? || pc.RelCheck? {
      u := ReleaseEnds(w, v, c);
    } else if pc.AcqPut? || pc.AcqCheck? {
      u := AcquireSettles(w, v, c);
    }
  }

  /** Wherever a client stands, if its lock is free it can go on to hold it. */
  lemma {:induction false} FreeCanBeAcquired(w: World, v: World, c: nat) returns (u: World)
    requires Leads(w, v) && Good(v) && c < |v.clients| && Free(v, v.clients[c].name)
    ensures Leads(w, u) && Good(u) && OnlyMoves(v, u, c) && u.clients[c].pc.Held?
  {
    u := FinishesFirst(w, v, c);
    if u.clients[c].pc.Idle? {
      u := Go(w, u, CallAcquire(c));
    }
    if u.clients[c].pc.AcqGet? {
      u := TryAcquires(w, u, c);
    }
  }

  // ---------------------------------------------------------------- the results

  /**
   From every state of every run, every client can come to hold its lock: whoever has it can give it back, and then
   this client, wherever it stands, can take it. The stored value is then its id.
   */
  lemma {:induction false} CanAcquire(worlds: seq<World>, moves: seq<Move>, c: nat)
    returns (worlds': seq<World>, moves': seq<Move>)
    requires IsLockRun(worlds, moves) && c < |worlds[|moves|].clients|
    ensures IsLockRun(worlds', moves') && worlds <= worlds' && moves <= moves'
    ensures var v := worlds'[|moves'|];
            && c < |v.clients| && v.clients[c].name == worlds[|moves|].clients[c].name && v.clients[c].pc.Held?
            && v.clients[c].name in v.kv.store && v.kv.store[v.clients[c].name].value == v.clients[c].pc.token
  {
    var w := worlds[|moves|];
    GoodAt(worlds, moves, |moves|);
    Runs.Stay(Can(), After(), w);
    var v, key := w, w.clients[c].name;
    assert Tenanted(v, key);
    if !Free(v, key) {
      var d :| TenantIs(v, key, d);
      v := OwnerReleases(w, v, d);
    }
    v := FreeCanBeAcquired(w, v, c);
    assert ClientOk(v, c);
    worlds', moves' := Continue(worlds, moves, v);
  }

  /** From every state of every run, a client that has its lock can give it back: it ends idle with "None" stored. */
  lemma {:induction false} CanRelease(worlds: seq<World>, moves: seq<Move>, c: nat)
    returns (worlds': seq<World>, moves': seq<Move>)
    requires IsLockRun(worlds, moves) && c < |worlds[|moves|].clients| && Owning(worlds[|moves|], c)
    ensures IsLockRun(worlds', moves') && worlds <= worlds' && moves <= moves'
    ensures var v, key := worlds'[|moves'|], worlds[|moves|].clients[c].name;
            && c < |v.clients| && v.clients[c].name == key && v.clients[c].pc == Idle
            && key in v.kv.store && v.kv.store[key].value == UNLOCKED
  {
    var w := worlds[|moves|];
    GoodAt(worlds, moves, |moves|);
    Runs.Stay(Can(), After(), w);
    var v := OwnerReleases(w, w, c);
    worlds', moves' := Continue(worlds, moves, v);
  }
}
