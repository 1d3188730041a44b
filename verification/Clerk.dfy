/**
 The clerk of src/kvsrv1/client.go over a network that loses and delays requests and
 replies, with any number of concurrent Put calls. A request that is executed late, even
 after its call has returned, is part of the model; a request is executed at most once.
 */
module Clerk {
  import opened Basics
  import opened Kv

  // ---------------------------------------------------------------- one call of the clerk

  /** What Call() brings back: nothing, or the server's error code. */
  datatype Outcome = Lost | Reply(err: Err)

  /** The clerk's verdict on a reply, depending on whether the request had been sent before. */
  function Verdict(retried: bool, err: Err): Err {
    match err
    case OK => OK
    case ErrNoKey => ErrNoKey
    case ErrVersion => if retried then ErrMaybe else ErrVersion
    case _ => ErrNoKey
  }

  /** Put(): resend until a reply comes. `outcomes` is what the network does with each attempt. */
  method Put(outcomes: seq<Outcome>) returns (r: Option<Err>, sent: nat)
    ensures sent <= |outcomes|
    ensures r.None? ==> sent == |outcomes| && forall i | 0 <= i < |outcomes| :: outcomes[i].Lost?
    ensures r.Some? ==> sent >= 1 && outcomes[sent - 1].Reply? && forall i | 0 <= i < sent - 1 :: outcomes[i].Lost?
    ensures r.Some? ==> r.value == Verdict(sent > 1, outcomes[sent - 1].err)
    ensures r == Some(ErrMaybe) ==> sent > 1
  {
    var retried := false;
    sent := 0;
    while sent < |outcomes|
      invariant 0 <= sent <= |outcomes| && retried == (sent > 0)
      invariant forall i | 0 <= i < sent :: outcomes[i].Lost?
    {
      var outcome := outcomes[sent];
      sent := sent + 1;
      if outcome.Lost? {
        retried := true;
        continue;
      }
      match outcome.err {
        case OK => return Some(OK), sent;
        case ErrNoKey => return Some(ErrNoKey), sent;
        case ErrVersion =>
          if retried {
            return Some(ErrMaybe), sent;
          } else {
            return Some(ErrVersion), sent;
          }
        case _ => return Some(ErrNoKey), sent;
      }
    }
    r := None;
  }

  // ---------------------------------------------------------------- all calls together

  /**
   A Put call: its arguments, the number of attempts sent, and its answer once it has returned.
   known is auxiliary: the version the key had when the call began.
   */
  datatype Call = Call(key: string, value: string, version: nat, known: nat, sent: nat, answer: Option<Err>)

  /** An attempt of a call. */
  datatype Attempt = Attempt(id: nat, n: nat)

  /**
   flight: attempts sent and neither executed nor lost. replies: what the server answered.
   won is auxiliary: for each key, the attempts that took effect, in order.
   */
  datatype State = State(
    store: Store,
    calls: seq<Call>,
    flight: set<Attempt>,
    replies: map<Attempt, Err>,
    won: map<string, seq<Attempt>>)

  const EMPTY := State(map[], [], {}, map[], map[])

  datatype Step =
    | Begin(key: string, value: string, version: nat)
    | Execute(a: Attempt)
    | Fail(id: nat, gone: bool)  // Call() gives up; gone: no attempt so far will be executed any more
    | Return(id: nat)

  predicate Enabled(s: State, step: Step) {
    match step
    case Begin(key, value, version) => true
    case Execute(a) => a in s.flight && a.id < |s.calls|
    case Fail(id, gone) => id < |s.calls| && s.calls[id].answer.None?
    case Return(id) => id < |s.calls| && s.calls[id].answer.None? && s.calls[id].sent > 0 && Current(s, id) in s.replies
  }

  /** The attempt whose Call() is running. */
  function Current(s: State, id: nat): Attempt
    requires id < |s.calls| && s.calls[id].sent > 0
  {
    Attempt(id, s.calls[id].sent - 1)
  }

  function BeginPut(s: State, key: string, value: string, version: nat): State {
    s.(calls := s.calls + [Call(key, value, version, VersionOf(s.store, key), 1, None)],
       flight := s.flight + {Attempt(|s.calls|, 0)})
  }

  /** The attempts that took effect on a key so far. */
  function Wins(s: State, key: string): seq<Attempt> {
    if key in s.won then s.won[key] else []
  }

  function ExecutePut(s: State, a: Attempt): State
    requires a.id < |s.calls|
  {
    var c := s.calls[a.id];
    var (store, err) := DoPut(s.store, c.key, c.value, c.version);
    s.(store := store, flight := s.flight - {a}, replies := s.replies[a := err],
       won := if err == OK then s.won[c.key := Wins(s, c.key) + [a]] else s.won)
  }

  function FailCall(s: State, id: nat, gone: bool): State
    requires id < |s.calls|
  {
    var c := s.calls[id];
    s.(calls := s.calls[id := c.(sent := c.sent + 1)],
       flight := (if gone then (set a | a in s.flight && a.id != id) else s.flight) + {Attempt(id, c.sent)})
  }

  function ReturnCall(s: State, id: nat): State
    requires id < |s.calls| && s.calls[id].sent > 0 && Current(s, id) in s.replies
  {
    var c := s.calls[id];
    s.(calls := s.calls[id := c.(answer := Some(Verdict(c.sent > 1, s.replies[Current(s, id)])))])
  }

  function Next(s: State, step: Step): State
    requires Enabled(s, step)
  {
    match step
    case Begin(key, value, version) => BeginPut(s, key, value, version)
    case Execute(a) => ExecutePut(s, a)
    case Fail(id, gone) => FailCall(s, id, gone)
    case Return(id) => ReturnCall(s, id)
  }

  // ---------------------------------------------------------------- the invariant

  /** The attempt took effect at the server: it overwrote the version it asked for. */
  predicate TookEffect(s: State, a: Attempt) {
    a.id < |s.calls| &&
    var c := s.calls[a.id];
    c.version < |Wins(s, c.key)| && Wins(s, c.key)[c.version] == a
  }

  /** Some attempt of the call took effect. */
  predicate CallTookEffect(s: State, id: nat) {
    id < |s.calls| &&
    var c := s.calls[id];
    c.version < |Wins(s, c.key)| && Wins(s, c.key)[c.version].id == id
  }

  /** An attempt that has not been executed has no reply. */
  ghost predicate FlightOk(s: State, a: Attempt) {
    a.id < |s.calls| && a.n < s.calls[a.id].sent && a !in s.replies
  }

  /** What a reply of the server proves about the versions. */
  ghost predicate ReplyOk(s: State, a: Attempt)
    requires a in s.replies
  {
    && a.id < |s.calls| && a.n < s.calls[a.id].sent
    && var c, err, now := s.calls[a.id], s.replies[a], VersionOf(s.store, s.calls[a.id].key);
    && err in {OK, ErrNoKey, ErrVersion}
    && (err == OK <==> TookEffect(s, a))
    && (err == ErrNoKey ==> c.version != 0 && c.known == 0)
    && (err == ErrVersion && c.version <= c.known ==> c.version < now)
  }

  /** Version v of a key was overwritten by one attempt, which asked for version v and was told OK. */
  ghost predicate WinOk(s: State, key: string, v: nat)
    requires v < |Wins(s, key)|
  {
    var a := Wins(s, key)[v];
    && a.id < |s.calls| && a in s.replies
    && s.calls[a.id].key == key && s.calls[a.id].version == v
  }

  ghost predicate KeyOk(s: State, key: string) {
    && |Wins(s, key)| == VersionOf(s.store, key)
    && (forall v {:trigger WinOk(s, key, v)} | 0 <= v < |Wins(s, key)| :: WinOk(s, key, v))
    && (key in s.store ==> s.store[key].version >= 1)
    && (key in s.store ==> Wins(s, key)[s.store[key].version - 1].id < |s.calls|)
    && (key in s.store ==> s.store[key].value == s.calls[Wins(s, key)[s.store[key].version - 1].id].value)
  }

  /** What each answer of the clerk says about its call. */
  ghost predicate CallOk(s: State, id: nat)
    requires id < |s.calls|
  {
    var c := s.calls[id];
    && c.sent >= 1
    && c.known <= VersionOf(s.store, c.key)
    && (c.answer == Some(OK) ==> CallTookEffect(s, id))
    && (c.answer == Some(ErrVersion) ==>
          c.sent == 1 && Attempt(id, 0) in s.replies && s.replies[Attempt(id, 0)] == ErrVersion)
    && (c.answer == Some(ErrMaybe) ==>
          c.sent > 1 && Attempt(id, c.sent - 1) in s.replies && s.replies[Attempt(id, c.sent - 1)] == ErrVersion)
    && (c.answer == Some(ErrNoKey) ==> c.known == 0 && c.version != 0)
    && (c.answer.Some? ==> c.answer.value in {OK, ErrNoKey, ErrVersion, ErrMaybe})
  }

  ghost predicate Inv(s: State) {
    && (forall a {:trigger FlightOk(s, a)} | a in s.flight :: FlightOk(s, a))
    && (forall a {:trigger ReplyOk(s, a)} | a in s.replies :: ReplyOk(s, a))
    && (forall key {:trigger KeyOk(s, key)} :: KeyOk(s, key))
    && (forall id {:trigger CallOk(s, id)} | 0 <= id < |s.calls| :: CallOk(s, id))
  }

  /** The keys, when nothing is stored and the calls keep what they asked for. */
  lemma {:induction false} KeyStays(s: State, s': State, key: string)
    requires KeyOk(s, key) && s'.store == s.store && s'.won == s.won && s'.replies == s.replies
    requires |s.calls| <= |s'.calls|
    requires forall id {:trigger s'.calls[id]} | 0 <= id < |s.calls| :: SameCall(s.calls[id], s'.calls[id])
    ensures KeyOk(s', key)
  {
    forall v | 0 <= v < |Wins(s', key)| ensures WinOk(s', key, v) {
      assert WinOk(s, key, v);
    }
  }

  lemma {:induction false} BeginKeepsInv(s: State, key: string, value: string, version: nat)
    requires Inv(s)
    ensures Inv(BeginPut(s, key, value, version))
  {
    var s' := BeginPut(s, key, value, version);
    var first := Attempt(|s.calls|, 0);
    assert first in s.replies ==> ReplyOk(s, first);
    forall a | a in s'.flight ensures FlightOk(s', a) {
      assert a != first ==> FlightOk(s, a);
    }
    forall a | a in s'.replies ensures ReplyOk(s', a) {
      assert ReplyOk(s, a);
    }
    forall k ensures KeyOk(s', k) {
      assert KeyOk(s, k);
      KeyStays(s, s', k);
    }
    forall id | 0 <= id < |s'.calls| ensures CallOk(s', id) {
      if id < |s.calls| {
        assert CallOk(s, id);
      }
    }
  }

  lemma {:induction false} ExecuteKeepsKeys(s: State, a: Attempt, key: string)
    requires Inv(s) && a in s.flight && a.id < |s.calls|
    ensures KeyOk(ExecutePut(s, a), key)
    ensures VersionOf(ExecutePut(s, a).store, key) >= VersionOf(s.store, key)
  {
    var s' := ExecutePut(s, a);
    var c := s.calls[a.id];
    assert KeyOk(s, key);
    assert KeyOk(s, c.key);
    forall v | 0 <= v < |Wins(s', key)| ensures WinOk(s', key, v) {
      if v < |Wins(s, key)| {
        assert WinOk(s, key, v);
      }
    }
  }

  lemma {:induction false} ExecuteKeepsReply(s: State, a: Attempt, b: Attempt)
    requires Inv(s) && a in s.flight && a.id < |s.calls| && b in ExecutePut(s, a).replies
    ensures ReplyOk(ExecutePut(s, a), b)
  {
    var s' := ExecutePut(s, a);
    assert FlightOk(s, a);
    assert KeyOk(s, s.calls[a.id].key);
    assert CallOk(s, a.id);
    var c := s.calls[a.id];
    assert c.version < |Wins(s, c.key)| ==> WinOk(s, c.key, c.version);
    if b != a {
      assert ReplyOk(s, b);
      assert KeyOk(s, s.calls[b.id].key);
      ExecuteKeepsKeys(s, a, s.calls[b.id].key);
    }
  }

  lemma {:induction false} ExecuteKeepsInv(s: State, a: Attempt)
    requires Inv(s) && a in s.flight && a.id < |s.calls|
    ensures Inv(ExecutePut(s, a))
  {
    var s' := ExecutePut(s, a);
    assert FlightOk(s, a);
    forall b | b in s'.flight ensures FlightOk(s', b) {
      assert FlightOk(s, b);
    }
    forall b | b in s'.replies ensures ReplyOk(s', b) {
      ExecuteKeepsReply(s, a, b);
    }
    forall k ensures KeyOk(s', k) {
      ExecuteKeepsKeys(s, a, k);
    }
    forall id | 0 <= id < |s'.calls| ensures CallOk(s', id) {
      assert CallOk(s, id);
      assert KeyOk(s, s.calls[id].key);
      ExecuteKeepsKeys(s, a, s.calls[id].key);
    }
  }

  lemma {:induction false} FailKeepsInv(s: State, id: nat, gone: bool)
    requires Inv(s) && Enabled(s, Fail(id, gone))
    ensures Inv(FailCall(s, id, gone))
  {
    var s' := FailCall(s, id, gone);
    assert CallOk(s, id);
    var again := Attempt(id, s.calls[id].sent);
    assert again in s.replies ==> ReplyOk(s, again);
    forall a | a in s'.flight ensures FlightOk(s', a) {
      assert a in s.flight ==> FlightOk(s, a);
    }
    forall a | a in s'.replies ensures ReplyOk(s', a) {
      assert ReplyOk(s, a);
    }
    forall k ensures KeyOk(s', k) {
      assert KeyOk(s, k);
      KeyStays(s, s', k);
    }
    forall i | 0 <= i < |s'.calls| ensures CallOk(s', i) {
      assert CallOk(s, i);
    }
  }

  lemma {:induction false} ReturnKeepsCall(s: State, id: nat, i: nat)
    requires Inv(s) && Enabled(s, Return(id)) && i < |s.calls|
    ensures CallOk(ReturnCall(s, id), i)
  {
    assert CallOk(s, i);
    assert ReplyOk(s, Current(s, id));
  }

  lemma {:induction false} ReturnKeepsInv(s: State, id: nat)
    requires Inv(s) && Enabled(s, Return(id))
    ensures Inv(ReturnCall(s, id))
  {
    var s' := ReturnCall(s, id);
    forall a | a in s'.flight ensures FlightOk(s', a) {
      assert FlightOk(s, a);
    }
    forall a | a in s'.replies ensures ReplyOk(s', a) {
      assert ReplyOk(s, a);
    }
    forall k ensures KeyOk(s', k) {
      assert KeyOk(s, k);
      KeyStays(s, s', k);
    }
    forall i | 0 <= i < |s'.calls| ensures CallOk(s', i) {
      ReturnKeepsCall(s, id, i);
    }
  }

  /** Every step of every client and of the network keeps the invariant. */
  lemma {:induction false} StepKeepsInv(s: State, step: Step)
    requires Inv(s) && Enabled(s, step)
    ensures Inv(Next(s, step))
  {
    match step
    case Begin(key, value, version) => BeginKeepsInv(s, key, value, version);
    case Execute(a) => ExecuteKeepsInv(s, a);
    case Fail(id, gone) => FailKeepsInv(s, id, gone);
    case Return(id) => ReturnKeepsInv(s, id);
  }

  // ---------------------------------------------------------------- runs

  ghost predicate IsRun(states: seq<State>, steps: seq<Step>) {
    && |states| == |steps| + 1
    && states[0] == EMPTY
    && forall k {:trigger steps[k]} | 0 <= k < |steps| ::
         Enabled(states[k], steps[k]) && states[k + 1] == Next(states[k], steps[k])
  }

  /** What a later state knows of an earlier one: calls stay as they were sent, answers and effects stay for ever. */
  ghost predicate Later(s: State, s': State) {
    && |s.calls| <= |s'.calls|
    && (forall id {:trigger s'.calls[id]} | 0 <= id < |s.calls| :: SameCall(s.calls[id], s'.calls[id]))
    && (forall key {:trigger Wins(s', key)} ::
          |Wins(s, key)| <= |Wins(s', key)| && Wins(s', key)[..|Wins(s, key)|] == Wins(s, key))
    && (forall a | a in s.replies :: a in s'.replies && s'.replies[a] == s.replies[a])
  }

  ghost predicate SameCall(c: Call, c': Call) {
    && c'.key == c.key && c'.value == c.value && c'.version == c.version
    && (c.answer.Some? ==> c' == c)
  }

  lemma {:induction false} StepIsLater(s: State, step: Step)
    requires Inv(s) && Enabled(s, step)
    ensures Later(s, Next(s, step))
  {
    if step.Execute? {
      assert FlightOk(s, step.a);
    }
  }

  lemma {:induction false} RunKeepsInv(states: seq<State>, steps: seq<Step>, a: nat)
    requires IsRun(states, steps) && a < |states|
    ensures Inv(states[a])
  {
    if a > 0 {
      RunKeepsInv(states, steps, a - 1);
      assert steps[a - 1] == steps[a - 1];
      StepKeepsInv(states[a - 1], steps[a - 1]);
    } else {
      EmptyInv();
    }
  }

  lemma {:induction false} EmptyInv()
    ensures Inv(EMPTY)
  {
    forall key ensures KeyOk(EMPTY, key) {
    }
  }

  lemma {:induction false} LaterTransitive(s: State, s1: State, s2: State)
    requires Later(s, s1) && Later(s1, s2)
    ensures Later(s, s2)
  {
    forall id | 0 <= id < |s.calls| ensures SameCall(s.calls[id], s2.calls[id]) {
      assert SameCall(s.calls[id], s1.calls[id]);
    }
    forall key ensures |Wins(s, key)| <= |Wins(s2, key)| && Wins(s2, key)[..|Wins(s, key)|] == Wins(s, key) {
      assert Wins(s1, key)[..|Wins(s, key)|] == Wins(s2, key)[..|Wins(s1, key)|][..|Wins(s, key)|];
    }
  }

  lemma {:induction false} RunIsLater(states: seq<State>, steps: seq<Step>, a: nat, b: nat)
    requires IsRun(states, steps) && a <= b < |states|
    ensures Later(states[a], states[b])
    decreases b - a
  {
    if a < b {
      RunIsLater(states, steps, a, b - 1);
      RunKeepsInv(states, steps, b - 1);
      assert steps[b - 1] == steps[b - 1];
      StepIsLater(states[b - 1], steps[b - 1]);
      LaterTransitive(states[a], states[b - 1], states[b]);
    }
  }

  /**
   The clerk's answers are exact. Whatever is lost, delayed, retried or executed late: at any
   moment at most one attempt of a call has taken effect; once the answer is OK exactly one
   has; once it is ErrVersion none has and none ever will; ErrMaybe is only said of a call that
   was sent more than once.
   */
  lemma {:induction false} AnswersExact(states: seq<State>, steps: seq<Step>, a: nat, b: nat, id: nat, n: nat, m: nat)
    requires IsRun(states, steps) && a <= b < |states| && id < |states[a].calls|
    ensures id < |states[b].calls|
    ensures TookEffect(states[b], Attempt(id, n)) && TookEffect(states[b], Attempt(id, m)) ==> n == m
    ensures states[a].calls[id].answer == Some(OK) ==> CallTookEffect(states[b], id)
    ensures states[a].calls[id].answer == Some(ErrVersion) ==> !CallTookEffect(states[b], id)
    ensures states[a].calls[id].answer == Some(ErrMaybe) ==> states[a].calls[id].sent > 1
    ensures CallTookEffect(states[b], id) <==> exists i :: TookEffect(states[b], Attempt(id, i))
  {
    RunIsLater(states, steps, a, b);
    RunKeepsInv(states, steps, a);
    RunKeepsInv(states, steps, b);
    var s, s' := states[a], states[b];
    assert CallOk(s, id);
    assert CallOk(s', id);
    assert SameCall(s.calls[id], s'.calls[id]);
    var c := s'.calls[id];
    if CallTookEffect(s', id) {
      var w := Wins(s', c.key)[c.version];
      assert KeyOk(s', c.key);
      assert WinOk(s', c.key, c.version);
      assert ReplyOk(s', w);
      assert w == Attempt(id, w.n);
      assert TookEffect(s', Attempt(id, w.n));
    }
  }

  lemma {:induction false} OneWinnerIn(s: State, a: Attempt, b: Attempt)
    requires Inv(s) && a in s.replies && b in s.replies && s.replies[a] == OK && s.replies[b] == OK
    requires a.id < |s.calls| && b.id < |s.calls|
    requires s.calls[a.id].key == s.calls[b.id].key && s.calls[a.id].version == s.calls[b.id].version
    ensures a == b
  {
    assert ReplyOk(s, a);
    assert ReplyOk(s, b);
  }

  /** In every run, at most one put ever succeeds on a given version of a key. */
  lemma {:induction false} OneWinnerPerVersion(states: seq<State>, steps: seq<Step>, k: nat, a: Attempt, b: Attempt)
    requires IsRun(states, steps) && k < |states|
    requires a in states[k].replies && b in states[k].replies
    requires states[k].replies[a] == OK && states[k].replies[b] == OK
    requires a.id < |states[k].calls| && b.id < |states[k].calls|
    requires states[k].calls[a.id].key == states[k].calls[b.id].key
    requires states[k].calls[a.id].version == states[k].calls[b.id].version
    ensures a == b
  {
    RunKeepsInv(states, steps, k);
    OneWinnerIn(states[k], a, b);
  }

  // ---------------------------------------------------------------- version conservation

  /** The simulated network: when Call() fails, its request has been executed or never will be. */
  ghost predicate Strict(steps: seq<Step>) {
    forall k {:trigger steps[k]} | 0 <= k < |steps| :: steps[k].Fail? ==> steps[k].gone
  }

  /** Then only the running attempt of an unanswered call can be in flight, and ErrNoKey means that nothing happened. */
  ghost predicate StrictInv(s: State) {
    && (forall a {:trigger a in s.flight} | a in s.flight ::
          a.id < |s.calls| && s.calls[a.id].answer.None? && a.n + 1 == s.calls[a.id].sent)
    && (forall id {:trigger StrictCall(s, id)} | 0 <= id < |s.calls| :: StrictCall(s, id))
  }

  ghost predicate StrictCall(s: State, id: nat)
    requires id < |s.calls|
  {
    && s.calls[id].sent > 0
    && (Current(s, id) in s.replies && s.replies[Current(s, id)] == ErrNoKey ==> !CallTookEffect(s, id))
    && (s.calls[id].answer == Some(ErrNoKey) ==> !CallTookEffect(s, id))
    && (s.calls[id].answer.Some? ==> Current(s, id) in s.replies)
  }

  lemma {:induction false} StrictExecute(s: State, a: Attempt)
    requires Inv(s) && StrictInv(s) && a in s.flight && a.id < |s.calls|
    ensures StrictInv(ExecutePut(s, a))
  {
    var s' := ExecutePut(s, a);
    var c := s.calls[a.id];
    assert FlightOk(s, a);
    assert KeyOk(s, c.key);
    forall id | 0 <= id < |s'.calls| ensures StrictCall(s', id) {
      assert StrictCall(s, id);
    }
  }

  lemma {:induction false} StrictStep(s: State, step: Step)
    requires Inv(s) && StrictInv(s) && Enabled(s, step) && (step.Fail? ==> step.gone)
    ensures StrictInv(Next(s, step))
  {
    if step.Execute? {
      StrictExecute(s, step.a);
    } else {
      var s' := Next(s, step);
      forall id | 0 <= id < |s'.calls| ensures StrictCall(s', id) {
        if id < |s.calls| {
          assert StrictCall(s, id);
        }
        assert Current(s', id) in s.replies ==> ReplyOk(s, Current(s', id));
      }
      forall a | a in s'.flight
        ensures a.id < |s'.calls| && s'.calls[a.id].answer.None? && a.n + 1 == s'.calls[a.id].sent
      {
        assert a in s.flight ==> FlightOk(s, a);
      }
    }
  }

  lemma {:induction false} StrictRun(states: seq<State>, steps: seq<Step>, a: nat)
    requires IsRun(states, steps) && Strict(steps) && a < |states|
    ensures StrictInv(states[a])
  {
    if a > 0 {
      StrictRun(states, steps, a - 1);
      RunKeepsInv(states, steps, a - 1);
      assert steps[a - 1] == steps[a - 1];
      StrictStep(states[a - 1], steps[a - 1]);
    }
  }

  /** The calls on a key that were answered in a given way. */
  function Answered(s: State, key: string, answer: Err): set<nat> {
    set id | 0 <= id < |s.calls| && s.calls[id].key == key && s.calls[id].answer == Some(answer)
  }

  /** The calls that took effect on the first m versions of a key. */
  function Winners(s: State, key: string, m: nat): set<nat>
    requires m <= |Wins(s, key)|
  {
    set v | 0 <= v < m :: Wins(s, key)[v].id
  }

  lemma {:induction false} WinnersCount(s: State, key: string, m: nat)
    requires KeyOk(s, key) && m <= |Wins(s, key)|
    ensures |Winners(s, key, m)| == m
  {
    if m > 0 {
      WinnersCount(s, key, m - 1);
      var id := Wins(s, key)[m - 1].id;
      assert WinOk(s, key, m - 1);
      forall v | 0 <= v < m - 1 ensures Wins(s, key)[v].id != id {
        assert WinOk(s, key, v);
      }
      assert Winners(s, key, m) == Winners(s, key, m - 1) + {id};
    }
  }

  /**
   Version conservation: on the simulated network, once every call has returned, the version
   of each key is at least the number of OK answers and at most that plus the number of
   ErrMaybe answers.
   */
  lemma {:induction false} VersionConservation(states: seq<State>, steps: seq<Step>, a: nat, key: string)
    requires IsRun(states, steps) && Strict(steps) && a < |states|
    requires forall id | 0 <= id < |states[a].calls| :: states[a].calls[id].answer.Some?
    ensures var s := states[a];
            |Answered(s, key, OK)| <= VersionOf(s.store, key) <= |Answered(s, key, OK)| + |Answered(s, key, ErrMaybe)|
  {
    RunKeepsInv(states, steps, a);
    StrictRun(states, steps, a);
    WinnersAnswered(states[a], key);
    var s := states[a];
    var wins, oks, maybes := Winners(s, key, |Wins(s, key)|), Answered(s, key, OK), Answered(s, key, ErrMaybe);
    assert KeyOk(s, key);
    WinnersCount(s, key, |Wins(s, key)|);
    SubsetSize(oks, wins);
    SubsetSize(wins, oks + maybes);
    assert |oks + maybes| <= |oks| + |maybes|;
  }

  /**
   On any network, requests executed after their call returned included: once every call has returned, only calls
   that were told OK, ErrMaybe or ErrNoKey can have taken effect.
   */
  lemma {:induction false} VersionBounds(states: seq<State>, steps: seq<Step>, a: nat, key: string)
    requires IsRun(states, steps) && a < |states|
    requires forall id | 0 <= id < |states[a].calls| :: states[a].calls[id].answer.Some?
    ensures var s := states[a];
            && |Answered(s, key, OK)| <= VersionOf(s.store, key)
            && VersionOf(s.store, key) <= |Answered(s, key, OK)| + |Answered(s, key, ErrMaybe)| +
                 |Answered(s, key, ErrNoKey)|
  {
    RunKeepsInv(states, steps, a);
    var s := states[a];
    OkAnswersWon(s, key);
    WinnersNotRefused(s, key);
    var wins, oks, maybes, nokeys :=
      Winners(s, key, |Wins(s, key)|), Answered(s, key, OK), Answered(s, key, ErrMaybe), Answered(s, key, ErrNoKey);
    assert KeyOk(s, key);
    WinnersCount(s, key, |Wins(s, key)|);
    SubsetSize(oks, wins);
    SubsetSize(wins, oks + maybes + nokeys);
    assert |oks + maybes| <= |oks| + |maybes|;
    assert |oks + maybes + nokeys| <= |oks + maybes| + |nokeys|;
  }

  lemma {:induction false} OkAnswersWon(s: State, key: string)
    requires Inv(s)
    ensures Answered(s, key, OK) <= Winners(s, key, |Wins(s, key)|)
  {
    forall id | id in Answered(s, key, OK) ensures id in Winners(s, key, |Wins(s, key)|) {
      assert CallOk(s, id);
    }
  }

  lemma {:induction false} WinnersNotRefused(s: State, key: string)
    requires Inv(s)
    requires forall id | 0 <= id < |s.calls| :: s.calls[id].answer.Some?
    ensures Winners(s, key, |Wins(s, key)|) <= Answered(s, key, OK) + Answered(s, key, ErrMaybe) +
              Answered(s, key, ErrNoKey)
  {
    assert KeyOk(s, key);
    forall id | id in Winners(s, key, |Wins(s, key)|)
      ensures id in Answered(s, key, OK) + Answered(s, key, ErrMaybe) + Answered(s, key, ErrNoKey)
    {
      var v :| 0 <= v < |Wins(s, key)| && Wins(s, key)[v].id == id;
      assert WinOk(s, key, v);
      assert CallOk(s, id);
      assert ReplyOk(s, Wins(s, key)[v]);
    }
  }

  // A run in which a request is executed after its call was told ErrNoKey.
  const SLOW := Attempt(0, 0)
  const AGAIN := Attempt(0, 1)
  const OTHER := Attempt(1, 0)
  const REFUSED := Call("k", "x", 1, 0, 2, Some(ErrNoKey))
  const CREATED := Call("k", "y", 0, 0, 1, Some(OK))
  const LATE0 := State(map[], [Call("k", "x", 1, 0, 1, None)], {SLOW}, map[], map[])
  const LATE1 := State(map[], [Call("k", "x", 1, 0, 2, None)], {SLOW, AGAIN}, map[], map[])
  const LATE2 := State(map[], [Call("k", "x", 1, 0, 2, None)], {SLOW}, map[AGAIN := ErrNoKey], map[])
  const LATE3 := State(map[], [REFUSED], {SLOW}, map[AGAIN := ErrNoKey], map[])
  const LATE4 := State(map[], [REFUSED, Call("k", "y", 0, 0, 1, None)], {SLOW, OTHER}, map[AGAIN := ErrNoKey], map[])
  const LATE5 := State(map["k" := Versioned("y", 1)], [REFUSED, Call("k", "y", 0, 0, 1, None)], {SLOW},
                       map[AGAIN := ErrNoKey, OTHER := OK], map["k" := [OTHER]])
  const LATE6 := State(map["k" := Versioned("y", 1)], [REFUSED, CREATED], {SLOW},
                       map[AGAIN := ErrNoKey, OTHER := OK], map["k" := [OTHER]])
  const LATE7 := State(map["k" := Versioned("x", 2)], [REFUSED, CREATED], {},
                       map[AGAIN := ErrNoKey, OTHER := OK, SLOW := OK], map["k" := [OTHER, SLOW]])

  lemma {:induction false} LateRefused()
    ensures BeginPut(EMPTY, "k", "x", 1) == LATE0 && FailCall(LATE0, 0, false) == LATE1
    ensures ExecutePut(LATE1, AGAIN) == LATE2 && ReturnCall(LATE2, 0) == LATE3
  {
  }

  lemma {:induction false} LateCreated()
    ensures BeginPut(LATE3, "k", "y", 0) == LATE4 && ExecutePut(LATE4, OTHER) == LATE5
    ensures ReturnCall(LATE5, 1) == LATE6 && ExecutePut(LATE6, SLOW) == LATE7
  {
    assert Wins(LATE4, "k") + [OTHER] == [OTHER] && Wins(LATE6, "k") + [SLOW] == [OTHER, SLOW];
    var s5, s7 := ExecutePut(LATE4, OTHER), ExecutePut(LATE6, SLOW);
    assert s5.flight == LATE5.flight && s5.store == LATE5.store && s5.won == LATE5.won && s5.replies == LATE5.replies;
    assert s7.flight == LATE7.flight && s7.store == LATE7.store && s7.won == LATE7.won && s7.replies == LATE7.replies;
  }

  lemma {:induction false} LateRun() returns (states: seq<State>, steps: seq<Step>)
    ensures IsRun(states, steps) && states[|steps|] == LATE7
  {
    LateRefused();
    LateCreated();
    states := [EMPTY, LATE0, LATE1, LATE2, LATE3, LATE4, LATE5, LATE6, LATE7];
    steps := [Begin("k", "x", 1), Fail(0, false), Execute(AGAIN), Return(0),
              Begin("k", "y", 0), Execute(OTHER), Return(1), Execute(SLOW)];
  }

  /** The third count is needed: a request that is executed after its call was told ErrNoKey breaks conservation. */
  lemma {:induction false} LateRequestBreaksConservation() returns (states: seq<State>, steps: seq<Step>)
    ensures IsRun(states, steps)
    ensures var s := states[|steps|];
            && (forall id | 0 <= id < |s.calls| :: s.calls[id].answer.Some?)
            && VersionOf(s.store, "k") > |Answered(s, "k", OK)| + |Answered(s, "k", ErrMaybe)|
  {
    states, steps := LateRun();
    assert Answered(LATE7, "k", OK) == {1};
    assert Answered(LATE7, "k", ErrMaybe) == {};
  }

  lemma {:induction false} WinnersAnswered(s: State, key: string)
    requires Inv(s) && StrictInv(s)
    requires forall id | 0 <= id < |s.calls| :: s.calls[id].answer.Some?
    ensures Answered(s, key, OK) <= Winners(s, key, |Wins(s, key)|)
    ensures Winners(s, key, |Wins(s, key)|) <= Answered(s, key, OK) + Answered(s, key, ErrMaybe)
  {
    assert KeyOk(s, key);
    OkAnswersWon(s, key);
    forall id | id in Winners(s, key, |Wins(s, key)|) ensures id in Answered(s, key, OK) + Answered(s, key, ErrMaybe) {
      var v :| 0 <= v < |Wins(s, key)| && Wins(s, key)[v].id == id;
      assert WinOk(s, key, v);
      assert CallOk(s, id);
      assert StrictCall(s, id);
      assert ReplyOk(s, Wins(s, key)[v]);
    }
  }
}
