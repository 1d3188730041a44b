/**
 What the clerk of Clerk.dfy tells its caller, exactly, and what it can still do from
 every state of every run: a call that has not returned can return, a put with the
 version that is stored can succeed.
 */
module ClerkProgress {
  import opened Basics
  import opened Kv
  import opened Clerk
  import Runs

  // ---------------------------------------------------------------- answers, exactly

  /**
   The answer of a call that returns. OK if and only if the attempt it waited for took effect. A refusal is told as
   it is if the call was sent once, and as ErrMaybe if and only if it was sent again.
   */
  lemma {:induction false} ReturnExact(states: seq<State>, steps: seq<Step>, k: nat, id: nat)
    requires IsRun(states, steps) && k < |steps| && steps[k] == Return(id)
    ensures id < |states[k].calls| && id < |states[k + 1].calls| && states[k].calls[id].sent > 0
    ensures var s, call, last := states[k], states[k].calls[id], Current(states[k], id);
            && last in s.replies
            && states[k + 1].calls[id] == call.(answer := states[k + 1].calls[id].answer)
            && match states[k + 1].calls[id].answer {
                 case None => false
                 case Some(answer) =>
                   && (answer == OK <==> TookEffect(s, last))
                   && (answer == ErrNoKey <==> s.replies[last] == ErrNoKey)
                   && (answer == ErrVersion <==> s.replies[last] == ErrVersion && call.sent == 1)
                   && (answer == ErrMaybe <==> s.replies[last] == ErrVersion && call.sent > 1)
               }
  {
    RunKeepsInv(states, steps, k);
    assert steps[k] == steps[k];
    assert ReplyOk(states[k], Current(states[k], id));
  }

  // ---------------------------------------------------------------- one more attempt

  /** The put has not taken effect, and would if it were executed now. */
  predicate Effective(s: State, id: nat)
    requires id < |s.calls|
  {
    !CallTookEffect(s, id) && VersionOf(s.store, s.calls[id].key) == s.calls[id].version
  }

  /** What an execution does to a call. */
  lemma {:induction false} ExecuteExact(s: State, a: Attempt)
    requires Inv(s) && a in s.flight && a.id < |s.calls|
    ensures var s', call := ExecutePut(s, a), s.calls[a.id];
            && s'.calls == s.calls && a in s'.replies
            && if Effective(s, a.id) then
                 && s'.store == s.store[call.key := Versioned(call.value, call.version + 1)]
                 && CallTookEffect(s', a.id) && s'.replies[a] == OK
               else
                 && s'.store == s.store && s'.won == s.won && s'.replies[a] != OK
                 && s'.replies[a] == if call.key in s.store then ErrVersion else ErrNoKey
  {
    assert KeyOk(s, s.calls[a.id].key);
  }

  /** The state after one more attempt was sent, executed and answered. */
  function Retried(s: State, id: nat): State
    requires id < |s.calls|
  {
    ReturnCall(ExecutePut(FailCall(s, id, false), Attempt(id, s.calls[id].sent)), id)
  }

  /** The three steps can be taken. */
  lemma {:induction false} RetryEnabled(s: State, id: nat)
    requires Inv(s) && id < |s.calls| && s.calls[id].answer.None?
    ensures var a := Attempt(id, s.calls[id].sent);
            var s1 := FailCall(s, id, false);
            var s2 := ExecutePut(s1, a);
            Enabled(s, Fail(id, false)) && Enabled(s1, Execute(a)) && Enabled(s2, Return(id))
  {
  }

  /** The put takes effect now exactly if it had not and its version still stands. */
  lemma {:induction false} RetryExact(s: State, id: nat)
    requires Inv(s) && id < |s.calls| && s.calls[id].answer.None?
    ensures var s', call := Retried(s, id), s.calls[id];
            && |s'.calls| == |s.calls| && s'.calls[id].answer.Some?
            && (forall i | 0 <= i < |s.calls| && i != id :: s'.calls[i] == s.calls[i])
            && if Effective(s, id) then
                 && s'.store == s.store[call.key := Versioned(call.value, call.version + 1)]
                 && CallTookEffect(s', id) && s'.calls[id].answer == Some(OK)
               else
                 s'.store == s.store && (CallTookEffect(s', id) <==> CallTookEffect(s, id))
  {
    var s1 := FailCall(s, id, false);
    FailKeepsInv(s, id, false);
    ExecuteExact(s1, Attempt(id, s.calls[id].sent));
  }

  // ---------------------------------------------------------------- where a state leads

  function Can(): (State, Step) -> bool {
    (s: State, step: Step) => Enabled(s, step)
  }

  function After(): (State, Step) -> State {
    (s: State, step: Step) => if Enabled(s, step) then Next(s, step) else s
  }

  ghost predicate Leads(s: State, t: State) {
    Runs.Leads(Can(), After(), s, t)
  }

  lemma {:induction false} Go(s: State, t: State, step: Step) returns (u: State)
    requires Leads(s, t) && Enabled(t, step)
    ensures u == Next(t, step) && Leads(s, u)
  {
    u := Next(t, step);
    Runs.One(Can(), After(), t, step);
    Runs.Join(Can(), After(), s, t, u);
  }

  lemma {:induction false} Continue(states: seq<State>, steps: seq<Step>, t: State)
    returns (states': seq<State>, steps': seq<Step>)
    requires IsRun(states, steps) && Leads(states[|steps|], t)
    ensures IsRun(states', steps') && states <= states' && steps <= steps' && states'[|steps'|] == t
  {
    states', steps' := Runs.Continue(Can(), After(), states, steps, t);
    assert states'[0] == states[0];
  }

  // ---------------------------------------------------------------- the results

  /** From every state of every run, a call that has not returned can still get its answer. */
  lemma {:induction false} CallCanReturn(states: seq<State>, steps: seq<Step>, id: nat)
    returns (states': seq<State>, steps': seq<Step>)
    requires IsRun(states, steps) && id < |states[|steps|].calls| && states[|steps|].calls[id].answer.None?
    ensures IsRun(states', steps') && states <= states' && steps <= steps'
    ensures var t := states'[|steps'|];
            id < |t.calls| && t.calls[id].answer.Some?
    ensures Effective(states[|steps|], id) ==> states'[|steps'|].calls[id].answer == Some(OK)
  {
    var s := states[|steps|];
    RunKeepsInv(states, steps, |steps|);
    RetryExact(s, id);
    RetryEnabled(s, id);
    Runs.Stay(Can(), After(), s);
    var t := Go(s, s, Fail(id, false));
    t := Go(s, t, Execute(Attempt(id, s.calls[id].sent)));
    t := Go(s, t, Return(id));
    states', steps' := Continue(states, steps, t);
  }

  /** The call has returned at its first attempt. */
  predicate Told(s: State, t: State, key: string, value: string, version: nat, answer: Err) {
    && |t.calls| == |s.calls| + 1
    && t.calls[|s.calls|] == Call(key, value, version, VersionOf(s.store, key), 1, Some(answer))
  }

  /**
   From every state of every run, a new Put on a network that loses nothing is told OK if and only if its version is the
   one stored, and then the value is stored one version up; otherwise it is told ErrVersion, or ErrNoKey where there is
   no such key, and nothing changes.
   */
  lemma {:induction false} PutOnGoodNetwork(states: seq<State>, steps: seq<Step>, key: string, value: string,
                                            version: nat)
    returns (states': seq<State>, steps': seq<Step>)
    requires IsRun(states, steps)
    ensures IsRun(states', steps') && states <= states' && steps <= steps'
    ensures var s, t := states[|steps|], states'[|steps'|];
            if VersionOf(s.store, key) == version then
              Told(s, t, key, value, version, OK) && t.store == s.store[key := Versioned(value, version + 1)]
            else
              Told(s, t, key, value, version, if key in s.store then ErrVersion else ErrNoKey) && t.store == s.store
  {
    var s, id := states[|steps|], |states[|steps|].calls|;
    RunKeepsInv(states, steps, |steps|);
    Runs.Stay(Can(), After(), s);
    var t := Go(s, s, Begin(key, value, version));
    StepKeepsInv(s, Begin(key, value, version));
    NewCallHasNoEffect(s, key, value, version);
    ExecuteExact(t, Attempt(id, 0));
    t := Go(s, t, Execute(Attempt(id, 0)));
    t := Go(s, t, Return(id));
    states', steps' := Continue(states, steps, t);
  }

  lemma {:induction false} NewCallHasNoEffect(s: State, key: string, value: string, version: nat)
    requires Inv(s)
    ensures !CallTookEffect(BeginPut(s, key, value, version), |s.calls|)
  {
    assert KeyOk(s, key);
    if version < |Wins(s, key)| {
      assert WinOk(s, key, version);
    }
  }
}
