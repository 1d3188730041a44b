/**
 The clerk of the replicated service (src/kvraft1/client.go): it goes from server to server
 until one answers for the leader.
 */
module RaftClerk {
  import opened Basics
  import opened Kv
  import opened Clerk
  import Rsm

  /** The attempt may or may not be executed: no reply, or the server gave up waiting for its command. */
  predicate Unsure(o: Outcome) {
    o.Lost? || o.err == ErrWrongLeader
  }

  /** Only these replies end a Put. The source has no branch for ErrNoKey: the loop sends the same request again to the
      same server, and does not count it as a resend. */
  predicate Decisive(o: Outcome) {
    o.Reply? && (o.err == OK || o.err == ErrVersion)
  }

  function CountUnsure(os: seq<Outcome>): nat {
    if os == [] then 0 else CountUnsure(os[..|os| - 1]) + if Unsure(os[|os| - 1]) then 1 else 0
  }

  lemma {:induction false} UnsureCounts(os: seq<Outcome>)
    ensures CountUnsure(os) > 0 <==> exists i :: 0 <= i < |os| && Unsure(os[i])
  {
    if os != [] {
      UnsureCounts(os[..|os| - 1]);
      assert Unsure(os[|os| - 1]) ==> CountUnsure(os) > 0;
    }
  }

  /** (l + 1) % n, as often as the clerk turned to another server. */
  function Rotated(leader: nat, servers: nat, times: nat): (l: nat)
    requires leader < servers
    ensures l < servers
  {
    if times == 0 then leader else (Rotated(leader, servers, times - 1) + 1) % servers
  }

  /** What Put says after the outcomes of its first `sent` attempts. */
  ghost predicate Says(outcomes: seq<Outcome>, sent: nat, r: Option<Err>) {
    && sent <= |outcomes|
    && (forall i | 0 <= i < sent - 1 :: !Decisive(outcomes[i]))
    && (r.Some? ==> sent >= 1 && Decisive(outcomes[sent - 1]) && r.value in {OK, ErrVersion, ErrMaybe})
    && (r == Some(OK) <==> sent >= 1 && Decisive(outcomes[sent - 1]) && outcomes[sent - 1].err == OK)
    && (r == Some(ErrVersion) ==> forall i | 0 <= i < sent :: !Unsure(outcomes[i]))
    && (r == Some(ErrMaybe) ==> exists i :: 0 <= i < sent && Unsure(outcomes[i]))
    && (r.None? <==> forall i | 0 <= i < |outcomes| :: !Decisive(outcomes[i]))
  }

  class RaftClerk {
    var leader: nat
    const servers: nat

    ghost predicate Valid()
      reads this
    {
      leader < servers
    }

    constructor (n: nat)
      requires n > 0
      ensures Valid() && servers == n && leader == 0
    {
      servers := n;
      leader := 0;
    }

    /** Put over the outcomes the network brings: ErrVersion is said only when every earlier attempt was answered, and
        ErrMaybe exactly when one was not. */
    method Put(outcomes: seq<Outcome>) returns (r: Option<Err>, sent: nat)
      requires Valid()
      modifies this
      ensures Valid() && Says(outcomes, sent, r)
      ensures leader == Rotated(old(leader), servers, CountUnsure(outcomes[..sent]))
    {
      var isResend := false;
      sent := 0;
      while sent < |outcomes|
        invariant Valid() && 0 <= sent <= |outcomes|
        invariant leader == Rotated(old(leader), servers, CountUnsure(outcomes[..sent]))
        invariant isResend <==> CountUnsure(outcomes[..sent]) > 0
        invariant forall i | 0 <= i < sent :: !Decisive(outcomes[i])
      {
        var outcome := outcomes[sent];
        assert outcomes[..sent + 1][..sent] == outcomes[..sent];
        sent := sent + 1;
        UnsureCounts(outcomes[..sent]);
        if outcome.Lost? || outcome.err == ErrWrongLeader {
          leader := (leader + 1) % servers;
          isResend := true;
          continue;
        }
        if outcome.err == ErrVersion && !isResend {
          assert !exists i :: 0 <= i < sent && Unsure(outcomes[..sent][i]);
          return Some(ErrVersion), sent;
        }
        if outcome.err == ErrVersion && isResend {
          return Some(ErrMaybe), sent;
        }
        if outcome.err == OK {
          return Some(OK), sent;
        }
      }
      r := None;
    }
  }

  lemma {:induction false} FoldedOk(log: seq<Rsm.Op>, n: nat)
    requires n <= |log|
    ensures StoreOk(Rsm.Fold(log, n))
  {
    if n > 0 {
      FoldedOk(log, n - 1);
    }
  }

  /** What an answered attempt did to the replicated store: OK put the value one version up, and any refusal left the
      store at its place in the log as it was. */
  lemma {:induction false} AnsweredPutExact(ss: seq<Rsm.Service>, steps: seq<Rsm.Step>, n: nat, i: nat, id: nat)
    requires Rsm.IsRun(ss, steps, n) && i <= |steps| && Rsm.SaidOk(ss[i], id)
    requires ss[i].calls[id].op.command.PutCommand?
    ensures var c, log := ss[i].calls[id], ss[i].log;
            && 1 <= c.index <= |log| && log[c.index - 1] == c.op
            && c.status.answer.value.PutResult?
            && var put, before, after := c.op.command, Rsm.Fold(log, c.index - 1), Rsm.Fold(log, c.index);
            && (c.status.answer.value.err == OK <==> VersionOf(before, put.key) == put.version)
            && (c.status.answer.value.err == OK ==>
                  put.key in after && after[put.key] == Versioned(put.value, put.version + 1))
            && (c.status.answer.value.err != OK ==> after == before)
  {
    Rsm.RepliesAreSequential(ss, steps, n, i, id);
    var c := ss[i].calls[id];
    FoldedOk(ss[i].log, c.index - 1);
    PutExact(Rsm.Fold(ss[i].log, c.index - 1), c.op.command.key, c.op.command.value, c.op.command.version);
  }

  // ---------------------------------------------------------------- all attempts of a put

  /** An attempt: what the network brought, and the call of Submit that the request caused, if a server executed it. */
  datatype Attempt = Attempt(outcome: Outcome, submit: Option<nat>)

  /** The error that the handler puts into its reply. */
  function ErrOf(answer: Option<Rsm.Result>): Err {
    match answer
    case None => ErrWrongLeader
    case Some(GetResult(_)) => ErrNoKey
    case Some(PutResult(err)) => err
  }

  /** The attempt belongs to this put, and a reply is what its call of Submit returned. */
  ghost predicate AttemptOf(s: Rsm.Service, put: Rsm.Command, a: Attempt) {
    && (a.submit.Some? ==> a.submit.value in s.calls && s.calls[a.submit.value].op == Rsm.Op(put, a.submit.value))
    && (a.outcome.Reply? ==>
          && a.submit.Some? && s.calls[a.submit.value].status.Returned?
          && a.outcome.err == ErrOf(s.calls[a.submit.value].status.answer))
  }

  ghost predicate AttemptsOf(s: Rsm.Service, put: Rsm.Command, atts: seq<Attempt>) {
    put.PutCommand? && forall i {:trigger AttemptOf(s, put, atts[i])} | 0 <= i < |atts| :: AttemptOf(s, put, atts[i])
  }

  function Outcomes(atts: seq<Attempt>): (os: seq<Outcome>)
    ensures |os| == |atts|
  {
    seq(|atts|, i requires 0 <= i < |atts| => atts[i].outcome)
  }

  /** The command at place x of the log is one of the put's attempts, and succeeded. */
  ghost predicate EffectAt(log: seq<Rsm.Op>, atts: seq<Attempt>, x: nat) {
    && 1 <= x <= |log| && Rsm.ResultAt(log, x) == Rsm.PutResult(OK)
    && exists i :: 0 <= i < |atts| && atts[i].submit == Some(log[x - 1].id)
  }

  /** Raft appends a started command once, so it has one place in the log. */
  ghost predicate EachOnce(log: seq<Rsm.Op>) {
    forall x, y | 0 <= x < y < |log| :: log[x].id != log[y].id
  }

  lemma {:induction false} VersionRises(log: seq<Rsm.Op>, key: string, i: nat, j: nat)
    requires i <= j <= |log|
    ensures VersionOf(Rsm.Fold(log, i), key) <= VersionOf(Rsm.Fold(log, j), key)
    decreases j
  {
    if i < j {
      VersionRises(log, key, i, j - 1);
      FoldedOk(log, j - 1);
    }
  }

  /** At most one put on a given version of a key succeeds, wherever in the log. */
  lemma {:induction false} OneSuccessPerVersion(log: seq<Rsm.Op>, x: nat, y: nat, key: string, version: nat)
    requires 1 <= x <= |log| && 1 <= y <= |log|
    requires log[x - 1].command.PutCommand? && log[y - 1].command.PutCommand?
    requires log[x - 1].command.key == log[y - 1].command.key == key
    requires log[x - 1].command.version == log[y - 1].command.version == version
    requires Rsm.ResultAt(log, x) == Rsm.PutResult(OK) && Rsm.ResultAt(log, y) == Rsm.PutResult(OK)
    ensures x == y
  {
    FoldedOk(log, x - 1);
    FoldedOk(log, y - 1);
    if x < y {
      VersionRises(log, key, x, y - 1);
    } else if y < x {
      VersionRises(log, key, y, x - 1);
    }
  }

  lemma {:induction false} AnswerStays(ss: seq<Rsm.Service>, steps: seq<Rsm.Step>, n: nat, i: nat, k: nat, id: nat)
    requires Rsm.IsRun(ss, steps, n) && i <= k <= |steps| && Rsm.SaidOk(ss[i], id)
    ensures var c := ss[i].calls[id];
            && 1 <= c.index <= |ss[k].log| && ss[k].log[c.index - 1] == c.op && c.op.id == id
            && Rsm.ResultAt(ss[k].log, c.index) == c.status.answer.value
  {
    Rsm.RepliesAreSequential(ss, steps, n, i, id);
    Rsm.LogGrows(ss, steps, n, i, k);
    var log, later := ss[i].log, ss[k].log;
    assert later == log + later[|log|..];
    Rsm.FoldPrefix(log, later[|log|..], ss[i].calls[id].index);
  }

  /** The command at a place where an attempt of the put succeeded is the put. */
  lemma {:induction false} EffectIsPut(ss: seq<Rsm.Service>, steps: seq<Rsm.Step>, n: nat, i: nat, k: nat,
                                       put: Rsm.Command, atts: seq<Attempt>, x: nat)
    requires Rsm.IsRun(ss, steps, n) && i <= k <= |steps| && AttemptsOf(ss[i], put, atts)
    requires EffectAt(ss[k].log, atts, x)
    ensures ss[k].log[x - 1].command == put
  {
    var a :| 0 <= a < |atts| && atts[a].submit == Some(ss[k].log[x - 1].id);
    assert AttemptOf(ss[i], put, atts[a]);
    OpStays(ss, steps, n, i, k, ss[k].log[x - 1].id);
    Rsm.InvAt(ss, steps, n, k);
  }

  lemma {:induction false} OpStays(ss: seq<Rsm.Service>, steps: seq<Rsm.Step>, n: nat, i: nat, k: nat, id: nat)
    requires Rsm.IsRun(ss, steps, n) && i <= k <= |steps| && id in ss[i].calls
    ensures id in ss[k].calls && ss[k].calls[id].op == ss[i].calls[id].op
    decreases k
  {
    if i < k {
      OpStays(ss, steps, n, i, k - 1, id);
    }
  }

  /** At most one attempt of a put ever takes effect. */
  lemma {:induction false} OneEffect(ss: seq<Rsm.Service>, steps: seq<Rsm.Step>, n: nat, i: nat, k: nat,
                                     put: Rsm.Command, atts: seq<Attempt>, x: nat, y: nat)
    requires Rsm.IsRun(ss, steps, n) && i <= k <= |steps| && AttemptsOf(ss[i], put, atts)
    requires EffectAt(ss[k].log, atts, x) && EffectAt(ss[k].log, atts, y)
    ensures x == y
  {
    EffectIsPut(ss, steps, n, i, k, put, atts, x);
    EffectIsPut(ss, steps, n, i, k, put, atts, y);
    OneSuccessPerVersion(ss[k].log, x, y, put.key, put.version);
  }

  /** An answered attempt has its place in every later log, with its answer. */
  lemma {:induction false} AnsweredAt(ss: seq<Rsm.Service>, steps: seq<Rsm.Step>, n: nat, i: nat, k: nat,
                                      put: Rsm.Command, a: Attempt) returns (x: nat)
    requires Rsm.IsRun(ss, steps, n) && i <= k <= |steps| && put.PutCommand? && AttemptOf(ss[i], put, a)
    requires !Unsure(a.outcome)
    ensures a.submit.Some? && 1 <= x <= |ss[k].log| && ss[k].log[x - 1].id == a.submit.value
    ensures Rsm.ResultAt(ss[k].log, x) == Rsm.PutResult(a.outcome.err)
  {
    var id := a.submit.value;
    assert Rsm.SaidOk(ss[i], id);
    AnswerStays(ss, steps, n, i, k, id);
    x := ss[i].calls[id].index;
  }

  /** When every attempt was refused, none has taken effect, and none will. */
  lemma {:induction false} RefusedNeverTakesEffect(ss: seq<Rsm.Service>, steps: seq<Rsm.Step>, n: nat, i: nat, k: nat,
                                                   put: Rsm.Command, atts: seq<Attempt>, x: nat)
    requires Rsm.IsRun(ss, steps, n) && i <= k <= |steps| && AttemptsOf(ss[i], put, atts) && EachOnce(ss[k].log)
    requires forall a | 0 <= a < |atts| :: !Unsure(atts[a].outcome) && atts[a].outcome.err != OK
    ensures !EffectAt(ss[k].log, atts, x)
  {
    if EffectAt(ss[k].log, atts, x) {
      var a :| 0 <= a < |atts| && atts[a].submit == Some(ss[k].log[x - 1].id);
      assert AttemptOf(ss[i], put, atts[a]);
      var y := AnsweredAt(ss, steps, n, i, k, put, atts[a]);
    }
  }

  /**
   The answers of the replicated clerk are exact, over all attempts of a Put and at every moment k after it returned:
   at most one attempt has taken effect; after OK one has, at its place in the log; after ErrVersion none has and, as
   Raft gives a command one place, none ever will.
   */
  lemma {:induction false} PutAnswersExact(ss: seq<Rsm.Service>, steps: seq<Rsm.Step>, n: nat, i: nat, k: nat,
                                           put: Rsm.Command, atts: seq<Attempt>, r: Option<Err>, x: nat, y: nat)
    requires Rsm.IsRun(ss, steps, n) && i <= k <= |steps| && AttemptsOf(ss[i], put, atts)
    requires Says(Outcomes(atts), |atts|, r)
    ensures EffectAt(ss[k].log, atts, x) && EffectAt(ss[k].log, atts, y) ==> x == y
    ensures r == Some(OK) ==> exists z :: EffectAt(ss[k].log, atts, z)
    ensures r == Some(ErrVersion) && EachOnce(ss[k].log) ==> !EffectAt(ss[k].log, atts, x)
  {
    if EffectAt(ss[k].log, atts, x) && EffectAt(ss[k].log, atts, y) {
      OneEffect(ss, steps, n, i, k, put, atts, x, y);
    }
    var os := Outcomes(atts);
    if r == Some(OK) {
      var last := atts[|atts| - 1];
      assert AttemptOf(ss[i], put, last);
      assert os[|atts| - 1] == last.outcome;
      var z := AnsweredAt(ss, steps, n, i, k, put, last);
      assert EffectAt(ss[k].log, atts, z);
    }
    if r == Some(ErrVersion) && EachOnce(ss[k].log) {
      forall a | 0 <= a < |atts| ensures !Unsure(atts[a].outcome) && atts[a].outcome.err != OK {
        assert os[a] == atts[a].outcome;
      }
      RefusedNeverTakesEffect(ss, steps, n, i, k, put, atts, x);
    }
  }
}
