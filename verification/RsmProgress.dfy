/**
 What the replicated service of Rsm.dfy can still do from every state of every run: a
 Submit on any replica can be answered with its result, a call can always end, a replica
 that lags behind can jump to a snapshot. And what a waiting call is told, exactly.
 */
module RsmProgress {
  import opened Basics
  import opened Kv
  import opened Rsm
  import Runs

  // ---------------------------------------------------------------- answers, exactly

  /** The operation of the call sits in the log at its index. */
  predicate AtItsPlace(log: seq<Op>, c: Call) {
    1 <= c.index <= |log| && log[c.index - 1] == c.op
  }

  /**
   A call that takes a message leaves with the result of running the log up to its index if its own operation sits
   there, and with ErrWrongLeader otherwise.
   */
  lemma {:induction false} TakeExact(ss: seq<Service>, steps: seq<Step>, n: nat, i: nat, id: nat)
    requires IsRun(ss, steps, n) && i < |steps| && steps[i] == Take(id)
    ensures id in ss[i].calls && id in ss[i + 1].calls
    ensures var log, c := ss[i].log, ss[i].calls[id];
            ss[i + 1].calls[id] ==
              c.(status := Leaving(if AtItsPlace(log, c) then Some(ResultAt(log, c.index)) else None))
  {
    var s := ss[i];
    InvAt(ss, steps, n, i);
    assert MessageOk(s.log, s.calls[id].index, s.buffers[id][0]);
    assert s.log[s.calls[id].index - 1].id in s.calls;
  }

  /**
   A result goes to the call listed under its index, which is still alive on this replica, and is dropped exactly when
   no call is listed there; what is sent is what the log says at that index.
   */
  lemma {:induction false} LookupExact(ss: seq<Service>, steps: seq<Step>, n: nat, i: nat, p: nat)
    requires IsRun(ss, steps, n) && i < |steps| && steps[i] == Lookup(p)
    ensures p < |ss[i].replicas| && p < |ss[i + 1].replicas|
    ensures var r, r' := ss[i].replicas[p], ss[i + 1].replicas[p];
            && (r'.reader.Ready? <==> r.applied !in r.channels)
            && (r.applied in r.channels ==>
                  && r'.reader.Sending? && r'.reader.call == r.channels[r.applied]
                  && Listed(ss[i].calls, p, r.applied, r'.reader.call)
                  && MessageOk(ss[i].log, r.applied, r'.reader.message))
            && r == r'.(reader := r.reader)
  {
    InvAt(ss, steps, n, i);
    assert ReplicaOk(ss[i].log, ss[i].calls, p, ss[i].replicas[p]);
  }

  // ---------------------------------------------------------------- what a get returns

  /** The put at place x of the log succeeded on the key. */
  predicate Wrote(log: seq<Op>, key: string, x: nat) {
    && 1 <= x <= |log| && log[x - 1].command.PutCommand? && log[x - 1].command.key == key
    && ResultAt(log, x) == PutResult(OK)
  }

  /** How many puts on the key succeeded up to place n. */
  function Writes(log: seq<Op>, key: string, n: nat): nat {
    if n == 0 then 0 else Writes(log, key, n - 1) + if Wrote(log, key, n) then 1 else 0
  }

  /** x is the last successful put on the key up to place n. */
  ghost predicate LastWrite(log: seq<Op>, key: string, n: nat, x: nat) {
    x <= n && Wrote(log, key, x) && forall y | x < y <= n :: !Wrote(log, key, y)
  }

  /** The store has the value of the last successful put, and as many versions as there were successful puts. */
  lemma {:induction false} StoreIsLastWrite(log: seq<Op>, key: string, n: nat)
    requires n <= |log|
    ensures VersionOf(Fold(log, n), key) == Writes(log, key, n)
    ensures key in Fold(log, n) <==> Writes(log, key, n) > 0
    ensures forall x: nat | LastWrite(log, key, n, x) ::
              key in Fold(log, n) && Fold(log, n)[key].value == log[x - 1].command.value
  {
    if n > 0 {
      StoreIsLastWrite(log, key, n - 1);
      forall x: nat | LastWrite(log, key, n, x)
        ensures key in Fold(log, n) && Fold(log, n)[key].value == log[x - 1].command.value
      {
        if x < n {
          assert LastWrite(log, key, n - 1, x);
          assert !Wrote(log, key, n);
        }
      }
    }
  }

  /**
   A Get that is answered OK returns the value of the last successful put on its key before it in the log, with a
   version that counts them, and says ErrNoKey exactly when there was none.
   */
  lemma {:induction false} GetReadsLastWrite(ss: seq<Service>, steps: seq<Step>, n: nat, i: nat, id: nat)
    requires IsRun(ss, steps, n) && i <= |steps| && SaidOk(ss[i], id) && ss[i].calls[id].op.command.GetCommand?
    ensures var c, log := ss[i].calls[id], ss[i].log;
            && c.index >= 1 && c.status.answer.value.GetResult?
            && var key, reply, before := c.op.command.key, c.status.answer.value.reply, c.index - 1;
               && reply.version == Writes(log, key, before)
               && reply.err == (if Writes(log, key, before) > 0 then OK else ErrNoKey)
               && forall x: nat | LastWrite(log, key, before, x) :: reply.value == log[x - 1].command.value
  {
    RepliesAreSequential(ss, steps, n, i, id);
    StoreIsLastWrite(ss[i].log, ss[i].calls[id].op.command.key, ss[i].calls[id].index - 1);
  }

  // ---------------------------------------------------------------- a call dies with its process

  lemma {:induction false} DeadStays(ss: seq<Service>, steps: seq<Step>, n: nat, i: nat, j: nat, id: nat)
    requires IsRun(ss, steps, n) && i <= j <= |steps| && id in ss[i].calls && !ss[i].calls[id].live
    ensures id in ss[j].calls && ss[j].calls[id] == ss[i].calls[id]
    decreases j
  {
    if i < j {
      DeadStays(ss, steps, n, i, j - 1, id);
    }
  }

  /** After a restart no call of that process ever changes again, and no other call is touched by it. */
  lemma {:induction false} CallsDieWithProcess(ss: seq<Service>, steps: seq<Step>, n: nat, i: nat, j: nat, id: nat)
    requires IsRun(ss, steps, n) && i < j <= |steps| && steps[i].Restart? && id in ss[i].calls
    ensures id in ss[i + 1].calls && id in ss[j].calls
    ensures ss[i].calls[id].at == steps[i].p ==>
              ss[j].calls[id].status == ss[i].calls[id].status && !ss[j].calls[id].live
    ensures ss[i].calls[id].at != steps[i].p ==> ss[i + 1].calls[id] == ss[i].calls[id]
  {
    if ss[i].calls[id].at == steps[i].p {
      DeadStays(ss, steps, n, i + 1, j, id);
    } else {
      CallStays(ss, steps, n, i + 1, j, id);
    }
  }

  lemma {:induction false} CallStays(ss: seq<Service>, steps: seq<Step>, n: nat, i: nat, j: nat, id: nat)
    requires IsRun(ss, steps, n) && i <= j <= |steps| && id in ss[i].calls
    ensures id in ss[j].calls
    decreases j
  {
    if i < j {
      CallStays(ss, steps, n, i, j - 1, id);
    }
  }

  // ---------------------------------------------------------------- where a state leads

  function Can(): (Service, Step) -> bool {
    (s: Service, step: Step) => Enabled(s, step)
  }

  function Move(): (Service, Step) -> Service {
    (s: Service, step: Step) => if Enabled(s, step) then Next(s, step) else s
  }

  ghost predicate Leads(s: Service, t: Service) {
    Runs.Leads(Can(), Move(), s, t)
  }

  /** What every state of a run keeps. */
  ghost predicate Good(s: Service) {
    Inv(s) && Quiet(s)
  }

  /** One more step. */
  lemma {:induction false} Go(s: Service, t: Service, step: Step) returns (u: Service)
    requires Leads(s, t) && Good(t) && Enabled(t, step)
    ensures u == Next(t, step) && Leads(s, u) && Good(u)
  {
    u := Next(t, step);
    Runs.One(Can(), Move(), t, step);
    Runs.Join(Can(), Move(), s, t, u);
    StepKeepsInv(t, step);
    StepQuiet(t, step);
  }

  lemma {:induction false} Here(s: Service)
    ensures Leads(s, s)
  {
    Runs.Stay(Can(), Move(), s);
  }

  /** A run goes on to what its last state leads to. */
  lemma {:induction false} Continue(ss: seq<Service>, steps: seq<Step>, n: nat, t: Service)
    returns (ss': seq<Service>, steps': seq<Step>)
    requires IsRun(ss, steps, n) && Leads(ss[|steps|], t)
    ensures IsRun(ss', steps', n) && ss <= ss' && steps <= steps' && ss'[|steps'|] == t
  {
    ss', steps' := Runs.Continue(Can(), Move(), ss, steps, t);
    assert ss'[0] == ss[0];
  }

  // ---------------------------------------------------------------- a Submit that says OK

  /** Only the reader of p and the buffers have moved. */
  ghost predicate Aside(s: Service, t: Service, p: nat) {
    && t.log == s.log && t.calls == s.calls && t.snaps == s.snaps && |t.replicas| == |s.replicas| && p < |s.replicas|
    && t.replicas[p].applied >= s.replicas[p].applied
  }

  /** The reader can finish what it is doing. */
  lemma {:induction false} ReaderReady(s: Service, t: Service, p: nat) returns (u: Service)
    requires Leads(s, t) && Good(t) && p < |t.replicas|
    ensures Leads(s, u) && Good(u) && Aside(t, u, p)
    ensures u.replicas[p].reader.Ready? && u.replicas[p].applied == t.replicas[p].applied
  {
    u := t;
    if u.replicas[p].reader.Holding? {
      u := Go(s, u, Lookup(p));
    }
    if u.replicas[p].reader.Sending? {
      assert ReplicaOk(u.log, u.calls, p, u.replicas[p]);
      assert SentOnce(u, u.replicas[p].reader.call);
      u := Go(s, u, Push(p));
    }
  }

  /** A replica can apply all of the log. */
  lemma {:induction false} CatchUp(s: Service, t: Service, p: nat) returns (u: Service)
    requires Leads(s, t) && Good(t) && p < |t.replicas|
    ensures Leads(s, u) && Good(u) && Aside(t, u, p)
    ensures u.replicas[p].reader.Ready? && u.replicas[p].applied == |u.log|
    decreases |t.log| - t.replicas[p].applied
  {
    assert ReplicaOk(t.log, t.calls, p, t.replicas[p]);
    u := ReaderReady(s, t, p);
    if u.replicas[p].applied < |u.log| {
      u := Go(s, u, Apply(p));
      u := CatchUp(s, u, p);
    }
  }

  /** The call has returned OK with the result of its command on the store of the whole log before it. */
  ghost predicate Answered(s: Service, t: Service, p: nat, command: Command, id: nat) {
    && t.log == s.log + [Op(command, id)]
    && SaidOk(t, id) && t.calls[id].status.answer == Some(DoOp(Fold(s.log, |s.log|), command).1)
    && t.calls[id].op == Op(command, id) && t.calls[id].at == p
    && p < |t.replicas| && t.replicas[p].store == DoOp(Fold(s.log, |s.log|), command).0
    && t.calls[id].index !in t.replicas[p].channels
  }

  /** The call waits, its operation is in the log, and the reader is about to send it the result. */
  ghost predicate AboutToHear(s: Service, t: Service, p: nat, command: Command, id: nat) {
    var op, index := Op(command, id), |s.log| + 1;
    && t.log == s.log + [op] && id in t.calls && t.calls[id] == Call(op, p, index, Waiting, true)
    && p < |t.replicas| && id in t.buffers && t.buffers[id] == []
    && t.replicas[p].reader == Sending(id, Message(op, DoOp(Fold(s.log, |s.log|), command).1))
    && t.replicas[p].store == DoOp(Fold(s.log, |s.log|), command).0
  }

  /** The call is listed and its operation is in the log, and the reader has come right before it. */
  ghost predicate AboutToApply(s: Service, t: Service, p: nat, command: Command, id: nat) {
    var op, index := Op(command, id), |s.log| + 1;
    && t.log == s.log + [op] && id in t.calls && t.calls[id] == Call(op, p, index, Waiting, true)
    && p < |t.replicas| && id in t.buffers && t.buffers[id] == []
    && t.replicas[p].reader.Ready? && t.replicas[p].applied == |s.log| && t.replicas[p].store == Fold(s.log, |s.log|)
    && index in t.replicas[p].channels && t.replicas[p].channels[index] == id
  }

  lemma {:induction false} CommandIsCommitted(s: Service, t: Service, p: nat, command: Command, id: nat)
    returns (u: Service)
    requires Leads(s, t) && Good(t) && p < |t.replicas| && id !in t.calls
    requires t.replicas[p].reader.Ready? && t.replicas[p].applied == |t.log|
    ensures Leads(s, u) && Good(u) && AboutToApply(t, u, p, command, id)
  {
    assert ReplicaOk(t.log, t.calls, p, t.replicas[p]);
    u := Go(s, t, Submit(p, command, id, |t.log| + 1, true));
    u := Go(s, u, Commit(Op(command, id)));
  }

  lemma {:induction false} CommandIsApplied(s: Service, t: Service, u: Service, p: nat, command: Command, id: nat)
    returns (v: Service)
    requires Leads(s, u) && Good(u) && AboutToApply(t, u, p, command, id)
    ensures Leads(s, v) && Good(v) && AboutToHear(t, v, p, command, id)
  {
    v := Go(s, u, Apply(p));
    v := Go(s, v, Lookup(p));
  }

  /** Send, take, return. */
  lemma {:induction false} ResultIsHeard(s: Service, t: Service, u: Service, p: nat, command: Command, id: nat)
    returns (v: Service)
    requires Leads(s, u) && Good(u) && AboutToHear(t, u, p, command, id)
    ensures Leads(s, v) && Good(v) && Answered(t, v, p, command, id)
  {
    v := Go(s, u, Push(p));
    v := Go(s, v, Take(id));
    v := Go(s, v, Finish(id));
  }

  /**
   From every state of every run, a command submitted on any replica can be committed, applied and answered OK with the
   result of running the whole log before it.
   */
  lemma {:induction false} SubmitCanSucceed(ss: seq<Service>, steps: seq<Step>, n: nat, p: nat, command: Command,
                                            id: nat)
    returns (ss': seq<Service>, steps': seq<Step>)
    requires IsRun(ss, steps, n) && p < |ss[|steps|].replicas| && id !in ss[|steps|].calls
    ensures IsRun(ss', steps', n) && ss <= ss' && steps <= steps'
    ensures Answered(ss[|steps|], ss'[|steps'|], p, command, id)
  {
    var s := ss[|steps|];
    InvAt(ss, steps, n, |steps|);
    QuietAt(ss, steps, n, |steps|);
    Here(s);
    var t := CatchUp(s, s, p);
    var u := CommandIsCommitted(s, t, p, command, id);
    u := CommandIsApplied(s, t, u, p, command, id);
    t := ResultIsHeard(s, t, u, p, command, id);
    ss', steps' := Continue(ss, steps, n, t);
  }

  // ---------------------------------------------------------------- calls end, snapshots help

  /**
   From every state of every run a call whose process lives can end without help from anyone, and then nothing is
   listed under its index on its replica.
   */
  lemma {:induction false} CallCanEnd(ss: seq<Service>, steps: seq<Step>, n: nat, id: nat)
    returns (ss': seq<Service>, steps': seq<Step>)
    requires IsRun(ss, steps, n) && id in ss[|steps|].calls && ss[|steps|].calls[id].live
    requires !ss[|steps|].calls[id].status.Returned?
    ensures IsRun(ss', steps', n) && ss <= ss' && steps <= steps'
    ensures var c, t := ss[|steps|].calls[id], ss'[|steps'|];
            && id in t.calls && c == t.calls[id].(status := c.status) && t.calls[id].status.Returned?
            && (c.status.Waiting? ==> t.calls[id].status.answer == None)
            && (c.status.Leaving? ==> t.calls[id].status.answer == c.status.answer)
            && c.at < |t.replicas| && c.index !in t.replicas[c.at].channels
  {
    var s := ss[|steps|];
    InvAt(ss, steps, n, |steps|);
    QuietAt(ss, steps, n, |steps|);
    assert SentOnce(s, id);
    Here(s);
    var t := s;
    if s.calls[id].status.Waiting? {
      t := Go(s, t, TimeOut(id));
    }
    t := Go(s, t, Finish(id));
    ss', steps' := Continue(ss, steps, n, t);
  }

  /** A Submit that Raft refuses returns at once, with nothing listed and nothing to wait for. */
  lemma {:induction false} RefusedAtOnce(s: Service, p: nat, command: Command, id: nat, index: nat)
    requires Enabled(s, Submit(p, command, id, index, false))
    ensures var t := Next(s, Submit(p, command, id, index, false));
            && id in t.calls && t.calls[id].status == Returned(None) && t.replicas == s.replicas && t.log == s.log
            && forall other | other in s.calls :: other in t.calls && t.calls[other] == s.calls[other]
  {
  }

  /**
   A snapshot that replica q saves can take any replica p that lags behind to q's store and index, whether p installs
   it while running or restarts from it.
   */
  lemma {:induction false} SnapshotCatchesUp(ss: seq<Service>, steps: seq<Step>, n: nat, p: nat, q: nat, crash: bool)
    returns (ss': seq<Service>, steps': seq<Step>)
    requires IsRun(ss, steps, n) && p < |ss[|steps|].replicas| && q < |ss[|steps|].replicas| && p != q
    requires ss[|steps|].replicas[q].reader.Holding?
    requires ss[|steps|].replicas[p].applied < ss[|steps|].replicas[q].applied
    ensures IsRun(ss', steps', n) && ss <= ss' && steps <= steps'
    ensures var s, t := ss[|steps|], ss'[|steps'|];
            && |t.replicas| == |s.replicas| && t.log == s.log
            && t.replicas[p].applied == s.replicas[q].applied && t.replicas[p].store == s.replicas[q].store
  {
    var s := ss[|steps|];
    InvAt(ss, steps, n, |steps|);
    QuietAt(ss, steps, n, |steps|);
    assert ReplicaOk(s.log, s.calls, q, s.replicas[q]);
    Here(s);
    var t := Go(s, s, Save(q));
    var snap := Snap(s.replicas[q].applied, s.replicas[q].store);
    if crash {
      t := Go(s, t, Restart(p, Some(snap)));
    } else {
      t := ReaderReady(s, t, p);
      t := Go(s, t, Install(p, snap));
    }
    ss', steps' := Continue(ss, steps, n, t);
  }
}
