/**
 The replicated key/value service (src/kvraft1/rsm/rsm.go, src/kvraft1/server.go) on top of
 what Raft promises: committed commands come in index order, and a snapshot only jumps
 forward. Submit hands a command to Raft, waits on a channel kept under the log index, and
 gives up after a while; the reader applies commands and looks the channel up. An index can
 be used again after a change of leader, so a channel can be overwritten or deleted by
 somebody else.
 */
module Rsm {
  import opened Basics
  import opened Kv

  // ---------------------------------------------------------------- the state machine

  datatype Command = GetCommand(key: string) | PutCommand(key: string, value: string, version: nat)

  datatype Result = GetResult(reply: GetReply) | PutResult(err: Err)

  datatype Op = Op(command: Command, id: nat)

  function DoOp(store: Store, c: Command): (Store, Result) {
    match c
    case GetCommand(key) => (store, GetResult(DoGet(store, key)))
    case PutCommand(key, value, version) =>
      var (store', err) := DoPut(store, key, value, version);
      (store', PutResult(err))
  }

  /** The store after the first n commands of the log. */
  function Fold(log: seq<Op>, n: nat): Store
    requires n <= |log|
  {
    if n == 0 then map[] else DoOp(Fold(log, n - 1), log[n - 1].command).0
  }

  /** What the command at index i answers when the log runs in order; indices start at 1. */
  function ResultAt(log: seq<Op>, i: nat): Result
    requires 1 <= i <= |log|
  {
    DoOp(Fold(log, i - 1), log[i - 1].command).1
  }

  lemma {:induction false} FoldPrefix(log: seq<Op>, more: seq<Op>, n: nat)
    requires n <= |log|
    ensures Fold(log + more, n) == Fold(log, n)
    ensures n >= 1 ==> ResultAt(log + more, n) == ResultAt(log, n)
  {
    if n > 0 {
      FoldPrefix(log, more, n - 1);
    }
  }

  // ---------------------------------------------------------------- the server object

  /** A message from Raft. */
  datatype ApplyMsg = CommandMsg(op: Op, index: nat) | SnapshotMsg(store: Store, index: nat) | InvalidMsg

  /** Raft's promise: after applied commands, the next command is the one at applied + 1, and a snapshot holds the store
      of a later index. */
  ghost predicate Deliverable(log: seq<Op>, applied: nat, m: ApplyMsg) {
    match m
    case CommandMsg(op, index) => index == applied + 1 && index <= |log| && op == log[index - 1]
    case SnapshotMsg(store, index) => applied < index <= |log| && store == Fold(log, index)
    case InvalidMsg => true
  }

  function AppliedAfter(applied: nat, m: ApplyMsg): nat {
    if m.InvalidMsg? then applied else m.index
  }

  ghost function AppliedBy(applied: nat, ms: seq<ApplyMsg>): nat {
    if ms == [] then applied else AppliedAfter(AppliedBy(applied, ms[..|ms| - 1]), ms[|ms| - 1])
  }

  ghost predicate AllDeliverable(log: seq<Op>, applied: nat, ms: seq<ApplyMsg>) {
    forall i | 0 <= i < |ms| :: Deliverable(log, AppliedBy(applied, ms[..i]), ms[i])
  }

  /** The indices of the commands among the messages, in order. */
  ghost function Indices(ms: seq<ApplyMsg>): seq<nat> {
    if ms == [] then []
    else Indices(ms[..|ms| - 1]) + if ms[|ms| - 1].CommandMsg? then [ms[|ms| - 1].index] else []
  }

  ghost predicate ResultIs(log: seq<Op>, r: (nat, Result)) {
    1 <= r.0 <= |log| && r.1 == ResultAt(log, r.0)
  }

  class KVServer {
    var kvMap: Store

    constructor ()
      ensures kvMap == map[]
    {
      kvMap := map[];
    }

    method Execute(c: Command) returns (r: Result)
      modifies this
      ensures (kvMap, r) == DoOp(old(kvMap), c)
    {
      match c {
        case GetCommand(key) =>
          if key !in kvMap {
            return GetResult(GetReply(ErrNoKey, "", 0));
          }
          return GetResult(GetReply(OK, kvMap[key].value, kvMap[key].version));
        case PutCommand(key, value, version) =>
          if key !in kvMap {
            if version == 0 {
              kvMap := kvMap[key := Versioned(value, version + 1)];
              return PutResult(OK);
            }
            return PutResult(ErrNoKey);
          }
          if version != kvMap[key].version {
            return PutResult(ErrVersion);
          }
          kvMap := kvMap[key := Versioned(value, version + 1)];
          return PutResult(OK);
      }
    }

    /** Restore(); None is a snapshot without data, which changes nothing. */
    method Restore(data: Option<Store>)
      modifies this
      ensures kvMap == if data.None? then old(kvMap) else data.value
    {
      if data.None? {
        return;
      }
      kvMap := data.value;
    }

    /** The reader loop over the messages of one life of the server: the store follows the log, and there is one result
        for each command, in order, which is the one at its index. */
    method ApplyReader(ms: seq<ApplyMsg>, ghost log: seq<Op>, ghost applied: nat) returns (results: seq<(nat, Result)>)
      requires applied <= |log| && kvMap == Fold(log, applied) && AllDeliverable(log, applied, ms)
      modifies this
      ensures AppliedBy(applied, ms) <= |log| && kvMap == Fold(log, AppliedBy(applied, ms))
      ensures |results| == |Indices(ms)|
      ensures forall k | 0 <= k < |results| :: results[k].0 == Indices(ms)[k] && ResultIs(log, results[k])
    {
      results := [];
      for n := 0 to |ms|
        invariant AppliedBy(applied, ms[..n]) <= |log| && kvMap == Fold(log, AppliedBy(applied, ms[..n]))
        invariant |results| == |Indices(ms[..n])|
        invariant forall k | 0 <= k < |results| :: results[k].0 == Indices(ms[..n])[k] && ResultIs(log, results[k])
      {
        assert Deliverable(log, AppliedBy(applied, ms[..n]), ms[n]);
        assert ms[..n + 1][..n] == ms[..n];
        match ms[n] {
          case InvalidMsg =>
          case CommandMsg(op, index) =>
            var r := Execute(op.command);
            results := results + [(index, r)];
          case SnapshotMsg(store, _) =>
            Restore(Some(store));
        }
      }
      assert ms[..|ms|] == ms;
    }
  }

  // ---------------------------------------------------------------- the service as a state machine

  /** A result on its way through a channel. */
  datatype Message = Message(op: Op, result: Result)

  /** The reader of a replica: waiting for Raft, holding a result for an index, or sending it to the channel of a
      call. */
  datatype Reader = Ready | Holding(index: nat, message: Message) | Sending(call: nat, message: Message)

  /** channels maps a log index to the call whose channel was put there last. */
  datatype Replica = Replica(store: Store, applied: nat, reader: Reader, channels: map<nat, nat>)

  /** An answer of None is ErrWrongLeader; Some is OK with a result. */
  datatype Status = Waiting | Leaving(answer: Option<Result>) | Returned(answer: Option<Result>)

  /** One call of Submit; index is where Raft said the command would go. It dies with the process it runs in. */
  datatype Call = Call(op: Op, at: nat, index: nat, status: Status, live: bool)

  datatype Snap = Snap(index: nat, store: Store)

  /** Calls and their channels go by the unique id of their operation. */
  datatype Service = Service(log: seq<Op>, calls: map<nat, Call>, buffers: map<nat, seq<Message>>,
    replicas: seq<Replica>, snaps: set<Snap>)

  datatype Step =
    | Commit(op: Op)
    | Submit(p: nat, command: Command, id: nat, index: nat, leader: bool)
    | Apply(p: nat)
    | Install(p: nat, snap: Snap)
    | Save(p: nat)
    | Lookup(p: nat)
    | Push(p: nat)
    | Take(id: nat)
    | TimeOut(id: nat)
    | Finish(id: nat)
    | Restart(p: nat, saved: Option<Snap>)

  const FRESH := Replica(map[], 0, Ready, map[])

  function Init(n: nat): Service {
    Service([], map[], map[], seq(n, _ => FRESH), {})
  }

  predicate Enabled(s: Service, step: Step) {
    match step
    case Commit(op) => op.id in s.calls && s.calls[op.id].op == op
    case Submit(p, _, id, _, _) => p < |s.replicas| && id !in s.calls
    case Apply(p) => p < |s.replicas| && s.replicas[p].reader.Ready? && s.replicas[p].applied < |s.log|
    case Install(p, snap) =>
      p < |s.replicas| && s.replicas[p].reader.Ready? && snap in s.snaps && snap.index > s.replicas[p].applied
    case Save(p) => p < |s.replicas| && s.replicas[p].reader.Holding?
    case Lookup(p) => p < |s.replicas| && s.replicas[p].reader.Holding?
    case Push(p) =>
      && p < |s.replicas| && s.replicas[p].reader.Sending?
      && s.replicas[p].reader.call in s.buffers && s.buffers[s.replicas[p].reader.call] == []
    case Take(id) => id in s.calls && s.calls[id].live && s.calls[id].status.Waiting? && id in s.buffers &&
      s.buffers[id] != []
    case TimeOut(id) => id in s.calls && s.calls[id].live && s.calls[id].status.Waiting?
    case Finish(id) => id in s.calls && s.calls[id].live && s.calls[id].status.Leaving? && s.calls[id].at < |s.replicas|
    case Restart(p, saved) => p < |s.replicas| && (saved.Some? ==> saved.value in s.snaps)
  }

  /** The answer to a call that takes a message: its own result, or none when another command sits at its index. */
  function Answer(call: Call, m: Message): Option<Result> {
    if m.op.id != call.op.id then None else Some(m.result)
  }

  function WithReplica(s: Service, p: nat, r: Replica): Service
    requires p < |s.replicas|
  {
    s.(replicas := s.replicas[p := r])
  }

  function WithStatus(s: Service, id: nat, status: Status): Service
    requires id in s.calls
  {
    s.(calls := s.calls[id := s.calls[id].(status := status)])
  }

  function Applied(r: Replica, op: Op): Replica {
    var (store, result) := DoOp(r.store, op.command);
    r.(store := store, applied := r.applied + 1, reader := Holding(r.applied + 1, Message(op, result)))
  }

  function LookedUp(r: Replica): Replica
    requires r.reader.Holding?
  {
    r.(reader := if r.reader.index in r.channels then Sending(r.channels[r.reader.index], r.reader.message) else Ready)
  }

  function Abandon(calls: map<nat, Call>, p: nat): map<nat, Call> {
    map id | id in calls :: if calls[id].at == p then calls[id].(live := false) else calls[id]
  }

  function Next(s: Service, step: Step): Service
    requires Enabled(s, step)
  {
    match step
    case Commit(op) => s.(log := s.log + [op])
    case Submit(p, command, id, index, leader) =>
      var op := Op(command, id);
      if !leader then
        s.(calls := s.calls[id := Call(op, p, index, Returned(None), true)], buffers := s.buffers[id := []])
      else
        var r := s.replicas[p];
        s.(calls := s.calls[id := Call(op, p, index, Waiting, true)],
           buffers := s.buffers[id := []],
           replicas := s.replicas[p := r.(channels := r.channels[index := id])])
    case Apply(p) => WithReplica(s, p, Applied(s.replicas[p], s.log[s.replicas[p].applied]))
    case Install(p, snap) => WithReplica(s, p, s.replicas[p].(store := snap.store, applied := snap.index))
    case Save(p) => s.(snaps := s.snaps + {Snap(s.replicas[p].reader.index, s.replicas[p].store)})
    case Lookup(p) => WithReplica(s, p, LookedUp(s.replicas[p]))
    case Push(p) =>
      var r := s.replicas[p];
      WithReplica(s.(buffers := s.buffers[r.reader.call := [r.reader.message]]), p, r.(reader := Ready))
    case Take(id) =>
      WithStatus(s.(buffers := s.buffers[id := []]), id, Leaving(Answer(s.calls[id], s.buffers[id][0])))
    case TimeOut(id) => WithStatus(s, id, Leaving(None))
    case Finish(id) =>
      var c := s.calls[id];
      var r := s.replicas[c.at];
      WithReplica(WithStatus(s, id, Returned(c.status.answer)), c.at, r.(channels := r.channels - {c.index}))
    case Restart(p, saved) =>
      var r := if saved.Some? then FRESH.(store := saved.value.store, applied := saved.value.index) else FRESH;
      WithReplica(s.(calls := Abandon(s.calls, p)), p, r)
  }

  ghost predicate IsRun(ss: seq<Service>, steps: seq<Step>, n: nat) {
    && |ss| == |steps| + 1
    && ss[0] == Init(n)
    && forall i | 0 <= i < |steps| :: Enabled(ss[i], steps[i]) && ss[i + 1] == Next(ss[i], steps[i])
  }

  // ---------------------------------------------------------------- what every state keeps

  /** m is what the log has to say at index. */
  ghost predicate MessageOk(log: seq<Op>, index: nat, m: Message) {
    1 <= index <= |log| && m.op == log[index - 1] && m.result == ResultAt(log, index)
  }

  ghost predicate AnswerOk(log: seq<Op>, c: Call, answer: Option<Result>) {
    answer.Some? ==> 1 <= c.index <= |log| && log[c.index - 1] == c.op && answer.value == ResultAt(log, c.index)
  }

  ghost predicate CallOk(log: seq<Op>, c: Call) {
    c.status.Leaving? || c.status.Returned? ==> AnswerOk(log, c, c.status.answer)
  }

  ghost predicate BufferOk(log: seq<Op>, c: Call, buffer: seq<Message>) {
    forall k | 0 <= k < |buffer| :: MessageOk(log, c.index, buffer[k])
  }

  ghost predicate Listed(calls: map<nat, Call>, p: nat, index: nat, id: nat) {
    id in calls && calls[id].index == index && calls[id].at == p && calls[id].live
  }

  ghost predicate ReaderOk(log: seq<Op>, calls: map<nat, Call>, p: nat, r: Replica) {
    match r.reader
    case Ready => true
    case Holding(index, m) => index == r.applied && MessageOk(log, index, m)
    case Sending(id, m) => Listed(calls, p, r.applied, id) && MessageOk(log, r.applied, m)
  }

  ghost predicate ReplicaOk(log: seq<Op>, calls: map<nat, Call>, p: nat, r: Replica) {
    && r.applied <= |log| && r.store == Fold(log, r.applied)
    && ReaderOk(log, calls, p, r)
    && forall index | index in r.channels :: Listed(calls, p, index, r.channels[index])
  }

  ghost predicate SnapOk(log: seq<Op>, snap: Snap) {
    snap.index <= |log| && snap.store == Fold(log, snap.index)
  }

  ghost predicate LogOk(log: seq<Op>, calls: map<nat, Call>) {
    forall i | 0 <= i < |log| :: log[i].id in calls && calls[log[i].id].op == log[i]
  }

  ghost predicate CallsOk(s: Service) {
    forall id | id in s.calls ::
      && s.calls[id].op.id == id && id in s.buffers
      && CallOk(s.log, s.calls[id]) && BufferOk(s.log, s.calls[id], s.buffers[id])
  }

  ghost predicate Inv(s: Service) {
    && LogOk(s.log, s.calls)
    && CallsOk(s)
    && (forall p | 0 <= p < |s.replicas| :: ReplicaOk(s.log, s.calls, p, s.replicas[p]))
    && (forall snap | snap in s.snaps :: SnapOk(s.log, snap))
  }

  // ---------------------------------------------------------------- the steps

  lemma {:induction false} CommitCall(log: seq<Op>, op: Op, c: Call, buffer: seq<Message>)
    requires CallOk(log, c) && BufferOk(log, c, buffer)
    ensures CallOk(log + [op], c) && BufferOk(log + [op], c, buffer)
  {
    if 1 <= c.index <= |log| {
      FoldPrefix(log, [op], c.index);
    }
  }

  lemma {:induction false} CommitReplica(log: seq<Op>, op: Op, calls: map<nat, Call>, p: nat, r: Replica)
    requires ReplicaOk(log, calls, p, r)
    ensures ReplicaOk(log + [op], calls, p, r)
  {
    FoldPrefix(log, [op], r.applied);
  }

  lemma {:induction false} CommitKeeps(s: Service, op: Op)
    requires Inv(s) && Enabled(s, Commit(op))
    ensures Inv(Next(s, Commit(op)))
  {
    forall id | id in s.calls
      ensures CallOk(s.log + [op], s.calls[id]) && BufferOk(s.log + [op], s.calls[id], s.buffers[id])
    {
      CommitCall(s.log, op, s.calls[id], s.buffers[id]);
    }
    forall p | 0 <= p < |s.replicas| ensures ReplicaOk(s.log + [op], s.calls, p, s.replicas[p]) {
      CommitReplica(s.log, op, s.calls, p, s.replicas[p]);
    }
    forall snap | snap in s.snaps ensures SnapOk(s.log + [op], snap) {
      FoldPrefix(s.log, [op], snap.index);
    }
  }

  /** The calls a replica still lists keep their place. */
  ghost predicate ListedStay(calls: map<nat, Call>, calls': map<nat, Call>, p: nat) {
    forall index, id | Listed(calls, p, index, id) :: Listed(calls', p, index, id)
  }

  lemma {:induction false} ReplicaStays(log: seq<Op>, calls: map<nat, Call>, calls': map<nat, Call>, p: nat, r: Replica)
    requires ReplicaOk(log, calls, p, r) && ListedStay(calls, calls', p)
    ensures ReplicaOk(log, calls', p, r)
  {
  }

  lemma {:induction false} SubmitKeeps(s: Service, p: nat, command: Command, id: nat, index: nat, leader: bool)
    requires Inv(s) && Enabled(s, Submit(p, command, id, index, leader))
    ensures Inv(Next(s, Submit(p, command, id, index, leader)))
  {
    var s' := Next(s, Submit(p, command, id, index, leader));
    forall q | 0 <= q < |s'.replicas| ensures ReplicaOk(s'.log, s'.calls, q, s'.replicas[q]) {
      assert ListedStay(s.calls, s'.calls, q);
      ReplicaStays(s.log, s.calls, s'.calls, q, s.replicas[q]);
    }
  }

  lemma {:induction false} ReplicaKeeps(s: Service, p: nat, r: Replica)
    requires Inv(s) && p < |s.replicas| && ReplicaOk(s.log, s.calls, p, r)
    ensures Inv(WithReplica(s, p, r))
  {
  }

  lemma {:induction false} ApplyOk(log: seq<Op>, calls: map<nat, Call>, p: nat, r: Replica)
    requires ReplicaOk(log, calls, p, r) && r.applied < |log|
    ensures ReplicaOk(log, calls, p, Applied(r, log[r.applied]))
  {
  }

  lemma {:induction false} StatusKeeps(s: Service, id: nat, status: Status)
    requires Inv(s) && id in s.calls
    requires CallOk(s.log, s.calls[id].(status := status))
    ensures Inv(WithStatus(s, id, status))
  {
    var s' := WithStatus(s, id, status);
    forall q | 0 <= q < |s'.replicas| ensures ReplicaOk(s'.log, s'.calls, q, s'.replicas[q]) {
      assert ListedStay(s.calls, s'.calls, q);
      ReplicaStays(s.log, s.calls, s'.calls, q, s.replicas[q]);
    }
  }

  /** Ids are unique, so a message with the call's id carries the call's own operation. */
  lemma {:induction false} TakenOk(s: Service, id: nat)
    requires Inv(s) && Enabled(s, Take(id))
    ensures AnswerOk(s.log, s.calls[id], Answer(s.calls[id], s.buffers[id][0]))
  {
    var c, m := s.calls[id], s.buffers[id][0];
    assert MessageOk(s.log, c.index, m);
    assert s.log[c.index - 1].id in s.calls;
  }

  lemma {:induction false} BufferKeeps(s: Service, id: nat, buffer: seq<Message>)
    requires Inv(s) && id in s.calls && BufferOk(s.log, s.calls[id], buffer)
    ensures Inv(s.(buffers := s.buffers[id := buffer]))
  {
  }

  lemma {:induction false} TakeKeeps(s: Service, id: nat)
    requires Inv(s) && Enabled(s, Take(id))
    ensures Inv(Next(s, Take(id)))
  {
    TakenOk(s, id);
    BufferKeeps(s, id, []);
    StatusKeeps(s.(buffers := s.buffers[id := []]), id, Leaving(Answer(s.calls[id], s.buffers[id][0])));
  }

  lemma {:induction false} PushKeeps(s: Service, p: nat)
    requires Inv(s) && Enabled(s, Push(p))
    ensures Inv(Next(s, Push(p)))
  {
    var r := s.replicas[p];
    assert ReaderOk(s.log, s.calls, p, r);
    var s1 := s.(buffers := s.buffers[r.reader.call := [r.reader.message]]);
    BufferKeeps(s, r.reader.call, [r.reader.message]);
    assert ReplicaOk(s.log, s.calls, p, r);
    ReplicaKeeps(s1, p, r.(reader := Ready));
  }

  lemma {:induction false} FinishKeeps(s: Service, id: nat)
    requires Inv(s) && Enabled(s, Finish(id))
    ensures Inv(Next(s, Finish(id)))
  {
    var c := s.calls[id];
    var s1 := WithStatus(s, id, Returned(c.status.answer));
    StatusKeeps(s, id, Returned(c.status.answer));
    var r := s.replicas[c.at];
    assert ReplicaOk(s1.log, s1.calls, c.at, s1.replicas[c.at]);
    ReplicaKeeps(s1, c.at, r.(channels := r.channels - {c.index}));
  }

  lemma {:induction false} AbandonKeeps(s: Service, p: nat, r: Replica)
    requires Inv(s) && p < |s.replicas| && r.reader == Ready && r.channels == map[]
    requires r.applied <= |s.log| && r.store == Fold(s.log, r.applied)
    ensures Inv(WithReplica(s.(calls := Abandon(s.calls, p)), p, r))
  {
    var calls' := Abandon(s.calls, p);
    var s' := WithReplica(s.(calls := calls'), p, r);
    forall q | 0 <= q < |s'.replicas| ensures ReplicaOk(s'.log, calls', q, s'.replicas[q]) {
      if q != p {
        assert ListedStay(s.calls, calls', q);
        ReplicaStays(s.log, s.calls, calls', q, s.replicas[q]);
      }
    }
  }

  lemma {:induction false} RestartKeeps(s: Service, p: nat, saved: Option<Snap>)
    requires Inv(s) && Enabled(s, Restart(p, saved))
    ensures Inv(Next(s, Restart(p, saved)))
  {
    assert saved.Some? ==> SnapOk(s.log, saved.value);
    var r := if saved.Some? then FRESH.(store := saved.value.store, applied := saved.value.index) else FRESH;
    AbandonKeeps(s, p, r);
  }

  lemma {:induction false} StepKeepsInv(s: Service, step: Step)
    requires Inv(s) && Enabled(s, step)
    ensures Inv(Next(s, step))
  {
    match step
    case Commit(op) => CommitKeeps(s, op);
    case Submit(p, command, id, index, leader) => SubmitKeeps(s, p, command, id, index, leader);
    case Apply(p) =>
      ApplyOk(s.log, s.calls, p, s.replicas[p]);
      ReplicaKeeps(s, p, Applied(s.replicas[p], s.log[s.replicas[p].applied]));
    case Install(p, snap) =>
      assert SnapOk(s.log, snap) && ReplicaOk(s.log, s.calls, p, s.replicas[p]);
      ReplicaKeeps(s, p, s.replicas[p].(store := snap.store, applied := snap.index));
    case Save(p) => assert ReplicaOk(s.log, s.calls, p, s.replicas[p]);
    case Lookup(p) =>
      assert ReplicaOk(s.log, s.calls, p, s.replicas[p]);
      ReplicaKeeps(s, p, LookedUp(s.replicas[p]));
    case Push(p) => PushKeeps(s, p);
    case Take(id) => TakeKeeps(s, id);
    case TimeOut(id) => StatusKeeps(s, id, Leaving(None));
    case Finish(id) => FinishKeeps(s, id);
    case Restart(p, saved) => RestartKeeps(s, p, saved);
  }

  lemma {:induction false} InvAt(ss: seq<Service>, steps: seq<Step>, n: nat, i: nat)
    requires IsRun(ss, steps, n) && i <= |steps|
    ensures Inv(ss[i])
  {
    if i > 0 {
      InvAt(ss, steps, n, i - 1);
      StepKeepsInv(ss[i - 1], steps[i - 1]);
    }
  }

  // ---------------------------------------------------------------- the results

  /** Every replica's store is the sequential execution of the committed prefix it has applied, through snapshots and
      restarts. */
  lemma {:induction false} ReplicasFollowLog(ss: seq<Service>, steps: seq<Step>, n: nat, i: nat, p: nat)
    requires IsRun(ss, steps, n) && i <= |steps| && p < |ss[i].replicas|
    ensures var r := ss[i].replicas[p]; r.applied <= |ss[i].log| && r.store == Fold(ss[i].log, r.applied)
  {
    InvAt(ss, steps, n, i);
    assert ReplicaOk(ss[i].log, ss[i].calls, p, ss[i].replicas[p]);
  }

  /** Submit said OK. */
  predicate SaidOk(s: Service, id: nat) {
    id in s.calls && s.calls[id].status.Returned? && s.calls[id].status.answer.Some?
  }

  /** Submit says OK only when its own operation sits in the log at its index, and then with the result of running the
      log in order up to it. */
  lemma {:induction false} RepliesAreSequential(ss: seq<Service>, steps: seq<Step>, n: nat, i: nat, id: nat)
    requires IsRun(ss, steps, n) && i <= |steps| && SaidOk(ss[i], id)
    ensures var c := ss[i].calls[id];
            && 1 <= c.index <= |ss[i].log|
            && ss[i].log[c.index - 1] == c.op && c.op.id == id
            && c.status.answer == Some(ResultAt(ss[i].log, c.index))
  {
    InvAt(ss, steps, n, i);
    assert CallOk(ss[i].log, ss[i].calls[id]);
  }

  /** Two calls that got OK have two places in the log. */
  lemma {:induction false} PlacesDiffer(ss: seq<Service>, steps: seq<Step>, n: nat, i: nat, a: nat, b: nat)
    requires IsRun(ss, steps, n) && i <= |steps| && SaidOk(ss[i], a) && SaidOk(ss[i], b) && a != b
    ensures ss[i].calls[a].index != ss[i].calls[b].index
  {
    RepliesAreSequential(ss, steps, n, i, a);
    RepliesAreSequential(ss, steps, n, i, b);
  }

  lemma {:induction false} LogGrows(ss: seq<Service>, steps: seq<Step>, n: nat, i: nat, j: nat)
    requires IsRun(ss, steps, n) && i <= j <= |steps|
    ensures ss[i].log <= ss[j].log
    decreases j
  {
    if i < j {
      LogGrows(ss, steps, n, i, j - 1);
    }
  }

  /** Real time is respected: a call that starts after another one returned OK and gets OK itself comes later in the
      log. With RepliesAreSequential, the OK replies are linearizable. */
  lemma {:induction false} RealTimeOrder(ss: seq<Service>, steps: seq<Step>, n: nat, i: nat, j: nat, k: nat, a: nat,
                                         b: nat)
    requires IsRun(ss, steps, n) && i <= j < k <= |steps|
    requires SaidOk(ss[i], a) && steps[j].Submit? && steps[j].id == b && SaidOk(ss[k], b)
    ensures ss[i].calls[a].index < ss[k].calls[b].index
  {
    RepliesAreSequential(ss, steps, n, i, a);
    RepliesAreSequential(ss, steps, n, k, b);
    InvAt(ss, steps, n, j);
    assert b !in ss[j].calls;
    LogGrows(ss, steps, n, i, j);
    LogGrows(ss, steps, n, j, k);
    NotCommittedYet(ss[j].log, ss[j].calls, b);
  }

  lemma {:induction false} NotCommittedYet(log: seq<Op>, calls: map<nat, Call>, id: nat)
    requires LogOk(log, calls) && id !in calls
    ensures forall x | 0 <= x < |log| :: log[x].id != id
  {
  }

  // ---------------------------------------------------------------- the reader never blocks

  /** The reader is done with the index of a call whose channel already holds a message. */
  ghost predicate PastIndex(r: Replica, index: nat) {
    r.applied > index || (r.applied == index && r.reader.Ready?)
  }

  ghost predicate SentOnce(s: Service, id: nat)
    requires id in s.calls
  {
    && s.calls[id].at < |s.replicas| && id in s.buffers
    && (s.calls[id].live && s.buffers[id] != [] ==> PastIndex(s.replicas[s.calls[id].at], s.calls[id].index))
  }

  ghost predicate Quiet(s: Service) {
    forall id | id in s.calls :: SentOnce(s, id)
  }

  lemma {:induction false} PushQuiet(s: Service, p: nat)
    requires Inv(s) && Quiet(s) && Enabled(s, Push(p))
    ensures Quiet(Next(s, Push(p)))
  {
    var s' := Next(s, Push(p));
    assert ReplicaOk(s.log, s.calls, p, s.replicas[p]);
    forall id | id in s'.calls ensures SentOnce(s', id) {
      assert SentOnce(s, id);
    }
  }

  /** A step of one replica that does not go back. */
  lemma {:induction false} ReplicaQuiet(s: Service, p: nat, r: Replica)
    requires Quiet(s) && p < |s.replicas|
    requires forall index | PastIndex(s.replicas[p], index) :: PastIndex(r, index)
    ensures Quiet(WithReplica(s, p, r))
  {
    forall id | id in s.calls ensures SentOnce(WithReplica(s, p, r), id) {
      assert SentOnce(s, id);
    }
  }

  /** A step that changes calls and empties buffers. */
  lemma {:induction false} CallQuiet(s: Service, s': Service, id: nat)
    requires Quiet(s) && |s'.replicas| == |s.replicas| && id in s'.calls && s'.calls[id].at < |s.replicas|
    requires s'.calls == s.calls[id := s'.calls[id]]
    requires id in s.calls ==> s'.calls[id].at == s.calls[id].at && s'.calls[id].index == s.calls[id].index
    requires id in s.calls ==> s'.calls[id].live == s.calls[id].live
    requires s'.buffers == s.buffers || s'.buffers == s.buffers[id := []]
    requires id !in s.calls ==> s'.buffers == s.buffers[id := []]
    requires forall p, index | 0 <= p < |s.replicas| && PastIndex(s.replicas[p], index) ::
               PastIndex(s'.replicas[p], index)
    ensures Quiet(s')
  {
    forall i | i in s'.calls ensures SentOnce(s', i) {
      assert i in s.calls ==> SentOnce(s, i);
    }
  }

  lemma {:induction false} RestartQuiet(s: Service, p: nat, saved: Option<Snap>)
    requires Quiet(s) && Enabled(s, Restart(p, saved))
    ensures Quiet(Next(s, Restart(p, saved)))
  {
    var s' := Next(s, Restart(p, saved));
    forall id | id in s'.calls ensures SentOnce(s', id) {
      assert SentOnce(s, id);
    }
  }

  lemma {:induction false} StepQuiet(s: Service, step: Step)
    requires Inv(s) && Quiet(s) && Enabled(s, step)
    ensures Quiet(Next(s, step))
  {
    match step
    case Commit(_) => SameQuiet(s, Next(s, step));
    case Save(_) => SameQuiet(s, Next(s, step));
    case Push(p) => PushQuiet(s, p);
    case Restart(p, saved) => RestartQuiet(s, p, saved);
    case Apply(p) => ReplicaQuiet(s, p, Applied(s.replicas[p], s.log[s.replicas[p].applied]));
    case Install(p, snap) => ReplicaQuiet(s, p, s.replicas[p].(store := snap.store, applied := snap.index));
    case Lookup(p) => LookupQuiet(s, p);
    case Submit(_, _, id, _, _) => CallQuiet(s, Next(s, step), id);
    case Take(id) => CallQuiet(s, Next(s, step), id);
    case TimeOut(id) => CallQuiet(s, Next(s, step), id);
    case Finish(id) => CallQuiet(s, Next(s, step), id);
  }

  lemma {:induction false} SameQuiet(s: Service, s': Service)
    requires Quiet(s) && s'.calls == s.calls && s'.buffers == s.buffers && s'.replicas == s.replicas
    ensures Quiet(s')
  {
    forall id | id in s'.calls ensures SentOnce(s', id) {
      assert SentOnce(s, id);
    }
  }

  lemma {:induction false} LookupQuiet(s: Service, p: nat)
    requires Inv(s) && Quiet(s) && Enabled(s, Lookup(p))
    ensures Quiet(Next(s, Lookup(p)))
  {
    assert ReplicaOk(s.log, s.calls, p, s.replicas[p]);
    ReplicaQuiet(s, p, LookedUp(s.replicas[p]));
  }

  lemma {:induction false} QuietAt(ss: seq<Service>, steps: seq<Step>, n: nat, i: nat)
    requires IsRun(ss, steps, n) && i <= |steps|
    ensures Quiet(ss[i])
  {
    if i > 0 {
      QuietAt(ss, steps, n, i - 1);
      InvAt(ss, steps, n, i - 1);
      StepQuiet(ss[i - 1], steps[i - 1]);
    }
  }

  /** A channel with room for one message is enough: the reader of a replica never waits to send a result, whether or
      not the call still listens. */
  lemma {:induction false} ReaderNeverBlocks(ss: seq<Service>, steps: seq<Step>, n: nat, i: nat, p: nat)
    requires IsRun(ss, steps, n) && i <= |steps| && p < |ss[i].replicas| && ss[i].replicas[p].reader.Sending?
    ensures Enabled(ss[i], Push(p))
  {
    var s := ss[i];
    InvAt(ss, steps, n, i);
    QuietAt(ss, steps, n, i);
    assert ReplicaOk(s.log, s.calls, p, s.replicas[p]);
    assert SentOnce(s, s.replicas[p].reader.call);
  }
}
