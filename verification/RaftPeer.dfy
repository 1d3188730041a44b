/**
 One Raft peer as a value, and each lock-held section of src/raft1/raft.go as a
 function on that value. The class in RaftServer.dfy is proved to compute these
 functions; the cluster in RaftCluster.dfy is made of them.

 `log` is the whole logical log, from index 0. A peer whose log has been compacted
 keeps only log[base..] in memory (base is last_included_index_); the functions
 below say which decisions look at base.
 */
module RaftPeer {
  import opened Basics
  import opened Majority

  /** The payload of a log entry. Raft only stores and delivers it. */
  type Command = string

  datatype Entry = Entry(command: Command, term: nat)

  /** The placeholder every log starts with, at index 0. */
  const NIL_ENTRY := Entry("", 0)

  datatype Role = Follower | Candidate | Leader

  datatype ApplyMsg = ApplyMsg(index: nat, command: Command)

  /**
   electing: the ticker has seen role Candidate (line 1012) and has not yet run the
   first section of startElection (line 861).
   electionTerm, tally: the vote count of the latest startElection still in memory.
   queue: entries taken by the applier and not yet sent; delivered: those sent
   since the last restart.
   */
  datatype Peer = Peer(
    role: Role,
    term: nat,
    votedFor: Option<nat>,
    log: seq<Entry>,
    base: nat,
    commit: nat,
    applied: nat,
    next: seq<nat>,
    matched: seq<nat>,
    electing: bool,
    electionTerm: nat,
    tally: set<nat>,
    queue: seq<ApplyMsg>,
    delivered: seq<ApplyMsg>)

  /** What the handlers rely on: a nonempty log that reaches past base and commit. */
  predicate WellFormed(n: nat, p: Peer) {
    && p.base < |p.log|
    && p.commit < |p.log|
    && |p.next| == n && |p.matched| == n
  }

  /** A peer that has never run (Make without persisted state). */
  function FreshPeer(n: nat): (p: Peer)
    ensures WellFormed(n, p)
  {
    Peer(Follower, 0, None, [NIL_ENTRY], 0, 0, 0, seq(n, i => 1), seq(n, i => 0), false, 0, {}, [], [])
  }

  /** A crash and restart: term, vote, log and base come back from the persister. */
  function RestartPeer(n: nat, p: Peer): (r: Peer)
    requires p.base < |p.log|
    ensures WellFormed(n, r)
  {
    FreshPeer(n).(term := p.term, votedFor := p.votedFor, log := p.log, base := p.base)
  }

  function LastIndex(log: seq<Entry>): nat
    requires |log| > 0
  {
    |log| - 1
  }

  function LastTerm(log: seq<Entry>): nat
    requires |log| > 0
  {
    log[|log| - 1].term
  }

  // ---------------------------------------------------------------- elections

  datatype VoteArgs = VoteArgs(term: nat, candidate: nat, lastIndex: nat, lastTerm: nat)

  datatype VoteReply = VoteReply(term: nat, granted: bool)

  /** Adopting a newer term forgets the vote of the old one. */
  function StepDown(p: Peer, term: nat): Peer {
    p.(term := term, role := Follower, votedFor := None)
  }

  function HandleRequestVote(p: Peer, a: VoteArgs): (Peer, VoteReply)
    requires |p.log| > 0
  {
    if a.term < p.term then
      (p, VoteReply(p.term, false))
    else
      var p := if a.term > p.term then StepDown(p, a.term) else p;
      if p.votedFor == Some(a.candidate) then
        (p, VoteReply(0, true))
      else if p.votedFor.Some? then
        (p, VoteReply(p.term, false))
      else if a.lastTerm > LastTerm(p.log) then
        (p.(votedFor := Some(a.candidate)), VoteReply(p.term, true))
      else if a.lastTerm < LastTerm(p.log) then
        (p, VoteReply(p.term, false))
      else if a.lastIndex >= LastIndex(p.log) then
        (p.(votedFor := Some(a.candidate)), VoteReply(p.term, true))
      else
        (p, VoteReply(p.term, false))
  }

  /** The ticker's follower timeout: the role changes, the term does not. */
  function TimeOut(p: Peer): Peer {
    if p.role == Follower then p.(role := Candidate) else p
  }

  /** The first section of startElection. It does not look at the role again. */
  function BeginElection(me: nat, p: Peer): (r: (Peer, VoteArgs))
    requires |p.log| > 0
  {
    (p.(term := p.term + 1, votedFor := Some(me), electing := false, electionTerm := p.term + 1, tally := {me}),
     VoteArgs(p.term + 1, me, LastIndex(p.log), LastTerm(p.log)))
  }

  /** A vote reply reaching the goroutine that asked peer `from`. */
  function HandleVoteReply(n: nat, p: Peer, from: nat, a: VoteArgs, r: VoteReply): Peer {
    if r.term > p.term then
      StepDown(p, r.term)
    else if p.role != Candidate || p.term != a.term || p.electionTerm != a.term || !r.granted then
      p
    else
      var p := p.(tally := p.tally + {from});
      if |p.tally| > n / 2 then
        p.(role := Leader, next := seq(n, i => |p.log|), matched := seq(n, i => 0))
      else
        p
  }

  // ---------------------------------------------------------------- replication

  datatype AppendArgs = AppendArgs(term: nat, leader: nat, prev: nat, prevTerm: nat, entries: seq<Entry>, commit: nat)

  datatype AppendReply = AppendReply(term: nat, success: bool, conflictTerm: nat, firstIndex: nat, logLength: nat)

  /** The loop over Entries_: append at the end, overwrite and truncate on a term conflict. */
  function Merge(log: seq<Entry>, at: nat, entries: seq<Entry>): (r: seq<Entry>)
    requires at <= |log|
    ensures |r| >= at + |entries|
    decreases |entries|
  {
    if entries == [] then
      log
    else if at == |log| then
      Merge(log + [entries[0]], at + 1, entries[1..])
    else if log[at].term != entries[0].term then
      Merge(log[..at] + [entries[0]], at + 1, entries[1..])
    else
      Merge(log, at + 1, entries[1..])
  }

  /** The loop that walks back over the entries of the conflicting term. */
  function FirstOfTerm(log: seq<Entry>, base: nat, index: nat): (f: nat)
    requires index < |log|
    ensures f <= index
  {
    if index > base + 1 && log[index - 1].term == log[index].term then
      FirstOfTerm(log, base, index - 1)
    else
      index
  }

  /** The previous entry matches: merge, then follow the leader's commit index as far as the message reaches. */
  function AcceptAppend(p: Peer, a: AppendArgs): (Peer, AppendReply)
    requires a.prev < |p.log|
  {
    var log := Merge(p.log, a.prev + 1, a.entries);
    var reach := Min(Min(a.commit, |log| - 1), a.prev + |a.entries|);
    (p.(log := log, commit := if reach <= p.commit then p.commit else reach), AppendReply(0, true, 0, 0, 0))
  }

  function HandleAppend(p: Peer, a: AppendArgs): (Peer, AppendReply)
    requires |p.log| > 0
  {
    if a.term < p.term then
      (p, AppendReply(p.term, false, 0, 0, 0))
    else
      var p := p.(role := Follower, term := a.term, votedFor := if a.term > p.term then None else p.votedFor);
      if |p.log| <= a.prev then
        (p, AppendReply(0, false, 0, 0, |p.log|))
      else if a.prev < p.base then
        (p, AppendReply(0, true, 0, 0, |p.log|))
      else if p.log[a.prev].term != a.prevTerm then
        (p, AppendReply(0, false, p.log[a.prev].term, FirstOfTerm(p.log, p.base, a.prev), |p.log|))
      else
        AcceptAppend(p, a)
  }

  /** sendAppendEntriesHelper: a probe until the match point is known, then all that follows it. */
  function MakeAppend(me: nat, p: Peer, to: nat): (a: AppendArgs)
    requires to < |p.next| && to < |p.matched|
    requires 1 <= p.next[to] <= |p.log|
  {
    var prev := p.next[to] - 1;
    AppendArgs(p.term, me, prev, p.log[prev].term,
               if p.next[to] == p.matched[to] + 1 then p.log[prev + 1..] else [], p.commit)
  }

  /** The leader's search, from prev down to base, for an entry of the conflicting term. */
  function LastOfTerm(log: seq<Entry>, base: nat, index: nat, term: nat): (k: nat)
    requires index < |log|
    ensures k <= index
  {
    if index > base && log[index].term != term && index > 0 then LastOfTerm(log, base, index - 1, term) else index
  }

  /** Where a rejected probe tells the leader to try next (fast backup). */
  function BackUp(log: seq<Entry>, base: nat, prev: nat, prevTerm: nat, r: AppendReply): nat
    requires prev < |log|
  {
    if r.logLength <= prev then
      r.logLength
    else if r.conflictTerm > prevTerm then
      r.firstIndex
    else
      var k := LastOfTerm(log, base, prev, r.conflictTerm);
      if k == base then r.firstIndex else k + 1
  }

  /** An AppendEntries reply reaching the goroutine that sent `a` to peer `from`. */
  function HandleAppendReply(p: Peer, from: nat, a: AppendArgs, r: AppendReply): Peer
    requires from < |p.next| && from < |p.matched|
    requires p.role == Leader && p.term == a.term ==> a.prev < |p.log|
  {
    if r.term > p.term then
      StepDown(p, r.term)
    else if p.role != Leader || p.term != a.term then
      p
    else if !r.success then
      if p.matched[from] >= a.prev then
        p
      else
        var next := BackUp(p.log, p.base, a.prev, a.prevTerm, r);
        if p.matched[from] >= next || next <= p.base then p else p.(next := p.next[from := next])
    else
      var m := a.prev + |a.entries|;
      if m > p.matched[from] then p.(matched := p.matched[from := m], next := p.next[from := m + 1]) else p
  }

  /** commit(): advance to the majority index if its entry is of the current term. */
  function AdvanceCommit(me: nat, p: Peer): Peer
    requires |p.log| > 0 && me < |p.matched|
    requires p.role == Leader ==> forall i | 0 <= i < |p.matched| :: p.matched[i] < |p.log|
  {
    if p.role != Leader then
      p
    else
      var m := MajorityIndex(p.matched[me := |p.log| - 1]);
      MajorityIndexBound(p.matched[me := |p.log| - 1], |p.log|);
      if m > p.commit && p.log[m].term == p.term then p.(commit := m) else p
  }

  lemma {:induction false} MajorityIndexBound(matched: seq<nat>, bound: nat)
    requires |matched| > 0
    requires forall i | 0 <= i < |matched| :: matched[i] < bound
    ensures MajorityIndex(matched) < bound
  {
    MajorityIndexExact(matched, bound);
    CountNone(matched, bound);
  }

  /** Start(): only a leader appends. */
  function StartCommand(p: Peer, command: Command): Peer {
    if p.role != Leader then p else p.(log := p.log + [Entry(command, p.term)])
  }

  // ---------------------------------------------------------------- delivery

  function Messages(entries: seq<Entry>, first: nat): (r: seq<ApplyMsg>)
    ensures |r| == |entries|
    ensures forall i | 0 <= i < |r| :: r[i] == ApplyMsg(first + i, entries[i].command)
  {
    seq(|entries|, i requires 0 <= i < |entries| => ApplyMsg(first + i, entries[i].command))
  }

  /** The applier takes every committed entry it has not taken yet. */
  function TakeBatch(p: Peer): Peer
    requires p.applied <= p.commit < |p.log|
  {
    p.(queue := p.queue + Messages(p.log[p.applied + 1..p.commit + 1], p.applied + 1), applied := p.commit)
  }

  /** One send on the apply channel. */
  function Deliver(p: Peer): Peer
    requires p.queue != []
  {
    p.(queue := p.queue[1..], delivered := p.delivered + [p.queue[0]])
  }
}
