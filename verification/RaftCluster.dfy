/**
 A cluster of Raft peers over a lossy, reordering network, as a transition system.

 A step is one lock-held section of one peer, one send on its apply channel, or a
 crash and restart. Messages stay in `net` for ever, so a message may be lost (never
 received), delayed, reordered or received again. A reply carries the arguments of
 its request, as the closures of src/raft1/raft.go do. No peer compacts its log.
 */
module RaftCluster {
  import opened Majority
  import opened RaftPeer

  datatype Message =
    | RequestVote(src: nat, dst: nat, vote: VoteArgs)
    | VoteReplied(src: nat, dst: nat, vote: VoteArgs, voteReply: VoteReply)
    | Append(src: nat, dst: nat, append: AppendArgs)
    | AppendReplied(src: nat, dst: nat, append: AppendArgs, appendReply: AppendReply)

  datatype Cluster = Cluster(peers: seq<Peer>, net: set<Message>)

  datatype Step =
    | FollowerTimeout(i: nat)
    | CheckCandidate(i: nat)
    | StartElection(i: nat)
    | OnRequestVote(i: nat, m: Message)
    | OnVoteReply(i: nat, m: Message)
    | SendAppend(i: nat, to: nat)
    | OnAppend(i: nat, m: Message)
    | OnAppendReply(i: nat, m: Message)
    | RunCommit(i: nat)
    | ClientStart(i: nat, command: Command)
    | ApplierTake(i: nat)
    | ApplierSend(i: nat)
    | Restart(i: nat)

  ghost predicate Init(n: nat, s: Cluster) {
    && |s.peers| == n
    && (forall i | 0 <= i < n :: s.peers[i] == FreshPeer(n))
    && s.net == {}
  }

  /** The message m is there and is for peer i. */
  predicate Received(s: Cluster, i: nat, m: Message) {
    m in s.net && m.dst == i && m.src < |s.peers|
  }

  /**
   What the program checks before a section runs. The right-hand conditions of
   SendAppend, OnAppendReply and RunCommit are index bounds: RaftSafety.BoundsHold
   shows that they hold whenever the rest does.
   */
  predicate Enabled(n: nat, s: Cluster, step: Step) {
    && |s.peers| == n
    && step.i < n
    && WellFormed(n, s.peers[step.i])
    && var p := s.peers[step.i];
       match step
       case FollowerTimeout(i) => p.role == Follower && !p.electing
       case CheckCandidate(i) => p.role == Candidate && !p.electing
       case StartElection(i) => p.electing
       case OnRequestVote(i, m) => Received(s, i, m) && m.RequestVote?
       case OnVoteReply(i, m) => Received(s, i, m) && m.VoteReplied?
       case SendAppend(i, to) => p.role == Leader && to < n && to != i && InRange(p, to)
       case OnAppend(i, m) => Received(s, i, m) && m.Append?
       case OnAppendReply(i, m) => Received(s, i, m) && m.AppendReplied? && ReplyInRange(p, m.append)
       case RunCommit(i) => MatchInRange(p)
       case ClientStart(i, command) => true
       case ApplierTake(i) => p.applied < p.commit && p.queue == []
       case ApplierSend(i) => p.queue != []
       case Restart(i) => true
  }

  predicate InRange(p: Peer, to: nat)
    requires to < |p.next|
  {
    1 <= p.next[to] <= |p.log|
  }

  predicate ReplyInRange(p: Peer, a: AppendArgs) {
    p.role == Leader && p.term == a.term ==> a.prev < |p.log|
  }

  predicate MatchInRange(p: Peer) {
    p.role == Leader ==> forall k | 0 <= k < |p.matched| :: p.matched[k] < |p.log|
  }

  /** The peer after the step. */
  function PeerAfter(n: nat, s: Cluster, step: Step): Peer
    requires Enabled(n, s, step)
  {
    var p := s.peers[step.i];
    match step
    case FollowerTimeout(i) => TimeOut(p)
    case CheckCandidate(i) => p.(electing := true)
    case StartElection(i) => BeginElection(i, p).0
    case OnRequestVote(i, m) => HandleRequestVote(p, m.vote).0
    case OnVoteReply(i, m) => HandleVoteReply(n, p, m.src, m.vote, m.voteReply)
    case SendAppend(i, to) => p
    case OnAppend(i, m) => HandleAppend(p, m.append).0
    case OnAppendReply(i, m) => HandleAppendReply(p, m.src, m.append, m.appendReply)
    case RunCommit(i) => AdvanceCommit(i, p)
    case ClientStart(i, command) => StartCommand(p, command)
    case ApplierTake(i) => TakeBatch(p)
    case ApplierSend(i) => Deliver(p)
    case Restart(i) => RestartPeer(n, p)
  }

  /** The messages the step puts on the network. */
  function Sent(n: nat, s: Cluster, step: Step): set<Message>
    requires Enabled(n, s, step)
  {
    var p := s.peers[step.i];
    match step
    case StartElection(i) =>
      set j | j in Peers(n) && j != i :: RequestVote(i, j, BeginElection(i, p).1)
    case OnRequestVote(i, m) =>
      {VoteReplied(i, m.src, m.vote, HandleRequestVote(p, m.vote).1)}
    case SendAppend(i, to) =>
      {Append(i, to, MakeAppend(i, p, to))}
    case OnAppend(i, m) =>
      {AppendReplied(i, m.src, m.append, HandleAppend(p, m.append).1)}
    case _ => {}
  }

  function Next(n: nat, s: Cluster, step: Step): Cluster
    requires Enabled(n, s, step)
  {
    Cluster(s.peers[step.i := PeerAfter(n, s, step)], s.net + Sent(n, s, step))
  }

  /** A run: states[k] goes to states[k + 1] by steps[k]. */
  ghost predicate IsRun(n: nat, states: seq<Cluster>, steps: seq<Step>) {
    && |states| == |steps| + 1
    && Init(n, states[0])
    && forall k {:trigger steps[k]} | 0 <= k < |steps| ::
         Enabled(n, states[k], steps[k]) && states[k + 1] == Next(n, states[k], steps[k])
  }

  /**
   The one thing the program does not check: between the role check at line 1012 and
   the term increment at line 863 the lock is free, and a late vote may have made the
   peer leader. Such a step is racy.
   */
  predicate Racy(s: Cluster, step: Step) {
    step.StartElection? && step.i < |s.peers| && s.peers[step.i].role == Leader
  }

  ghost predicate RaceFree(states: seq<Cluster>, steps: seq<Step>) {
    forall k {:trigger steps[k]} | 0 <= k < |steps| && k < |states| :: !Racy(states[k], steps[k])
  }
}
