/**
 Two runs of three peers, and exactly which runs they stand for.

 The role check at line 1012 of src/raft1/raft.go and the term increment at line 863
 are two lock-held sections. A vote that arrives in between makes the peer leader of the
 old term, and startElection then moves that leader into a term nobody elected it for.

 RaceFreeIffElected: every leader of a run holds a majority of the votes of its term
 exactly when no such step happens. RaceBreaksSafety: one such step is enough for two
 leaders in one term and for two peers that deliver different commands at index 1.

 StaleLeaderMisses: without any race, a late vote can make a candidate of an older term
 leader after a newer leader has committed, and it lacks what was committed, as
 RaftSafety.CompleteIffTerm says of every such leader.
 */
module RaftRace {
  import opened Basics
  import opened Majority
  import opened RaftPeer
  import opened RaftCluster
  import opened RaftSafety

  /** Every leader has counted a majority of votes for the term it leads. */
  ghost predicate LeadersElected(n: nat, s: Cluster) {
    forall i | 0 <= i < n && i < |s.peers| && s.peers[i].role == Leader ::
      s.peers[i].electionTerm == s.peers[i].term && 2 * |s.peers[i].tally| > n
  }

  lemma {:induction false} RaceFreeIffElected(n: nat, states: seq<Cluster>, steps: seq<Step>)
    requires IsRun(n, states, steps)
    ensures RaceFree(states, steps) <==> forall k | 0 <= k < |states| :: LeadersElected(n, states[k])
  {
    if n <= 1 {
      forall k | 0 <= k < |states| ensures NoLeader(states[k]) {
        AloneNeverLeads(n, states, steps, k);
      }
    } else if RaceFree(states, steps) {
      forall k | 0 <= k < |states| ensures LeadersElected(n, states[k]) {
        ElectedAt(n, states, steps, k);
      }
    } else {
      var k :| 0 <= k < |steps| && Racy(states[k], steps[k]);
      RacyStepUnelects(n, states[k], steps[k]);
      assert !LeadersElected(n, states[k + 1]);
    }
  }

  lemma {:induction false} ElectedAt(n: nat, states: seq<Cluster>, steps: seq<Step>, k: nat)
    requires IsRun(n, states, steps) && RaceFree(states, steps) && k < |states|
    ensures LeadersElected(n, states[k])
  {
    var hs := HistoryOf(n, states, steps);
    forall i | 0 <= i < n && i < |states[k].peers| && states[k].peers[i].role == Leader
      ensures states[k].peers[i].electionTerm == states[k].peers[i].term && 2 * |states[k].peers[i].tally| > n
    {
      InvAt(n, states, steps, hs, k, i);
    }
  }

  lemma {:induction false} RacyStepUnelects(n: nat, s: Cluster, step: Step)
    requires n >= 2 && Enabled(n, s, step) && Racy(s, step)
    ensures !LeadersElected(n, Next(n, s, step))
  {
    var p := Next(n, s, step).peers[step.i];
    assert p.role == Leader && p.tally == {step.i};
  }

  ghost predicate NoLeader(s: Cluster) {
    forall i | 0 <= i < |s.peers| :: s.peers[i].role != Leader
  }

  /** A peer without others counts its own vote only when a reply comes, so it never leads. */
  lemma {:induction false} AloneNeverLeads(n: nat, states: seq<Cluster>, steps: seq<Step>, k: nat)
    requires IsRun(n, states, steps) && n <= 1 && k < |states|
    ensures NoLeader(states[k]) && states[k].net == {}
  {
    if k > 0 {
      AloneNeverLeads(n, states, steps, k - 1);
      assert steps[k - 1] == steps[k - 1];
      AloneStep(n, states[k - 1], steps[k - 1]);
    }
  }

  lemma {:induction false} AloneStep(n: nat, s: Cluster, step: Step)
    requires Enabled(n, s, step) && n <= 1 && NoLeader(s) && s.net == {}
    ensures NoLeader(Next(n, s, step)) && Next(n, s, step).net == {}
  {
    assert Sent(n, s, step) == {};
  }

  /** So it never commits or delivers anything: a cluster needs a second peer. */
  lemma {:induction false} AloneDeliversNothing(n: nat, states: seq<Cluster>, steps: seq<Step>, k: nat, i: nat)
    requires IsRun(n, states, steps) && n <= 1 && k < |states| && i < n
    ensures |states[k].peers| == n
    ensures states[k].peers[i].commit == 0 && states[k].peers[i].queue == [] && states[k].peers[i].delivered == []
  {
    if k > 0 {
      AloneDeliversNothing(n, states, steps, k - 1, i);
      AloneNeverLeads(n, states, steps, k - 1);
      assert steps[k - 1] == steps[k - 1];
    }
  }

  // ---------------------------------------------------------------- runs of three peers

  /** What happened on the way: a racy step, and a commit by peer 1. */
  datatype Mark = Mark(racy: bool, committed: bool)

  const CALM := Mark(false, false)

  /** The step is a run of commit() that moves the commit index of peer 1. */
  predicate Commits(s: Cluster, step: Step) {
    step == RunCommit(1) && Enabled(3, s, step) && Next(3, s, step).peers[1].commit > s.peers[1].commit
  }

  function After(mark: Mark, s: Cluster, step: Step): Mark {
    Mark(mark.racy || Racy(s, step), mark.committed || Commits(s, step))
  }

  /** A set of states, each with what happened before it. */
  type Reach = iset<(Cluster, Mark)>

  /** The set has the initial state of three peers and follows every step. */
  ghost predicate Closed(reach: Reach) {
    && (Cluster([FRESH, FRESH, FRESH], {}), CALM) in reach
    && forall s, mark, step {:trigger Next(3, s, step), (s, mark) in reach} |
         (s, mark) in reach && Enabled(3, s, step) :: (Next(3, s, step), After(mark, s, step)) in reach
  }

  /** One more step that is neither racy nor a commit of peer 1, given the peer it leads to. */
  lemma {:induction false} Go(reach: Reach, s: Cluster, mark: Mark, step: Step, p: Peer) returns (s': Cluster)
    requires Closed(reach) && (s, mark) in reach && Enabled(3, s, step) && PeerAfter(3, s, step) == p
    requires !Racy(s, step) && step != RunCommit(1)
    ensures (s', mark) in reach
    ensures s'.peers == s.peers[step.i := p] && s.net <= s'.net && Sent(3, s, step) <= s'.net
  {
    s' := Next(3, s, step);
    assert After(mark, s, step) == mark;
  }

  const FRESH := FreshPeer(3)
  const BID_0 := VoteArgs(1, 0, 0, 0)
  const BID_1 := VoteArgs(2, 1, 0, 0)
  const LATE_VOTE := VoteReplied(1, 0, BID_0, VoteReply(1, true))
  const CANDIDATE_0 := FRESH.(role := Candidate, term := 1, votedFor := Some(0), electionTerm := 1, tally := {0})
  const LEADER_0 := CANDIDATE_0.(role := Leader, tally := {0, 1}, next := [1, 1, 1], matched := [0, 0, 0])
  const UNELECTED := LEADER_0.(term := 2, electionTerm := 2, tally := {0})
  const VOTER_1 := FRESH.(term := 1, votedFor := Some(0))
  const CANDIDATE_1 := FRESH.(role := Candidate, term := 2, votedFor := Some(1), electionTerm := 2, tally := {1})
  const ELECTED := CANDIDATE_1.(role := Leader, tally := {1, 2}, next := [1, 1, 1], matched := [0, 0, 0])
  const VOTER_2 := FRESH.(term := 2, votedFor := Some(1))

  /** Counting the deciding vote. */
  lemma {:induction false} Wins(p: Peer, from: nat, a: VoteArgs, tally: set<nat>)
    requires p.role == Candidate && p.term == a.term == p.electionTerm && |p.log| == 1
    requires tally == p.tally + {from} && |tally| == 2
    ensures HandleVoteReply(3, p, from, a, VoteReply(a.term, true)) ==
            p.(role := Leader, tally := tally, next := [1, 1, 1], matched := [0, 0, 0])
  {
  }

  function Standing(p: Peer, i: nat): Peer {
    p.(role := Candidate, term := p.term + 1, votedFor := Some(i), electionTerm := p.term + 1, tally := {i})
  }

  /** A follower times out, becomes a candidate and starts an election. */
  lemma {:induction false} Stand(reach: Reach, s: Cluster, mark: Mark, i: nat, p: Peer) returns (s': Cluster)
    requires Closed(reach)
    requires (s, mark) in reach && |s.peers| == 3 && i < 2 && s.peers[i] == p && WellFormed(3, p)
    requires p.role == Follower && !p.electing && p.log == [NIL_ENTRY]
    ensures (s', mark) in reach && s'.peers == s.peers[i := Standing(p, i)] && s.net <= s'.net
    ensures RequestVote(i, i + 1, VoteArgs(p.term + 1, i, 0, 0)) in s'.net
  {
    s' := Go(reach, s, mark, FollowerTimeout(i), p.(role := Candidate));
    s' := Go(reach, s', mark, CheckCandidate(i), p.(role := Candidate, electing := true));
    s' := Elect(reach, s', mark, i, p.(role := Candidate, electing := true));
  }

  lemma {:induction false} Elect(reach: Reach, s: Cluster, mark: Mark, i: nat, p: Peer) returns (s': Cluster)
    requires Closed(reach)
    requires (s, mark) in reach && |s.peers| == 3 && i < 2 && s.peers[i] == p && WellFormed(3, p)
    requires p.role == Candidate && p.electing && p.log == [NIL_ENTRY]
    ensures (s', mark) in reach && s'.peers == s.peers[i := Standing(p, i).(electing := false)] && s.net <= s'.net
    ensures RequestVote(i, i + 1, VoteArgs(p.term + 1, i, 0, 0)) in s'.net
  {
    assert i + 1 in Peers(3);
    assert RequestVote(i, i + 1, VoteArgs(p.term + 1, i, 0, 0)) in Sent(3, s, StartElection(i));
    s' := Go(reach, s, mark, StartElection(i), BeginElection(i, p).0);
  }

  /** Peer 0 stands in term 1 and peer 1 votes for it. */
  lemma {:induction false} FirstStands(reach: Reach) returns (s: Cluster)
    requires Closed(reach)
    ensures (s, CALM) in reach && s.peers == [CANDIDATE_0, VOTER_1, FRESH] && LATE_VOTE in s.net
  {
    s := Cluster([FRESH, FRESH, FRESH], {});
    s := Stand(reach, s, CALM, 0, FRESH);
    s := Go(reach, s, CALM, OnRequestVote(1, RequestVote(0, 1, BID_0)), VOTER_1);
  }

  /** The ticker sees a candidate, the vote arrives, and startElection makes a leader of term 2 that nobody elected. */
  lemma {:induction false} FirstRaces(reach: Reach) returns (s: Cluster)
    requires Closed(reach)
    ensures (s, Mark(true, false)) in reach && s.peers == [UNELECTED, VOTER_1, FRESH]
  {
    s := FirstStands(reach);
    s := Go(reach, s, CALM, CheckCandidate(0), CANDIDATE_0.(electing := true));
    assert |{0, 1}| == 2;
    Wins(CANDIDATE_0.(electing := true), 1, BID_0, {0, 1});
    s := Go(reach, s, CALM, OnVoteReply(0, LATE_VOTE), LEADER_0.(electing := true));
    s := Race(reach, s);
  }

  lemma {:induction false} Race(reach: Reach, s: Cluster) returns (s': Cluster)
    requires Closed(reach) && (s, CALM) in reach && |s.peers| == 3 && s.peers[0] == LEADER_0.(electing := true)
    ensures (s', Mark(true, false)) in reach && s'.peers == s.peers[0 := UNELECTED]
  {
    s' := Next(3, s, StartElection(0));
    assert After(CALM, s, StartElection(0)) == Mark(true, false);
  }

  // ---------------------------------------------------------------- peer 1 is elected in term 2, whatever peer 0 is

  /** Peer 1 stands in term 2 and peer 2 votes for it. */
  lemma {:induction false} SecondStands(reach: Reach, s: Cluster, mark: Mark, first: Peer) returns (s': Cluster)
    requires Closed(reach) && (s, mark) in reach && s.peers == [first, VOTER_1, FRESH]
    ensures (s', mark) in reach && s'.peers == [first, CANDIDATE_1, VOTER_2] && s.net <= s'.net
    ensures VoteReplied(2, 1, BID_1, VoteReply(2, true)) in s'.net
  {
    s' := Stand(reach, s, mark, 1, VOTER_1);
    s' := Go(reach, s', mark, OnRequestVote(2, RequestVote(1, 2, BID_1)), VOTER_2);
  }

  lemma {:induction false} SecondWins(reach: Reach, s: Cluster, mark: Mark, first: Peer) returns (s': Cluster)
    requires Closed(reach) && (s, mark) in reach && s.peers == [first, VOTER_1, FRESH]
    ensures (s', mark) in reach && s'.peers == [first, ELECTED, VOTER_2] && s.net <= s'.net
  {
    s' := SecondStands(reach, s, mark, first);
    assert |{1, 2}| == 2;
    Wins(CANDIDATE_1, 2, BID_1, {1, 2});
    s' := Go(reach, s', mark, OnVoteReply(1, VoteReplied(2, 1, BID_1, VoteReply(2, true))), ELECTED);
  }

  // ---------------------------------------------------------------- one entry is replicated

  const ACCEPTED := AppendReply(0, true, 0, 0, 0)

  /** A leader whose log has one entry sends it to peer `to`. */
  lemma {:induction false} SendFirst(reach: Reach, s: Cluster, mark: Mark, i: nat, to: nat, p: Peer)
    returns (s': Cluster)
    requires Closed(reach)
    requires (s, mark) in reach && |s.peers| == 3 && i < 3 && to < 3 && i != to && s.peers[i] == p
    requires p.role == Leader && |p.log| == 2 && p.log[0] == NIL_ENTRY && WellFormed(3, p) && p.commit == 0
    requires p.next[to] == 1 && p.matched[to] == 0
    ensures (s', mark) in reach && s'.peers == s.peers && s.net <= s'.net
    ensures Append(i, to, AppendArgs(p.term, i, 0, 0, [p.log[1]], 0)) in s'.net
  {
    assert p.log[1..] == [p.log[1]];
    s' := Go(reach, s, mark, SendAppend(i, to), p);
  }

  /** A message with one entry and nothing to commit is accepted. */
  lemma {:induction false} Accept(reach: Reach, s: Cluster, mark: Mark, i: nat, to: nat, q: Peer, a: AppendArgs,
                                  q': Peer)
    returns (s': Cluster)
    requires Closed(reach)
    requires (s, mark) in reach && |s.peers| == 3 && i < 3 && to < 3 && i != to && s.peers[to] == q
    requires WellFormed(3, q) && Append(i, to, a) in s.net && HandleAppend(q, a) == (q', ACCEPTED)
    ensures (s', mark) in reach && s'.peers == s.peers[to := q'] && s.net <= s'.net
    ensures AppendReplied(to, i, a, ACCEPTED) in s'.net
  {
    s' := Go(reach, s, mark, OnAppend(to, Append(i, to, a)), q');
  }

  function Credited(p: Peer, to: nat): Peer
    requires to < |p.next| && to < |p.matched|
  {
    p.(next := p.next[to := 2], matched := p.matched[to := 1])
  }

  /** The reply gives the leader its majority. */
  lemma {:induction false} Credit(reach: Reach, s: Cluster, mark: Mark, i: nat, to: nat, p: Peer, a: AppendArgs)
    returns (s': Cluster)
    requires Closed(reach)
    requires (s, mark) in reach && |s.peers| == 3 && i < 3 && to < 3 && i != to && s.peers[i] == p && WellFormed(3, p)
    requires AppendReplied(to, i, a, ACCEPTED) in s.net
    requires p.role == Leader && p.term == a.term && p.matched[to] == 0 && a.prev == 0 && |a.entries| == 1
    ensures (s', mark) in reach && s'.peers == s.peers[i := Credited(p, to)] && s.net <= s'.net
  {
    s' := Go(reach, s, mark, OnAppendReply(i, AppendReplied(to, i, a, ACCEPTED)), Credited(p, to));
  }

  /** It commits. */
  lemma {:induction false} Commit(reach: Reach, s: Cluster, mark: Mark, i: nat, p: Peer) returns (s': Cluster)
    requires Closed(reach)
    requires (s, mark) in reach && |s.peers| == 3 && i < 3 && s.peers[i] == p && WellFormed(3, p)
    requires p.role == Leader && |p.log| == 2 && p.log[1].term == p.term && p.commit == 0
    requires p.matched[i] == 0 && (p.matched[i := 1] == [1, 1, 0] || p.matched[i := 1] == [0, 1, 1])
    ensures (s', mark.(committed := mark.committed || i == 1)) in reach
    ensures s'.peers == s.peers[i := p.(commit := 1)] && s.net <= s'.net
  {
    MiddleIsOne(p.matched[i := 1]);
    assert p.matched == p.matched[i := 1][i := 0];
    s' := Next(3, s, RunCommit(i));
    assert s'.peers == s.peers[i := p.(commit := 1)];
    assert After(mark, s, RunCommit(i)) == mark.(committed := mark.committed || i == 1);
  }

  /** With one of the two others matched at 1 and itself at 1, the leader's majority index is 1. */
  lemma {:induction false} MiddleIsOne(matched: seq<nat>)
    requires matched == [1, 1, 0] || matched == [0, 1, 1]
    ensures MajorityIndex(matched) == 1
  {
    MajorityIndexExact(matched, 1);
    MajorityIndexExact(matched, 2);
    CountThree(matched, 1);
    CountThree(matched, 2);
  }

  lemma {:induction false} CountThree(s: seq<nat>, v: nat)
    requires |s| == 3
    ensures CountAtLeast(s, v) ==
            (if s[0] >= v then 1 else 0) + (if s[1] >= v then 1 else 0) + (if s[2] >= v then 1 else 0)
  {
    assert s[1..] == [s[1], s[2]] && s[1..][1..] == [s[2]];
    assert CountAtLeast([s[2]], v) == if s[2] >= v then 1 else 0;
  }

  function Delivered(p: Peer): Peer
    requires |p.log| == 2
  {
    p.(applied := 1, delivered := [ApplyMsg(1, p.log[1].command)])
  }

  /** It delivers what it committed. */
  lemma {:induction false} DeliverFirst(reach: Reach, s: Cluster, mark: Mark, i: nat, p: Peer) returns (s': Cluster)
    requires Closed(reach)
    requires (s, mark) in reach && |s.peers| == 3 && i < 3 && s.peers[i] == p && WellFormed(3, p)
    requires |p.log| == 2 && p.commit == 1 && p.applied == 0 && p.queue == [] && p.delivered == []
    ensures (s', mark) in reach && s'.peers == s.peers[i := Delivered(p)]
  {
    var m := ApplyMsg(1, p.log[1].command);
    assert p.queue + Messages(p.log[1..2], 1) == [m];
    s' := Go(reach, s, mark, ApplierTake(i), p.(applied := 1, queue := [m]));
    assert [m][1..] == [] && p.delivered + [m] == [m];
    s' := Go(reach, s', mark, ApplierSend(i), Delivered(p));
  }

  const Y := Entry("y", 2)
  const X := Entry("x", 2)
  const APPEND_X := AppendArgs(2, 0, 0, 0, [X], 0)
  const APPEND_Y := AppendArgs(2, 1, 0, 0, [Y], 0)

  /** An empty log takes the entry; a log that has an entry of the same term there keeps its own. */
  lemma {:induction false} TakesEntry(q: Peer, a: AppendArgs)
    requires q.term == a.term && q.base == 0 && 1 <= |q.log| <= 2 && q.log[0] == NIL_ENTRY && q.commit == |q.log| - 1
    requires a.prev == 0 && a.prevTerm == 0 && |a.entries| == 1 && a.commit == 0
    requires |q.log| == 2 ==> q.log[1].term == a.entries[0].term
    ensures HandleAppend(q, a) ==
            (q.(role := Follower, log := if |q.log| == 2 then q.log else [NIL_ENTRY, a.entries[0]]), ACCEPTED)
  {
    assert a.entries[1..] == [];
    var r := if |q.log| == 2 then q.log else q.log + [a.entries[0]];
    assert Merge(r, 2, []) == r;
    assert Merge(q.log, 1, a.entries) == r;
    if |q.log| == 1 {
      assert r == [NIL_ENTRY, a.entries[0]];
    }
  }

  /** A leader with an empty log takes a command. */
  lemma {:induction false} StartFirst(reach: Reach, s: Cluster, mark: Mark, i: nat, p: Peer, e: Entry)
    returns (s': Cluster)
    requires Closed(reach)
    requires (s, mark) in reach && |s.peers| == 3 && i < 3 && s.peers[i] == p && WellFormed(3, p)
    requires p.role == Leader && p.log == [NIL_ENTRY] && e.term == p.term
    ensures (s', mark) in reach && s'.peers == s.peers[i := p.(log := [NIL_ENTRY, e])] && s.net <= s'.net
  {
    s' := Go(reach, s, mark, ClientStart(i, e.command), p.(log := [NIL_ENTRY, e]));
  }

  const LEADER_1 := ELECTED.(log := [NIL_ENTRY, Y])
  const FOLLOWER_2 := VOTER_2.(log := [NIL_ENTRY, Y])
  const CREDITED_1 := LEADER_1.(next := [1, 1, 2], matched := [0, 0, 1])
  const COMMITTED_1 := CREDITED_1.(commit := 1)
  const DELIVERED_1 := COMMITTED_1.(applied := 1, delivered := [ApplyMsg(1, "y")])

  /** Peer 1 replicates y to peer 2. */
  lemma {:induction false} SecondReplicates(reach: Reach, s: Cluster, mark: Mark, first: Peer) returns (s': Cluster)
    requires Closed(reach) && (s, mark) in reach && s.peers == [first, ELECTED, VOTER_2]
    ensures (s', mark) in reach && s'.peers == [first, LEADER_1, FOLLOWER_2] && s.net <= s'.net
    ensures AppendReplied(2, 1, APPEND_Y, ACCEPTED) in s'.net
  {
    s' := StartFirst(reach, s, mark, 1, ELECTED, Y);
    s' := SendFirst(reach, s', mark, 1, 2, LEADER_1);
    TakesEntry(VOTER_2, APPEND_Y);
    s' := Accept(reach, s', mark, 1, 2, VOTER_2, APPEND_Y, FOLLOWER_2);
  }

  /** And commits it. */
  lemma {:induction false} SecondCommits(reach: Reach, s: Cluster, mark: Mark, first: Peer) returns (s': Cluster)
    requires Closed(reach) && (s, mark) in reach && s.peers == [first, VOTER_1, FRESH]
    ensures (s', mark.(committed := true)) in reach
    ensures s'.peers == [first, COMMITTED_1, FOLLOWER_2] && s.net <= s'.net
  {
    s' := SecondWins(reach, s, mark, first);
    s' := SecondReplicates(reach, s', mark, first);
    s' := Credit(reach, s', mark, 1, 2, LEADER_1, APPEND_Y);
    assert s'.peers[1] == CREDITED_1;
    s' := Commit(reach, s', mark, 1, CREDITED_1);
  }

  // ---------------------------------------------------------------- with the race, two commands at index 1

  const RACED := Mark(true, true)
  const CREDITED_0 := UNELECTED.(log := [NIL_ENTRY, X], next := [1, 2, 1], matched := [0, 1, 0])

  /** The unelected leader sends x to peer 1, which takes its own y, of the same term, for it. */
  lemma {:induction false} UnelectedReplicates(reach: Reach) returns (s: Cluster)
    requires Closed(reach)
    ensures (s, RACED) in reach
    ensures s.peers == [UNELECTED.(log := [NIL_ENTRY, X]), DELIVERED_1.(role := Follower), FOLLOWER_2]
    ensures AppendReplied(1, 0, APPEND_X, ACCEPTED) in s.net
  {
    s := FirstRaces(reach);
    s := SecondCommits(reach, s, Mark(true, false), UNELECTED);
    s := DeliverFirst(reach, s, RACED, 1, COMMITTED_1);
    assert s.peers[1] == DELIVERED_1;
    s := StartFirst(reach, s, RACED, 0, UNELECTED, X);
    s := SendFirst(reach, s, RACED, 0, 1, UNELECTED.(log := [NIL_ENTRY, X]));
    TakesEntry(DELIVERED_1, APPEND_X);
    s := Accept(reach, s, RACED, 0, 1, DELIVERED_1, APPEND_X, DELIVERED_1.(role := Follower));
  }

  /** It commits and delivers x. */
  lemma {:induction false} UnelectedDelivers(reach: Reach) returns (s: Cluster)
    requires Closed(reach)
    ensures (s, RACED) in reach && |s.peers| == 3
    ensures s.peers[0].delivered == [ApplyMsg(1, "x")] && s.peers[1].delivered == [ApplyMsg(1, "y")]
  {
    s := UnelectedReplicates(reach);
    s := Credit(reach, s, RACED, 0, 1, UNELECTED.(log := [NIL_ENTRY, X]), APPEND_X);
    assert s.peers[0] == CREDITED_0;
    s := Commit(reach, s, RACED, 0, CREDITED_0);
    s := DeliverFirst(reach, s, RACED, 0, CREDITED_0.(commit := 1));
  }

  // ---------------------------------------------------------------- without it, a leader that came too late

  /** Peer 1 leads term 2 and commits y; then the late vote makes peer 0 leader of term 1. */
  lemma {:induction false} LateVoteElects(reach: Reach) returns (s: Cluster)
    requires Closed(reach)
    ensures (s, Mark(false, true)) in reach && s.peers == [LEADER_0, COMMITTED_1, FOLLOWER_2]
  {
    s := FirstStands(reach);
    s := SecondCommits(reach, s, CALM, CANDIDATE_0);
    assert |{0, 1}| == 2;
    Wins(CANDIDATE_0, 1, BID_0, {0, 1});
    s := Go(reach, s, Mark(false, true), OnVoteReply(0, LATE_VOTE), LEADER_0);
  }

  // ---------------------------------------------------------------- the theorems

  /** Some run of three peers ends in s with the given mark. */
  ghost predicate Reached(s: Cluster, mark: Mark) {
    exists states, steps :: EndsIn(states, steps, s, mark)
  }

  ghost predicate EndsIn(states: seq<Cluster>, steps: seq<Step>, s: Cluster, mark: Mark) {
    && IsRun(3, states, steps) && states[|steps|] == s
    && (mark.racy <==> !RaceFree(states, steps))
    && (mark.committed ==> HasCommit(states, steps))
  }

  ghost predicate HasCommit(states: seq<Cluster>, steps: seq<Step>) {
    exists k :: 0 <= k < |steps| && k < |states| && Commits(states[k], steps[k])
  }

  lemma {:induction false} RunGoesOn(n: nat, states: seq<Cluster>, steps: seq<Step>, step: Step)
    requires IsRun(n, states, steps) && Enabled(n, states[|steps|], step)
    ensures IsRun(n, states + [Next(n, states[|steps|], step)], steps + [step])
  {
    var states', steps' := states + [Next(n, states[|steps|], step)], steps + [step];
    forall k | 0 <= k < |steps'|
      ensures Enabled(n, states'[k], steps'[k]) && states'[k + 1] == Next(n, states'[k], steps'[k])
    {
      if k < |steps| {
        assert steps[k] == steps'[k];
      }
    }
  }

  lemma {:induction false} RaceStays(states: seq<Cluster>, steps: seq<Step>, s: Cluster, step: Step)
    requires |states| == |steps| + 1
    ensures !RaceFree(states + [s], steps + [step]) <==> !RaceFree(states, steps) || Racy(states[|steps|], step)
  {
    var states', steps' := states + [s], steps + [step];
    assert forall k | 0 <= k < |steps| :: steps'[k] == steps[k] && states'[k] == states[k];
    if Racy(states[|steps|], step) {
      assert Racy(states'[|steps|], steps'[|steps|]);
    } else if !RaceFree(states, steps) {
      var k :| 0 <= k < |steps| && Racy(states[k], steps[k]);
      assert Racy(states'[k], steps'[k]);
    }
  }

  lemma {:induction false} CommitStays(states: seq<Cluster>, steps: seq<Step>, s: Cluster, step: Step)
    requires |states| == |steps| + 1
    requires Commits(states[|steps|], step) || HasCommit(states, steps)
    ensures HasCommit(states + [s], steps + [step])
  {
    var k := |steps|;
    if !Commits(states[|steps|], step) {
      k :| 0 <= k < |steps| && Commits(states[k], steps[k]);
    }
    assert Commits((states + [s])[k], (steps + [step])[k]);
  }

  lemma {:induction false} EndsLater(states: seq<Cluster>, steps: seq<Step>, s: Cluster, mark: Mark, step: Step,
                                     s': Cluster)
    requires EndsIn(states, steps, s, mark) && Enabled(3, s, step) && s' == Next(3, s, step)
    ensures EndsIn(states + [s'], steps + [step], s', After(mark, s, step))
  {
    RunGoesOn(3, states, steps, step);
    RaceStays(states, steps, s', step);
    if After(mark, s, step).committed {
      CommitStays(states, steps, s', step);
    }
  }

  lemma {:induction false} ReachedSteps(s: Cluster, mark: Mark, step: Step)
    requires Reached(s, mark) && Enabled(3, s, step)
    ensures Reached(Next(3, s, step), After(mark, s, step))
  {
    var states, steps :| EndsIn(states, steps, s, mark);
    EndsLater(states, steps, s, mark, step, Next(3, s, step));
  }

  lemma {:induction false} ReachedIsClosed() returns (reach: Reach)
    ensures Closed(reach) && forall s, mark | (s, mark) in reach :: Reached(s, mark)
  {
    reach := iset s, mark | Reached(s, mark) :: (s, mark);
    var s0 := Cluster([FRESH, FRESH, FRESH], {});
    assert EndsIn([s0], [], s0, CALM);
    forall s, mark, step | (s, mark) in reach && Enabled(3, s, step)
      ensures (Next(3, s, step), After(mark, s, step)) in reach
    {
      ReachedSteps(s, mark, step);
    }
  }

  /**
   The race breaks safety: in a run of three peers with one racy step, peers 0 and 1
   deliver different commands at index 1.
   */
  lemma {:induction false} RaceBreaksSafety() returns (states: seq<Cluster>, steps: seq<Step>)
    ensures IsRun(3, states, steps) && !RaceFree(states, steps)
    ensures |states[|steps|].peers| == 3
    ensures states[|steps|].peers[0].delivered == [ApplyMsg(1, "x")]
    ensures states[|steps|].peers[1].delivered == [ApplyMsg(1, "y")]
  {
    var reach := ReachedIsClosed();
    var s := UnelectedDelivers(reach);
    states, steps :| EndsIn(states, steps, s, RACED);
  }

  /** The same run has, at one moment, two leaders of the same term. */
  lemma {:induction false} RaceElectsTwo() returns (states: seq<Cluster>, steps: seq<Step>)
    ensures IsRun(3, states, steps) && !RaceFree(states, steps)
    ensures |states[|steps|].peers| == 3
    ensures states[|steps|].peers[0].role == Leader && states[|steps|].peers[1].role == Leader
    ensures states[|steps|].peers[0].term == states[|steps|].peers[1].term
  {
    var reach := ReachedIsClosed();
    var s := FirstRaces(reach);
    s := SecondWins(reach, s, Mark(true, false), UNELECTED);
    states, steps :| EndsIn(states, steps, s, Mark(true, false));
  }

  /**
   A leader that comes too late: in a race-free run of three peers, peer 1 commits index 1 at moment a, and peer 0,
   leader of an older term at the end of the run, has nothing there.
   */
  lemma {:induction false} StaleLeaderMisses() returns (states: seq<Cluster>, steps: seq<Step>, a: nat)
    ensures IsRun(3, states, steps) && RaceFree(states, steps) && a < |steps| && steps[a] == RunCommit(1)
    ensures |states[a].peers| == |states[a + 1].peers| == |states[|steps|].peers| == 3
    ensures states[a + 1].peers[1].commit > states[a].peers[1].commit
    ensures states[|steps|].peers[0].role == Leader && states[|steps|].peers[0].log == [NIL_ENTRY]
  {
    var reach := ReachedIsClosed();
    var s := LateVoteElects(reach);
    states, steps :| EndsIn(states, steps, s, Mark(false, true));
    a :| 0 <= a < |steps| && Commits(states[a], steps[a]);
  }
}
