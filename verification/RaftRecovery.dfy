/**
 A Raft cluster can always recover. Whatever a race-free run of two or more peers has
 come to, however terms, votes and logs differ and whatever is lost, the run can go on so
 that a leader is elected, every log becomes the leader's, and every peer delivers all
 that was ever delivered and a new command after it.
 */
module RaftRecovery {
  import opened Basics
  import opened Majority
  import opened RaftPeer
  import opened RaftCluster
  import opened RaftRules
  import opened RaftSafety
  import opened RaftBackup
  import Runs

  // ---------------------------------------------------------------- where a state leads

  function Can(n: nat): (Cluster, Step) -> bool {
    (s: Cluster, step: Step) => Enabled(n, s, step) && !Racy(s, step)
  }

  function Move(n: nat): (Cluster, Step) -> Cluster {
    (s: Cluster, step: Step) => if Enabled(n, s, step) then Next(n, s, step) else s
  }

  /** Some race-free run comes to s. */
  ghost predicate Reachable(n: nat, s: Cluster) {
    exists first :: Init(n, first) && Runs.Leads(Can(n), Move(n), first, s)
  }

  ghost predicate EndsIn(n: nat, states: seq<Cluster>, steps: seq<Step>, s: Cluster) {
    IsRun(n, states, steps) && RaceFree(states, steps) && states[|steps|] == s
  }

  lemma {:induction false} RunTo(n: nat, s: Cluster) returns (states: seq<Cluster>, steps: seq<Step>)
    requires Reachable(n, s)
    ensures EndsIn(n, states, steps, s)
  {
    var first :| Init(n, first) && Runs.Leads(Can(n), Move(n), first, s);
    states, steps :| Runs.Chain(Can(n), Move(n), states, steps) && states[0] == first && states[|steps|] == s;
  }

  lemma {:induction false} RunReaches(n: nat, states: seq<Cluster>, steps: seq<Step>)
    requires IsRun(n, states, steps) && RaceFree(states, steps)
    ensures Reachable(n, states[|steps|])
  {
    assert Runs.Chain(Can(n), Move(n), states, steps);
  }

  /**
   A set of reachable states that follows every step. The lemmas below hold of any such set, so that their proofs need
   not look at runs.
   */
  type Reach = iset<Cluster>

  ghost predicate Closed(n: nat, reach: Reach) {
    && (forall t {:trigger Reachable(n, t)} | t in reach :: Reachable(n, t))
    && forall t, step {:trigger Next(n, t, step)} | t in reach && Enabled(n, t, step) && !Racy(t, step) ::
         Next(n, t, step) in reach
  }

  /** All that s leads to. */
  ghost function Here(n: nat, s: Cluster): Reach {
    iset t | Runs.Leads(Can(n), Move(n), s, t)
  }

  lemma {:induction false} HereIsClosed(n: nat, s: Cluster)
    requires Reachable(n, s)
    ensures Closed(n, Here(n, s)) && s in Here(n, s)
  {
    Runs.Stay(Can(n), Move(n), s);
    forall t | t in Here(n, s) ensures Reachable(n, t) {
      var first :| Init(n, first) && Runs.Leads(Can(n), Move(n), first, s);
      Runs.Join(Can(n), Move(n), first, s, t);
    }
    forall t, step | t in Here(n, s) && Enabled(n, t, step) && !Racy(t, step) ensures Next(n, t, step) in Here(n, s) {
      Runs.One(Can(n), Move(n), t, step);
      Runs.Join(Can(n), Move(n), s, t, Next(n, t, step));
    }
  }

  /** One more step, given the peer it leads to. */
  lemma {:induction false} Go(n: nat, reach: Reach, t: Cluster, step: Step, p: Peer) returns (u: Cluster)
    requires Closed(n, reach) && t in reach && Enabled(n, t, step) && !Racy(t, step) && PeerAfter(n, t, step) == p
    ensures u in reach && u.peers == t.peers[step.i := p] && t.net <= u.net && Sent(n, t, step) <= u.net
  {
    u := Next(n, t, step);
  }

  /** What is known of every reachable state. */
  lemma {:induction false} Known(n: nat, reach: Reach, t: Cluster, i: nat)
    requires Closed(n, reach) && t in reach && i < n
    ensures |t.peers| == n && WellFormed(n, t.peers[i]) && t.peers[i].base == 0 && MatchInRange(t.peers[i])
    ensures Ascending(t.peers[i].log)
    ensures forall x | 0 <= x < |t.peers[i].log| :: t.peers[i].log[x].term <= t.peers[i].term
    ensures t.peers[i].role == Leader ==> forall to | 0 <= to < n :: InRange(t.peers[i], to)
  {
    assert Reachable(n, t);
    var states, steps := RunTo(n, t);
    BoundsHold(n, states, steps, |steps|, i);
    LogAscends(n, states, steps, |steps|, i);
    forall x | 0 <= x < |t.peers[i].log| ensures t.peers[i].log[x].term <= t.peers[i].term {
      LogTermsAscend(n, states, steps, |steps|, i, x, x);
    }
  }

  /** Any two logs of a reachable state. */
  lemma {:induction false} KnownPair(n: nat, reach: Reach, t: Cluster, i: nat, j: nat)
    requires Closed(n, reach) && t in reach && i < n && j < n
    ensures |t.peers| == n && Comparable(t.peers[i].log, t.peers[j].log)
    ensures forall x | 0 <= x < |t.peers[i].log| && x < |t.peers[j].log| &&
                       t.peers[i].log[x].term == t.peers[j].log[x].term ::
              t.peers[i].log[..x + 1] == t.peers[j].log[..x + 1]
  {
    assert Reachable(n, t);
    var states, steps := RunTo(n, t);
    LogsComparable(n, states, steps, |steps|, |steps|, i, j);
    forall x | 0 <= x < |t.peers[i].log| && x < |t.peers[j].log| && t.peers[i].log[x].term == t.peers[j].log[x].term
      ensures t.peers[i].log[..x + 1] == t.peers[j].log[..x + 1]
    {
      LogMatching(n, states, steps, |steps|, |steps|, i, j, x);
    }
  }

  // ---------------------------------------------------------------- everybody restarts

  /** The peer has just been restarted. */
  predicate Rested(n: nat, p: Peer) {
    p.base < |p.log| && p == RestartPeer(n, p)
  }

  /** The first k peers crash and restart. */
  lemma {:induction false} RestartAll(n: nat, reach: Reach, t: Cluster, k: nat) returns (u: Cluster)
    requires Closed(n, reach) && t in reach && k <= n && n > 0
    ensures u in reach && |u.peers| == |t.peers| == n
    ensures forall i | 0 <= i < k :: Rested(n, u.peers[i]) && SameDurable(t.peers[i], u.peers[i])
    ensures forall i | k <= i < n :: u.peers[i] == t.peers[i]
  {
    Known(n, reach, t, 0);
    u := t;
    if k > 0 {
      u := RestartAll(n, reach, t, k - 1);
      Known(n, reach, u, k - 1);
      u := Go(n, reach, u, Restart(k - 1), RestartPeer(n, u.peers[k - 1]));
    }
  }

  predicate SameDurable(p: Peer, q: Peer) {
    q.term == p.term && q.votedFor == p.votedFor && q.log == p.log
  }

  // ---------------------------------------------------------------- a candidate

  /** Peer b after it stood in term T. */
  function Candidacy(b: nat, p: Peer, T: nat): Peer {
    p.(role := Candidate, term := T, votedFor := Some(b), electing := false, electionTerm := T, tally := {b})
  }

  function Bid(b: nat, log: seq<Entry>, T: nat): VoteArgs
    requires |log| > 0
  {
    VoteArgs(T, b, LastIndex(log), LastTerm(log))
  }

  /** Everybody else has been asked for a vote. */
  ghost predicate Asked(n: nat, t: Cluster, b: nat, a: VoteArgs) {
    forall j | 0 <= j < n && j != b :: RequestVote(b, j, a) in t.net
  }

  /** The ticker of a follower or candidate comes to start an election. */
  lemma {:induction false} GetsUp(n: nat, reach: Reach, t: Cluster, b: nat) returns (u: Cluster)
    requires Closed(n, reach) && t in reach && b < n == |t.peers| && t.peers[b].role != Leader && !t.peers[b].electing
    ensures u in reach && u.peers == t.peers[b := t.peers[b].(role := Candidate, electing := true)]
  {
    Known(n, reach, t, b);
    var p := t.peers[b].(role := Candidate);
    u := t;
    if t.peers[b].role == Follower {
      u := Go(n, reach, t, FollowerTimeout(b), p);
    }
    u := Go(n, reach, u, CheckCandidate(b), p.(electing := true));
  }

  lemma {:induction false} AsksAll(n: nat, reach: Reach, t: Cluster, b: nat) returns (u: Cluster)
    requires Closed(n, reach) && t in reach && b < n == |t.peers| && t.peers[b].role == Candidate && t.peers[b].electing
    requires |t.peers[b].log| > 0
    ensures u in reach && u.peers == t.peers[b := Candidacy(b, t.peers[b], t.peers[b].term + 1)]
    ensures Asked(n, u, b, Bid(b, t.peers[b].log, t.peers[b].term + 1))
  {
    Known(n, reach, t, b);
    var p := t.peers[b];
    var bid := Bid(b, p.log, p.term + 1);
    u := Go(n, reach, t, StartElection(b), Candidacy(b, p, p.term + 1));
    forall j | 0 <= j < n && j != b ensures RequestVote(b, j, bid) in u.net {
      assert j in Peers(n);
      assert RequestVote(b, j, BeginElection(b, p).1) in Sent(n, t, StartElection(b));
    }
  }

  /** A follower or candidate stands in the next term. */
  lemma {:induction false} StandOnce(n: nat, reach: Reach, t: Cluster, b: nat) returns (u: Cluster)
    requires Closed(n, reach) && t in reach && b < n == |t.peers| && t.peers[b].role != Leader && !t.peers[b].electing
    requires |t.peers[b].log| > 0
    ensures u in reach && u.peers == t.peers[b := Candidacy(b, t.peers[b], t.peers[b].term + 1)]
    ensures Asked(n, u, b, Bid(b, t.peers[b].log, t.peers[b].term + 1))
  {
    u := GetsUp(n, reach, t, b);
    u := AsksAll(n, reach, u, b);
  }

  /** It stands again and again until its term is above `top`. */
  lemma {:induction false} StandAbove(n: nat, reach: Reach, t: Cluster, b: nat, top: nat) returns (u: Cluster, T: nat)
    requires Closed(n, reach) && t in reach && b < n == |t.peers| && t.peers[b].role != Leader && !t.peers[b].electing
    requires |t.peers[b].log| > 0
    ensures u in reach && T > top && T > t.peers[b].term && u.peers == t.peers[b := Candidacy(b, t.peers[b], T)]
    ensures Asked(n, u, b, Bid(b, t.peers[b].log, T))
    decreases top - t.peers[b].term
  {
    u := StandOnce(n, reach, t, b);
    T := u.peers[b].term;
    if T <= top {
      u, T := StandAbove(n, reach, u, b, top);
    }
  }

  // ---------------------------------------------------------------- the votes

  /** Peer j after it voted for b in term T. */
  function Voter(b: nat, p: Peer, T: nat): Peer {
    p.(role := Follower, term := T, votedFor := Some(b))
  }

  /** The first k of the others have voted. */
  ghost predicate Voted(n: nat, t: Cluster, u: Cluster, b: nat, a: VoteArgs, k: nat) {
    && |u.peers| == |t.peers| == n && b < n && u.peers[b] == t.peers[b]
    && (forall j | 0 <= j < k && j < n && j != b ::
          u.peers[j] == Voter(b, t.peers[j], a.term) && VoteReplied(j, b, a, VoteReply(a.term, true)) in u.net)
    && (forall j | k <= j < n :: u.peers[j] == t.peers[j])
  }

  lemma {:induction false} AllVote(n: nat, reach: Reach, t: Cluster, b: nat, a: VoteArgs, k: nat) returns (u: Cluster)
    requires Closed(n, reach) && t in reach && b < n == |t.peers| && k <= n && a.candidate == b && Asked(n, t, b, a)
    requires forall j | 0 <= j < n && j != b ::
               t.peers[j].term < a.term && |t.peers[j].log| > 0 && AtLeast(a.lastTerm, a.lastIndex, t.peers[j].log)
    ensures u in reach && Voted(n, t, u, b, a, k) && t.net <= u.net
  {
    u := t;
    if k > 0 {
      u := AllVote(n, reach, t, b, a, k - 1);
      if k - 1 != b {
        u := OneVotes(n, reach, u, b, a, k - 1);
      }
    }
  }

  lemma {:induction false} OneVotes(n: nat, reach: Reach, t: Cluster, b: nat, a: VoteArgs, j: nat) returns (u: Cluster)
    requires Closed(n, reach) && t in reach && b < n == |t.peers| && j < n && j != b && a.candidate == b
    requires RequestVote(b, j, a) in t.net && t.peers[j].term < a.term
    requires |t.peers[j].log| > 0 && AtLeast(a.lastTerm, a.lastIndex, t.peers[j].log)
    ensures u in reach && u.peers == t.peers[j := Voter(b, t.peers[j], a.term)] && t.net <= u.net
    ensures VoteReplied(j, b, a, VoteReply(a.term, true)) in u.net
  {
    Known(n, reach, t, j);
    VoteExact(t.peers[j], a);
    var step := OnRequestVote(j, RequestVote(b, j, a));
    u := Go(n, reach, t, step, Voter(b, t.peers[j], a.term));
    assert VoteReplied(j, b, a, VoteReply(a.term, true)) in Sent(n, t, step);
  }

  /** The votes are b's own and those of the others below k, and more than b's own are no majority. */
  ghost predicate TallyIs(n: nat, b: nat, tally: set<nat>, k: nat) {
    (forall j: nat :: j in tally <==> j == b || j < k) && (tally == {b} || 2 * |tally| <= n)
  }

  /** Peer b after it was elected. */
  predicate Elected(n: nat, p: Peer, q: Peer) {
    && q == p.(role := Leader, tally := q.tally, next := q.next, matched := q.matched)
    && |q.next| == |q.matched| == n
    && forall j | 0 <= j < n :: q.next[j] == |p.log| && q.matched[j] == 0
  }

  /** The candidate has counted the votes of the first k peers without a majority. */
  ghost predicate Counting(n: nat, b: nat, p: Peer, q: Peer, k: nat) {
    q == p.(tally := q.tally) && TallyIs(n, b, q.tally, k)
  }

  lemma {:induction false} CountVotes(n: nat, reach: Reach, t: Cluster, b: nat, p: Peer, a: VoteArgs, k: nat)
    returns (u: Cluster)
    requires Closed(n, reach) && t in reach && b < n == |t.peers| && k <= n && t.peers[b] == p
    requires p.role == Candidate && p.term == a.term == p.electionTerm && p.tally == {b}
    requires AllGranted(n, t.net, b, a)
    ensures u in reach && OnlyPeer(t, u, b) && t.net <= u.net
    ensures Tallied(n, b, p, u.peers[b], k)
  {
    u := t;
    if k == 0 {
      NoneCounted(n, b, p);
    } else {
      var v := CountVotes(n, reach, t, b, p, a, k - 1);
      GrantedBy(n, t.net, v.net, b, a, k - 1);
      u := CountNext(n, reach, v, b, p, a, k - 1);
      OnlyPeerTwice(t, v, u, b);
    }
  }

  /** All the others have granted their vote. */
  ghost predicate AllGranted(n: nat, net: set<Message>, b: nat, a: VoteArgs) {
    forall j | 0 <= j < n && j != b :: VoteReplied(j, b, a, VoteReply(a.term, true)) in net
  }

  lemma {:induction false} GrantedBy(n: nat, net: set<Message>, net': set<Message>, b: nat, a: VoteArgs, j: nat)
    requires AllGranted(n, net, b, a) && net <= net' && j < n
    ensures j != b ==> VoteReplied(j, b, a, VoteReply(a.term, true)) in net'
  {
  }

  lemma {:induction false} OnlyPeerTwice(t: Cluster, v: Cluster, u: Cluster, b: nat)
    requires OnlyPeer(t, v, b) && OnlyPeer(v, u, b) && t.net <= v.net <= u.net
    ensures OnlyPeer(t, u, b) && t.net <= u.net
  {
  }

  /** Only peer b has moved. */
  predicate OnlyPeer(t: Cluster, u: Cluster, b: nat) {
    b < |t.peers| == |u.peers| && u.peers == t.peers[b := u.peers[b]]
  }

  ghost predicate Tallied(n: nat, b: nat, p: Peer, q: Peer, k: nat) {
    Elected(n, p, q) || Counting(n, b, p, q, k)
  }

  lemma {:induction false} NoneCounted(n: nat, b: nat, p: Peer)
    requires p.tally == {b}
    ensures Tallied(n, b, p, p, 0)
  {
  }

  /** The reply of peer k. */
  lemma {:induction false} CountNext(n: nat, reach: Reach, t: Cluster, b: nat, p: Peer, a: VoteArgs, k: nat)
    returns (u: Cluster)
    requires Closed(n, reach) && t in reach && b < n == |t.peers| && k < n
    requires p.role == Candidate && p.term == a.term == p.electionTerm && Tallied(n, b, p, t.peers[b], k)
    requires k != b ==> VoteReplied(k, b, a, VoteReply(a.term, true)) in t.net
    ensures u in reach && OnlyPeer(t, u, b) && t.net <= u.net
    ensures Tallied(n, b, p, u.peers[b], k + 1)
  {
    u := t;
    if k != b && t.peers[b].role != Leader {
      u := CountOne(n, reach, t, b, k, a);
    }
    Counted(n, b, p, t.peers[b], u.peers[b], k);
  }

  /** What a reply, or none, makes of the tally. */
  lemma {:induction false} Counted(n: nat, b: nat, p: Peer, v: Peer, q: Peer, k: nat)
    requires Tallied(n, b, p, v, k) && p.role == Candidate
    requires k == b || v.role == Leader ==> q == v
    requires k != b && v.role != Leader ==>
               if 2 * |v.tally + {k}| > n then Elected(n, v, q) else q == v.(tally := v.tally + {k})
    ensures Tallied(n, b, p, q, k + 1)
  {
  }

  /** One more vote. */
  lemma {:induction false} CountOne(n: nat, reach: Reach, t: Cluster, b: nat, j: nat, a: VoteArgs) returns (u: Cluster)
    requires Closed(n, reach) && t in reach && b < n == |t.peers| && j < n
    requires var p := t.peers[b]; p.role == Candidate && p.term == a.term == p.electionTerm
    requires VoteReplied(j, b, a, VoteReply(a.term, true)) in t.net
    ensures u in reach && |u.peers| == n && u.peers == t.peers[b := u.peers[b]] && t.net <= u.net
    ensures var p, tally := t.peers[b], t.peers[b].tally + {j};
            if 2 * |tally| > n then Elected(n, p, u.peers[b]) else u.peers[b] == p.(tally := tally)
  {
    Known(n, reach, t, b);
    var m := VoteReplied(j, b, a, VoteReply(a.term, true));
    VoteReplyExact(n, t.peers[b], j, a, m.voteReply);
    u := Go(n, reach, t, OnVoteReply(b, m), HandleVoteReply(n, t.peers[b], j, a, m.voteReply));
  }

  /** With two or more peers the votes of all the others are a majority. */
  lemma {:induction false} AllVotesElect(n: nat, b: nat, tally: set<nat>)
    requires n >= 2 && b < n
    ensures !TallyIs(n, b, tally, n)
  {
    if forall j: nat :: j in tally <==> j == b || j < n {
      assert tally == Peers(n);
      var other := if b == 0 then 1 else 0;
      assert other in tally;
    }
  }

  // ---------------------------------------------------------------- the election

  /** b has a log at least as up to date as anybody's. */
  ghost predicate Best(peers: seq<Peer>, b: nat) {
    && b < |peers| && |peers[b].log| > 0
    && forall j | 0 <= j < |peers| ::
         |peers[j].log| > 0 && AtLeast(LastTerm(peers[b].log), LastIndex(peers[b].log), peers[j].log)
  }

  lemma {:induction false} SomeBest(peers: seq<Peer>) returns (b: nat)
    requires |peers| > 0 && forall j | 0 <= j < |peers| :: |peers[j].log| > 0
    ensures Best(peers, b)
  {
    var n := |peers| - 1;
    if n == 0 {
      b := 0;
    } else {
      var front := peers[..n];
      b := SomeBest(front);
      if !AtLeast(LastTerm(peers[b].log), LastIndex(peers[b].log), peers[n].log) {
        forall j | 0 <= j < n ensures AtLeast(LastTerm(peers[n].log), LastIndex(peers[n].log), peers[j].log) {
          assert AtLeast(LastTerm(front[b].log), LastIndex(front[b].log), front[j].log);
        }
        b := n;
      } else {
        forall j | 0 <= j < n ensures AtLeast(LastTerm(peers[b].log), LastIndex(peers[b].log), peers[j].log) {
          assert AtLeast(LastTerm(front[b].log), LastIndex(front[b].log), front[j].log);
        }
      }
    }
  }

  lemma {:induction false} TopTerm(peers: seq<Peer>) returns (top: nat)
    ensures forall j | 0 <= j < |peers| :: peers[j].term <= top
  {
    top := 0;
    for k := 0 to |peers|
      invariant forall j | 0 <= j < k :: peers[j].term <= top
    {
      top := Max(top, peers[k].term);
    }
  }

  /** The cluster after an election: b leads term T, the others follow it with logs of older terms. */
  ghost predicate Led(n: nat, t: Cluster, u: Cluster, b: nat, T: nat) {
    && |t.peers| == |u.peers| == n && b < n
    && (forall j | 0 <= j < n :: t.peers[j].term < T)
    && Elected(n, Candidacy(b, t.peers[b], T), u.peers[b])
    && forall j | 0 <= j < n && j != b :: u.peers[j] == Voter(b, t.peers[j], T)
  }

  /** After a restart of everybody, the peer with the best log can be elected. */
  lemma {:induction false} BestIsElected(n: nat, reach: Reach, t: Cluster, b: nat) returns (u: Cluster, T: nat)
    requires Closed(n, reach) && t in reach && n >= 2 && |t.peers| == n && Best(t.peers, b)
    requires forall i | 0 <= i < n :: Rested(n, t.peers[i])
    ensures u in reach && Led(n, t, u, b, T)
  {
    var top := TopTerm(t.peers);
    var lg := t.peers[b].log;
    var t1;
    t1, T := StandAbove(n, reach, t, b, top);
    var a := Bid(b, lg, T);
    var t2 := AllVote(n, reach, t1, b, a, n);
    u := CountVotes(n, reach, t2, b, Candidacy(b, t.peers[b], T), a, n);
    AllVotesElect(n, b, u.peers[b].tally);
  }

  // ---------------------------------------------------------------- one message and its answer

  /** A leader and one of its followers, in the leader's term, whose log has nothing of that term yet. */
  ghost predicate Behind(p: Peer, q: Peer, j: nat) {
    && p.role == Leader && q.role == Follower && q.term == p.term && p.base == 0 && q.base == 0 && p.commit == 0
    && j < |p.next| && j < |p.matched| && 1 <= p.next[j] <= |p.log|
    && Comparable(p.log, q.log)
    && (forall x | 0 <= x < |p.log| && x < |q.log| && p.log[x].term == q.log[x].term ::
          p.log[..x + 1] == q.log[..x + 1])
    && LastTerm(p.log) == p.term && forall x | 0 <= x < |q.log| :: q.log[x].term < p.term
  }

  function Answer(b: nat, p: Peer, q: Peer, j: nat): (Peer, AppendReply)
    requires j < |p.next| && j < |p.matched| && 1 <= p.next[j] <= |p.log| && |q.log| > 0
  {
    HandleAppend(q, MakeAppend(b, p, j))
  }

  function Learned(b: nat, p: Peer, q: Peer, j: nat): Peer
    requires j < |p.next| && j < |p.matched| && 1 <= p.next[j] <= |p.log| && |q.log| > 0
  {
    HandleAppendReply(p, j, MakeAppend(b, p, j), Answer(b, p, q, j).1)
  }

  /** The leader sends, the follower answers, the leader hears. */
  lemma {:induction false} Exchange(n: nat, reach: Reach, t: Cluster, b: nat, j: nat) returns (u: Cluster)
    requires Closed(n, reach) && t in reach && b < n == |t.peers| && j < n && j != b && t.peers[b].role == Leader
    requires |t.peers[j].log| > 0 && |t.peers[b].next| == |t.peers[b].matched| == n && InRange(t.peers[b], j)
    ensures u in reach && t.net <= u.net
    ensures var p, q := t.peers[b], t.peers[j];
            u.peers == t.peers[j := Answer(b, p, q, j).0][b := Learned(b, p, q, j)]
  {
    Known(n, reach, t, b);
    Known(n, reach, t, j);
    var p, q, a := t.peers[b], t.peers[j], MakeAppend(b, t.peers[b], j);
    u := Go(n, reach, t, SendAppend(b, j), p);
    u := Answers(n, reach, u, b, j, a);
    u := Hears(n, reach, u, b, j, a, Answer(b, p, q, j).1);
  }

  lemma {:induction false} Answers(n: nat, reach: Reach, t: Cluster, b: nat, j: nat, a: AppendArgs) returns (u: Cluster)
    requires Closed(n, reach) && t in reach && b < n == |t.peers| && j < n && Append(b, j, a) in t.net
    requires |t.peers[j].log| > 0
    ensures u in reach && t.net <= u.net && u.peers == t.peers[j := HandleAppend(t.peers[j], a).0]
    ensures AppendReplied(j, b, a, HandleAppend(t.peers[j], a).1) in u.net
  {
    Known(n, reach, t, j);
    var step := OnAppend(j, Append(b, j, a));
    u := Go(n, reach, t, step, HandleAppend(t.peers[j], a).0);
    assert AppendReplied(j, b, a, HandleAppend(t.peers[j], a).1) in Sent(n, t, step);
  }

  lemma {:induction false} Hears(n: nat, reach: Reach, t: Cluster, b: nat, j: nat, a: AppendArgs, r: AppendReply)
    returns (u: Cluster)
    requires Closed(n, reach) && t in reach && b < n == |t.peers| && j < n && AppendReplied(j, b, a, r) in t.net
    requires a.prev < |t.peers[b].log| && |t.peers[b].next| == |t.peers[b].matched| == n
    ensures u in reach && t.net <= u.net && u.peers == t.peers[b := HandleAppendReply(t.peers[b], j, a, r)]
  {
    Known(n, reach, t, b);
    u := Go(n, reach, t, OnAppendReply(b, AppendReplied(j, b, a, r)), HandleAppendReply(t.peers[b], j, a, r));
  }

  lemma {:induction false} SomeMatchPoint(lead: seq<Entry>, follow: seq<Entry>, k: nat) returns (m: nat)
    requires Comparable(lead, follow) && k < |lead|
    requires forall x | k < x < |lead| && x < |follow| :: lead[x].term != follow[x].term
    ensures MatchPoint(lead, follow, m)
  {
    if k < |follow| && lead[k].term == follow[k].term {
      m := k;
    } else {
      m := SomeMatchPoint(lead, follow, k - 1);
    }
  }

  /** A rejected probe leaves the follower as it is and moves the leader's next index back. */
  lemma {:induction false} ProbeRejected(b: nat, p: Peer, q: Peer, j: nat) returns (next: nat)
    requires Behind(p, q, j) && p.matched[j] == 0 && !Fits(q, MakeAppend(b, p, j))
    ensures Answer(b, p, q, j).0 == q
    ensures 1 <= next < p.next[j] && Learned(b, p, q, j) == p.(next := p.next[j := next])
  {
    var a := MakeAppend(b, p, j);
    MessageExact(b, p, j);
    AppendExact(q, a);
    var point := SomeMatchPoint(p.log, q.log, |p.log| - 1);
    MessageAnswer(p, q, a, point);
    var r := Answer(b, p, q, j).1;
    AppendReplyExact(p, j, a, r);
    next := BackUp(p.log, p.base, a.prev, a.prevTerm, r);
  }

  /** An accepted probe that carries nothing leaves the follower as it is and tells the leader the match point. */
  lemma {:induction false} ProbeAccepted(b: nat, p: Peer, q: Peer, j: nat)
    requires Behind(p, q, j) && p.matched[j] == 0 && p.next[j] > 1 && Fits(q, MakeAppend(b, p, j))
    ensures Answer(b, p, q, j).0 == q
    ensures Learned(b, p, q, j) == p.(matched := p.matched[j := p.next[j] - 1])
  {
    var a := MakeAppend(b, p, j);
    MessageExact(b, p, j);
    AppendExact(q, a);
    AppendReplyExact(p, j, a, Answer(b, p, q, j).1);
    var p' := Learned(b, p, q, j);
    assert p'.matched == p.matched[j := a.prev] && p'.next == p.next;
  }

  /** Once the match point is known, the next message makes the follower's log the leader's. */
  lemma {:induction false} RestAccepted(b: nat, p: Peer, q: Peer, j: nat)
    requires Behind(p, q, j) && p.matched[j] + 1 == p.next[j] && Fits(q, MakeAppend(b, p, j))
    ensures Answer(b, p, q, j).0 == q.(log := p.log)
    ensures Learned(b, p, q, j) == p.(next := p.next[j := |p.log|], matched := p.matched[j := |p.log| - 1])
  {
    var a := MakeAppend(b, p, j);
    MessageExact(b, p, j);
    AppendExact(q, a);
    LogBecomes(p, q, a);
    AppendReplyExact(p, j, a, Answer(b, p, q, j).1);
    assert a.prev < |p.log| - 1;
    var p' := Learned(b, p, q, j);
    assert p'.matched == p.matched[j := |p.log| - 1] && p'.next == p.next[j := |p.log|];
  }

  /** A message with the rest of the leader's log, which ends with an entry the follower lacks. */
  lemma {:induction false} LogBecomes(p: Peer, q: Peer, a: AppendArgs)
    requires |q.log| > 0 && a.term >= q.term && q.base == 0 && Fits(q, a) && Fits(p, a)
    requires a.prev + 1 + |a.entries| == |p.log| && p.log[a.prev + 1..] == a.entries
    requires forall x | 0 <= x < |p.log| && x < |q.log| && p.log[x].term == q.log[x].term ::
               p.log[..x + 1] == q.log[..x + 1]
    requires forall x | 0 <= x < |q.log| :: q.log[x].term < LastTerm(p.log)
    ensures a.prev < |p.log| - 1 && HandleAppend(q, a).0.log == p.log
  {
    forall x | 0 <= x < |a.entries| && a.prev + 1 + x < |q.log| && q.log[a.prev + 1 + x].term == a.entries[x].term
      ensures q.log[a.prev + 1 + x] == a.entries[x]
    {
      var y := a.prev + 1 + x;
      assert p.log[y] == a.entries[x];
      assert p.log[..y + 1][y] == q.log[..y + 1][y];
    }
    AppendFits(q, a);
    assert q.log[a.prev].term < LastTerm(p.log);
    assert p.log[..a.prev + 1] == q.log[..a.prev + 1];
    SameLog(p.log, q.log, HandleAppend(q, a).0.log, a.prev + 1);
  }

  /** A merge that ends with an entry the old log lacks has nothing behind it. */
  lemma {:induction false} SameLog(lead: seq<Entry>, own: seq<Entry>, r: seq<Entry>, at: nat)
    requires at < |lead| <= |r| && r[..at] == lead[..at] && r[at..|lead|] == lead[at..]
    requires r == own || |r| == |lead|
    requires forall x | 0 <= x < |own| :: own[x].term < LastTerm(lead)
    ensures r == lead
  {
    assert r[at..|lead|][|lead| - 1 - at] == lead[at..][|lead| - 1 - at];
    assert r[|lead| - 1] == lead[|lead| - 1];
    assert |r| == |lead|;
    assert r == r[..at] + r[at..|lead|] && lead == lead[..at] + lead[at..];
  }

  // ---------------------------------------------------------------- one follower catches up

  /** Only the leader's indices for j and the log of j have changed. */
  ghost predicate CaughtUp(t: Cluster, u: Cluster, b: nat, j: nat) {
    && b < |t.peers| && j < |t.peers| && j < |t.peers[b].next| && j < |t.peers[b].matched|
    && var p := t.peers[b];
       && |p.log| > 0
       && u.peers == t.peers[j := t.peers[j].(log := p.log)]
                            [b := p.(next := p.next[j := |p.log|], matched := p.matched[j := |p.log| - 1])]
  }

  /** Leader b and follower j are where one exchange can start. */
  ghost predicate Ready(n: nat, t: Cluster, b: nat, j: nat) {
    && b < n == |t.peers| && j < n && j != b && |t.peers[b].next| == |t.peers[b].matched| == n
    && Behind(t.peers[b], t.peers[j], j)
  }

  /** Only the leader's indices for j have changed. */
  ghost predicate Thinks(t: Cluster, u: Cluster, b: nat, j: nat, x: nat, y: nat) {
    && b < |t.peers| && j < |t.peers| && j != b && j < |t.peers[b].next| && j < |t.peers[b].matched|
    && var p := t.peers[b];
       u.peers == t.peers[b := p.(next := p.next[j := x], matched := p.matched[j := y])]
  }

  lemma {:induction false} GoesBack(n: nat, reach: Reach, t: Cluster, b: nat, j: nat) returns (u: Cluster, next: nat)
    requires Closed(n, reach) && t in reach && Ready(n, t, b, j) && t.peers[b].matched[j] == 0
    requires !Fits(t.peers[j], MakeAppend(b, t.peers[b], j))
    ensures u in reach && 1 <= next < t.peers[b].next[j]
    ensures Thinks(t, u, b, j, next, 0) && Ready(n, u, b, j)
    ensures u.peers[b].matched[j] == 0 && u.peers[b].next[j] == next
  {
    next := ProbeRejected(b, t.peers[b], t.peers[j], j);
    u := Exchange(n, reach, t, b, j);
    assert t.peers[b].matched[j := 0] == t.peers[b].matched;
  }

  lemma {:induction false} FindsMatch(n: nat, reach: Reach, t: Cluster, b: nat, j: nat) returns (u: Cluster)
    requires Closed(n, reach) && t in reach && Ready(n, t, b, j) && t.peers[b].matched[j] == 0
    requires Fits(t.peers[j], MakeAppend(b, t.peers[b], j)) && t.peers[b].next[j] > 1
    ensures u in reach && Thinks(t, u, b, j, t.peers[b].next[j], t.peers[b].next[j] - 1) && Ready(n, u, b, j)
    ensures Fits(u.peers[j], MakeAppend(b, u.peers[b], j)) && u.peers[b].matched[j] + 1 == u.peers[b].next[j]
  {
    ProbeAccepted(b, t.peers[b], t.peers[j], j);
    u := Exchange(n, reach, t, b, j);
    assert t.peers[b].next[j := t.peers[b].next[j]] == t.peers[b].next;
  }

  lemma {:induction false} TakesRest(n: nat, reach: Reach, t: Cluster, b: nat, j: nat) returns (u: Cluster)
    requires Closed(n, reach) && t in reach && Ready(n, t, b, j) && t.peers[b].matched[j] + 1 == t.peers[b].next[j]
    requires Fits(t.peers[j], MakeAppend(b, t.peers[b], j))
    ensures u in reach && CaughtUp(t, u, b, j)
  {
    RestAccepted(b, t.peers[b], t.peers[j], j);
    u := Exchange(n, reach, t, b, j);
  }

  /** What the leader thought of j before does not matter. */
  lemma {:induction false} CaughtUpFrom(t: Cluster, v: Cluster, u: Cluster, b: nat, j: nat, x: nat, y: nat)
    requires Thinks(t, v, b, j, x, y) && CaughtUp(v, u, b, j)
    ensures CaughtUp(t, u, b, j)
  {
    var p := t.peers[b];
    assert p.next[j := x][j := |p.log|] == p.next[j := |p.log|];
    assert p.matched[j := y][j := |p.log| - 1] == p.matched[j := |p.log| - 1];
  }

  lemma {:induction false} ProbeFits(n: nat, reach: Reach, t: Cluster, b: nat, j: nat) returns (u: Cluster)
    requires Closed(n, reach) && t in reach && Ready(n, t, b, j) && t.peers[b].matched[j] == 0
    requires Fits(t.peers[j], MakeAppend(b, t.peers[b], j))
    ensures u in reach && CaughtUp(t, u, b, j)
  {
    if t.peers[b].next[j] == 1 {
      u := TakesRest(n, reach, t, b, j);
    } else {
      u := MatchThenRest(n, reach, t, b, j);
    }
  }

  lemma {:induction false} MatchThenRest(n: nat, reach: Reach, t: Cluster, b: nat, j: nat) returns (u: Cluster)
    requires Closed(n, reach) && t in reach && Ready(n, t, b, j) && t.peers[b].matched[j] == 0 && t.peers[b].next[j] > 1
    requires Fits(t.peers[j], MakeAppend(b, t.peers[b], j))
    ensures u in reach && CaughtUp(t, u, b, j)
  {
    var v := FindsMatch(n, reach, t, b, j);
    u := TakesRest(n, reach, v, b, j);
    CaughtUpFrom(t, v, u, b, j, t.peers[b].next[j], t.peers[b].next[j] - 1);
  }

  /** However the logs differ, probing and sending make the follower's log the leader's. */
  lemma {:induction false} CatchUp(n: nat, reach: Reach, t: Cluster, b: nat, j: nat, next: nat) returns (u: Cluster)
    requires Closed(n, reach) && t in reach && Ready(n, t, b, j)
    requires t.peers[b].matched[j] == 0 && next == t.peers[b].next[j]
    ensures u in reach && CaughtUp(t, u, b, j)
    decreases next
  {
    if Fits(t.peers[j], MakeAppend(b, t.peers[b], j)) {
      u := ProbeFits(n, reach, t, b, j);
    } else {
      var v, before := GoesBack(n, reach, t, b, j);
      u := CatchUp(n, reach, v, b, j, before);
      CaughtUpFrom(t, v, u, b, j, before, 0);
    }
  }

  // ---------------------------------------------------------------- everybody catches up

  /** The first k of the others have the leader's log, and the leader knows. */
  ghost predicate Spread(n: nat, t: Cluster, u: Cluster, b: nat, k: nat) {
    && |t.peers| == |u.peers| == n && b < n
    && var p, p' := t.peers[b], u.peers[b];
       && |p.log| > 0 && p' == p.(next := p'.next, matched := p'.matched)
       && |p.next| == |p.matched| == |p'.next| == |p'.matched| == n
       && (forall j | 0 <= j < k && j < n && j != b ::
             u.peers[j] == t.peers[j].(log := p.log) && p'.next[j] == |p.log| && p'.matched[j] == |p.log| - 1)
       && (forall j | k <= j < n && j != b ::
             u.peers[j] == t.peers[j] && p'.next[j] == p.next[j] && p'.matched[j] == p.matched[j])
  }

  lemma {:induction false} SpreadAll(n: nat, reach: Reach, t: Cluster, b: nat, k: nat) returns (u: Cluster)
    requires Closed(n, reach) && t in reach && b < n == |t.peers| && k <= n
    requires |t.peers[b].next| == |t.peers[b].matched| == n && |t.peers[b].log| > 0
    requires forall j | 0 <= j < n && j != b :: Behind(t.peers[b], t.peers[j], j) && t.peers[b].matched[j] == 0
    ensures u in reach && Spread(n, t, u, b, k)
  {
    u := t;
    if k > 0 {
      u := SpreadAll(n, reach, t, b, k - 1);
      if k - 1 != b {
        assert Behind(t.peers[b], t.peers[k - 1], k - 1);
        StillBehind(n, t, u, b, k - 1);
        u := SpreadTo(n, reach, t, u, b, k - 1);
      }
    }
  }

  lemma {:induction false} SpreadTo(n: nat, reach: Reach, t: Cluster, v: Cluster, b: nat, k: nat) returns (u: Cluster)
    requires Closed(n, reach) && v in reach && k < n && k != b
    requires Spread(n, t, v, b, k) && Ready(n, v, b, k) && v.peers[b].matched[k] == 0
    ensures u in reach && Spread(n, t, u, b, k + 1)
  {
    u := CatchUp(n, reach, v, b, k, v.peers[b].next[k]);
    SpreadNext(n, t, v, u, b, k);
  }

  /** The next follower is as it was, and so is what the leader thinks of it. */
  lemma {:induction false} StillBehind(n: nat, t: Cluster, u: Cluster, b: nat, k: nat)
    requires Spread(n, t, u, b, k) && k < n && k != b
    requires Behind(t.peers[b], t.peers[k], k) && t.peers[b].matched[k] == 0
    ensures Ready(n, u, b, k) && u.peers[b].matched[k] == 0
  {
  }

  lemma {:induction false} SpreadNext(n: nat, t: Cluster, v: Cluster, u: Cluster, b: nat, k: nat)
    requires Spread(n, t, v, b, k) && CaughtUp(v, u, b, k) && k < n && k != b
    ensures Spread(n, t, u, b, k + 1)
  {
  }

  // ---------------------------------------------------------------- the leader commits, the others follow

  lemma {:induction false} CountAll(reached: seq<nat>, v: nat)
    requires forall i | 0 <= i < |reached| :: reached[i] >= v
    ensures CountAtLeast(reached, v) == |reached|
  {
    if reached != [] {
      CountAll(reached[1..], v);
    }
  }

  /** The leader commits its last entry, which is of its own term and which everybody holds. */
  lemma {:induction false} LeaderCommits(n: nat, reach: Reach, t: Cluster, b: nat) returns (u: Cluster)
    requires Closed(n, reach) && t in reach && b < n == |t.peers|
    requires var p := t.peers[b];
             && p.role == Leader && |p.log| >= 2 && LastTerm(p.log) == p.term && p.commit == 0 && |p.matched| == n
             && forall j | 0 <= j < n && j != b :: p.matched[j] == |p.log| - 1
    ensures u in reach && u.peers == t.peers[b := t.peers[b].(commit := |t.peers[b].log| - 1)]
  {
    Known(n, reach, t, b);
    CommitsLast(b, t.peers[b]);
    u := Go(n, reach, t, RunCommit(b), t.peers[b].(commit := |t.peers[b].log| - 1));
  }

  lemma {:induction false} CommitsLast(b: nat, p: Peer)
    requires p.role == Leader && |p.log| >= 2 && LastTerm(p.log) == p.term && p.commit == 0 && b < |p.matched|
    requires forall j | 0 <= j < |p.matched| && j != b :: p.matched[j] == |p.log| - 1
    requires p.matched[b] < |p.log|
    ensures AdvanceCommit(b, p) == p.(commit := |p.log| - 1)
  {
    var reached, v := p.matched[b := |p.log| - 1], |p.log| - 1;
    CountAll(reached, v);
    forall w: nat | w > v ensures CountAtLeast(reached, w) == 0 {
      CountNone(reached, w);
    }
    CommitExact(b, p, v);
  }

  /** A message of a leader that has committed everything to a follower that has its log. */
  lemma {:induction false} HeartbeatCommits(b: nat, p: Peer, q: Peer, j: nat)
    requires p.role == Leader && q.role == Follower && q.term == p.term && p.base == 0 && q.base == 0
    requires |p.log| > 0 && q.log == p.log && p.commit == |p.log| - 1 && q.commit == 0
    requires j < |p.next| && j < |p.matched| && p.next[j] == |p.log| && p.matched[j] == |p.log| - 1
    ensures Answer(b, p, q, j).0 == q.(commit := |p.log| - 1) && Learned(b, p, q, j) == p
  {
    var a := MakeAppend(b, p, j);
    MessageExact(b, p, j);
    AppendExact(q, a);
    AppendReplyExact(p, j, a, Answer(b, p, q, j).1);
    var p' := Learned(b, p, q, j);
    assert p'.matched == p.matched && p'.next == p.next;
  }

  /** The first k of the others have the leader's commit index. */
  ghost predicate Followed(n: nat, t: Cluster, u: Cluster, b: nat, k: nat) {
    && |t.peers| == |u.peers| == n && b < n && u.peers[b] == t.peers[b] && |t.peers[b].log| > 0
    && (forall j | 0 <= j < k && j < n && j != b :: u.peers[j] == t.peers[j].(commit := |t.peers[b].log| - 1))
    && (forall j | k <= j < n && j != b :: u.peers[j] == t.peers[j])
  }

  /** The follower has the leader's log, and the leader knows. */
  predicate InStep(p: Peer, q: Peer, j: nat) {
    && q.role == Follower && q.term == p.term && q.base == 0 && q.log == p.log && q.commit == 0
    && j < |p.next| && j < |p.matched| && p.next[j] == |p.log| && p.matched[j] == |p.log| - 1
  }

  lemma {:induction false} FollowAll(n: nat, reach: Reach, t: Cluster, b: nat, k: nat) returns (u: Cluster)
    requires Closed(n, reach) && t in reach && b < n == |t.peers| && k <= n
    requires var p := t.peers[b];
             && p.role == Leader && p.base == 0 && |p.log| > 0 && p.commit == |p.log| - 1
             && |p.next| == |p.matched| == n && forall j | 0 <= j < n && j != b :: InStep(p, t.peers[j], j)
    ensures u in reach && Followed(n, t, u, b, k)
  {
    u := t;
    if k > 0 {
      u := FollowAll(n, reach, t, b, k - 1);
      if k - 1 != b {
        assert InStep(t.peers[b], t.peers[k - 1], k - 1);
        u := OneFollows(n, reach, u, b, k - 1);
      }
    }
  }

  lemma {:induction false} OneFollows(n: nat, reach: Reach, t: Cluster, b: nat, j: nat) returns (u: Cluster)
    requires Closed(n, reach) && t in reach && b < n == |t.peers| && j < n && j != b
    requires var p := t.peers[b];
             && p.role == Leader && p.base == 0 && |p.log| > 0 && p.commit == |p.log| - 1
             && |p.next| == |p.matched| == n && InStep(p, t.peers[j], j)
    ensures u in reach && u.peers == t.peers[j := t.peers[j].(commit := |t.peers[b].log| - 1)]
  {
    HeartbeatCommits(b, t.peers[b], t.peers[j], j);
    u := Exchange(n, reach, t, b, j);
  }

  // ---------------------------------------------------------------- everybody delivers

  lemma {:induction false} SendsQueue(n: nat, reach: Reach, t: Cluster, i: nat, k: nat) returns (u: Cluster)
    requires Closed(n, reach) && t in reach && i < n == |t.peers| && k <= |t.peers[i].queue|
    ensures u in reach && u.peers == t.peers[i := Delivered(t.peers[i], k)]
  {
    u := t;
    if k > 0 {
      u := SendsQueue(n, reach, t, i, k - 1);
      Known(n, reach, u, i);
      u := Go(n, reach, u, ApplierSend(i), Delivered(t.peers[i], k));
    }
  }

  /** Nothing has been taken or delivered since the restart, and the whole log is committed. */
  predicate Fresh(p: Peer) {
    p.applied == 0 && p.queue == [] && p.delivered == [] && 0 < p.commit && p.commit + 1 == |p.log|
  }

  function Caught(p: Peer): Peer
    requires |p.log| > 0
  {
    p.(applied := p.commit, delivered := Messages(p.log[1..], 1))
  }

  lemma {:induction false} DeliversLog(n: nat, reach: Reach, t: Cluster, i: nat) returns (u: Cluster)
    requires Closed(n, reach) && t in reach && i < n == |t.peers| && Fresh(t.peers[i])
    ensures u in reach && u.peers == t.peers[i := Caught(t.peers[i])]
  {
    var p := t.peers[i];
    Known(n, reach, t, i);
    assert p.log[1..1] == [] && p.log[1..p.commit + 1] == p.log[1..];
    ApplierCatchesUp(p);
    u := Go(n, reach, t, ApplierTake(i), TakeBatch(p));
    u := SendsQueue(n, reach, u, i, |TakeBatch(p).queue|);
  }

  lemma {:induction false} DeliverAll(n: nat, reach: Reach, t: Cluster, k: nat) returns (u: Cluster)
    requires Closed(n, reach) && t in reach && |t.peers| == n && k <= n && forall i | 0 <= i < n :: Fresh(t.peers[i])
    ensures u in reach && |u.peers| == n
    ensures forall i | 0 <= i < k :: Fresh(t.peers[i]) && u.peers[i] == Caught(t.peers[i])
    ensures forall i | k <= i < n :: u.peers[i] == t.peers[i]
  {
    u := t;
    if k > 0 {
      u := DeliverAll(n, reach, t, k - 1);
      u := DeliversLog(n, reach, u, k - 1);
    }
  }

  // ---------------------------------------------------------------- the whole way

  /** Nothing committed or delivered since the restart. */
  predicate Blank(p: Peer) {
    p.base == 0 && p.commit == 0 && p.applied == 0 && p.queue == [] && p.delivered == []
  }

  /** b leads term T with the log lg, and the others follow with logs of older terms. */
  ghost predicate Leading(n: nat, u: Cluster, b: nat, T: nat, lg: seq<Entry>) {
    && |u.peers| == n && b < n && |lg| >= 2 && LastTerm(lg) == T
    && u.peers[b].role == Leader && u.peers[b].term == T && u.peers[b].log == lg && Blank(u.peers[b])
    && |u.peers[b].next| == |u.peers[b].matched| == n
    && (forall j | 0 <= j < n :: 1 <= u.peers[b].next[j] <= |lg| && u.peers[b].matched[j] == 0)
    && forall j | 0 <= j < n && j != b ::
         && u.peers[j].role == Follower && u.peers[j].term == T && Blank(u.peers[j])
         && forall x | 0 <= x < |u.peers[j].log| :: u.peers[j].log[x].term < T
  }

  /** Everybody restarts, the best is elected and takes a command. */
  lemma {:induction false} LeaderStarts(n: nat, reach: Reach, s: Cluster, command: Command)
    returns (u: Cluster, b: nat, T: nat, lg: seq<Entry>)
    requires Closed(n, reach) && s in reach && n >= 2
    ensures u in reach && Leading(n, u, b, T, lg)
    ensures |s.peers| == n && b < n && lg == s.peers[b].log + [Entry(command, T)]
    ensures forall j | 0 <= j < n :: s.peers[j].term < T
  {
    var t := RestartAll(n, reach, s, n);
    forall j | 0 <= j < n
      ensures |t.peers[j].log| > 0 && t.peers[j].base == 0
      ensures forall x | 0 <= x < |t.peers[j].log| :: t.peers[j].log[x].term <= t.peers[j].term
    {
      Known(n, reach, t, j);
    }
    b := SomeBest(t.peers);
    var v;
    v, T := BestIsElected(n, reach, t, b);
    assert forall j | 0 <= j < n :: s.peers[j].term < T by {
      assert forall j | 0 <= j < n :: t.peers[j].term == s.peers[j].term;
    }
    lg := t.peers[b].log + [Entry(command, T)];
    u := TakesCommand(n, reach, t, v, b, T, command);
  }

  lemma {:induction false} TakesCommand(n: nat, reach: Reach, t: Cluster, v: Cluster, b: nat, T: nat, command: Command)
    returns (u: Cluster)
    requires Closed(n, reach) && v in reach && Led(n, t, v, b, T)
    requires forall j | 0 <= j < n ::
               && Rested(n, t.peers[j]) && t.peers[j].base == 0 && |t.peers[j].log| > 0
               && forall x | 0 <= x < |t.peers[j].log| :: t.peers[j].log[x].term <= t.peers[j].term
    ensures u in reach && Leading(n, u, b, T, t.peers[b].log + [Entry(command, T)])
  {
    Known(n, reach, v, b);
    assert Rested(n, t.peers[b]);
    u := Go(n, reach, v, ClientStart(b, command), v.peers[b].(log := t.peers[b].log + [Entry(command, T)]));
    forall j | 0 <= j < n && j != b
      ensures u.peers[j].role == Follower && u.peers[j].term == T && Blank(u.peers[j])
      ensures forall x | 0 <= x < |u.peers[j].log| :: u.peers[j].log[x].term < T
    {
      assert Rested(n, t.peers[j]);
      assert u.peers[j] == Voter(b, t.peers[j], T);
    }
  }

  /** Everybody has the log, committed and delivered. */
  ghost predicate Recovered(n: nat, u: Cluster, b: nat, lg: seq<Entry>) {
    && |u.peers| == n && b < n && |lg| > 0 && u.peers[b].role == Leader
    && forall j | 0 <= j < n ::
         && u.peers[j].term == LastTerm(lg) && u.peers[j].log == lg && u.peers[j].commit == |lg| - 1
         && u.peers[j].delivered == Messages(lg[1..], 1)
  }

  /** A leader with a new entry brings everybody to its log. */
  lemma {:induction false} LeaderReplicates(n: nat, reach: Reach, t: Cluster, b: nat, T: nat, lg: seq<Entry>)
    returns (u: Cluster)
    requires Closed(n, reach) && t in reach && Leading(n, t, b, T, lg)
    ensures u in reach && Spread(n, t, u, b, n)
  {
    forall j | 0 <= j < n && j != b ensures Behind(t.peers[b], t.peers[j], j) && t.peers[b].matched[j] == 0 {
      KnownPair(n, reach, t, b, j);
    }
    u := SpreadAll(n, reach, t, b, n);
  }

  lemma {:induction false} AllCommit(n: nat, reach: Reach, t: Cluster, v: Cluster, b: nat, T: nat, lg: seq<Entry>)
    returns (u: Cluster)
    requires Closed(n, reach) && v in reach && Leading(n, t, b, T, lg) && Spread(n, t, v, b, n)
    ensures u in reach && |u.peers| == n && u.peers[b].role == Leader
    ensures forall j | 0 <= j < n :: Fresh(u.peers[j]) && u.peers[j].log == lg && u.peers[j].term == T
  {
    var w := LeaderCommits(n, reach, v, b);
    forall j | 0 <= j < n && j != b ensures InStep(w.peers[b], w.peers[j], j) {
      assert v.peers[j] == t.peers[j].(log := lg);
    }
    u := FollowAll(n, reach, w, b, n);
  }

  /** From every reachable state of two or more peers. */
  lemma {:induction false} RecoversFrom(n: nat, reach: Reach, s: Cluster, command: Command)
    returns (u: Cluster, b: nat, T: nat, lg: seq<Entry>)
    requires Closed(n, reach) && s in reach && n >= 2
    ensures u in reach && Recovered(n, u, b, lg)
    ensures |s.peers| == n && b < n && lg == s.peers[b].log + [Entry(command, T)]
    ensures forall j | 0 <= j < n :: s.peers[j].term < T
  {
    var t, v, w;
    t, b, T, lg := LeaderStarts(n, reach, s, command);
    v := LeaderReplicates(n, reach, t, b, T, lg);
    w := AllCommit(n, reach, t, v, b, T, lg);
    u := DeliverAll(n, reach, w, n);
  }

  /**
   Recovery: every race-free run of two or more peers can go on, race-free, to a state where all peers have the same
   log, have committed all of it and have delivered all of it; a given command comes last in it, and everything that
   any peer ever delivered comes first.
   */
  lemma {:induction false} CanRecover(n: nat, states: seq<Cluster>, steps: seq<Step>, command: Command)
    returns (states': seq<Cluster>, steps': seq<Step>, b: nat, lg: seq<Entry>)
    requires IsRun(n, states, steps) && RaceFree(states, steps) && n >= 2
    ensures IsRun(n, states', steps') && RaceFree(states', steps') && states <= states' && steps <= steps'
    ensures Recovered(n, states'[|steps'|], b, lg) && lg[|lg| - 1].command == command
    ensures forall a | 0 <= a < |states| :: AllWithin(n, states[a], Messages(lg[1..], 1))
  {
    var s := states[|steps|];
    RunReaches(n, states, steps);
    HereIsClosed(n, s);
    var u, T;
    u, b, T, lg := RecoversFrom(n, Here(n, s), s, command);
    states', steps' := GoesOn(n, states, steps, u);
    forall a | 0 <= a < |states| ensures AllWithin(n, states[a], Messages(lg[1..], 1)) {
      assert states'[a] == states[a];
      PeerCount(n, states, steps, a);
      forall i | 0 <= i < n ensures states[a].peers[i].delivered <= Messages(lg[1..], 1) {
        VotesPersist(n, states, steps, a, |steps|, i);
        DeliveredFirst(n, states', steps', a, i, b, lg);
      }
    }
  }

  /** All that anybody has delivered is a start of the given messages. */
  ghost predicate AllWithin(n: nat, s: Cluster, messages: seq<ApplyMsg>) {
    |s.peers| == n && forall i | 0 <= i < n :: s.peers[i].delivered <= messages
  }

  lemma {:induction false} GoesOn(n: nat, states: seq<Cluster>, steps: seq<Step>, t: Cluster)
    returns (states': seq<Cluster>, steps': seq<Step>)
    requires IsRun(n, states, steps) && RaceFree(states, steps) && t in Here(n, states[|steps|])
    ensures IsRun(n, states', steps') && RaceFree(states', steps') && states <= states' && steps <= steps'
    ensures states'[|steps'|] == t
  {
    states', steps' := Runs.Continue(Can(n), Move(n), states, steps, t);
    assert states'[0] == states[0];
  }

  /** What was delivered before is where the log starts. */
  lemma {:induction false} DeliveredFirst(n: nat, states: seq<Cluster>, steps: seq<Step>, a: nat, i: nat, b: nat,
                                          lg: seq<Entry>)
    requires IsRun(n, states, steps) && RaceFree(states, steps) && a < |states| && i < n
    requires |states[a].peers| == n && Recovered(n, states[|steps|], b, lg)
    requires states[a].peers[i].term <= LastTerm(lg)
    ensures states[a].peers[i].delivered <= Messages(lg[1..], 1)
  {
    var p := states[a].peers[i];
    LeaderHoldsCommitted(n, states, steps, a, |steps|, i, b);
    forall x | 0 <= x < |p.delivered|
      ensures x < |lg| - 1 && p.delivered[x] == Messages(lg[1..], 1)[x]
    {
      DeliveredIsLog(n, states, steps, a, i, x);
      assert lg[..p.commit + 1][x + 1] == p.log[..p.commit + 1][x + 1];
    }
    if p.delivered != [] {
      DeliveredIsLog(n, states, steps, a, i, |p.delivered| - 1);
    }
  }
}
