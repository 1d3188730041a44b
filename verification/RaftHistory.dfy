/**
 What a run leaves behind, and the inductive invariant stated over it.

 The history is auxiliary: no step reads it. For every term that ever had a leader it
 keeps that leader's log (a reign), and it keeps every candidacy, vote, acknowledgement,
 commit point and delivery. All of it only grows.
 */
module RaftHistory {
  import opened Basics
  import opened Majority
  import opened RaftPeer
  import opened RaftCluster

  /** log: the log of the leader of the term; it grows while the reign lasts. */
  datatype Reign = Reign(leader: nat, electors: set<nat>, log: seq<Entry>)

  datatype Vote = Vote(term: nat, voter: nat, candidate: nat)

  /** Peer `peer` has held the first upto + 1 entries of the reign of `term`. */
  datatype Ack = Ack(term: nat, peer: nat, upto: nat)

  /** The leader of `term` found a majority holding `index`, an entry of its own term. */
  datatype CommitPoint = CommitPoint(term: nat, index: nat, quorum: set<nat>)

  datatype History = History(
    reigns: map<nat, Reign>,
    bids: map<(nat, nat), seq<Entry>>,  // (term, candidate) -> its log when it stood
    votes: set<Vote>,
    acks: set<Ack>,
    commits: set<CommitPoint>,
    outputs: set<ApplyMsg>)

  const NO_HISTORY := History(map[], map[], {}, {}, {}, {})

  // ---------------------------------------------------------------- logs

  /** a and b are equal up to and including index k. */
  ghost predicate Agree(a: seq<Entry>, b: seq<Entry>, k: nat) {
    k < |a| && k < |b| && forall x | 0 <= x <= k :: a[x] == b[x]
  }

  /** Entry k of the log, and all before it, are those of the leader that created entry k. */
  ghost predicate RootedAt(lg: seq<Entry>, k: nat, h: History)
    requires k < |lg|
  {
    lg[k].term in h.reigns && Agree(lg, h.reigns[lg[k].term].log, k)
  }

  ghost predicate Rooted(lg: seq<Entry>, h: History) {
    && |lg| > 0 && lg[0] == NIL_ENTRY
    && forall k | 1 <= k < |lg| :: RootedAt(lg, k, h)
  }

  ghost predicate TermsBelow(lg: seq<Entry>, bound: nat) {
    forall k | 0 <= k < |lg| :: lg[k].term <= bound
  }

  // ---------------------------------------------------------------- what later leaders keep

  /** Entry k of the reign of t was created by that reign. */
  ghost predicate Own(h: History, t: nat, k: nat) {
    t in h.reigns && k < |h.reigns[t].log| && h.reigns[t].log[k].term == t
  }

  /** The leader of u does not hold entry k of the reign of t. */
  ghost predicate Drops(h: History, u: nat, t: nat, k: nat) {
    u in h.reigns && t in h.reigns && !Agree(h.reigns[u].log, h.reigns[t].log, k)
  }

  ghost predicate Lost(h: History, t: nat, k: nat, last: nat) {
    exists u :: t < u <= last && Drops(h, u, t, k)
  }

  /** The log still holds what was acknowledged, unless a leader in between had lost it. */
  ghost predicate Keeps(lg: seq<Entry>, h: History, a: Ack, last: nat) {
    forall k: nat {:trigger Own(h, a.term, k)} | k <= a.upto && Own(h, a.term, k) ::
      Agree(lg, h.reigns[a.term].log, k) || Lost(h, a.term, k, last)
  }

  ghost predicate Acked(h: History, t: nat, peer: nat, k: nat) {
    exists a :: a in h.acks && a.term == t && a.peer == peer && a.upto >= k
  }

  /** Index k is at or below a commit point of a term no later than t. */
  ghost predicate Committed(h: History, lg: seq<Entry>, k: nat, t: nat) {
    k == 0 || exists c :: c in h.commits && CoveredBy(h, c, lg, k, t)
  }

  ghost predicate CoveredBy(h: History, c: CommitPoint, lg: seq<Entry>, k: nat, t: nat) {
    k <= c.index && c.term <= t && c.term in h.reigns && Agree(lg, h.reigns[c.term].log, k)
  }

  // ---------------------------------------------------------------- the history by itself

  ghost predicate ReignOk(n: nat, h: History, t: nat)
    requires t in h.reigns
  {
    var r := h.reigns[t];
    && t >= 1
    && r.leader < n
    && Rooted(r.log, h)
    && TermsBelow(r.log, t)
    && (t, r.leader) in h.bids
    && |h.bids[(t, r.leader)]| <= |r.log|
    && (forall x | 0 <= x < |h.bids[(t, r.leader)]| :: r.log[x] == h.bids[(t, r.leader)][x])
    && (forall x | |h.bids[(t, r.leader)]| <= x < |r.log| :: r.log[x].term == t)
    && IsQuorum(n, r.electors)
    && (forall e | e in r.electors :: Vote(t, e, r.leader) in h.votes)
  }

  ghost predicate ReignsOk(n: nat, h: History) {
    forall t {:trigger ReignOk(n, h, t)} | t in h.reigns :: ReignOk(n, h, t)
  }

  ghost predicate BidOk(h: History, b: (nat, nat))
    requires b in h.bids
  {
    b.0 >= 1 && Rooted(h.bids[b], h) && TermsBelow(h.bids[b], b.0 - 1)
  }

  ghost predicate BidsOk(h: History) {
    forall b {:trigger BidOk(h, b)} | b in h.bids :: BidOk(h, b)
  }

  ghost predicate VotesOk(h: History) {
    && (forall v | v in h.votes :: (v.term, v.candidate) in h.bids)
    && (forall v, w | v in h.votes && w in h.votes && v.term == w.term && v.voter == w.voter :: v == w)
  }

  ghost predicate AcksOk(h: History) {
    forall a | a in h.acks :: a.term in h.reigns && a.upto < |h.reigns[a.term].log|
  }

  /** A vote goes to a candidate that still holds what the voter acknowledged earlier. */
  ghost predicate VotesKeepAcks(h: History) {
    forall v, a | v in h.votes && a in h.acks && v.voter == a.peer && a.term < v.term &&
      (v.term, v.candidate) in h.bids ::
      Keeps(h.bids[(v.term, v.candidate)], h, a, v.term)
  }

  /** A leader holds what its electors acknowledged earlier. */
  ghost predicate ReignsKeepAcks(h: History) {
    forall t, a | t in h.reigns && a in h.acks && a.peer in h.reigns[t].electors && a.term < t ::
      Keeps(h.reigns[t].log, h, a, t - 1)
  }

  ghost predicate CommitOk(n: nat, h: History, c: CommitPoint) {
    && Own(h, c.term, c.index)
    && IsQuorum(n, c.quorum)
    && (forall q | q in c.quorum :: Acked(h, c.term, q, c.index))
  }

  ghost predicate CommitsOk(n: nat, h: History) {
    forall c {:trigger CommitOk(n, h, c)} | c in h.commits :: CommitOk(n, h, c)
  }

  /** Leader completeness: a commit point is in the log of every later leader. */
  ghost predicate Complete(h: History) {
    forall c, t | c in h.commits && t in h.reigns && c.term < t && c.term in h.reigns ::
      Agree(h.reigns[t].log, h.reigns[c.term].log, c.index)
  }

  ghost predicate OutputBy(h: History, o: ApplyMsg, c: CommitPoint) {
    && c.term in h.reigns && 1 <= o.index <= c.index < |h.reigns[c.term].log|
    && h.reigns[c.term].log[o.index].command == o.command
  }

  ghost predicate OutputsOk(h: History) {
    forall o | o in h.outputs :: exists c :: c in h.commits && OutputBy(h, o, c)
  }

  ghost predicate HistoryOk(n: nat, h: History) {
    && ReignsOk(n, h)
    && BidsOk(h)
    && VotesOk(h)
    && AcksOk(h)
    && VotesKeepAcks(h)
    && ReignsKeepAcks(h)
    && CommitsOk(n, h)
    && Complete(h)
    && OutputsOk(h)
  }

  // ---------------------------------------------------------------- a peer against the history

  ghost predicate PeerLogOk(n: nat, p: Peer, h: History) {
    && WellFormed(n, p) && p.base == 0
    && Rooted(p.log, h)
    && TermsBelow(p.log, p.term)
  }

  ghost predicate PeerVotesOk(i: nat, p: Peer, h: History) {
    && (forall v | v in h.votes && v.voter == i ::
          v.term <= p.term && (v.term == p.term ==> p.votedFor == Some(v.candidate)))
    && (p.votedFor.Some? ==> Vote(p.term, i, p.votedFor.value) in h.votes)
  }

  ghost predicate PeerBidsOk(n: nat, i: nat, p: Peer, h: History) {
    && (forall b | b in h.bids && b.1 == i ::
          b.0 <= p.term && (b.0 == p.term && b.0 !in h.reigns ==> h.bids[b] == p.log))
    && (p.electionTerm > 0 ==> (p.electionTerm, i) in h.bids)
    && (p.tally != {} ==> p.electionTerm > 0)
    && p.tally <= Peers(n)
    && (forall e | e in p.tally :: Vote(p.electionTerm, e, i) in h.votes)
    && (p.electionTerm == p.term && p.role != Leader && p.term in h.reigns ==> h.reigns[p.term].leader != i)
  }

  ghost predicate Reigning(n: nat, i: nat, p: Peer, h: History)
    requires WellFormed(n, p)
  {
    && p.term in h.reigns
    && h.reigns[p.term].leader == i
    && h.reigns[p.term].log == p.log
    && p.electionTerm == p.term
    && 2 * |p.tally| > n
    && (forall j | 0 <= j < n :: p.matched[j] == 0 || Acked(h, p.term, j, p.matched[j]))
    && (forall j | 0 <= j < n :: p.matched[j] < |p.log| && 1 <= p.next[j] <= |p.log|)
    && (|p.log| - 1 == 0 || p.log[|p.log| - 1].term < p.term || Acked(h, p.term, i, |p.log| - 1))
  }

  ghost predicate PeerReignOk(n: nat, i: nat, p: Peer, h: History)
    requires WellFormed(n, p)
  {
    p.role == Leader ==> Reigning(n, i, p, h)
  }

  ghost predicate PeerAcksOk(i: nat, p: Peer, h: History) {
    forall a | a in h.acks && a.peer == i :: a.term <= p.term && Keeps(p.log, h, a, p.term)
  }

  ghost predicate PeerCommitOk(p: Peer, h: History) {
    Committed(h, p.log, p.commit, p.term)
  }

  /** What has been or is about to be delivered is the log, from index 1, in order. */
  ghost predicate PeerApplyOk(p: Peer, h: History) {
    && p.applied <= p.commit < |p.log|
    && p.delivered + p.queue == Messages(p.log[1..p.applied + 1], 1)
    && (forall k | 0 <= k < |p.delivered| :: p.delivered[k] in h.outputs)
  }

  ghost predicate PeerOk(n: nat, i: nat, p: Peer, h: History) {
    && PeerLogOk(n, p, h)
    && PeerVotesOk(i, p, h)
    && PeerBidsOk(n, i, p, h)
    && PeerReignOk(n, i, p, h)
    && PeerAcksOk(i, p, h)
    && PeerCommitOk(p, h)
    && PeerApplyOk(p, h)
  }

  // ---------------------------------------------------------------- a message against the history

  ghost predicate RequestOk(m: Message, h: History)
    requires m.RequestVote?
  {
    var a := m.vote;
    && a.candidate == m.src
    && (a.term, m.src) in h.bids
    && |h.bids[(a.term, m.src)]| > 0
    && a.lastIndex == LastIndex(h.bids[(a.term, m.src)])
    && a.lastTerm == LastTerm(h.bids[(a.term, m.src)])
  }

  /** The message is a stretch of the log of the leader that sent it. */
  ghost predicate StretchOk(a: AppendArgs, h: History) {
    && a.term in h.reigns
    && a.prev + |a.entries| < |h.reigns[a.term].log|
    && h.reigns[a.term].log[a.prev].term == a.prevTerm
    && forall x | 0 <= x < |a.entries| :: a.entries[x] == h.reigns[a.term].log[a.prev + 1 + x]
  }

  ghost predicate AppendOk(m: Message, h: History)
    requires m.Append?
  {
    var a := m.append;
    && StretchOk(a, h)
    && h.reigns[a.term].leader == m.src
    && Committed(h, h.reigns[a.term].log, a.commit, a.term)
  }

  ghost predicate ReplyOk(m: Message, h: History)
    requires m.AppendReplied?
  {
    var a, r := m.append, m.appendReply;
    && StretchOk(a, h)
    && (r.success ==> Acked(h, a.term, m.src, a.prev + |a.entries|))
    && (!r.success ==> r.term > a.term || (r.logLength >= 1 && (r.logLength > a.prev ==> 1 <= r.firstIndex <= a.prev)))
  }

  ghost predicate MessageOk(n: nat, m: Message, h: History) {
    && m.src < n && m.src != m.dst
    && (m.RequestVote? ==> RequestOk(m, h))
    && (m.VoteReplied? && m.voteReply.granted ==> Vote(m.vote.term, m.src, m.dst) in h.votes)
    && (m.VoteReplied? ==> m.vote.candidate == m.dst)
    && (m.Append? ==> AppendOk(m, h))
    && (m.AppendReplied? ==> ReplyOk(m, h))
  }

  /** The invariant of the cluster and its history. */
  ghost predicate Inv(n: nat, s: Cluster, h: History) {
    && |s.peers| == n
    && HistoryOk(n, h)
    && (forall i {:trigger PeerOk(n, i, s.peers[i], h)} | 0 <= i < n :: PeerOk(n, i, s.peers[i], h))
    && (forall m {:trigger MessageOk(n, m, h)} | m in s.net :: MessageOk(n, m, h))
  }

  // ---------------------------------------------------------------- growth

  /** A reign goes on: same leader and electors, only entries of its own term added. */
  ghost predicate ReignGrows(t: nat, r: Reign, r': Reign) {
    && r'.leader == r.leader && r'.electors == r.electors
    && |r.log| <= |r'.log|
    && (forall x | 0 <= x < |r.log| :: r'.log[x] == r.log[x])
    && (forall x | |r.log| <= x < |r'.log| :: r'.log[x].term == t)
  }

  ghost predicate Extends(h: History, h': History) {
    && (forall t | t in h.reigns :: t in h'.reigns)
    && (forall t {:trigger ReignGrows(t, h.reigns[t], h'.reigns[t])} | t in h.reigns ::
          ReignGrows(t, h.reigns[t], h'.reigns[t]))
    && (forall b | b in h.bids :: b in h'.bids && h'.bids[b] == h.bids[b])
    && h.votes <= h'.votes
    && h.acks <= h'.acks
    && h.commits <= h'.commits
    && h.outputs <= h'.outputs
  }

  /** The history grows by what peer i did. */
  ghost predicate ExtendsBy(i: nat, h: History, h': History) {
    && Extends(h, h')
    && (forall t | t in h'.reigns && (t !in h.reigns || h'.reigns[t] != h.reigns[t]) :: h'.reigns[t].leader == i)
    && (forall b | b in h'.bids && b !in h.bids :: b.1 == i)
    && (forall v | v in h'.votes && v !in h.votes :: v.voter == i)
    && (forall a | a in h'.acks && a !in h.acks :: a.peer == i)
  }
}
