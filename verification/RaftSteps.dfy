/**
 Every step of a race-free run keeps the invariant: for each kind of step, what it adds
 to the history and why the peer that moved and the messages it sent still fit.
 */
module RaftSteps {
  import opened Basics
  import opened Majority
  import opened RaftPeer
  import opened RaftCluster
  import opened RaftHistory
  import opened RaftGrowth
  import opened RaftRecords

  // ---------------------------------------------------------------- shared parts

  lemma {:induction false} StepDownOk(n: nat, i: nat, p: Peer, h: History, term: nat)
    requires PeerOk(n, i, p, h) && AcksOk(h) && term > p.term
    ensures PeerOk(n, i, StepDown(p, term), h)
  {
    var p' := StepDown(p, term);
    assert Extends(h, h);
    forall a | a in h.acks && a.peer == i ensures a.term <= term && Keeps(p'.log, h, a, term) {
      KeepsGrows(p.log, p.log, h, h, a, p.term, term);
    }
    CommittedGrows(h, h, p.log, p.log, p.commit, p.term, term);
  }

  /** The moving peer, when the history gains nothing it looks at. */
  lemma {:induction false} OwnPeerGrows(n: nat, i: nat, p: Peer, h: History, h': History)
    requires PeerOk(n, i, p, h) && AcksOk(h) && Extends(h, h')
    requires h'.reigns == h.reigns && h'.bids == h.bids && h'.acks == h.acks
    ensures PeerLogOk(n, p, h') && PeerBidsOk(n, i, p, h') && PeerReignOk(n, i, p, h')
    ensures PeerAcksOk(i, p, h') && PeerCommitOk(p, h') && PeerApplyOk(p, h')
    ensures h'.votes == h.votes ==> PeerVotesOk(i, p, h')
  {
    RootedGrows(p.log, h, h');
    forall a | a in h'.acks && a.peer == i ensures a.term <= p.term && Keeps(p.log, h', a, p.term) {
      KeepsGrows(p.log, p.log, h, h', a, p.term, p.term);
    }
    OwnReignGrows(n, i, p, h, h');
    CommittedGrows(h, h', p.log, p.log, p.commit, p.term, p.term);
  }

  lemma {:induction false} OwnReignGrows(n: nat, i: nat, p: Peer, h: History, h': History)
    requires WellFormed(n, p) && PeerReignOk(n, i, p, h) && Extends(h, h') && h'.reigns == h.reigns
    ensures PeerReignOk(n, i, p, h')
  {
    if p.role == Leader {
      forall k | 0 <= k < n ensures p.matched[k] == 0 || Acked(h', p.term, k, p.matched[k]) {
        if p.matched[k] != 0 {
          AckedGrows(h, h', p.term, k, p.matched[k]);
        }
      }
      if Acked(h, p.term, i, |p.log| - 1) {
        AckedGrows(h, h', p.term, i, |p.log| - 1);
      }
    }
  }

  lemma {:induction false} ExtendsByTransitive(i: nat, h: History, h1: History, h2: History)
    requires ExtendsBy(i, h, h1) && ExtendsBy(i, h1, h2)
    ensures ExtendsBy(i, h, h2)
  {
    ExtendsTransitive(h, h1, h2);
    forall t | t in h2.reigns && (t !in h.reigns || h2.reigns[t] != h.reigns[t]) ensures h2.reigns[t].leader == i {
      if t in h1.reigns {
        assert ReignGrows(t, h1.reigns[t], h2.reigns[t]);
      }
    }
  }

  // ---------------------------------------------------------------- elections

  /** The candidate, as a voter of the new term that has just recorded its candidacy. */
  lemma {:induction false} CandidateReady(n: nat, i: nat, p: Peer, h: History, h1: History)
    requires PeerOk(n, i, p, h) && AcksOk(h) && Extends(h, h1) && h1 == WithBid(h, i, p.term + 1, p.log)
    ensures var q := StepDown(p, p.term + 1); PeerLogOk(n, q, h1) && PeerVotesOk(i, q, h1) && PeerAcksOk(i, q, h1)
  {
    RootedGrows(p.log, h, h1);
    forall a | a in h1.acks && a.peer == i ensures Keeps(p.log, h1, a, p.term + 1) {
      KeepsGrows(p.log, p.log, h, h1, a, p.term, p.term + 1);
    }
  }

  lemma {:induction false} ElectionRecorded(n: nat, i: nat, p: Peer, h: History) returns (h': History)
    requires HistoryOk(n, h) && PeerOk(n, i, p, h) && i < n
    ensures h' == WithVote(WithBid(h, i, p.term + 1, p.log), Vote(p.term + 1, i, i))
    ensures HistoryOk(n, h') && ExtendsBy(i, h, h')
  {
    var t := p.term + 1;
    BidRecorded(n, i, h, t, p.log);
    var h1 := WithBid(h, i, t, p.log);
    CandidateReady(n, i, p, h, h1);
    VoteRecorded(n, i, StepDown(p, t), h1, i);
    h' := WithVote(h1, Vote(t, i, i));
    ExtendsByTransitive(i, h, h1, h');
  }

  lemma {:induction false} StartElectionStep(n: nat, s: Cluster, h: History, i: nat) returns (h': History)
    requires Inv(n, s, h) && Enabled(n, s, StartElection(i)) && !Racy(s, StartElection(i))
    ensures Inv(n, Next(n, s, StartElection(i)), h') && ExtendsBy(i, h, h')
  {
    var p := s.peers[i];
    assert PeerOk(n, i, p, h);
    h' := ElectionRecorded(n, i, p, h);
    BeginElectionPeerOk(n, i, p, h, h');
    var sent := Sent(n, s, StartElection(i));
    forall m | m in sent ensures MessageOk(n, m, h') {
    }
    StepKeepsInv(n, s, Next(n, s, StartElection(i)), h, h', i, BeginElection(i, p).0, sent);
  }

  lemma {:induction false} BeginElectionPeerOk(n: nat, i: nat, p: Peer, h: History, h': History)
    requires PeerOk(n, i, p, h) && AcksOk(h) && p.role != Leader && i < n && ReignsOk(n, h)
    requires h' == WithVote(WithBid(h, i, p.term + 1, p.log), Vote(p.term + 1, i, i))
    requires Extends(h, h')
    ensures PeerOk(n, i, BeginElection(i, p).0, h')
  {
    var p' := BeginElection(i, p).0;
    RootedGrows(p.log, h, h');
    assert PeerLogOk(n, p', h');
    assert PeerVotesOk(i, p', h');
    assert PeerAcksOk(i, p', h') by {
      forall a | a in h'.acks && a.peer == i ensures a.term <= p'.term && Keeps(p'.log, h', a, p'.term) {
        KeepsGrows(p.log, p.log, h, h', a, p.term, p'.term);
      }
    }
    CommittedGrows(h, h', p.log, p.log, p.commit, p.term, p'.term);
    BidBefore(n, i, p, h);
    BeginElectionBidsOk(n, i, p, h, h');
  }

  lemma {:induction false} BeginElectionBidsOk(n: nat, i: nat, p: Peer, h: History, h': History)
    requires PeerBidsOk(n, i, p, h) && i < n && |p.log| > 0
    requires forall t | t in h.reigns && h.reigns[t].leader == i :: t <= p.term
    requires h' == WithVote(WithBid(h, i, p.term + 1, p.log), Vote(p.term + 1, i, i))
    ensures PeerBidsOk(n, i, BeginElection(i, p).0, h')
  {
  }

  /** A peer never led a term above its own. */
  lemma {:induction false} BidBefore(n: nat, i: nat, p: Peer, h: History)
    requires PeerBidsOk(n, i, p, h) && ReignsOk(n, h)
    ensures forall t | t in h.reigns && h.reigns[t].leader == i :: t <= p.term
  {
    forall t | t in h.reigns && h.reigns[t].leader == i ensures t <= p.term {
      assert ReignOk(n, h, t);
      assert (t, i) in h.bids;
    }
  }

  lemma {:induction false} GrantVotes(i: nat, p: Peer, h: History, c: nat)
    requires PeerVotesOk(i, p, h) && p.votedFor == None
    ensures PeerVotesOk(i, p.(votedFor := Some(c)), WithVote(h, Vote(p.term, i, c)))
  {
  }

  /** Only the vote is different. */
  lemma {:induction false} VoteChanged(n: nat, i: nat, p: Peer, p': Peer, h: History)
    requires PeerLogOk(n, p, h) && PeerBidsOk(n, i, p, h) && PeerReignOk(n, i, p, h)
    requires PeerAcksOk(i, p, h) && PeerCommitOk(p, h) && PeerApplyOk(p, h)
    requires p' == p.(votedFor := p'.votedFor) && PeerVotesOk(i, p', h)
    ensures PeerOk(n, i, p', h)
  {
    assert PeerBidsOk(n, i, p', h);
  }

  lemma {:induction false} GrantPeerOk(n: nat, i: nat, p: Peer, h: History, c: nat)
    requires PeerOk(n, i, p, h) && AcksOk(h) && p.votedFor == None && Extends(h, WithVote(h, Vote(p.term, i, c)))
    ensures PeerOk(n, i, p.(votedFor := Some(c)), WithVote(h, Vote(p.term, i, c)))
  {
    var h' := WithVote(h, Vote(p.term, i, c));
    OwnPeerGrows(n, i, p, h, h');
    GrantVotes(i, p, h, c);
    VoteChanged(n, i, p, p.(votedFor := Some(c)), h');
  }

  lemma {:induction false} VotePeerOk(n: nat, i: nat, p: Peer, h: History, a: VoteArgs) returns (h': History)
    requires HistoryOk(n, h) && PeerOk(n, i, p, h) && p.term == a.term
    requires (a.term, a.candidate) in h.bids && |h.bids[(a.term, a.candidate)]| > 0
    requires a.lastIndex == LastIndex(h.bids[(a.term, a.candidate)])
    requires a.lastTerm == LastTerm(h.bids[(a.term, a.candidate)])
    ensures HistoryOk(n, h') && ExtendsBy(i, h, h') && PeerOk(n, i, HandleRequestVote(p, a).0, h')
    ensures HandleRequestVote(p, a).1.granted ==> Vote(a.term, i, a.candidate) in h'.votes
  {
    h' := h;
    if p.votedFor == None && HandleRequestVote(p, a).1.granted {
      VoteRecorded(n, i, p, h, a.candidate);
      GrantPeerOk(n, i, p, h, a.candidate);
      h' := WithVote(h, Vote(p.term, i, a.candidate));
    }
  }

  lemma {:induction false} RequestVotePeerOk(n: nat, i: nat, p: Peer, h: History, src: nat, a: VoteArgs)
    returns (h': History)
    requires HistoryOk(n, h) && PeerOk(n, i, p, h) && RequestOk(RequestVote(src, i, a), h)
    ensures HistoryOk(n, h') && ExtendsBy(i, h, h') && PeerOk(n, i, HandleRequestVote(p, a).0, h')
    ensures HandleRequestVote(p, a).1.granted ==> Vote(a.term, i, src) in h'.votes
  {
    if a.term > p.term {
      var q := StepDown(p, a.term);
      StepDownOk(n, i, p, h, a.term);
      assert HandleRequestVote(p, a) == HandleRequestVote(q, a);
      h' := VotePeerOk(n, i, q, h, a);
    } else if a.term == p.term {
      h' := VotePeerOk(n, i, p, h, a);
    } else {
      h' := h;
    }
  }

  lemma {:induction false} OnRequestVoteStep(n: nat, s: Cluster, h: History, i: nat, m: Message) returns (h': History)
    requires Inv(n, s, h) && Enabled(n, s, OnRequestVote(i, m))
    ensures Inv(n, Next(n, s, OnRequestVote(i, m)), h') && ExtendsBy(i, h, h')
  {
    var (p', r) := HandleRequestVote(s.peers[i], m.vote);
    assert MessageOk(n, m, h);
    h' := RequestVotePeerOk(n, i, s.peers[i], h, m.src, m.vote);
    StepKeepsInv(n, s, Next(n, s, OnRequestVote(i, m)), h, h', i, p', {VoteReplied(i, m.src, m.vote, r)});
  }

  lemma {:induction false} CountVotePeerOk(n: nat, i: nat, p: Peer, h: History, from: nat)
    requires PeerOk(n, i, p, h) && from < n && p.role == Candidate && p.electionTerm == p.term > 0
    requires Vote(p.term, from, i) in h.votes
    ensures PeerOk(n, i, p.(tally := p.tally + {from}), h)
  {
    assert PeerBidsOk(n, i, p.(tally := p.tally + {from}), h);
  }

  lemma {:induction false} WinPeerOk(n: nat, i: nat, q: Peer, h: History) returns (h': History)
    requires HistoryOk(n, h) && PeerOk(n, i, q, h) && i < n
    requires q.role == Candidate && q.electionTerm == q.term && 2 * |q.tally| > n
    ensures HistoryOk(n, h') && ExtendsBy(i, h, h')
    ensures PeerOk(n, i, q.(role := Leader, next := seq(n, i => |q.log|), matched := seq(n, i => 0)), h')
  {
    OneLeader(n, h, q.term, i, q.tally);
    ReignRecorded(n, i, h, q.term, q.tally, q.log);
    h' := WithReign(h, q.term, Reign(i, q.tally, q.log));
    BecomeLeaderPeerOk(n, i, q, h, h');
  }

  lemma {:induction false} VoteReplyPeerOk(n: nat, i: nat, p: Peer, h: History, from: nat, a: VoteArgs, r: VoteReply)
    returns (h': History)
    requires HistoryOk(n, h) && PeerOk(n, i, p, h) && i < n && from < n
    requires r.granted ==> Vote(a.term, from, i) in h.votes
    ensures HistoryOk(n, h') && ExtendsBy(i, h, h') && PeerOk(n, i, HandleVoteReply(n, p, from, a, r), h')
  {
    h' := h;
    if r.term > p.term {
      StepDownOk(n, i, p, h, r.term);
    } else if p.role == Candidate && p.term == a.term && p.electionTerm == a.term && r.granted {
      assert BidOk(h, (a.term, i));
      var q := p.(tally := p.tally + {from});
      CountVotePeerOk(n, i, p, h, from);
      if |q.tally| > n / 2 {
        h' := WinPeerOk(n, i, q, h);
      }
    }
  }

  lemma {:induction false} OnVoteReplyStep(n: nat, s: Cluster, h: History, i: nat, m: Message) returns (h': History)
    requires Inv(n, s, h) && Enabled(n, s, OnVoteReply(i, m))
    ensures Inv(n, Next(n, s, OnVoteReply(i, m)), h') && ExtendsBy(i, h, h')
  {
    assert MessageOk(n, m, h);
    h' := VoteReplyPeerOk(n, i, s.peers[i], h, m.src, m.vote, m.voteReply);
    var p' := HandleVoteReply(n, s.peers[i], m.src, m.vote, m.voteReply);
    StepKeepsInv(n, s, Next(n, s, OnVoteReply(i, m)), h, h', i, p', {});
  }

  lemma {:induction false} BecomeLeaderPeerOk(n: nat, i: nat, q: Peer, h: History, h': History)
    requires PeerOk(n, i, q, h) && AcksOk(h) && BidsOk(h) && i < n
    requires q.electionTerm == q.term && q.term !in h.reigns && 2 * |q.tally| > n && q.term > 0
    requires h' == WithReign(h, q.term, Reign(i, q.tally, q.log)) && Extends(h, h')
    ensures PeerOk(n, i, q.(role := Leader, next := seq(n, i => |q.log|), matched := seq(n, i => 0)), h')
  {
    RootedGrows(q.log, h, h');
    assert BidOk(h, (q.term, i));
    forall a | a in h'.acks && a.peer == i ensures Keeps(q.log, h', a, q.term) {
      KeepsGrows(q.log, q.log, h, h', a, q.term, q.term);
    }
    CommittedGrows(h, h', q.log, q.log, q.commit, q.term, q.term);
  }

  // ---------------------------------------------------------------- replication

  lemma {:induction false} SendAppendOk(n: nat, i: nat, p: Peer, h: History, to: nat)
    requires PeerOk(n, i, p, h) && p.role == Leader && i < n && to < n && to != i && InRange(p, to)
    ensures MessageOk(n, Append(i, to, MakeAppend(i, p, to)), h)
  {
  }

  lemma {:induction false} SendAppendStep(n: nat, s: Cluster, h: History, i: nat, to: nat) returns (h': History)
    requires Inv(n, s, h) && Enabled(n, s, SendAppend(i, to))
    ensures Inv(n, Next(n, s, SendAppend(i, to)), h') && ExtendsBy(i, h, h')
  {
    var p := s.peers[i];
    h' := h;
    var m := Append(i, to, MakeAppend(i, p, to));
    SendAppendOk(n, i, p, h, to);
    StepKeepsInv(n, s, Next(n, s, SendAppend(i, to)), h, h', i, p, {m});
  }

  /** The merged log follows the leader's as far as the message reaches, and loses nothing it shared with it. */
  lemma {:induction false} MergeFollows(lg: seq<Entry>, at: nat, entries: seq<Entry>, lead: seq<Entry>)
    requires at <= |lg| && at + |entries| <= |lead|
    requires forall x | 0 <= x < |entries| :: entries[x] == lead[at + x]
    requires forall x | 0 <= x < at :: lg[x] == lead[x]
    requires forall x | 0 <= x < |lg| && x < |lead| && lg[x].term == lead[x].term :: lg[x] == lead[x]
    ensures var r := Merge(lg, at, entries);
            && (forall x | 0 <= x < at + |entries| :: r[x] == lead[x])
            && (r == lg || |r| == at + |entries|)
            && (forall k: nat | Agree(lg, lead, k) :: Agree(r, lead, k))
    decreases |entries|
  {
    if entries != [] {
      assert entries[0] == lead[at];
      var rest := entries[1..];
      forall x | 0 <= x < |rest| ensures rest[x] == lead[at + 1 + x] {
        assert rest[x] == entries[x + 1];
      }
      if at == |lg| {
        var lg' := lg + [entries[0]];
        MergeFollows(lg', at + 1, rest, lead);
        forall k: nat | Agree(lg, lead, k) ensures Agree(Merge(lg, at, entries), lead, k) {
          assert Agree(lg', lead, k);
        }
      } else if lg[at].term != entries[0].term {
        var lg' := lg[..at] + [entries[0]];
        MergeFollows(lg', at + 1, rest, lead);
        forall k: nat | Agree(lg, lead, k) ensures Agree(Merge(lg, at, entries), lead, k) {
          assert k < at;
          assert Agree(lg', lead, k);
        }
      } else {
        MergeFollows(lg, at + 1, rest, lead);
      }
    }
  }

  /** A log that has the leader's term at an index has the leader's entries up to it. */
  lemma {:induction false} SameTermSameLog(n: nat, h: History, lg: seq<Entry>, t: nat, x: nat)
    requires ReignsOk(n, h) && Rooted(lg, h) && t in h.reigns
    requires x < |lg| && x < |h.reigns[t].log| && lg[x].term == h.reigns[t].log[x].term
    ensures Agree(lg, h.reigns[t].log, x)
  {
    assert ReignOk(n, h, t);
    if x > 0 {
      assert RootedAt(lg, x, h);
      assert RootedAt(h.reigns[t].log, x, h);
    }
  }

  /** Everything committed at the peer is in the log of any leader of its term or later. */
  lemma {:induction false} CommittedInReign(n: nat, h: History, lg: seq<Entry>, k: nat, u: nat, t: nat)
    requires ReignsOk(n, h) && CommitsOk(n, h) && Complete(h) && Rooted(lg, h) && Committed(h, lg, k, u) && u <= t
    requires t in h.reigns
    ensures Agree(lg, h.reigns[t].log, k)
  {
    assert ReignOk(n, h, t);
    if k > 0 {
      var c :| c in h.commits && CoveredBy(h, c, lg, k, u);
      assert CommitOk(n, h, c);
      if c.term < t {
        assert Agree(h.reigns[t].log, h.reigns[c.term].log, c.index);
      }
    }
  }

  ghost predicate MergedInto(r: seq<Entry>, lg: seq<Entry>, lead: seq<Entry>, reach: nat) {
    && reach < |r| && reach < |lead|
    && (forall x | 0 <= x <= reach :: r[x] == lead[x])
    && (r == lg || |r| == reach + 1)
    && (forall k: nat | Agree(lg, lead, k) :: Agree(r, lead, k))
  }

  lemma {:induction false} AcceptMerges(n: nat, p: Peer, h: History, a: AppendArgs)
    requires ReignsOk(n, h) && Rooted(p.log, h) && StretchOk(a, h)
    requires a.prev < |p.log| && p.log[a.prev].term == a.prevTerm
    ensures MergedInto(Merge(p.log, a.prev + 1, a.entries), p.log, h.reigns[a.term].log, a.prev + |a.entries|)
  {
    var lead := h.reigns[a.term].log;
    SameTermSameLog(n, h, p.log, a.term, a.prev);
    forall x | 0 <= x < |p.log| && x < |lead| && p.log[x].term == lead[x].term ensures p.log[x] == lead[x] {
      SameTermSameLog(n, h, p.log, a.term, x);
    }
    MergeFollows(p.log, a.prev + 1, a.entries, lead);
  }

  lemma {:induction false} AcceptAcksOk(i: nat, p: Peer, h: History, r: seq<Entry>, reach: nat)
    requires AcksOk(h) && PeerAcksOk(i, p, h) && p.term in h.reigns
    requires MergedInto(r, p.log, h.reigns[p.term].log, reach)
    ensures var h' := WithAck(h, Ack(p.term, i, reach)); PeerAcksOk(i, p.(log := r), h')
  {
    var h' := WithAck(h, Ack(p.term, i, reach));
    var lead := h.reigns[p.term].log;
    assert Extends(h, h');
    forall a | a in h'.acks && a.peer == i ensures a.term <= p.term && Keeps(r, h', a, p.term) {
      if a in h.acks {
        forall k: nat | k <= a.upto && Own(h, a.term, k)
          ensures Agree(r, h.reigns[a.term].log, k) || Lost(h, a.term, k, p.term)
        {
          if Agree(p.log, h.reigns[a.term].log, k) && a.term < p.term {
            if !Agree(lead, h.reigns[a.term].log, k) {
              assert Drops(h, p.term, a.term, k);
            } else {
              assert Agree(p.log, lead, k);
              assert Agree(r, lead, k);
            }
          }
        }
        assert Keeps(r, h, a, p.term);
        KeepsGrows(r, r, h, h', a, p.term, p.term);
      } else {
        forall k: nat | k <= a.upto && Own(h', a.term, k) ensures Agree(r, h'.reigns[a.term].log, k) {
        }
      }
    }
  }

  lemma {:induction false} AcceptLogOk(n: nat, p: Peer, h: History, r: seq<Entry>, reach: nat)
    requires ReignsOk(n, h) && Rooted(p.log, h) && TermsBelow(p.log, p.term) && p.term in h.reigns
    requires MergedInto(r, p.log, h.reigns[p.term].log, reach)
    ensures Rooted(r, h) && TermsBelow(r, p.term)
  {
    assert ReignOk(n, h, p.term);
    var lead := h.reigns[p.term].log;
    if r != p.log {
      forall k | 1 <= k < |r| ensures RootedAt(r, k, h) {
        assert RootedAt(lead, k, h);
      }
    }
  }

  /** Accepting entries moves the commit index only over committed entries and rewrites none of them. */
  lemma {:induction false} AcceptCommitOk(n: nat, p: Peer, h: History, r: seq<Entry>, reach: nat, upto: nat,
                                          commit: nat)
    requires ReignsOk(n, h) && CommitsOk(n, h) && Complete(h) && Rooted(p.log, h) && p.term in h.reigns
    requires PeerCommitOk(p, h)
    requires MergedInto(r, p.log, h.reigns[p.term].log, reach)
    requires Committed(h, h.reigns[p.term].log, upto, p.term)
    requires commit == p.commit || (commit <= upto && commit <= reach)
    ensures Committed(h, r, commit, p.term)
    ensures Agree(r, p.log, p.commit)
  {
    var lead := h.reigns[p.term].log;
    CommittedInReign(n, h, p.log, p.commit, p.term, p.term);
    assert Agree(p.log, lead, p.commit);
    assert Agree(r, lead, p.commit);
    if commit == p.commit {
      if commit > 0 {
        var c :| c in h.commits && CoveredBy(h, c, p.log, commit, p.term);
        assert CoveredBy(h, c, r, commit, p.term);
      }
    } else if commit > 0 {
      var c :| c in h.commits && CoveredBy(h, c, lead, upto, p.term);
      assert CoveredBy(h, c, r, commit, p.term);
    }
  }

  lemma {:induction false} AcceptFacts(n: nat, i: nat, p: Peer, h: History, a: AppendArgs, r: seq<Entry>, commit: nat)
    requires ReignsOk(n, h) && AcksOk(h) && CommitsOk(n, h) && Complete(h) && PeerAcksOk(i, p, h)
    requires PeerCommitOk(p, h) && p.term == a.term
    requires Rooted(p.log, h) && TermsBelow(p.log, p.term)
    requires StretchOk(a, h) && Committed(h, h.reigns[a.term].log, a.commit, a.term)
    requires MergedInto(r, p.log, h.reigns[a.term].log, a.prev + |a.entries|)
    requires commit == p.commit || (commit <= a.commit && commit <= a.prev + |a.entries|)
    ensures Rooted(r, h) && TermsBelow(r, p.term)
    ensures PeerAcksOk(i, p.(log := r), WithAck(h, Ack(p.term, i, a.prev + |a.entries|)))
    ensures Committed(h, r, commit, p.term) && Agree(r, p.log, p.commit)
  {
    var reach := a.prev + |a.entries|;
    AcceptLogOk(n, p, h, r, reach);
    AcceptAcksOk(i, p, h, r, reach);
    AcceptCommitOk(n, p, h, r, reach, a.commit, commit);
  }

  lemma {:induction false} AckExtends(h: History, a: Ack)
    ensures Extends(h, WithAck(h, a))
  {
  }

  lemma {:induction false} AcceptPeerOk(n: nat, i: nat, p: Peer, h: History, a: AppendArgs, r: seq<Entry>, commit: nat)
    requires ReignsOk(n, h) && AcksOk(h) && CommitsOk(n, h) && Complete(h) && PeerOk(n, i, p, h)
    requires p.role == Follower && p.term == a.term
    requires StretchOk(a, h) && Committed(h, h.reigns[a.term].log, a.commit, a.term)
    requires MergedInto(r, p.log, h.reigns[a.term].log, a.prev + |a.entries|)
    requires commit == p.commit || (p.commit <= commit <= a.commit && commit <= a.prev + |a.entries|)
    ensures PeerOk(n, i, p.(log := r, commit := commit), WithAck(h, Ack(p.term, i, a.prev + |a.entries|)))
  {
    AckExtends(h, Ack(p.term, i, a.prev + |a.entries|));
    AcceptFacts(n, i, p, h, a, r, commit);
    AcceptedPeerOk(n, i, p, h, r, commit, a.prev + |a.entries|);
  }

  /** The handler's accepting branch, in terms of the merged log. */
  lemma {:induction false} AcceptBranch(p: Peer, a: AppendArgs) returns (r: seq<Entry>, commit: nat)
    requires p.base == 0 && p.role == Follower && p.term == a.term && a.prev < |p.log|
    requires p.log[a.prev].term == a.prevTerm
    ensures r == Merge(p.log, a.prev + 1, a.entries)
    ensures commit == p.commit || (p.commit <= commit <= a.commit && commit <= a.prev + |a.entries|)
    ensures HandleAppend(p, a) == (p.(log := r, commit := commit), AppendReply(0, true, 0, 0, 0))
  {
    r := Merge(p.log, a.prev + 1, a.entries);
    commit := HandleAppend(p, a).0.commit;
  }

  lemma {:induction false} RejectBranch(p: Peer, a: AppendArgs)
    requires p.base == 0 && p.role == Follower && p.term == a.term && |p.log| > 0
    requires |p.log| <= a.prev || (1 <= a.prev && p.log[a.prev].term != a.prevTerm)
    ensures HandleAppend(p, a).0 == p
    ensures var r := HandleAppend(p, a).1;
            !r.success && r.logLength >= 1 && (r.logLength > a.prev ==> 1 <= r.firstIndex <= a.prev)
  {
    if |p.log| > a.prev {
      FirstOfTermPositive(p.log, a.prev);
    }
  }

  lemma {:induction false} AcceptedPeerOk(n: nat, i: nat, p: Peer, h: History, r: seq<Entry>, commit: nat, reach: nat)
    requires PeerOk(n, i, p, h) && p.role == Follower && p.term in h.reigns
    requires Rooted(r, h) && TermsBelow(r, p.term)
    requires Committed(h, r, commit, p.term) && p.commit <= commit < |r| && Agree(r, p.log, p.commit)
    requires Extends(h, WithAck(h, Ack(p.term, i, reach)))
    requires PeerAcksOk(i, p.(log := r), WithAck(h, Ack(p.term, i, reach)))
    ensures PeerOk(n, i, p.(log := r, commit := commit), WithAck(h, Ack(p.term, i, reach)))
  {
    var h' := WithAck(h, Ack(p.term, i, reach));
    var p' := p.(log := r, commit := commit);
    RootedGrows(r, h, h');
    CommittedGrows(h, h', r, r, commit, p.term, p.term);
    assert p.log[1..p.applied + 1] == r[1..p.applied + 1];
    assert PeerLogOk(n, p', h');
    assert PeerVotesOk(i, p', h');
    assert PeerBidsOk(n, i, p', h');
    assert PeerApplyOk(p', h');
    assert PeerAcksOk(i, p', h');
  }

  lemma {:induction false} FirstOfTermPositive(lg: seq<Entry>, index: nat)
    requires 1 <= index < |lg|
    ensures 1 <= FirstOfTerm(lg, 0, index)
  {
    if index > 1 && lg[index - 1].term == lg[index].term {
      FirstOfTermPositive(lg, index - 1);
    }
  }

  /** The receiver of an AppendEntries of its own term is not the leader of that term. */
  lemma {:induction false} AppendFindsFollower(n: nat, i: nat, p: Peer, h: History, m: Message)
    requires PeerOk(n, i, p, h) && MessageOk(n, m, h) && m.Append? && m.dst == i && m.append.term == p.term
    ensures PeerOk(n, i, p.(role := Follower), h)
  {
  }

  lemma {:induction false} AckReplyOk(h: History, src: nat, i: nat, a: AppendArgs, r: AppendReply)
    requires StretchOk(a, h) && r.success && Ack(a.term, i, a.prev + |a.entries|) in h.acks
    ensures ReplyOk(AppendReplied(i, src, a, r), h)
  {
  }

  lemma {:induction false} AcceptReplyOk(h: History, src: nat, i: nat, a: AppendArgs, r: AppendReply)
    requires StretchOk(a, h) && r.success
    ensures var h' := WithAck(h, Ack(a.term, i, a.prev + |a.entries|)); ReplyOk(AppendReplied(i, src, a, r), h')
  {
    var h' := WithAck(h, Ack(a.term, i, a.prev + |a.entries|));
    AckExtends(h, Ack(a.term, i, a.prev + |a.entries|));
    StretchGrows(a, h, h');
    AckReplyOk(h', src, i, a, r);
  }

  /** The follower took over the leader's entries up to the end of the message. */
  lemma {:induction false} AcceptRecorded(n: nat, i: nat, p: Peer, h: History, a: AppendArgs, r: seq<Entry>,
                                          commit: nat)
    returns (h': History)
    requires HistoryOk(n, h) && PeerOk(n, i, p, h) && p.role == Follower && p.term == a.term
    requires StretchOk(a, h) && Committed(h, h.reigns[a.term].log, a.commit, a.term)
    requires MergedInto(r, p.log, h.reigns[a.term].log, a.prev + |a.entries|)
    requires commit == p.commit || (p.commit <= commit <= a.commit && commit <= a.prev + |a.entries|)
    ensures HistoryOk(n, h') && ExtendsBy(i, h, h') && PeerOk(n, i, p.(log := r, commit := commit), h')
    ensures h' == WithAck(h, Ack(a.term, i, a.prev + |a.entries|))
  {
    AckRecorded(n, i, p, h, a.prev + |a.entries|);
    AcceptPeerOk(n, i, p, h, a, r, commit);
    h' := WithAck(h, Ack(a.term, i, a.prev + |a.entries|));
  }

  lemma {:induction false} AppendAccepted(n: nat, i: nat, p: Peer, h: History, src: nat, a: AppendArgs)
    returns (h': History)
    requires HistoryOk(n, h) && PeerOk(n, i, p, h) && p.role == Follower && p.term == a.term
    requires StretchOk(a, h) && Committed(h, h.reigns[a.term].log, a.commit, a.term)
    requires a.prev < |p.log| && p.log[a.prev].term == a.prevTerm
    ensures HistoryOk(n, h') && ExtendsBy(i, h, h') && PeerOk(n, i, HandleAppend(p, a).0, h')
    ensures ReplyOk(AppendReplied(i, src, a, HandleAppend(p, a).1), h')
  {
    var r, commit := AcceptBranch(p, a);
    AcceptMerges(n, p, h, a);
    h' := AcceptRecorded(n, i, p, h, a, r, commit);
    AcceptReplyOk(h, src, i, a, HandleAppend(p, a).1);
  }

  lemma {:induction false} AppendRejected(n: nat, i: nat, p: Peer, h: History, src: nat, a: AppendArgs)
    requires ReignsOk(n, h) && PeerLogOk(n, p, h) && p.role == Follower && p.term == a.term && StretchOk(a, h)
    requires !(a.prev < |p.log| && p.log[a.prev].term == a.prevTerm)
    ensures HandleAppend(p, a).0 == p && ReplyOk(AppendReplied(i, src, a, HandleAppend(p, a).1), h)
  {
    assert ReignOk(n, h, a.term);
    RejectBranch(p, a);
  }

  lemma {:induction false} AppendPeerOk(n: nat, i: nat, p: Peer, h: History, src: nat, a: AppendArgs)
    returns (h': History)
    requires HistoryOk(n, h) && PeerOk(n, i, p, h) && p.role == Follower && p.term == a.term
    requires StretchOk(a, h) && Committed(h, h.reigns[a.term].log, a.commit, a.term)
    ensures HistoryOk(n, h') && ExtendsBy(i, h, h') && PeerOk(n, i, HandleAppend(p, a).0, h')
    ensures ReplyOk(AppendReplied(i, src, a, HandleAppend(p, a).1), h')
  {
    if a.prev < |p.log| && p.log[a.prev].term == a.prevTerm {
      h' := AppendAccepted(n, i, p, h, src, a);
    } else {
      AppendRejected(n, i, p, h, src, a);
      h' := h;
    }
  }

  /** A newer term, or the same term at a peer that does not lead it, is handled as by a follower of that term. */
  lemma {:induction false} AppendAsFollower(p: Peer, q: Peer, a: AppendArgs)
    requires |p.log| > 0 && a.term >= p.term
    requires q == if a.term > p.term then StepDown(p, a.term) else p.(role := Follower)
    ensures HandleAppend(p, a) == HandleAppend(q, a)
  {
  }

  lemma {:induction false} AppendAnyPeerOk(n: nat, i: nat, p: Peer, h: History, m: Message) returns (h': History)
    requires HistoryOk(n, h) && PeerOk(n, i, p, h) && MessageOk(n, m, h) && m.Append? && m.dst == i && i < n
    requires m.append.term >= p.term
    ensures HistoryOk(n, h') && ExtendsBy(i, h, h') && PeerOk(n, i, HandleAppend(p, m.append).0, h')
    ensures ReplyOk(AppendReplied(i, m.src, m.append, HandleAppend(p, m.append).1), h')
  {
    var a := m.append;
    var q := if a.term > p.term then StepDown(p, a.term) else p.(role := Follower);
    if a.term > p.term {
      StepDownOk(n, i, p, h, a.term);
    } else {
      AppendFindsFollower(n, i, p, h, m);
    }
    AppendAsFollower(p, q, a);
    h' := AppendPeerOk(n, i, q, h, m.src, a);
  }

  lemma {:induction false} StaleAppend(p: Peer, h: History, src: nat, i: nat, a: AppendArgs)
    requires |p.log| > 0 && a.term < p.term && StretchOk(a, h)
    ensures HandleAppend(p, a).0 == p && ReplyOk(AppendReplied(i, src, a, HandleAppend(p, a).1), h)
  {
  }

  lemma {:induction false} OnAppendPeerOk(n: nat, i: nat, p: Peer, h: History, m: Message) returns (h': History)
    requires HistoryOk(n, h) && PeerOk(n, i, p, h) && MessageOk(n, m, h) && m.Append? && m.dst == i && i < n
    ensures HistoryOk(n, h') && ExtendsBy(i, h, h') && PeerOk(n, i, HandleAppend(p, m.append).0, h')
    ensures ReplyOk(AppendReplied(i, m.src, m.append, HandleAppend(p, m.append).1), h')
  {
    if m.append.term >= p.term {
      h' := AppendAnyPeerOk(n, i, p, h, m);
    } else {
      StaleAppend(p, h, m.src, i, m.append);
      h' := h;
    }
  }

  lemma {:induction false} OnAppendStep(n: nat, s: Cluster, h: History, i: nat, m: Message) returns (h': History)
    requires Inv(n, s, h) && Enabled(n, s, OnAppend(i, m))
    ensures Inv(n, Next(n, s, OnAppend(i, m)), h') && ExtendsBy(i, h, h')
  {
    var p := s.peers[i];
    assert MessageOk(n, m, h);
    h' := OnAppendPeerOk(n, i, p, h, m);
    var reply := AppendReplied(i, m.src, m.append, HandleAppend(p, m.append).1);
    assert MessageOk(n, reply, h');
    StepKeepsInv(n, s, Next(n, s, OnAppend(i, m)), h, h', i, HandleAppend(p, m.append).0, {reply});
  }

  lemma {:induction false} LeaderReplyOk(n: nat, i: nat, p: Peer, h: History, from: nat, a: AppendArgs, r: AppendReply)
    requires WellFormed(n, p) && p.base == 0 && p.role == Leader && p.term == a.term && Reigning(n, i, p, h)
    requires from < n && from != i && r.term <= p.term && ReplyOk(AppendReplied(from, i, a, r), h)
    ensures Reigning(n, i, HandleAppendReply(p, from, a, r), h)
  {
  }

  lemma {:induction false} AppendReplyPeerOk(n: nat, i: nat, p: Peer, h: History, from: nat, a: AppendArgs,
                                             r: AppendReply)
    requires PeerOk(n, i, p, h) && AcksOk(h) && from < n && from != i && ReplyInRange(p, a)
    requires ReplyOk(AppendReplied(from, i, a, r), h)
    ensures PeerOk(n, i, HandleAppendReply(p, from, a, r), h)
  {
    if r.term > p.term {
      StepDownOk(n, i, p, h, r.term);
    } else if p.role == Leader && p.term == a.term {
      LeaderReplyOk(n, i, p, h, from, a, r);
      OnlyNextChanged(n, i, p, HandleAppendReply(p, from, a, r), h);
    }
  }

  lemma {:induction false} OnAppendReplyStep(n: nat, s: Cluster, h: History, i: nat, m: Message) returns (h': History)
    requires Inv(n, s, h) && Enabled(n, s, OnAppendReply(i, m))
    ensures Inv(n, Next(n, s, OnAppendReply(i, m)), h') && ExtendsBy(i, h, h')
  {
    h' := h;
    assert MessageOk(n, m, h);
    AppendReplyPeerOk(n, i, s.peers[i], h, m.src, m.append, m.appendReply);
    var p' := HandleAppendReply(s.peers[i], m.src, m.append, m.appendReply);
    StepKeepsInv(n, s, Next(n, s, OnAppendReply(i, m)), h, h', i, p', {});
  }

  lemma {:induction false} OnlyNextChanged(n: nat, i: nat, p: Peer, p': Peer, h: History)
    requires PeerOk(n, i, p, h) && WellFormed(n, p') && PeerReignOk(n, i, p', h)
    requires p' == p.(next := p'.next, matched := p'.matched)
    ensures PeerOk(n, i, p', h)
  {
    assert PeerBidsOk(n, i, p', h);
  }

  /** The peers that hold the majority index all acknowledged it. */
  lemma {:induction false} CommitQuorum(n: nat, i: nat, p: Peer, h: History, m: nat)
    requires ReignsOk(n, h) && PeerOk(n, i, p, h) && p.role == Leader && i < n && n > 0
    requires m == MajorityIndex(p.matched[i := |p.log| - 1])
    requires m > p.commit && m < |p.log| && p.log[m].term == p.term
    ensures CommitOk(n, h, CommitPoint(p.term, m, Holders(p.matched[i := |p.log| - 1], m)))
  {
    var matched := p.matched[i := |p.log| - 1];
    var quorum := Holders(matched, m);
    HoldersQuorum(matched);
    forall q | q in quorum ensures Acked(h, p.term, q, m) {
      if q == i {
        ReignAscends(n, h, p.term, m, |p.log| - 1);
        assert Acked(h, p.term, i, |p.log| - 1);
      } else {
        assert p.matched[q] == matched[q] >= m;
        assert Acked(h, p.term, q, p.matched[q]);
      }
    }
  }

  lemma {:induction false} AdvancedPeerOk(n: nat, i: nat, p: Peer, h: History, c: CommitPoint)
    requires PeerOk(n, i, p, h) && AcksOk(h) && Extends(h, WithCommit(h, c))
    requires c.term == p.term && p.commit < c.index < |p.log| && p.role == Leader
    ensures PeerOk(n, i, p.(commit := c.index), WithCommit(h, c))
  {
    var h' := WithCommit(h, c);
    OwnPeerGrows(n, i, p, h, h');
    assert c in h'.commits && CoveredBy(h', c, p.log, c.index, p.term);
    CommitMoved(n, i, p, h', c.index);
  }

  lemma {:induction false} CommitPointRecorded(n: nat, i: nat, p: Peer, h: History, m: nat) returns (h': History)
    requires HistoryOk(n, h) && PeerOk(n, i, p, h) && p.role == Leader && i < n
    requires m == MajorityIndex(p.matched[i := |p.log| - 1]) && p.commit < m < |p.log| && p.log[m].term == p.term
    ensures HistoryOk(n, h') && ExtendsBy(i, h, h') && PeerOk(n, i, p.(commit := m), h') && CommittedAt(h', p.term, m)
  {
    var c := CommitPoint(p.term, m, Holders(p.matched[i := |p.log| - 1], m));
    CommitQuorum(n, i, p, h, m);
    CommitRecorded(n, i, h, c);
    AdvancedPeerOk(n, i, p, h, c);
    h' := WithCommit(h, c);
    assert c in h'.commits;
  }

  lemma {:induction false} AdvanceBranch(i: nat, p: Peer)
    requires |p.log| > 0 && i < |p.matched| && MatchInRange(p) && AdvanceCommit(i, p).commit > p.commit
    ensures p.role == Leader
    ensures var m := MajorityIndex(p.matched[i := |p.log| - 1]);
            p.commit < m < |p.log| && p.log[m].term == p.term && AdvanceCommit(i, p) == p.(commit := m)
  {
    MajorityIndexBound(p.matched[i := |p.log| - 1], |p.log|);
  }

  lemma {:induction false} RunCommitPeerOk(n: nat, i: nat, p: Peer, h: History) returns (h': History)
    requires HistoryOk(n, h) && PeerOk(n, i, p, h) && i < n && MatchInRange(p)
    ensures HistoryOk(n, h') && ExtendsBy(i, h, h') && PeerOk(n, i, AdvanceCommit(i, p), h')
    ensures AdvanceCommit(i, p).commit > p.commit ==> CommittedAt(h', p.term, AdvanceCommit(i, p).commit)
  {
    if AdvanceCommit(i, p).commit > p.commit {
      AdvanceBranch(i, p);
      h' := CommitPointRecorded(n, i, p, h, MajorityIndex(p.matched[i := |p.log| - 1]));
    } else {
      h' := h;
    }
  }

  ghost predicate CommittedAt(h: History, term: nat, index: nat) {
    exists c :: c in h.commits && c.term == term && c.index == index
  }

  lemma {:induction false} CommitMoved(n: nat, i: nat, p: Peer, h: History, m: nat)
    requires PeerOk(n, i, p, h) && p.commit <= m < |p.log| && Committed(h, p.log, m, p.term)
    ensures PeerOk(n, i, p.(commit := m), h)
  {
    assert PeerBidsOk(n, i, p.(commit := m), h);
  }

  lemma {:induction false} RunCommitStep(n: nat, s: Cluster, h: History, i: nat) returns (h': History)
    requires Inv(n, s, h) && Enabled(n, s, RunCommit(i))
    ensures Inv(n, Next(n, s, RunCommit(i)), h') && ExtendsBy(i, h, h')
    ensures AdvanceCommit(i, s.peers[i]).commit > s.peers[i].commit ==>
              CommittedAt(h', s.peers[i].term, AdvanceCommit(i, s.peers[i]).commit)
  {
    h' := RunCommitPeerOk(n, i, s.peers[i], h);
    StepKeepsInv(n, s, Next(n, s, RunCommit(i)), h, h', i, AdvanceCommit(i, s.peers[i]), {});
  }

  lemma {:induction false} StartPeerOk(n: nat, i: nat, p: Peer, h: History, e: Entry) returns (h': History)
    requires HistoryOk(n, h) && PeerOk(n, i, p, h) && p.role == Leader && e.term == p.term
    ensures HistoryOk(n, h') && ExtendsBy(i, h, h') && PeerOk(n, i, p.(log := p.log + [e]), h')
  {
    EntryRecorded(n, h, p.term, e);
    var h1 := WithEntry(h, p.term, e);
    assert PeerVotesOk(i, p, h1);
    AckRecorded(n, i, p, h1, |p.log|);
    h' := WithAck(h1, Ack(p.term, i, |p.log|));
    ExtendsByTransitive(i, h, h1, h');
    NewEntryPeerOk(n, i, p, h, h', e);
  }

  lemma {:induction false} ClientStartStep(n: nat, s: Cluster, h: History, i: nat, command: Command)
    returns (h': History)
    requires Inv(n, s, h) && Enabled(n, s, ClientStart(i, command))
    ensures Inv(n, Next(n, s, ClientStart(i, command)), h') && ExtendsBy(i, h, h')
  {
    var p := s.peers[i];
    var p' := StartCommand(p, command);
    assert PeerOk(n, i, p, h);
    if p.role == Leader {
      h' := StartPeerOk(n, i, p, h, Entry(command, p.term));
    } else {
      h' := h;
    }
    StepKeepsInv(n, s, Next(n, s, ClientStart(i, command)), h, h', i, p', {});
  }

  lemma {:induction false} NewEntryReign(n: nat, i: nat, p: Peer, h: History, h': History, e: Entry)
    requires WellFormed(n, p) && Reigning(n, i, p, h) && Extends(h, h')
    requires h' == WithAck(WithEntry(h, p.term, e), Ack(p.term, i, |p.log|))
    ensures Reigning(n, i, p.(log := p.log + [e]), h')
  {
    forall k | 0 <= k < n ensures p.matched[k] == 0 || Acked(h', p.term, k, p.matched[k]) {
      if p.matched[k] != 0 {
        AckedGrows(h, h', p.term, k, p.matched[k]);
      }
    }
    assert Acked(h', p.term, i, |p.log|);
  }

  lemma {:induction false} NewEntryAcks(i: nat, p: Peer, h: History, h': History, e: Entry)
    requires AcksOk(h) && PeerAcksOk(i, p, h) && Extends(h, h')
    requires p.term in h.reigns && h.reigns[p.term].log == p.log
    requires h' == WithAck(WithEntry(h, p.term, e), Ack(p.term, i, |p.log|))
    ensures PeerAcksOk(i, p.(log := p.log + [e]), h')
  {
    var lg := p.log + [e];
    forall a | a in h'.acks && a.peer == i ensures a.term <= p.term && Keeps(lg, h', a, p.term) {
      if a in h.acks {
        KeepsGrows(p.log, lg, h, h', a, p.term, p.term);
      }
    }
  }

  lemma {:induction false} NewEntryPeerOk(n: nat, i: nat, p: Peer, h: History, h': History, e: Entry)
    requires AcksOk(h) && PeerOk(n, i, p, h) && p.role == Leader && e.term == p.term
    requires h' == WithAck(WithEntry(h, p.term, e), Ack(p.term, i, |p.log|))
    requires Extends(h, h') && ReignsOk(n, h')
    ensures PeerOk(n, i, p.(log := p.log + [e]), h')
  {
    var p' := p.(log := p.log + [e]);
    assert ReignOk(n, h', p.term);
    assert h'.reigns[p.term].log == p'.log;
    NewEntryAcks(i, p, h, h', e);
    NewEntryReign(n, i, p, h, h', e);
    CommittedGrows(h, h', p.log, p'.log, p.commit, p.term, p.term);
    assert p.log[1..p.applied + 1] == p'.log[1..p.applied + 1];
  }

  // ---------------------------------------------------------------- delivery and restarts

  /** Only what has been taken, queued and sent is different. */
  lemma {:induction false} ApplyChanged(n: nat, i: nat, p: Peer, p': Peer, h: History)
    requires PeerOk(n, i, p, h) && PeerApplyOk(p', h)
    requires p' == p.(applied := p'.applied, queue := p'.queue, delivered := p'.delivered)
    ensures PeerOk(n, i, p', h)
  {
    assert PeerBidsOk(n, i, p', h);
  }

  lemma {:induction false} TakeBatchApplies(p: Peer, h: History)
    requires PeerApplyOk(p, h)
    ensures PeerApplyOk(TakeBatch(p), h)
  {
    var p' := TakeBatch(p);
    var batch := Messages(p.log[p.applied + 1..p.commit + 1], p.applied + 1);
    MessagesSplit(p.log, p.applied, p.commit);
    assert p'.delivered + p'.queue == (p.delivered + p.queue) + batch;
  }

  lemma {:induction false} MessagesSplit(lg: seq<Entry>, k: nat, m: nat)
    requires k <= m < |lg|
    ensures Messages(lg[1..m + 1], 1) == Messages(lg[1..k + 1], 1) + Messages(lg[k + 1..m + 1], k + 1)
  {
  }

  lemma {:induction false} TakeBatchPeerOk(n: nat, i: nat, p: Peer, h: History)
    requires PeerOk(n, i, p, h)
    ensures PeerOk(n, i, TakeBatch(p), h)
  {
    TakeBatchApplies(p, h);
    ApplyChanged(n, i, p, TakeBatch(p), h);
  }

  lemma {:induction false} ApplierTakeStep(n: nat, s: Cluster, h: History, i: nat) returns (h': History)
    requires Inv(n, s, h) && Enabled(n, s, ApplierTake(i))
    ensures Inv(n, Next(n, s, ApplierTake(i)), h') && ExtendsBy(i, h, h')
  {
    h' := h;
    TakeBatchPeerOk(n, i, s.peers[i], h);
    StepKeepsInv(n, s, Next(n, s, ApplierTake(i)), h, h', i, TakeBatch(s.peers[i]), {});
  }

  lemma {:induction false} DeliverPeerOk(n: nat, i: nat, p: Peer, h: History) returns (h': History)
    requires HistoryOk(n, h) && PeerOk(n, i, p, h) && p.queue != []
    ensures HistoryOk(n, h') && ExtendsBy(i, h, h') && PeerOk(n, i, Deliver(p), h')
  {
    var o, x := p.queue[0], |p.delivered|;
    assert (p.delivered + p.queue)[x] == o;
    assert o == ApplyMsg(1 + x, p.log[1 + x].command);
    var c :| c in h.commits && CoveredBy(h, c, p.log, p.commit, p.term);
    assert CommitOk(n, h, c);
    assert OutputBy(h, o, c);
    OutputRecorded(n, i, h, o, c);
    h' := WithOutput(h, o);
    OwnPeerGrows(n, i, p, h, h');
    DeliveredPeerOk(n, i, p, h');
  }

  lemma {:induction false} DeliverApplies(p: Peer, h: History)
    requires PeerApplyOk(p, h) && p.queue != [] && p.queue[0] in h.outputs
    ensures PeerApplyOk(Deliver(p), h)
  {
    var p' := Deliver(p);
    assert p'.delivered + p'.queue == p.delivered + p.queue;
  }

  lemma {:induction false} DeliveredPeerOk(n: nat, i: nat, p: Peer, h: History)
    requires PeerOk(n, i, p, h) && p.queue != [] && p.queue[0] in h.outputs
    ensures PeerOk(n, i, Deliver(p), h)
  {
    DeliverApplies(p, h);
    ApplyChanged(n, i, p, Deliver(p), h);
  }

  lemma {:induction false} ApplierSendStep(n: nat, s: Cluster, h: History, i: nat) returns (h': History)
    requires Inv(n, s, h) && Enabled(n, s, ApplierSend(i))
    ensures Inv(n, Next(n, s, ApplierSend(i)), h') && ExtendsBy(i, h, h')
  {
    h' := DeliverPeerOk(n, i, s.peers[i], h);
    StepKeepsInv(n, s, Next(n, s, ApplierSend(i)), h, h', i, Deliver(s.peers[i]), {});
  }

  lemma {:induction false} RestartStep(n: nat, s: Cluster, h: History, i: nat) returns (h': History)
    requires Inv(n, s, h) && Enabled(n, s, Restart(i))
    ensures Inv(n, Next(n, s, Restart(i)), h') && ExtendsBy(i, h, h')
  {
    h' := h;
    assert PeerOk(n, i, s.peers[i], h);
    var p' := RestartPeer(n, s.peers[i]);
    assert PeerBidsOk(n, i, p', h);
    assert p'.delivered + p'.queue == Messages(p'.log[1..p'.applied + 1], 1);
    StepKeepsInv(n, s, Next(n, s, Restart(i)), h, h', i, p', {});
  }

  lemma {:induction false} TimeOutPeerOk(n: nat, i: nat, p: Peer, h: History)
    requires PeerOk(n, i, p, h)
    ensures PeerOk(n, i, TimeOut(p), h)
  {
    assert PeerBidsOk(n, i, TimeOut(p), h);
  }

  lemma {:induction false} ElectingPeerOk(n: nat, i: nat, p: Peer, h: History)
    requires PeerOk(n, i, p, h)
    ensures PeerOk(n, i, p.(electing := true), h)
  {
    assert PeerBidsOk(n, i, p.(electing := true), h);
  }

  lemma {:induction false} TickerStep(n: nat, s: Cluster, h: History, step: Step) returns (h': History)
    requires Inv(n, s, h) && Enabled(n, s, step) && (step.FollowerTimeout? || step.CheckCandidate?)
    ensures Inv(n, Next(n, s, step), h') && ExtendsBy(step.i, h, h')
  {
    h' := h;
    if step.FollowerTimeout? {
      TimeOutPeerOk(n, step.i, s.peers[step.i], h);
    } else {
      ElectingPeerOk(n, step.i, s.peers[step.i], h);
    }
    StepKeepsInv(n, s, Next(n, s, step), h, h', step.i, PeerAfter(n, s, step), {});
  }

  lemma {:induction false} ElectionStep(n: nat, s: Cluster, h: History, step: Step) returns (h': History)
    requires Inv(n, s, h) && Enabled(n, s, step) && !Racy(s, step)
    requires step.FollowerTimeout? || step.CheckCandidate? || step.StartElection? || step.OnRequestVote? ||
               step.OnVoteReply?
    ensures Inv(n, Next(n, s, step), h') && ExtendsBy(step.i, h, h')
  {
    match step
    case FollowerTimeout(i) => h' := TickerStep(n, s, h, step);
    case CheckCandidate(i) => h' := TickerStep(n, s, h, step);
    case StartElection(i) => h' := StartElectionStep(n, s, h, i);
    case OnRequestVote(i, m) => h' := OnRequestVoteStep(n, s, h, i, m);
    case OnVoteReply(i, m) => h' := OnVoteReplyStep(n, s, h, i, m);
  }

  lemma {:induction false} ReplicationStep(n: nat, s: Cluster, h: History, step: Step) returns (h': History)
    requires Inv(n, s, h) && Enabled(n, s, step)
    requires step.SendAppend? || step.OnAppend? || step.OnAppendReply? || step.ClientStart?
    ensures Inv(n, Next(n, s, step), h') && ExtendsBy(step.i, h, h')
  {
    match step
    case SendAppend(i, to) => h' := SendAppendStep(n, s, h, i, to);
    case OnAppend(i, m) => h' := OnAppendStep(n, s, h, i, m);
    case OnAppendReply(i, m) => h' := OnAppendReplyStep(n, s, h, i, m);
    case ClientStart(i, command) => h' := ClientStartStep(n, s, h, i, command);
  }

  lemma {:induction false} DeliveryStep(n: nat, s: Cluster, h: History, step: Step) returns (h': History)
    requires Inv(n, s, h) && Enabled(n, s, step)
    requires step.ApplierTake? || step.ApplierSend? || step.Restart?
    ensures Inv(n, Next(n, s, step), h') && ExtendsBy(step.i, h, h')
  {
    match step
    case ApplierTake(i) => h' := ApplierTakeStep(n, s, h, i);
    case ApplierSend(i) => h' := ApplierSendStep(n, s, h, i);
    case Restart(i) => h' := RestartStep(n, s, h, i);
  }

  /** Every step that is not racy keeps the invariant, with a history that has only grown. */
  lemma {:induction false} EveryStep(n: nat, s: Cluster, h: History, step: Step) returns (h': History)
    requires Inv(n, s, h) && Enabled(n, s, step) && !Racy(s, step)
    ensures Inv(n, Next(n, s, step), h') && ExtendsBy(step.i, h, h')
    ensures step.RunCommit? && AdvanceCommit(step.i, s.peers[step.i]).commit > s.peers[step.i].commit ==>
              CommittedAt(h', s.peers[step.i].term, AdvanceCommit(step.i, s.peers[step.i]).commit)
  {
    if step.RunCommit? {
      h' := RunCommitStep(n, s, h, step.i);
    } else if step.ApplierTake? || step.ApplierSend? || step.Restart? {
      h' := DeliveryStep(n, s, h, step);
    } else if step.SendAppend? || step.OnAppend? || step.OnAppendReply? || step.ClientStart? {
      h' := ReplicationStep(n, s, h, step);
    } else {
      h' := ElectionStep(n, s, h, step);
    }
  }
}
