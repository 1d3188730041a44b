/**
 The six ways in which a step adds to the history - a candidacy, a vote, an
 acknowledgement, an election, a new entry, a commit point - and a delivery, each
 shown to keep the invariant of the history.
 */
module RaftRecords {
  import opened Basics
  import opened Majority
  import opened RaftPeer
  import opened RaftHistory
  import opened RaftGrowth

  // ---------------------------------------------------------------- old facts in a grown history

  lemma {:induction false} BidsGrow(h: History, h': History)
    requires Extends(h, h') && BidsOk(h)
    ensures forall b | b in h.bids :: BidOk(h', b)
  {
    forall b | b in h.bids ensures BidOk(h', b) {
      assert BidOk(h, b);
      RootedGrows(h.bids[b], h, h');
    }
  }

  lemma {:induction false} ReignGrowsOk(n: nat, h: History, h': History, t: nat)
    requires Extends(h, h') && t in h.reigns && ReignOk(n, h, t) && h'.reigns[t] == h.reigns[t]
    ensures ReignOk(n, h', t)
  {
    RootedGrows(h.reigns[t].log, h, h');
  }

  lemma {:induction false} VotesKeepAcksGrows(h: History, h': History)
    requires Extends(h, h') && AcksOk(h) && VotesOk(h) && VotesKeepAcks(h)
    ensures forall v, a | v in h.votes && a in h.acks && v.voter == a.peer && a.term < v.term ::
              (v.term, v.candidate) in h'.bids && Keeps(h'.bids[(v.term, v.candidate)], h', a, v.term)
  {
    forall v, a | v in h.votes && a in h.acks && v.voter == a.peer && a.term < v.term
      ensures (v.term, v.candidate) in h'.bids && Keeps(h'.bids[(v.term, v.candidate)], h', a, v.term)
    {
      var lg := h.bids[(v.term, v.candidate)];
      KeepsGrows(lg, lg, h, h', a, v.term, v.term);
    }
  }

  lemma {:induction false} ReignsKeepAcksGrows(h: History, h': History)
    requires Extends(h, h') && AcksOk(h) && ReignsKeepAcks(h)
    ensures forall t, a | t in h.reigns && a in h.acks && a.peer in h.reigns[t].electors && a.term < t ::
              Keeps(h'.reigns[t].log, h', a, t - 1)
  {
    forall t, a | t in h.reigns && a in h.acks && a.peer in h.reigns[t].electors && a.term < t
      ensures Keeps(h'.reigns[t].log, h', a, t - 1)
    {
      assert ReignGrows(t, h.reigns[t], h'.reigns[t]);
      KeepsGrows(h.reigns[t].log, h'.reigns[t].log, h, h', a, t - 1, t - 1);
    }
  }

  lemma {:induction false} CommitsGrow(n: nat, h: History, h': History)
    requires Extends(h, h') && CommitsOk(n, h)
    ensures forall c | c in h.commits :: CommitOk(n, h', c)
  {
    forall c | c in h.commits ensures CommitOk(n, h', c) {
      assert CommitOk(n, h, c);
      assert ReignGrows(c.term, h.reigns[c.term], h'.reigns[c.term]);
      forall q | q in c.quorum ensures Acked(h', c.term, q, c.index) {
        AckedGrows(h, h', c.term, q, c.index);
      }
    }
  }

  lemma {:induction false} CompleteGrows(h: History, h': History)
    requires Extends(h, h') && Complete(h)
    ensures forall c, t | c in h.commits && t in h.reigns && c.term < t && c.term in h.reigns ::
              Agree(h'.reigns[t].log, h'.reigns[c.term].log, c.index)
  {
    forall c, t | c in h.commits && t in h.reigns && c.term < t && c.term in h.reigns
      ensures Agree(h'.reigns[t].log, h'.reigns[c.term].log, c.index)
    {
      assert ReignGrows(t, h.reigns[t], h'.reigns[t]);
      assert ReignGrows(c.term, h.reigns[c.term], h'.reigns[c.term]);
    }
  }

  lemma {:induction false} OutputsGrow(h: History, h': History)
    requires Extends(h, h') && OutputsOk(h)
    ensures forall o | o in h.outputs :: exists c :: c in h'.commits && OutputBy(h', o, c)
  {
    forall o | o in h.outputs ensures exists c :: c in h'.commits && OutputBy(h', o, c) {
      var c :| c in h.commits && OutputBy(h, o, c);
      assert ReignGrows(c.term, h.reigns[c.term], h'.reigns[c.term]);
      assert c in h'.commits && OutputBy(h', o, c);
    }
  }

  /** Candidacies, votes and acknowledgements, when none is added. */
  lemma {:induction false} SameRecords(h: History, h': History)
    requires Extends(h, h') && h'.bids == h.bids && h'.votes == h.votes && h'.acks == h.acks
    requires BidsOk(h) && VotesOk(h) && AcksOk(h) && VotesKeepAcks(h)
    ensures BidsOk(h') && VotesOk(h') && AcksOk(h') && VotesKeepAcks(h')
  {
    BidsGrow(h, h');
    AcksGrow(h, h');
    VotesKeepAcksGrows(h, h');
  }

  lemma {:induction false} AcksGrow(h: History, h': History)
    requires Extends(h, h') && AcksOk(h)
    ensures forall a | a in h.acks :: a.term in h'.reigns && a.upto < |h'.reigns[a.term].log|
  {
    forall a | a in h.acks ensures a.term in h'.reigns && a.upto < |h'.reigns[a.term].log| {
      assert ReignGrows(a.term, h.reigns[a.term], h'.reigns[a.term]);
    }
  }

  lemma {:induction false} SameCommits(n: nat, h: History, h': History)
    requires Extends(h, h') && h'.commits == h.commits && CommitsOk(n, h)
    ensures CommitsOk(n, h')
  {
    CommitsGrow(n, h, h');
  }

  lemma {:induction false} SameOutputs(h: History, h': History)
    requires Extends(h, h') && h'.outputs == h.outputs && OutputsOk(h)
    ensures OutputsOk(h')
  {
    OutputsGrow(h, h');
  }

  lemma {:induction false} SameReigns(n: nat, h: History, h': History)
    requires Extends(h, h') && h'.reigns == h.reigns && h'.acks == h.acks
    requires ReignsOk(n, h) && AcksOk(h) && ReignsKeepAcks(h)
    ensures ReignsOk(n, h') && ReignsKeepAcks(h')
  {
    forall t | t in h'.reigns ensures ReignOk(n, h', t) {
      ReignGrowsOk(n, h, h', t);
    }
    ReignsKeepAcksGrows(h, h');
  }

  lemma {:induction false} SameComplete(h: History, h': History)
    requires Extends(h, h') && h'.reigns == h.reigns && h'.commits == h.commits && Complete(h)
    ensures Complete(h')
  {
    CompleteGrows(h, h');
  }

  /** A history that only adds votes, candidacies or acknowledgements. */
  lemma {:induction false} HistoryOkIfReignsStay(n: nat, h: History, h': History)
    requires HistoryOk(n, h) && Extends(h, h') && h'.reigns == h.reigns && h'.commits == h.commits
    requires h'.outputs == h.outputs
    requires forall b | b in h'.bids && b !in h.bids :: BidOk(h', b)
    requires VotesOk(h') && AcksOk(h') && VotesKeepAcks(h') && ReignsKeepAcks(h')
    ensures HistoryOk(n, h')
  {
    BidsGrow(h, h');
    forall t | t in h'.reigns ensures ReignOk(n, h', t) {
      ReignGrowsOk(n, h, h', t);
    }
    CommitsGrow(n, h, h');
    CompleteGrows(h, h');
    OutputsGrow(h, h');
  }

  // ---------------------------------------------------------------- candidacies and votes

  function WithBid(h: History, i: nat, term: nat, lg: seq<Entry>): History {
    h.(bids := h.bids[(term, i) := lg])
  }

  lemma {:induction false} BidRecorded(n: nat, i: nat, h: History, term: nat, lg: seq<Entry>)
    requires HistoryOk(n, h)
    requires (term, i) !in h.bids && term >= 1 && Rooted(lg, h) && TermsBelow(lg, term - 1)
    ensures HistoryOk(n, WithBid(h, i, term, lg)) && ExtendsBy(i, h, WithBid(h, i, term, lg))
  {
    var h' := WithBid(h, i, term, lg);
    assert Extends(h, h');
    RootedGrows(lg, h, h');
    VotesKeepAcksGrows(h, h');
    ReignsKeepAcksGrows(h, h');
    HistoryOkIfReignsStay(n, h, h');
  }

  /** In a reign, terms never decrease, so an entry of term u cannot come before one of a smaller term. */
  lemma {:induction false} ReignAscends(n: nat, h: History, t: nat, x: nat, y: nat)
    requires ReignsOk(n, h) && t in h.reigns && x <= y < |h.reigns[t].log|
    ensures h.reigns[t].log[x].term <= h.reigns[t].log[y].term
  {
    var lg := h.reigns[t].log;
    assert ReignOk(n, h, t);
    if y > 0 {
      assert RootedAt(lg, y, h);
      var u := lg[y].term;
      assert ReignOk(n, h, u);
      assert lg[x] == h.reigns[u].log[x];
    }
  }

  /** The test a candidate's log passes before it gets a vote. */
  predicate UpToDate(candidate: seq<Entry>, voter: seq<Entry>)
    requires |candidate| > 0 && |voter| > 0
  {
    LastTerm(candidate) > LastTerm(voter) || (LastTerm(candidate) == LastTerm(voter) && |candidate| >= |voter|)
  }

  /** The up-to-date test of RequestVote carries an acknowledged entry over to the candidate. */
  lemma {:induction false} CandidateKeeps(n: nat, h: History, voter: seq<Entry>, candidate: seq<Entry>, t: nat,
                                          k: nat, last: nat)
    requires ReignsOk(n, h) && Rooted(voter, h) && Rooted(candidate, h)
    requires Own(h, t, k) && t >= 1 && Agree(voter, h.reigns[t].log, k)
    requires TermsBelow(candidate, last)
    requires UpToDate(candidate, voter)
    ensures Agree(candidate, h.reigns[t].log, k) || Lost(h, t, k, last)
  {
    var e := |voter| - 1;
    assert ReignOk(n, h, t);
    assert k >= 1;
    assert RootedAt(voter, e, h);
    var vt := voter[e].term;
    ReignAscends(n, h, vt, k, e);
    assert t <= vt;
    var d := |candidate| - 1;
    var u := candidate[d].term;
    assert u >= t >= 1;
    assert d >= 1;
    assert RootedAt(candidate, d, h);
    if u > vt {
      if Agree(h.reigns[u].log, h.reigns[t].log, k) {
        ReignAscends(n, h, u, Min(d, k), k);
      } else {
        assert Drops(h, u, t, k);
      }
    }
  }

  function WithVote(h: History, v: Vote): History {
    h.(votes := h.votes + {v})
  }

  /** A peer that has not voted in its term votes for a candidate that passes the up-to-date test. */
  lemma {:induction false} VoteRecorded(n: nat, i: nat, p: Peer, h: History, c: nat)
    requires HistoryOk(n, h) && PeerLogOk(n, p, h) && PeerVotesOk(i, p, h) && PeerAcksOk(i, p, h)
    requires p.votedFor == None && (p.term, c) in h.bids
    requires |h.bids[(p.term, c)]| > 0 && UpToDate(h.bids[(p.term, c)], p.log)
    ensures HistoryOk(n, WithVote(h, Vote(p.term, i, c))) && ExtendsBy(i, h, WithVote(h, Vote(p.term, i, c)))
  {
    var v := Vote(p.term, i, c);
    var h' := WithVote(h, v);
    assert Extends(h, h');
    VotesKeepAcksGrows(h, h');
    ReignsKeepAcksGrows(h, h');
    assert BidOk(h, (p.term, c));
    forall a | a in h.acks && a.peer == i && a.term < p.term ensures Keeps(h'.bids[(p.term, c)], h', a, p.term) {
      VoterKeeps(n, p, h, a, h.bids[(p.term, c)]);
      KeepsGrows(h.bids[(p.term, c)], h.bids[(p.term, c)], h, h', a, p.term, p.term);
    }
    assert VotesKeepAcks(h');
    HistoryOkIfReignsStay(n, h, h');
  }

  lemma {:induction false} VoterKeeps(n: nat, p: Peer, h: History, a: Ack, lg: seq<Entry>)
    requires ReignsOk(n, h) && Rooted(p.log, h) && Rooted(lg, h) && TermsBelow(lg, p.term)
    requires Keeps(p.log, h, a, p.term)
    requires UpToDate(lg, p.log)
    ensures Keeps(lg, h, a, p.term)
  {
    forall k: nat | k <= a.upto && Own(h, a.term, k)
      ensures Agree(lg, h.reigns[a.term].log, k) || Lost(h, a.term, k, p.term)
    {
      assert ReignOk(n, h, a.term);
      if Agree(p.log, h.reigns[a.term].log, k) {
        CandidateKeeps(n, h, p.log, lg, a.term, k, p.term);
      }
    }
  }

  // ---------------------------------------------------------------- acknowledgements

  function WithAck(h: History, a: Ack): History {
    h.(acks := h.acks + {a})
  }

  /** An acknowledgement in the peer's current term comes after all its earlier votes. */
  lemma {:induction false} AckRecorded(n: nat, i: nat, p: Peer, h: History, upto: nat)
    requires HistoryOk(n, h) && PeerVotesOk(i, p, h)
    requires p.term in h.reigns && upto < |h.reigns[p.term].log|
    ensures HistoryOk(n, WithAck(h, Ack(p.term, i, upto))) && ExtendsBy(i, h, WithAck(h, Ack(p.term, i, upto)))
  {
    var h' := WithAck(h, Ack(p.term, i, upto));
    assert Extends(h, h');
    VotesKeepAcksGrows(h, h');
    ReignsKeepAcksGrows(h, h');
    forall t | t in h.reigns && i in h.reigns[t].electors ensures t <= p.term {
      assert ReignOk(n, h, t);
      assert Vote(t, i, h.reigns[t].leader) in h.votes;
    }
    HistoryOkIfReignsStay(n, h, h');
  }

  // ---------------------------------------------------------------- an election

  function WithReign(h: History, t: nat, r: Reign): History {
    h.(reigns := h.reigns[t := r])
  }

  lemma {:induction false} NewReignKeepsAcks(n: nat, h: History, t: nat, i: nat, electors: set<nat>, lg: seq<Entry>)
    requires HistoryOk(n, h) && t !in h.reigns && (t, i) in h.bids && h.bids[(t, i)] == lg
    requires forall e | e in electors :: Vote(t, e, i) in h.votes
    ensures forall a | a in h.acks && a.peer in electors && a.term < t :: Keeps(lg, h, a, t - 1)
  {
    forall a | a in h.acks && a.peer in electors && a.term < t ensures Keeps(lg, h, a, t - 1) {
      assert Vote(t, a.peer, i) in h.votes;
      assert Keeps(lg, h, a, t);
      forall k: nat | k <= a.upto && Own(h, a.term, k)
        ensures Agree(lg, h.reigns[a.term].log, k) || Lost(h, a.term, k, t - 1)
      {
        if Lost(h, a.term, k, t) {
          var u :| a.term < u <= t && Drops(h, u, a.term, k);
          assert u != t;
        }
      }
    }
  }

  /** Every commit point of an earlier term is in the log of the new leader. */
  lemma {:induction false} NewReignComplete(n: nat, h: History, t: nat, i: nat, electors: set<nat>, lg: seq<Entry>,
                                            c: CommitPoint)
    requires HistoryOk(n, h) && t !in h.reigns && (t, i) in h.bids && h.bids[(t, i)] == lg
    requires IsQuorum(n, electors)
    requires forall e | e in electors :: Vote(t, e, i) in h.votes
    requires c in h.commits && c.term < t
    ensures Own(h, c.term, c.index) && Agree(lg, h.reigns[c.term].log, c.index)
  {
    assert CommitOk(n, h, c);
    var e := QuorumsMeet(n, electors, c.quorum);
    var a :| a in h.acks && a.term == c.term && a.peer == e && a.upto >= c.index;
    NewReignKeepsAcks(n, h, t, i, electors, lg);
    assert Keeps(lg, h, a, t - 1);
  }

  /** Election safety: the term of a candidate with a majority has no leader yet, or that leader is itself. */
  lemma {:induction false} OneLeader(n: nat, h: History, t: nat, i: nat, electors: set<nat>)
    requires HistoryOk(n, h) && IsQuorum(n, electors)
    requires forall e | e in electors :: Vote(t, e, i) in h.votes
    ensures t in h.reigns ==> h.reigns[t].leader == i
  {
    if t in h.reigns {
      assert ReignOk(n, h, t);
      var e := QuorumsMeet(n, electors, h.reigns[t].electors);
      assert Vote(t, e, h.reigns[t].leader) == Vote(t, e, i);
    }
  }

  lemma {:induction false} NewReignExtends(i: nat, h: History, t: nat, r: Reign)
    requires t !in h.reigns && r.leader == i
    ensures ExtendsBy(i, h, WithReign(h, t, r))
  {
  }

  lemma {:induction false} NewReignOk(n: nat, i: nat, h: History, t: nat, electors: set<nat>, lg: seq<Entry>)
    requires ReignsOk(n, h) && BidsOk(h) && i < n && t !in h.reigns && (t, i) in h.bids && h.bids[(t, i)] == lg
    requires IsQuorum(n, electors) && forall e | e in electors :: Vote(t, e, i) in h.votes
    requires Extends(h, WithReign(h, t, Reign(i, electors, lg)))
    ensures ReignsOk(n, WithReign(h, t, Reign(i, electors, lg)))
  {
    var h' := WithReign(h, t, Reign(i, electors, lg));
    assert BidOk(h, (t, i));
    RootedGrows(lg, h, h');
    forall u | u in h'.reigns ensures ReignOk(n, h', u) {
      if u != t {
        ReignGrowsOk(n, h, h', u);
      }
    }
  }

  lemma {:induction false} NewReignAcks(h: History, t: nat, r: Reign)
    requires AcksOk(h) && ReignsKeepAcks(h) && t !in h.reigns && Extends(h, WithReign(h, t, r))
    requires forall a | a in h.acks && a.peer in r.electors && a.term < t :: Keeps(r.log, h, a, t - 1)
    ensures ReignsKeepAcks(WithReign(h, t, r))
  {
    var h' := WithReign(h, t, r);
    ReignsKeepAcksGrows(h, h');
    forall a | a in h.acks && a.peer in r.electors && a.term < t ensures Keeps(r.log, h', a, t - 1) {
      KeepsGrows(r.log, r.log, h, h', a, t - 1, t - 1);
    }
  }

  lemma {:induction false} NewReignCompletes(n: nat, h: History, t: nat, r: Reign)
    requires CommitsOk(n, h) && Complete(h) && t !in h.reigns && Extends(h, WithReign(h, t, r))
    requires forall c | c in h.commits && c.term < t ::
               Own(h, c.term, c.index) && Agree(r.log, h.reigns[c.term].log, c.index)
    ensures Complete(WithReign(h, t, r))
  {
    var h' := WithReign(h, t, r);
    CompleteGrows(h, h');
    forall c, u | c in h'.commits && u in h'.reigns && c.term < u && c.term in h'.reigns
      ensures Agree(h'.reigns[u].log, h'.reigns[c.term].log, c.index)
    {
      assert CommitOk(n, h, c);
    }
  }

  lemma {:induction false} ReignRecorded(n: nat, i: nat, h: History, t: nat, electors: set<nat>, lg: seq<Entry>)
    requires HistoryOk(n, h) && i < n && t !in h.reigns && (t, i) in h.bids && h.bids[(t, i)] == lg
    requires IsQuorum(n, electors)
    requires forall e | e in electors :: Vote(t, e, i) in h.votes
    ensures var h' := WithReign(h, t, Reign(i, electors, lg)); HistoryOk(n, h') && ExtendsBy(i, h, h')
  {
    var r := Reign(i, electors, lg);
    var h' := WithReign(h, t, r);
    NewReignExtends(i, h, t, r);
    NewReignOk(n, i, h, t, electors, lg);
    SameRecords(h, h');
    NewReignKeepsAcks(n, h, t, i, electors, lg);
    NewReignAcks(h, t, r);
    SameCommits(n, h, h');
    forall c | c in h.commits && c.term < t
      ensures Own(h, c.term, c.index) && Agree(lg, h.reigns[c.term].log, c.index)
    {
      NewReignComplete(n, h, t, i, electors, lg, c);
    }
    NewReignCompletes(n, h, t, r);
    SameOutputs(h, h');
  }

  // ---------------------------------------------------------------- a new entry

  function WithEntry(h: History, t: nat, e: Entry): History
    requires t in h.reigns
  {
    h.(reigns := h.reigns[t := h.reigns[t].(log := h.reigns[t].log + [e])])
  }

  lemma {:induction false} EntryExtends(h: History, t: nat, e: Entry)
    requires t in h.reigns && e.term == t
    ensures ExtendsBy(h.reigns[t].leader, h, WithEntry(h, t, e))
  {
  }

  lemma {:induction false} EntryReigns(n: nat, h: History, t: nat, e: Entry)
    requires ReignsOk(n, h) && t in h.reigns && e.term == t && Extends(h, WithEntry(h, t, e))
    ensures ReignsOk(n, WithEntry(h, t, e))
  {
    var h' := WithEntry(h, t, e);
    forall u | u in h'.reigns ensures ReignOk(n, h', u) {
      assert ReignOk(n, h, u);
      if u != t {
        ReignGrowsOk(n, h, h', u);
      } else {
        RootedGrows(h.reigns[t].log, h, h');
        NewEntryRooted(h, h', t, e);
      }
    }
  }

  lemma {:induction false} EntryKeeps(h: History, t: nat, e: Entry)
    requires t in h.reigns && Extends(h, WithEntry(h, t, e)) && AcksOk(h) && ReignsKeepAcks(h) && Complete(h)
    ensures ReignsKeepAcks(WithEntry(h, t, e)) && Complete(WithEntry(h, t, e))
  {
    ReignsKeepAcksGrows(h, WithEntry(h, t, e));
    CompleteGrows(h, WithEntry(h, t, e));
  }

  lemma {:induction false} EntryRecorded(n: nat, h: History, t: nat, e: Entry)
    requires HistoryOk(n, h) && t in h.reigns && e.term == t
    ensures HistoryOk(n, WithEntry(h, t, e)) && ExtendsBy(h.reigns[t].leader, h, WithEntry(h, t, e))
  {
    var h' := WithEntry(h, t, e);
    EntryExtends(h, t, e);
    EntryReigns(n, h, t, e);
    SameRecords(h, h');
    EntryKeeps(h, t, e);
    SameCommits(n, h, h');
    SameOutputs(h, h');
  }

  lemma {:induction false} NewEntryRooted(h: History, h': History, t: nat, e: Entry)
    requires t in h.reigns && e.term == t && h' == WithEntry(h, t, e) && Rooted(h.reigns[t].log, h')
    ensures Rooted(h'.reigns[t].log, h')
  {
    var lg, lg' := h.reigns[t].log, h'.reigns[t].log;
    forall k | 1 <= k < |lg'| ensures RootedAt(lg', k, h') {
      if k < |lg| {
        assert RootedAt(lg, k, h');
      }
    }
  }

  // ---------------------------------------------------------------- a commit point

  function WithCommit(h: History, c: CommitPoint): History {
    h.(commits := h.commits + {c})
  }

  /** Leader completeness for a fresh commit point, by induction on the later terms. */
  lemma {:induction false} LaterLeadersHold(n: nat, h: History, c: CommitPoint, t: nat)
    requires HistoryOk(n, h) && CommitOk(n, h, c)
    requires c.term < t && t in h.reigns
    ensures Agree(h.reigns[t].log, h.reigns[c.term].log, c.index)
    decreases t
  {
    assert ReignOk(n, h, t);
    var e := QuorumsMeet(n, h.reigns[t].electors, c.quorum);
    var a :| a in h.acks && a.term == c.term && a.peer == e && a.upto >= c.index;
    assert Keeps(h.reigns[t].log, h, a, t - 1);
    if Lost(h, c.term, c.index, t - 1) {
      var u :| c.term < u <= t - 1 && Drops(h, u, c.term, c.index);
      LaterLeadersHold(n, h, c, u);
      assert false;
    }
  }

  lemma {:induction false} CommitExtends(i: nat, h: History, c: CommitPoint)
    ensures ExtendsBy(i, h, WithCommit(h, c))
  {
  }

  lemma {:induction false} CommitHolds(n: nat, h: History, c: CommitPoint)
    requires CommitsOk(n, h) && CommitOk(n, h, c) && Extends(h, WithCommit(h, c))
    ensures CommitsOk(n, WithCommit(h, c))
  {
    var h' := WithCommit(h, c);
    CommitsGrow(n, h, h');
    forall q | q in c.quorum ensures Acked(h', c.term, q, c.index) {
      AckedGrows(h, h', c.term, q, c.index);
    }
    assert CommitOk(n, h', c);
  }

  lemma {:induction false} CommitCompletes(n: nat, h: History, c: CommitPoint)
    requires HistoryOk(n, h) && CommitOk(n, h, c)
    ensures Complete(WithCommit(h, c))
  {
    forall t | t in h.reigns && c.term < t ensures Agree(h.reigns[t].log, h.reigns[c.term].log, c.index) {
      LaterLeadersHold(n, h, c, t);
    }
  }

  lemma {:induction false} CommitRecorded(n: nat, i: nat, h: History, c: CommitPoint)
    requires HistoryOk(n, h) && CommitOk(n, h, c)
    ensures HistoryOk(n, WithCommit(h, c)) && ExtendsBy(i, h, WithCommit(h, c))
  {
    var h' := WithCommit(h, c);
    CommitExtends(i, h, c);
    SameRecords(h, h');
    SameReigns(n, h, h');
    CommitHolds(n, h, c);
    CommitCompletes(n, h, c);
    SameOutputs(h, h');
  }

  // ---------------------------------------------------------------- a delivery

  function WithOutput(h: History, o: ApplyMsg): History {
    h.(outputs := h.outputs + {o})
  }

  lemma {:induction false} OutputExtends(i: nat, h: History, o: ApplyMsg)
    ensures ExtendsBy(i, h, WithOutput(h, o))
  {
  }

  lemma {:induction false} OutputHolds(h: History, o: ApplyMsg, c: CommitPoint)
    requires OutputsOk(h) && c in h.commits && OutputBy(h, o, c) && Extends(h, WithOutput(h, o))
    ensures OutputsOk(WithOutput(h, o))
  {
    OutputsGrow(h, WithOutput(h, o));
    assert OutputBy(WithOutput(h, o), o, c);
  }

  lemma {:induction false} OutputRecorded(n: nat, i: nat, h: History, o: ApplyMsg, c: CommitPoint)
    requires HistoryOk(n, h) && c in h.commits && OutputBy(h, o, c)
    ensures HistoryOk(n, WithOutput(h, o)) && ExtendsBy(i, h, WithOutput(h, o))
  {
    var h' := WithOutput(h, o);
    OutputExtends(i, h, o);
    SameRecords(h, h');
    SameReigns(n, h, h');
    SameCommits(n, h, h');
    SameComplete(h, h');
    OutputHolds(h, o, c);
  }
}
