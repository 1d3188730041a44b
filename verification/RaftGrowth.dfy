/**
 What stays true when the history grows: everything that is said about the messages,
 and everything that is said about the peers that did not take the step.
 */
module RaftGrowth {
  import opened RaftPeer
  import opened RaftCluster
  import opened RaftHistory

  lemma {:induction false} ExtendsTransitive(h: History, h1: History, h2: History)
    requires Extends(h, h1) && Extends(h1, h2)
    ensures Extends(h, h2)
  {
    forall t | t in h.reigns ensures t in h2.reigns && ReignGrows(t, h.reigns[t], h2.reigns[t]) {
      assert ReignGrows(t, h.reigns[t], h1.reigns[t]);
      assert ReignGrows(t, h1.reigns[t], h2.reigns[t]);
    }
  }

  lemma {:induction false} RootedGrows(lg: seq<Entry>, h: History, h': History)
    requires Rooted(lg, h) && Extends(h, h')
    ensures Rooted(lg, h')
  {
    forall k | 1 <= k < |lg| ensures RootedAt(lg, k, h') {
      assert RootedAt(lg, k, h);
      assert ReignGrows(lg[k].term, h.reigns[lg[k].term], h'.reigns[lg[k].term]);
    }
  }

  /** A leader that lacks an entry of an earlier reign never gets it later. */
  lemma {:induction false} DropsGrows(h: History, h': History, u: nat, t: nat, k: nat)
    requires Extends(h, h') && Own(h, t, k) && t < u && Drops(h, u, t, k)
    ensures Drops(h', u, t, k)
  {
    var r, r' := h.reigns[u], h'.reigns[u];
    assert ReignGrows(u, r, r');
    assert ReignGrows(t, h.reigns[t], h'.reigns[t]);
    if Agree(r'.log, h'.reigns[t].log, k) {
      if k < |r.log| {
        assert Agree(r.log, h.reigns[t].log, k) by {
          forall x | 0 <= x <= k ensures r.log[x] == h.reigns[t].log[x] {
            assert r'.log[x] == h'.reigns[t].log[x];
          }
        }
      } else {
        assert false;
      }
    }
  }

  lemma {:induction false} LostGrows(h: History, h': History, t: nat, k: nat, last: nat, last': nat)
    requires Extends(h, h') && Own(h, t, k) && Lost(h, t, k, last) && last <= last'
    ensures Lost(h', t, k, last')
  {
    var u :| t < u <= last && Drops(h, u, t, k);
    DropsGrows(h, h', u, t, k);
  }

  lemma {:induction false} KeepsGrows(lg: seq<Entry>, lg': seq<Entry>, h: History, h': History, a: Ack, last: nat,
                                      last': nat)
    requires Extends(h, h') && last <= last'
    requires a.term in h.reigns && a.upto < |h.reigns[a.term].log|
    requires Keeps(lg, h, a, last)
    requires |lg| <= |lg'| && forall x | 0 <= x < |lg| :: lg'[x] == lg[x]
    ensures Keeps(lg', h', a, last')
  {
    assert ReignGrows(a.term, h.reigns[a.term], h'.reigns[a.term]);
    forall k: nat | k <= a.upto && Own(h', a.term, k)
      ensures Agree(lg', h'.reigns[a.term].log, k) || Lost(h', a.term, k, last')
    {
      assert Own(h, a.term, k);
      if Lost(h, a.term, k, last) {
        LostGrows(h, h', a.term, k, last, last');
      }
    }
  }

  lemma {:induction false} AckedGrows(h: History, h': History, t: nat, peer: nat, k: nat)
    requires Extends(h, h') && Acked(h, t, peer, k)
    ensures Acked(h', t, peer, k)
  {
    var a :| a in h.acks && a.term == t && a.peer == peer && a.upto >= k;
    assert a in h'.acks;
  }

  lemma {:induction false} CommittedGrows(h: History, h': History, lg: seq<Entry>, lg': seq<Entry>, k: nat, t: nat,
                                          t': nat)
    requires Extends(h, h') && t <= t' && Committed(h, lg, k, t)
    requires k == 0 || (k < |lg'| && forall x | 0 <= x <= k && x < |lg| :: lg'[x] == lg[x])
    ensures Committed(h', lg', k, t')
  {
    if k > 0 {
      var c :| c in h.commits && CoveredBy(h, c, lg, k, t);
      assert ReignGrows(c.term, h.reigns[c.term], h'.reigns[c.term]);
      assert c in h'.commits && CoveredBy(h', c, lg', k, t');
    }
  }

  lemma {:induction false} StretchGrows(a: AppendArgs, h: History, h': History)
    requires Extends(h, h') && StretchOk(a, h)
    ensures StretchOk(a, h')
  {
    assert ReignGrows(a.term, h.reigns[a.term], h'.reigns[a.term]);
  }

  /** Every message keeps its meaning. */
  lemma {:induction false} MessageGrows(n: nat, m: Message, h: History, h': History)
    requires Extends(h, h') && MessageOk(n, m, h)
    ensures MessageOk(n, m, h')
  {
    if m.Append? {
      var a := m.append;
      StretchGrows(a, h, h');
      assert ReignGrows(a.term, h.reigns[a.term], h'.reigns[a.term]);
      CommittedGrows(h, h', h.reigns[a.term].log, h'.reigns[a.term].log, a.commit, a.term, a.term);
    }
    if m.AppendReplied? {
      var a := m.append;
      StretchGrows(a, h, h');
      if m.appendReply.success {
        AckedGrows(h, h', a.term, m.src, a.prev + |a.entries|);
      }
    }
  }

  lemma {:induction false} PeerBidsGrow(n: nat, i: nat, j: nat, p: Peer, h: History, h': History)
    requires ExtendsBy(i, h, h') && i != j && PeerBidsOk(n, j, p, h)
    ensures PeerBidsOk(n, j, p, h')
  {
    if p.electionTerm == p.term && p.role != Leader && p.term in h'.reigns {
      if p.term in h.reigns {
        assert ReignGrows(p.term, h.reigns[p.term], h'.reigns[p.term]);
      }
    }
  }

  lemma {:induction false} PeerReignGrows(n: nat, i: nat, j: nat, p: Peer, h: History, h': History)
    requires ExtendsBy(i, h, h') && i != j && WellFormed(n, p) && PeerReignOk(n, j, p, h)
    ensures PeerReignOk(n, j, p, h')
  {
    if p.role == Leader {
      assert ReignGrows(p.term, h.reigns[p.term], h'.reigns[p.term]);
      assert h'.reigns[p.term] == h.reigns[p.term];
      forall k | 0 <= k < n ensures p.matched[k] == 0 || Acked(h', p.term, k, p.matched[k]) {
        if p.matched[k] != 0 {
          AckedGrows(h, h', p.term, k, p.matched[k]);
        }
      }
      if Acked(h, p.term, j, |p.log| - 1) {
        AckedGrows(h, h', p.term, j, |p.log| - 1);
      }
    }
  }

  lemma {:induction false} PeerAcksGrow(i: nat, j: nat, p: Peer, h: History, h': History)
    requires ExtendsBy(i, h, h') && i != j && AcksOk(h) && PeerAcksOk(j, p, h)
    ensures PeerAcksOk(j, p, h')
  {
    forall a | a in h'.acks && a.peer == j ensures a.term <= p.term && Keeps(p.log, h', a, p.term) {
      assert a in h.acks;
      KeepsGrows(p.log, p.log, h, h', a, p.term, p.term);
    }
  }

  /** A peer that took no step keeps its part of the invariant. */
  lemma {:induction false} PeerGrows(n: nat, i: nat, j: nat, p: Peer, h: History, h': History)
    requires ExtendsBy(i, h, h') && i != j && AcksOk(h) && PeerOk(n, j, p, h)
    ensures PeerOk(n, j, p, h')
  {
    RootedGrows(p.log, h, h');
    PeerBidsGrow(n, i, j, p, h, h');
    PeerReignGrows(n, i, j, p, h, h');
    PeerAcksGrow(i, j, p, h, h');
    CommittedGrows(h, h', p.log, p.log, p.commit, p.term, p.term);
  }

  /** The frame of every step: it is enough to look at the peer that moved and at what it sent. */
  lemma {:induction false} StepKeepsInv(n: nat, s: Cluster, s': Cluster, h: History, h': History, i: nat, p: Peer,
                                        sent: set<Message>)
    requires Inv(n, s, h) && i < n
    requires s' == Cluster(s.peers[i := p], s.net + sent)
    requires ExtendsBy(i, h, h')
    requires HistoryOk(n, h')
    requires PeerOk(n, i, p, h')
    requires forall m | m in sent :: MessageOk(n, m, h')
    ensures Inv(n, s', h')
  {
    forall j | 0 <= j < n ensures PeerOk(n, j, s'.peers[j], h') {
      if j != i {
        PeerGrows(n, i, j, s.peers[j], h, h');
      }
    }
    forall m | m in s'.net ensures MessageOk(n, m, h') {
      if m in s.net {
        MessageGrows(n, m, h, h');
      }
    }
  }
}
