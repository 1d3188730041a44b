/**
 The safety theorems of Raft, for every run of the cluster with lost, delayed,
 reordered and repeated messages, crashes and restarts. They speak of the states of a
 run only; the history appears in the proofs and nowhere else.
 */
module RaftSafety {
  import opened RaftPeer
  import opened RaftCluster
  import opened RaftHistory
  import opened RaftGrowth
  import opened RaftRecords
  import opened RaftSteps
  import opened RaftRules

  // ---------------------------------------------------------------- a history for every state of a run

  ghost predicate Tracks(n: nat, states: seq<Cluster>, steps: seq<Step>, hs: seq<History>) {
    && |hs| == |states| == |steps| + 1
    && (forall k {:trigger Inv(n, states[k], hs[k])} | 0 <= k < |hs| :: Inv(n, states[k], hs[k]))
    && (forall a, b {:trigger Extends(hs[a], hs[b])} | 0 <= a <= b < |hs| :: Extends(hs[a], hs[b]))
    && (forall k {:trigger Advanced(states[k], states[k + 1], steps[k])} | 0 <= k < |steps| ::
          Advanced(states[k], states[k + 1], steps[k]) ==> CommitNoted(hs[k + 1], states[k], states[k + 1], steps[k]))
  }

  /** The step is a run of commit() that moved the leader's commit index. */
  predicate Advanced(s: Cluster, s': Cluster, step: Step) {
    && step.RunCommit? && step.i < |s.peers| && step.i < |s'.peers|
    && s'.peers[step.i].commit > s.peers[step.i].commit
  }

  ghost predicate CommitNoted(h: History, s: Cluster, s': Cluster, step: Step)
    requires Advanced(s, s', step)
  {
    CommittedAt(h, s.peers[step.i].term, s'.peers[step.i].commit)
  }

  lemma {:induction false} InitInv(n: nat, s: Cluster)
    requires Init(n, s)
    ensures Inv(n, s, NO_HISTORY)
  {
    forall i | 0 <= i < n ensures PeerOk(n, i, s.peers[i], NO_HISTORY) {
      var p := s.peers[i];
      assert p.delivered + p.queue == Messages(p.log[1..p.applied + 1], 1);
    }
  }

  lemma {:induction false} HistoryOf(n: nat, states: seq<Cluster>, steps: seq<Step>) returns (hs: seq<History>)
    requires IsRun(n, states, steps) && RaceFree(states, steps)
    ensures Tracks(n, states, steps, hs)
    decreases |steps|
  {
    if steps == [] {
      InitInv(n, states[0]);
      hs := [NO_HISTORY];
    } else {
      var m := |steps| - 1;
      RunPrefix(n, states, steps, m);
      var before := HistoryOf(n, states[..m + 1], steps[..m]);
      InvAtEnd(n, states[..m + 1], steps[..m], before);
      var h := LastStep(n, states[m], before[m], steps[m], states[m + 1]);
      TracksOneMore(n, states, steps, before, h);
      hs := before + [h];
    }
  }

  lemma {:induction false} LastStep(n: nat, s: Cluster, h: History, step: Step, s': Cluster) returns (h': History)
    requires Inv(n, s, h) && Enabled(n, s, step) && !Racy(s, step) && s' == Next(n, s, step)
    ensures Inv(n, s', h') && Extends(h, h') && Extends(h', h')
    ensures Advanced(s, s', step) ==> CommitNoted(h', s, s', step)
  {
    h' := EveryStep(n, s, h, step);
  }

  lemma {:induction false} RunPrefix(n: nat, states: seq<Cluster>, steps: seq<Step>, m: nat)
    requires IsRun(n, states, steps) && RaceFree(states, steps) && m <= |steps|
    ensures IsRun(n, states[..m + 1], steps[..m]) && RaceFree(states[..m + 1], steps[..m])
    ensures m < |steps| ==>
              && Enabled(n, states[m], steps[m]) && !Racy(states[m], steps[m])
              && states[m + 1] == Next(n, states[m], steps[m])
  {
    forall k | 0 <= k < m
      ensures Enabled(n, states[k], steps[k]) && states[k + 1] == Next(n, states[k], steps[k])
      ensures !Racy(states[k], steps[k])
    {
      assert steps[k] == steps[..m][k];
    }
  }

  lemma {:induction false} TracksOneMore(n: nat, states: seq<Cluster>, steps: seq<Step>, before: seq<History>,
                                         h: History)
    requires |steps| > 0 && |states| == |steps| + 1
    requires Tracks(n, states[..|steps|], steps[..|steps| - 1], before)
    requires Inv(n, states[|steps|], h) && Extends(before[|steps| - 1], h) && Extends(h, h)
    requires Advanced(states[|steps| - 1], states[|steps|], steps[|steps| - 1]) ==>
               CommitNoted(h, states[|steps| - 1], states[|steps|], steps[|steps| - 1])
    ensures Tracks(n, states, steps, before + [h])
  {
    InvOneMore(n, states, before, h);
    ExtendsOneMore(before, h);
    var m := |steps| - 1;
    var hs := before + [h];
    forall k | 0 <= k < |steps| && Advanced(states[k], states[k + 1], steps[k])
      ensures CommitNoted(hs[k + 1], states[k], states[k + 1], steps[k])
    {
      if k < m {
        assert Advanced(states[..m + 1][k], states[..m + 1][k + 1], steps[..m][k]);
      }
    }
  }

  lemma {:induction false} InvOneMore(n: nat, states: seq<Cluster>, before: seq<History>, h: History)
    requires |states| == |before| + 1 && Inv(n, states[|before|], h)
    requires forall k {:trigger Inv(n, states[..|before|][k], before[k])} | 0 <= k < |before| ::
               Inv(n, states[..|before|][k], before[k])
    ensures var hs := before + [h];
            forall k {:trigger Inv(n, states[k], hs[k])} | 0 <= k < |hs| :: Inv(n, states[k], hs[k])
  {
    var hs := before + [h];
    forall k | 0 <= k < |hs| ensures Inv(n, states[k], hs[k]) {
      if k < |before| {
        assert Inv(n, states[..|before|][k], before[k]);
      }
    }
  }

  lemma {:induction false} ExtendsOneMore(before: seq<History>, h: History)
    requires |before| > 0 && Extends(before[|before| - 1], h) && Extends(h, h)
    requires forall a, b {:trigger Extends(before[a], before[b])} | 0 <= a <= b < |before| ::
               Extends(before[a], before[b])
    ensures var hs := before + [h];
            forall a, b {:trigger Extends(hs[a], hs[b])} | 0 <= a <= b < |hs| :: Extends(hs[a], hs[b])
  {
    var hs, m := before + [h], |before| - 1;
    forall a, b | 0 <= a <= b < |hs| ensures Extends(hs[a], hs[b]) {
      if b <= m {
        assert Extends(before[a], before[b]);
      } else if a <= m {
        assert Extends(before[a], before[m]);
        ExtendsTransitive(before[a], before[m], h);
      }
    }
  }

  lemma {:induction false} InvAtEnd(n: nat, states: seq<Cluster>, steps: seq<Step>, hs: seq<History>)
    requires Tracks(n, states, steps, hs)
    ensures |hs| == |states| == |steps| + 1 && Inv(n, states[|steps|], hs[|steps|])
  {
    assert Inv(n, states[|steps|], hs[|steps|]);
  }

  lemma {:induction false} InvAt(n: nat, states: seq<Cluster>, steps: seq<Step>, hs: seq<History>, a: nat, i: nat)
    requires Tracks(n, states, steps, hs) && a < |states| && i < n
    ensures |states[a].peers| == n && PeerOk(n, i, states[a].peers[i], hs[a]) && HistoryOk(n, hs[a])
  {
    assert Inv(n, states[a], hs[a]);
  }

  // ---------------------------------------------------------------- elections

  /** The leader of the term once had this log: the reign starts with it and goes on with entries of its own. */
  ghost predicate LedWith(h: History, t: nat, lg: seq<Entry>) {
    && t in h.reigns && |lg| <= |h.reigns[t].log|
    && (forall x | 0 <= x < |lg| :: h.reigns[t].log[x] == lg[x])
    && (forall x | |lg| <= x < |h.reigns[t].log| :: h.reigns[t].log[x].term == t)
  }

  lemma {:induction false} LeaderOfTerm(n: nat, states: seq<Cluster>, steps: seq<Step>, hs: seq<History>, a: nat,
                                        b: nat, i: nat)
    requires Tracks(n, states, steps, hs) && a <= b < |states| && i < n
    requires |states[a].peers| == n && states[a].peers[i].role == Leader
    ensures states[a].peers[i].term in hs[b].reigns && hs[b].reigns[states[a].peers[i].term].leader == i
    ensures LedWith(hs[b], states[a].peers[i].term, states[a].peers[i].log)
  {
    InvAt(n, states, steps, hs, a, i);
    var t := states[a].peers[i].term;
    assert Extends(hs[a], hs[b]);
    assert ReignGrows(t, hs[a].reigns[t], hs[b].reigns[t]);
  }

  /** Election safety: no term ever has two leaders, at whatever moments of the run they lead. */
  lemma {:induction false} ElectionSafety(n: nat, states: seq<Cluster>, steps: seq<Step>, a: nat, b: nat, i: nat,
                                          j: nat)
    requires IsRun(n, states, steps) && RaceFree(states, steps)
    requires a < |states| && b < |states| && i < n && j < n
    requires |states[a].peers| == n == |states[b].peers|
    requires states[a].peers[i].role == Leader && states[b].peers[j].role == Leader
    requires states[a].peers[i].term == states[b].peers[j].term
    ensures i == j
  {
    var hs := HistoryOf(n, states, steps);
    var last := if a <= b then b else a;
    LeaderOfTerm(n, states, steps, hs, a, last, i);
    LeaderOfTerm(n, states, steps, hs, b, last, j);
  }

  // ---------------------------------------------------------------- logs

  lemma {:induction false} RootedLater(n: nat, states: seq<Cluster>, steps: seq<Step>, hs: seq<History>, a: nat,
                                       b: nat, i: nat)
    requires Tracks(n, states, steps, hs) && a <= b < |states| && i < n
    ensures |states[a].peers| == n && Rooted(states[a].peers[i].log, hs[b])
  {
    InvAt(n, states, steps, hs, a, i);
    assert Extends(hs[a], hs[b]);
    RootedGrows(states[a].peers[i].log, hs[a], hs[b]);
  }

  /**
   Log matching: if any two logs of the run, of any peers at any two moments, have the
   same term at an index, they are equal up to that index.
   */
  lemma {:induction false} LogMatching(n: nat, states: seq<Cluster>, steps: seq<Step>, a: nat, b: nat, i: nat, j: nat,
                                       x: nat)
    requires IsRun(n, states, steps) && RaceFree(states, steps)
    requires a < |states| && b < |states| && i < n && j < n
    requires |states[a].peers| == n == |states[b].peers|
    requires x < |states[a].peers[i].log| && x < |states[b].peers[j].log|
    requires states[a].peers[i].log[x].term == states[b].peers[j].log[x].term
    ensures states[a].peers[i].log[..x + 1] == states[b].peers[j].log[..x + 1]
  {
    var hs := HistoryOf(n, states, steps);
    var last := if a <= b then b else a;
    RootedLater(n, states, steps, hs, a, last, i);
    RootedLater(n, states, steps, hs, b, last, j);
    if x > 0 {
      assert RootedAt(states[a].peers[i].log, x, hs[last]);
      assert RootedAt(states[b].peers[j].log, x, hs[last]);
    }
  }

  /** The terms of a log never decrease along it and never exceed the peer's own term. */
  lemma {:induction false} LogTermsAscend(n: nat, states: seq<Cluster>, steps: seq<Step>, a: nat, i: nat, x: nat,
                                          y: nat)
    requires IsRun(n, states, steps) && RaceFree(states, steps)
    requires a < |states| && i < n && |states[a].peers| == n && x <= y < |states[a].peers[i].log|
    ensures states[a].peers[i].log[x].term <= states[a].peers[i].log[y].term <= states[a].peers[i].term
  {
    var hs := HistoryOf(n, states, steps);
    InvAt(n, states, steps, hs, a, i);
    var lg := states[a].peers[i].log;
    if y > 0 {
      assert RootedAt(lg, y, hs[a]);
      ReignAscends(n, hs[a], lg[y].term, x, y);
    }
  }

  /**
   A message that fits the follower's log puts each of its entries at its index and leaves what comes before alone; what
   comes behind it is lost only if some entry of the message was new.
   */
  lemma {:induction false} AcceptedInPlace(n: nat, states: seq<Cluster>, steps: seq<Step>, k: nat, j: nat, m: Message)
    requires IsRun(n, states, steps) && RaceFree(states, steps) && k < |steps| && steps[k] == OnAppend(j, m) && j < n
    requires |states[k].peers| == n && m.Append? && m.append.term >= states[k].peers[j].term
    requires Fits(states[k].peers[j], m.append)
    ensures |states[k + 1].peers| == n
    ensures var a, lg, lg' := m.append, states[k].peers[j].log, states[k + 1].peers[j].log;
            && |lg'| > a.prev + |a.entries| && lg'[..a.prev + 1] == lg[..a.prev + 1]
            && lg'[a.prev + 1..a.prev + 1 + |a.entries|] == a.entries
            && (lg' == lg || |lg'| == a.prev + 1 + |a.entries|)
  {
    var hs := HistoryOf(n, states, steps);
    assert steps[k] == steps[k] && Inv(n, states[k], hs[k]);
    MessageMatches(n, states[k], hs[k], j, m);
    AppendFits(states[k].peers[j], m.append);
  }

  lemma {:induction false} MessageMatches(n: nat, s: Cluster, h: History, j: nat, m: Message)
    requires Inv(n, s, h) && m in s.net && m.Append? && j < n
    ensures |s.peers[j].log| > 0 && Matching(s.peers[j].log, m.append.prev + 1, m.append.entries)
  {
    assert MessageOk(n, m, h);
    assert PeerOk(n, j, s.peers[j], h);
    StretchMatches(n, h, s.peers[j].log, m.append);
  }

  lemma {:induction false} StretchMatches(n: nat, h: History, lg: seq<Entry>, a: AppendArgs)
    requires ReignsOk(n, h) && Rooted(lg, h) && StretchOk(a, h)
    ensures Matching(lg, a.prev + 1, a.entries)
  {
    forall x | 0 <= x < |a.entries| && a.prev + 1 + x < |lg| && lg[a.prev + 1 + x].term == a.entries[x].term
      ensures lg[a.prev + 1 + x] == a.entries[x]
    {
      SameTermSameLog(n, h, lg, a.term, a.prev + 1 + x);
    }
  }

  /**
   Leader completeness: what a leader commits is in the log of every leader of a later
   term, and stays in its own log for the rest of its term.
   */
  lemma {:induction false} LeaderCompleteness(n: nat, states: seq<Cluster>, steps: seq<Step>, a: nat, b: nat, i: nat,
                                              j: nat)
    requires IsRun(n, states, steps) && RaceFree(states, steps)
    requires a < |steps| && b < |states| && i < n && j < n
    requires |states[a].peers| == |states[a + 1].peers| == |states[b].peers| == n
    requires steps[a] == RunCommit(i) && states[a + 1].peers[i].commit > states[a].peers[i].commit
    requires states[b].peers[j].role == Leader
    requires states[b].peers[j].term > states[a].peers[i].term ||
               (states[b].peers[j].term == states[a].peers[i].term && b > a)
    ensures var k := states[a + 1].peers[i].commit;
            && k < |states[a].peers[i].log| && k < |states[b].peers[j].log|
            && states[b].peers[j].log[..k + 1] == states[a].peers[i].log[..k + 1]
  {
    var hs := HistoryOf(n, states, steps);
    var p, q := states[a].peers[i], states[b].peers[j];
    var k := states[a + 1].peers[i].commit;
    var last := if a + 1 <= b then b else a + 1;
    CommitKnown(n, states, steps, hs, a, last, i);
    if q.term == p.term {
      SameLeaderGrows(n, states, steps, hs, a, b, i, j);
    }
    LeadersAtLast(n, states, steps, hs, a, b, last, i, j);
    LeaderHolds(n, hs[last], p.term, k, p.log, q.term, q.log);
  }

  lemma {:induction false} LeadersAtLast(n: nat, states: seq<Cluster>, steps: seq<Step>, hs: seq<History>,
                                         a: nat, b: nat, last: nat, i: nat, j: nat)
    requires Tracks(n, states, steps, hs) && a <= last && b <= last < |states| && i < n && j < n
    requires |states[a].peers| == |states[b].peers| == n
    requires states[a].peers[i].role == Leader && states[b].peers[j].role == Leader
    ensures HistoryOk(n, hs[last])
    ensures LedWith(hs[last], states[a].peers[i].term, states[a].peers[i].log)
    ensures LedWith(hs[last], states[b].peers[j].term, states[b].peers[j].log)
  {
    LeaderOfTerm(n, states, steps, hs, a, last, i);
    LeaderOfTerm(n, states, steps, hs, b, last, j);
    InvAt(n, states, steps, hs, last, i);
  }

  /** A commit that moved is a commit point of the history, of an entry of the leader's own term. */
  lemma {:induction false} CommitKnown(n: nat, states: seq<Cluster>, steps: seq<Step>, hs: seq<History>, a: nat,
                                       last: nat, i: nat)
    requires IsRun(n, states, steps) && Tracks(n, states, steps, hs) && a < |steps| && a < last < |states| && i < n
    requires |states[a].peers| == |states[a + 1].peers| == n
    requires steps[a] == RunCommit(i) && states[a + 1].peers[i].commit > states[a].peers[i].commit
    ensures var p, k := states[a].peers[i], states[a + 1].peers[i].commit;
            p.role == Leader && k < |p.log| && p.log[k].term == p.term && CommittedAt(hs[last], p.term, k)
  {
    var p, k := states[a].peers[i], states[a + 1].peers[i].commit;
    InvAt(n, states, steps, hs, a, i);
    AdvanceBranch(i, p);
    assert Advanced(states[a], states[a + 1], steps[a]);
    assert Extends(hs[a + 1], hs[last]);
    var c :| c in hs[a + 1].commits && c.term == p.term && c.index == k;
    assert c in hs[last].commits;
  }

  lemma {:induction false} SameLeaderGrows(n: nat, states: seq<Cluster>, steps: seq<Step>, hs: seq<History>, a: nat,
                                           b: nat, i: nat, j: nat)
    requires Tracks(n, states, steps, hs) && a <= b < |states| && i < n && j < n
    requires |states[a].peers| == |states[b].peers| == n
    requires states[a].peers[i].role == Leader && states[b].peers[j].role == Leader
    requires states[a].peers[i].term == states[b].peers[j].term
    ensures |states[a].peers[i].log| <= |states[b].peers[j].log|
  {
    LeaderOfTerm(n, states, steps, hs, a, b, i);
    InvAt(n, states, steps, hs, b, j);
  }

  lemma {:induction false} LeaderHolds(n: nat, h: History, t: nat, k: nat, lg: seq<Entry>, u: nat, later: seq<Entry>)
    requires HistoryOk(n, h) && CommittedAt(h, t, k) && LedWith(h, t, lg) && LedWith(h, u, later)
    requires k < |lg| && lg[k].term == t && (t < u || (t == u && |lg| <= |later|))
    ensures k < |later| && later[..k + 1] == lg[..k + 1]
  {
    if t < u {
      var c :| c in h.commits && c.term == t && c.index == k;
      assert Agree(h.reigns[u].log, h.reigns[t].log, k);
      assert h.reigns[u].log[k].term == t;
    }
    assert forall x | 0 <= x <= k :: later[x] == lg[x];
  }

  /** The leader holds the committed prefix. */
  ghost predicate Holds(lead: seq<Entry>, log: seq<Entry>, k: nat) {
    k < |log| && k < |lead| && lead[..k + 1] == log[..k + 1]
  }

  /**
   Leader completeness, exactly: a leader at any moment after a commit holds what was committed if and only if its
   term is not older than the term that committed it.
   */
  lemma {:induction false} CompleteIffTerm(n: nat, states: seq<Cluster>, steps: seq<Step>, a: nat, b: nat, i: nat,
                                           j: nat)
    requires IsRun(n, states, steps) && RaceFree(states, steps)
    requires a < b < |states| && i < n && j < n && a < |steps|
    requires |states[a].peers| == |states[a + 1].peers| == |states[b].peers| == n
    requires steps[a] == RunCommit(i) && states[a + 1].peers[i].commit > states[a].peers[i].commit
    requires states[b].peers[j].role == Leader
    ensures Holds(states[b].peers[j].log, states[a].peers[i].log, states[a + 1].peers[i].commit)
            <==> states[b].peers[j].term >= states[a].peers[i].term
  {
    var k := states[a + 1].peers[i].commit;
    if states[b].peers[j].term >= states[a].peers[i].term {
      LeaderCompleteness(n, states, steps, a, b, i, j);
    } else {
      var hs := HistoryOf(n, states, steps);
      CommitKnown(n, states, steps, hs, a, a + 1, i);
      var lead, log := states[b].peers[j].log, states[a].peers[i].log;
      if k < |lead| {
        LogTermsAscend(n, states, steps, b, j, k, k);
        assert lead[..k + 1][k] == lead[k] && log[..k + 1][k] == log[k];
      }
    }
  }

  // ---------------------------------------------------------------- delivery

  lemma {:induction false} CommitPointsAgree(n: nat, h: History, c: CommitPoint, d: CommitPoint, x: nat)
    requires CommitsOk(n, h) && Complete(h) && c in h.commits && d in h.commits && x <= c.index && x <= d.index
    ensures c.term in h.reigns && d.term in h.reigns
    ensures x < |h.reigns[c.term].log| && x < |h.reigns[d.term].log|
    ensures h.reigns[c.term].log[x] == h.reigns[d.term].log[x]
  {
    assert CommitOk(n, h, c);
    assert CommitOk(n, h, d);
    if c.term < d.term {
      assert Agree(h.reigns[d.term].log, h.reigns[c.term].log, c.index);
    } else if d.term < c.term {
      assert Agree(h.reigns[c.term].log, h.reigns[d.term].log, d.index);
    }
  }

  lemma {:induction false} OutputsAgree(n: nat, h: History, o: ApplyMsg, u: ApplyMsg)
    requires CommitsOk(n, h) && Complete(h) && OutputsOk(h) && o in h.outputs && u in h.outputs && o.index == u.index
    ensures o == u
  {
    var c :| c in h.commits && OutputBy(h, o, c);
    var d :| d in h.commits && OutputBy(h, u, d);
    CommitPointsAgree(n, h, c, d, o.index);
  }

  /**
   State machine safety: no two peers ever deliver different commands at the same
   index, before or after any crash, and each peer delivers the indices 1, 2, 3, ...
   in order from each restart on.
   */
  lemma {:induction false} StateMachineSafety(n: nat, states: seq<Cluster>, steps: seq<Step>, a: nat, b: nat, i: nat,
                                              j: nat, x: nat)
    requires IsRun(n, states, steps) && RaceFree(states, steps)
    requires a < |states| && b < |states| && i < n && j < n
    requires |states[a].peers| == n == |states[b].peers|
    requires x < |states[a].peers[i].delivered| && x < |states[b].peers[j].delivered|
    ensures states[a].peers[i].delivered[x] == states[b].peers[j].delivered[x]
    ensures states[a].peers[i].delivered[x].index == x + 1
  {
    var hs := HistoryOf(n, states, steps);
    var last := if a <= b then b else a;
    DeliveredAt(n, states, steps, hs, a, last, i, x);
    DeliveredAt(n, states, steps, hs, b, last, j, x);
    InvAt(n, states, steps, hs, last, i);
    OutputsAgree(n, hs[last], states[a].peers[i].delivered[x], states[b].peers[j].delivered[x]);
  }

  lemma {:induction false} DeliveredAt(n: nat, states: seq<Cluster>, steps: seq<Step>, hs: seq<History>, a: nat,
                                       b: nat, i: nat, x: nat)
    requires Tracks(n, states, steps, hs) && a <= b < |states| && i < n
    requires |states[a].peers| == n && x < |states[a].peers[i].delivered|
    ensures states[a].peers[i].delivered[x].index == x + 1
    ensures states[a].peers[i].delivered[x] in hs[b].outputs
  {
    InvAt(n, states, steps, hs, a, i);
    var p := states[a].peers[i];
    assert (p.delivered + p.queue)[x] == p.delivered[x];
    assert Extends(hs[a], hs[b]);
  }

  /** Committed prefixes agree: up to the smaller commit index, any two logs of the run are equal. */
  lemma {:induction false} CommittedPrefixesAgree(n: nat, states: seq<Cluster>, steps: seq<Step>, a: nat, b: nat,
                                                  i: nat, j: nat, x: nat)
    requires IsRun(n, states, steps) && RaceFree(states, steps)
    requires a < |states| && b < |states| && i < n && j < n
    requires |states[a].peers| == n == |states[b].peers|
    requires x <= states[a].peers[i].commit && x <= states[b].peers[j].commit
    ensures x < |states[a].peers[i].log| && x < |states[b].peers[j].log|
    ensures states[a].peers[i].log[x] == states[b].peers[j].log[x]
  {
    var hs := HistoryOf(n, states, steps);
    var last := if a <= b then b else a;
    CommittedLater(n, states, steps, hs, a, last, i);
    CommittedLater(n, states, steps, hs, b, last, j);
    var p, q, h := states[a].peers[i], states[b].peers[j], hs[last];
    if x > 0 {
      var c :| c in h.commits && CoveredBy(h, c, p.log, p.commit, p.term);
      var d :| d in h.commits && CoveredBy(h, d, q.log, q.commit, q.term);
      InvAt(n, states, steps, hs, last, i);
      CommitPointsAgree(n, h, c, d, x);
    }
  }

  lemma {:induction false} CommittedLater(n: nat, states: seq<Cluster>, steps: seq<Step>, hs: seq<History>, a: nat,
                                          b: nat, i: nat)
    requires Tracks(n, states, steps, hs) && a <= b < |states| && i < n
    ensures |states[a].peers| == n
    ensures var p := states[a].peers[i];
            p.commit < |p.log| && p.log[0] == NIL_ENTRY && Committed(hs[b], p.log, p.commit, p.term)
  {
    InvAt(n, states, steps, hs, a, i);
    assert Extends(hs[a], hs[b]);
    var p := states[a].peers[i];
    CommittedGrows(hs[a], hs[b], p.log, p.log, p.commit, p.term, p.term);
  }

  /**
   Whatever any peer has taken for committed is in the log of every later leader whose term is not older than that
   peer's was, entry for entry.
   */
  lemma {:induction false} LeaderHoldsCommitted(n: nat, states: seq<Cluster>, steps: seq<Step>, a: nat, b: nat, i: nat,
                                                j: nat)
    requires IsRun(n, states, steps) && RaceFree(states, steps) && a <= b < |states| && i < n && j < n
    requires |states[a].peers| == |states[b].peers| == n
    requires states[b].peers[j].role == Leader && states[b].peers[j].term >= states[a].peers[i].term
    ensures Holds(states[b].peers[j].log, states[a].peers[i].log, states[a].peers[i].commit)
  {
    var hs := HistoryOf(n, states, steps);
    var p, q := states[a].peers[i], states[b].peers[j];
    CommittedLater(n, states, steps, hs, a, b, i);
    RootedLater(n, states, steps, hs, a, b, i);
    InvAt(n, states, steps, hs, b, j);
    CommittedInReign(n, hs[b], p.log, p.commit, p.term, q.term);
  }

  /** What a peer has delivered is the start of what it holds committed. */
  lemma {:induction false} DeliveredIsLog(n: nat, states: seq<Cluster>, steps: seq<Step>, a: nat, i: nat, x: nat)
    requires IsRun(n, states, steps) && RaceFree(states, steps) && a < |states| && i < n
    requires |states[a].peers| == n && x < |states[a].peers[i].delivered|
    ensures var p := states[a].peers[i];
            x + 1 <= p.commit < |p.log| && p.delivered[x] == ApplyMsg(x + 1, p.log[x + 1].command)
  {
    var hs := HistoryOf(n, states, steps);
    InvAt(n, states, steps, hs, a, i);
    var p := states[a].peers[i];
    assert (p.delivered + p.queue)[x] == p.delivered[x];
  }

  // ---------------------------------------------------------------- bounds

  /**
   No index leaves its slice: commit and match indices stay inside the log, and a
   leader's next index never reaches 0, so no InstallSnapshot is ever sent.
   */
  lemma {:induction false} BoundsHold(n: nat, states: seq<Cluster>, steps: seq<Step>, a: nat, i: nat)
    requires IsRun(n, states, steps) && RaceFree(states, steps) && a < |states| && i < n
    ensures |states[a].peers| == n && WellFormed(n, states[a].peers[i]) && states[a].peers[i].base == 0
    ensures states[a].peers[i].applied <= states[a].peers[i].commit
    ensures MatchInRange(states[a].peers[i])
    ensures states[a].peers[i].role == Leader ==> forall to | 0 <= to < n :: InRange(states[a].peers[i], to)
    ensures forall m | m in states[a].net && m.AppendReplied? && m.dst == i ::
              ReplyInRange(states[a].peers[i], m.append)
  {
    var hs := HistoryOf(n, states, steps);
    InvAt(n, states, steps, hs, a, i);
    assert Inv(n, states[a], hs[a]);
    forall m | m in states[a].net && m.AppendReplied? && m.dst == i ensures ReplyInRange(states[a].peers[i], m.append) {
      assert MessageOk(n, m, hs[a]);
    }
  }

  // ---------------------------------------------------------------- persistence

  lemma {:induction false} AdvanceCommitRises(i: nat, p: Peer)
    requires |p.log| > 0 && i < |p.matched| && MatchInRange(p)
    ensures AdvanceCommit(i, p).commit >= p.commit && AdvanceCommit(i, p).term == p.term
    ensures AdvanceCommit(i, p).votedFor == p.votedFor
  {
  }

  /** One step: the term never goes back, a vote never changes within its term, not even by a crash. */
  lemma {:induction false} StepKeepsVote(n: nat, s: Cluster, step: Step, i: nat)
    requires Enabled(n, s, step) && i < n
    ensures |Next(n, s, step).peers| == n
    ensures Next(n, s, step).peers[i].term >= s.peers[i].term
    ensures Next(n, s, step).peers[i].term == s.peers[i].term && s.peers[i].votedFor.Some? ==>
              Next(n, s, step).peers[i].votedFor == s.peers[i].votedFor
    ensures step != Restart(i) ==> Next(n, s, step).peers[i].commit >= s.peers[i].commit
  {
    if step.RunCommit? {
      AdvanceCommitRises(step.i, s.peers[step.i]);
    }
  }

  /** Over any stretch of a run, racy or not: the term never goes back and a vote outlives every crash of its term. */
  lemma {:induction false} VotesPersist(n: nat, states: seq<Cluster>, steps: seq<Step>, a: nat, b: nat, i: nat)
    requires IsRun(n, states, steps) && a <= b < |states| && i < n
    ensures |states[a].peers| == n == |states[b].peers|
    ensures states[b].peers[i].term >= states[a].peers[i].term
    ensures states[b].peers[i].term == states[a].peers[i].term && states[a].peers[i].votedFor.Some? ==>
              states[b].peers[i].votedFor == states[a].peers[i].votedFor
    decreases b - a
  {
    PeerCount(n, states, steps, a);
    if a < b {
      VotesPersist(n, states, steps, a, b - 1, i);
      StepKeepsVote(n, states[b - 1], steps[b - 1], i);
    }
  }

  lemma {:induction false} PeerCount(n: nat, states: seq<Cluster>, steps: seq<Step>, a: nat)
    requires IsRun(n, states, steps) && a < |states|
    ensures |states[a].peers| == n
  {
    if a > 0 {
      assert states[a] == Next(n, states[a - 1], steps[a - 1]);
    }
  }
}
