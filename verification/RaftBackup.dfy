/**
 Fast backup (src/raft1/raft.go:527-556 and 734-783): after a rejected probe the leader
 jumps over whole terms. On logs as they occur in a run, every jump goes strictly back
 and never past the match point, so probing ends exactly where going back one index at a
 time would end, and in no more rounds.
 */
module RaftBackup {
  import opened Basics
  import opened RaftPeer
  import opened RaftCluster
  import opened RaftHistory
  import opened RaftSafety

  /** How two logs of a run relate: both ascend from the same placeholder, and equal terms mean equal prefixes. */
  ghost predicate Comparable(lead: seq<Entry>, follow: seq<Entry>) {
    && Ascending(lead) && Ascending(follow)
    && forall x, y | 0 <= y <= x < |lead| && x < |follow| && lead[x].term == follow[x].term ::
         lead[y].term == follow[y].term
  }

  ghost predicate Ascending(lg: seq<Entry>) {
    && |lg| > 0 && lg[0] == NIL_ENTRY
    && (forall x | 1 <= x < |lg| :: lg[x].term >= 1)
    && (forall x, y | 0 <= x <= y < |lg| :: lg[x].term <= lg[y].term)
  }

  /** m is the last index at which both logs have the same term. */
  ghost predicate MatchPoint(lead: seq<Entry>, follow: seq<Entry>, m: nat) {
    && m < |lead| && m < |follow| && lead[m].term == follow[m].term
    && forall x | m < x < |lead| && x < |follow| :: lead[x].term != follow[x].term
  }

  /** The probe with the given next index, as a leader of the follower's term sends it. */
  function Probe(lead: seq<Entry>, q: Peer, leader: nat, next: nat): AppendArgs
    requires 1 <= next <= |lead|
  {
    AppendArgs(q.term, leader, next - 1, lead[next - 1].term, [], 0)
  }

  function Answer(lead: seq<Entry>, q: Peer, leader: nat, next: nat): AppendReply
    requires 1 <= next <= |lead| && |q.log| > 0
  {
    HandleAppend(q, Probe(lead, q, leader, next)).1
  }

  lemma {:induction false} FirstOfTermExact(lg: seq<Entry>, index: nat)
    requires Ascending(lg) && 1 <= index < |lg|
    ensures var f := FirstOfTerm(lg, 0, index);
            1 <= f <= index && lg[f].term == lg[index].term && (f == 1 || lg[f - 1].term < lg[index].term)
  {
    if index > 1 && lg[index - 1].term == lg[index].term {
      FirstOfTermExact(lg, index - 1);
    }
  }

  lemma {:induction false} LastOfTermExact(lg: seq<Entry>, index: nat, term: nat)
    requires index < |lg|
    ensures var k := LastOfTerm(lg, 0, index, term);
            && (k == 0 || lg[k].term == term)
            && forall x | k < x <= index :: lg[x].term != term
  {
    if index > 0 && lg[index].term != term {
      LastOfTermExact(lg, index - 1, term);
    }
  }

  /** A probe is accepted exactly at or before the match point; a rejection moves next back, never past it. */
  lemma {:induction false} BackUpBounds(lead: seq<Entry>, q: Peer, leader: nat, next: nat, m: nat)
    requires Comparable(lead, q.log) && MatchPoint(lead, q.log, m) && q.base == 0
    requires 1 <= next <= |lead|
    ensures Answer(lead, q, leader, next).success <==> next - 1 <= m
    ensures !Answer(lead, q, leader, next).success ==>
              m + 1 <= BackUp(lead, 0, next - 1, lead[next - 1].term, Answer(lead, q, leader, next)) < next
  {
    var prev, r := next - 1, Answer(lead, q, leader, next);
    if prev < |q.log| && q.log[prev].term != lead[prev].term {
      assert prev > m;
      var c := q.log[prev].term;
      FirstOfTermExact(q.log, prev);
      LastOfTermExact(lead, prev, c);
      assert r == AppendReply(0, false, c, FirstOfTerm(q.log, 0, prev), |q.log|);
      assert q.log[m].term <= c && lead[m].term <= lead[prev].term;
    }
  }

  /**
   Where a rejection sends the leader. To a follower whose log is too short: to the end of that log. Otherwise, with c
   the follower's term at the probed index: right behind the leader's own last entry of term c up to there, or, if the
   leader has none, to the first entry of term c in the follower's log.
   */
  lemma {:induction false} BackUpExact(lead: seq<Entry>, q: Peer, leader: nat, next: nat)
    requires Comparable(lead, q.log) && q.base == 0 && 1 <= next <= |lead|
    requires !Answer(lead, q, leader, next).success
    ensures var to := BackUp(lead, 0, next - 1, lead[next - 1].term, Answer(lead, q, leader, next));
            if next - 1 >= |q.log| then
              to == |q.log|
            else
              && 1 <= to < next
              && var c := q.log[next - 1].term;
                 || (lead[to - 1].term == c && forall x | to <= x < next :: lead[x].term != c)
                 || (q.log[to].term == c && (forall x | 0 <= x < next :: lead[x].term != c)
                     && (forall x | 0 <= x < to :: q.log[x].term < c))
  {
    var prev, r := next - 1, Answer(lead, q, leader, next);
    if prev < |q.log| {
      var c := q.log[prev].term;
      FirstOfTermExact(q.log, prev);
      LastOfTermExact(lead, prev, c);
      assert r == AppendReply(0, false, c, FirstOfTerm(q.log, 0, prev), |q.log|);
      assert lead[0].term == 0 < c;
    }
  }

  /** The next index at which probing with fast backup ends. */
  ghost function FastProbe(lead: seq<Entry>, q: Peer, leader: nat, next: nat, m: nat): (r: (nat, nat))
    requires Comparable(lead, q.log) && MatchPoint(lead, q.log, m) && q.base == 0
    requires m < next <= |lead|
    ensures r.0 == m + 1
    decreases next
  {
    BackUpBounds(lead, q, leader, next, m);
    var answer := Answer(lead, q, leader, next);
    if answer.success then
      (next, 0)
    else
      var (end, rounds) := FastProbe(lead, q, leader, BackUp(lead, 0, next - 1, lead[next - 1].term, answer), m);
      (end, rounds + 1)
  }

  /** The same, going back by one index at a time. */
  ghost function SlowProbe(lead: seq<Entry>, q: Peer, leader: nat, next: nat, m: nat): (r: (nat, nat))
    requires Comparable(lead, q.log) && MatchPoint(lead, q.log, m) && q.base == 0
    requires m < next <= |lead|
    ensures r.0 == m + 1 && r.1 == next - 1 - m
    decreases next
  {
    BackUpBounds(lead, q, leader, next, m);
    if Answer(lead, q, leader, next).success then
      (next, 0)
    else
      var (end, rounds) := SlowProbe(lead, q, leader, next - 1, m);
      (end, rounds + 1)
  }

  /** Fast backup refines one-step backup: same end, no more rejected probes. */
  lemma {:induction false} FastRefinesSlow(lead: seq<Entry>, q: Peer, leader: nat, next: nat, m: nat)
    requires Comparable(lead, q.log) && MatchPoint(lead, q.log, m) && q.base == 0
    requires m < next <= |lead|
    ensures FastProbe(lead, q, leader, next, m).0 == SlowProbe(lead, q, leader, next, m).0 == m + 1
    ensures FastProbe(lead, q, leader, next, m).1 <= SlowProbe(lead, q, leader, next, m).1
    decreases next
  {
    BackUpBounds(lead, q, leader, next, m);
    var answer := Answer(lead, q, leader, next);
    if !answer.success {
      FastRefinesSlow(lead, q, leader, BackUp(lead, 0, next - 1, lead[next - 1].term, answer), m);
    }
  }

  /** The terms the follower has behind the match point and before `end`. */
  function TermsBehind(log: seq<Entry>, m: nat, end: nat): set<nat>
    requires end <= |log|
  {
    set x | m < x < end :: log[x].term
  }

  /** One rejection takes the conflicting term out of those still to be skipped. */
  lemma {:induction false} TermSkipped(lead: seq<Entry>, q: Peer, leader: nat, next: nat, m: nat)
    requires Comparable(lead, q.log) && MatchPoint(lead, q.log, m) && q.base == 0
    requires m < next <= |lead| && next <= |q.log| && !Answer(lead, q, leader, next).success
    ensures var to := BackUp(lead, 0, next - 1, lead[next - 1].term, Answer(lead, q, leader, next));
            to < next && |TermsBehind(q.log, m, to)| < |TermsBehind(q.log, m, next)|
  {
    BackUpBounds(lead, q, leader, next, m);
    BackUpExact(lead, q, leader, next);
    var c := q.log[next - 1].term;
    var to := BackUp(lead, 0, next - 1, lead[next - 1].term, Answer(lead, q, leader, next));
    var before, after := TermsBehind(q.log, m, next), TermsBehind(q.log, m, to);
    assert q.log[next - 1].term in before;
    forall x | m < x < to ensures q.log[x].term < c {
      assert q.log[x].term <= q.log[to - 1].term <= c;
      assert q.log[to - 1].term != lead[to - 1].term;
    }
    assert after <= before;
    SubsetSize(after, before - {c});
  }

  /**
   What makes it fast: one rejection for a log that is too short, and then at most one for each term that the follower
   has behind the match point, however many entries those terms have.
   */
  lemma {:induction false} FastRounds(lead: seq<Entry>, q: Peer, leader: nat, next: nat, m: nat)
    requires Comparable(lead, q.log) && MatchPoint(lead, q.log, m) && q.base == 0
    requires m < next <= |lead|
    ensures FastProbe(lead, q, leader, next, m).1 <=
              (if next > |q.log| then 1 else 0) + |TermsBehind(q.log, m, Min(next, |q.log|))|
    decreases next
  {
    BackUpBounds(lead, q, leader, next, m);
    var answer := Answer(lead, q, leader, next);
    if !answer.success {
      if next > |q.log| {
        BackUpExact(lead, q, leader, next);
      } else {
        TermSkipped(lead, q, leader, next, m);
      }
      FastRounds(lead, q, leader, BackUp(lead, 0, next - 1, lead[next - 1].term, answer), m);
    }
  }

  /** Any two logs of a race-free run are comparable, so the bounds apply to every probe of every run. */
  lemma {:induction false} LogsComparable(n: nat, states: seq<Cluster>, steps: seq<Step>, a: nat, b: nat, i: nat,
                                          j: nat)
    requires IsRun(n, states, steps) && RaceFree(states, steps)
    requires a < |states| && b < |states| && i < n && j < n
    ensures |states[a].peers| == n == |states[b].peers|
    ensures Comparable(states[a].peers[i].log, states[b].peers[j].log)
  {
    LogAscends(n, states, steps, a, i);
    LogAscends(n, states, steps, b, j);
    var lead, follow := states[a].peers[i].log, states[b].peers[j].log;
    forall x, y | 0 <= y <= x < |lead| && x < |follow| && lead[x].term == follow[x].term
      ensures lead[y].term == follow[y].term
    {
      LogMatching(n, states, steps, a, b, i, j, x);
      assert lead[..x + 1][y] == follow[..x + 1][y];
    }
  }

  lemma {:induction false} LogAscends(n: nat, states: seq<Cluster>, steps: seq<Step>, a: nat, i: nat)
    requires IsRun(n, states, steps) && RaceFree(states, steps) && a < |states| && i < n
    ensures |states[a].peers| == n && Ascending(states[a].peers[i].log)
  {
    var hs := HistoryOf(n, states, steps);
    InvAt(n, states, steps, hs, a, i);
    var lg := states[a].peers[i].log;
    forall x | 1 <= x < |lg| ensures lg[x].term >= 1 {
      assert RootedAt(lg, x, hs[a]);
      assert ReignOk(n, hs[a], lg[x].term);
    }
    forall x, y | 0 <= x <= y < |lg| ensures lg[x].term <= lg[y].term {
      LogTermsAscend(n, states, steps, a, i, x, y);
    }
  }

  // ---------------------------------------------------------------- every probe of a run

  /** Entries and commit index of a message do not matter for the answer. */
  lemma {:induction false} SameAnswer(lead: seq<Entry>, q: Peer, a: AppendArgs)
    requires |q.log| > 0 && a.term >= q.term && a.prev < |lead| && lead[a.prev].term == a.prevTerm
    ensures HandleAppend(q, a).1 == Answer(lead, q, a.leader, a.prev + 1)
  {
  }

  /** What a leader finds at the previous index of a message it sent earlier in its term. */
  lemma {:induction false} PrevStillThere(n: nat, states: seq<Cluster>, steps: seq<Step>, hs: seq<History>, k: nat,
                                          b: nat, i: nat, m: Message)
    requires Tracks(n, states, steps, hs) && k <= b < |states| && i < n
    requires m in states[k].net && m.Append?
    requires |states[b].peers| == n && states[b].peers[i].role == Leader && states[b].peers[i].term == m.append.term
    ensures m.append.prev < |states[b].peers[i].log| && states[b].peers[i].log[m.append.prev].term == m.append.prevTerm
  {
    InvAt(n, states, steps, hs, b, i);
    assert Inv(n, states[k], hs[k]);
    assert MessageOk(n, m, hs[k]);
    assert Extends(hs[k], hs[b]);
    var t := m.append.term;
    assert ReignGrows(t, hs[k].reigns[t], hs[b].reigns[t]);
  }

  /** What an answer says about the match point, and where a rejection sends the leader. */
  ghost predicate AnswerExact(p: Peer, a: AppendArgs, r: AppendReply, point: nat) {
    && a.prev < |p.log|
    && (r.success <==> a.prev <= point)
    && (!r.success ==> point + 1 <= BackUp(p.log, p.base, a.prev, a.prevTerm, r) <= a.prev)
  }

  lemma {:induction false} MessageAnswer(p: Peer, q: Peer, a: AppendArgs, point: nat)
    requires Comparable(p.log, q.log) && MatchPoint(p.log, q.log, point) && p.base == 0 && q.base == 0
    requires a.term >= q.term && a.prev < |p.log| && p.log[a.prev].term == a.prevTerm
    ensures AnswerExact(p, a, HandleAppend(q, a).1, point)
  {
    SameAnswer(p.log, q, a);
    BackUpBounds(p.log, q, a.leader, a.prev + 1, point);
  }

  lemma {:induction false} NoBase(n: nat, states: seq<Cluster>, steps: seq<Step>, hs: seq<History>, a: nat, i: nat)
    requires Tracks(n, states, steps, hs) && a < |states| && i < n
    ensures |states[a].peers| == n && states[a].peers[i].base == 0
  {
    InvAt(n, states, steps, hs, a, i);
  }

  /**
   In every race-free run: follower j handles a message of leader i at moment k, and at moment b peer i still leads
   that term. Unless the message was stale, it was accepted exactly when its previous index was at or before the match
   point of the two logs, and a rejection makes the leader try an index strictly smaller than the one it probed and
   never below one past the match point.
   */
  lemma {:induction false} RejectionBacksUp(n: nat, states: seq<Cluster>, steps: seq<Step>, k: nat, b: nat, j: nat,
                                            i: nat, m: Message, point: nat)
    requires IsRun(n, states, steps) && RaceFree(states, steps)
    requires k < |steps| && k <= b < |states| && i < n && steps[k] == OnAppend(j, m)
    requires Enabled(n, states[k], steps[k]) && |states[b].peers| == n
    requires states[b].peers[i].role == Leader && states[b].peers[i].term == m.append.term >= states[k].peers[j].term
    requires MatchPoint(states[b].peers[i].log, states[k].peers[j].log, point)
    ensures AnswerExact(states[b].peers[i], m.append, HandleAppend(states[k].peers[j], m.append).1, point)
  {
    var hs := HistoryOf(n, states, steps);
    PrevStillThere(n, states, steps, hs, k, b, i, m);
    NoBase(n, states, steps, hs, k, j);
    NoBase(n, states, steps, hs, b, i);
    LogsComparable(n, states, steps, b, k, i, j);
    MessageAnswer(states[b].peers[i], states[k].peers[j], m.append, point);
  }
}
