/**
 What the handlers of RaftPeer.dfy decide, for every peer and every message: when a vote
 must be granted, what a log holds after entries were accepted, how far a commit index
 must move. RaftSafety says that nothing wrong is ever done; this module says that the
 right thing is not left undone.
 */
module RaftRules {
  import opened Basics
  import opened Majority
  import opened RaftPeer

  function Max(a: nat, b: nat): nat {
    if a <= b then b else a
  }

  // ---------------------------------------------------------------- votes

  /** A log that ends with lastTerm at lastIndex is at least as up to date as lg (section 5.4.1 of the Raft paper). */
  predicate AtLeast(lastTerm: nat, lastIndex: nat, lg: seq<Entry>)
    requires |lg| > 0
  {
    lastTerm > LastTerm(lg) || (lastTerm == LastTerm(lg) && lastIndex >= LastIndex(lg))
  }

  /** The vote the peer has given in a term that is not over for it. */
  function VoteIn(p: Peer, term: nat): Option<nat> {
    if term == p.term then p.votedFor else None
  }

  /**
   A vote is granted if and only if the request is not of an older term and either the vote of that term is the
   candidate's already, or it is free and the candidate's log is at least as up to date. The asker learns of a newer
   term exactly when its own is older.
   */
  lemma {:induction false} VoteExact(p: Peer, a: VoteArgs)
    requires |p.log| > 0
    ensures var (q, r) := HandleRequestVote(p, a);
            && (r.granted <==>
                  && a.term >= p.term
                  && (VoteIn(p, a.term) == Some(a.candidate) ||
                      (VoteIn(p, a.term) == None && AtLeast(a.lastTerm, a.lastIndex, p.log))))
            && (r.term > a.term <==> a.term < p.term) && (!r.granted ==> r.term == q.term)
            && q.term == Max(p.term, a.term)
            && q.votedFor == (if r.granted then Some(a.candidate) else VoteIn(p, q.term))
            && q.role == (if a.term > p.term then Follower else p.role)
            && p == q.(term := p.term, votedFor := p.votedFor, role := p.role)
  {
  }

  /** A candidate whose log extends the voter's is never refused by a voter that has not voted in its term. */
  lemma {:induction false} ExtenderNotRefused(p: Peer, lg: seq<Entry>, a: VoteArgs)
    requires 0 < |p.log| <= |lg| && p.log == lg[..|p.log|]
    requires forall x | 0 <= x < |lg| :: lg[x].term <= LastTerm(lg)
    requires a.lastIndex == LastIndex(lg) && a.lastTerm == LastTerm(lg)
    requires a.term >= p.term && VoteIn(p, a.term) == None
    ensures HandleRequestVote(p, a).1.granted
  {
    VoteExact(p, a);
    assert lg[|p.log| - 1] == p.log[|p.log| - 1];
  }

  /**
   An election starts a term that is one up, with the candidate's own vote, and any peer that has not got there yet
   answers its request by the logs alone.
   */
  lemma {:induction false} ElectionExact(me: nat, p: Peer, q: Peer)
    requires |p.log| > 0 && |q.log| > 0 && q.term <= p.term
    ensures var (p', a) := BeginElection(me, p);
            && p'.term == p.term + 1 && VoteIn(p', p'.term) == Some(me) && p'.tally == {me} && !p'.electing
            && p'.electionTerm == p'.term && p'.log == p.log && p'.role == p.role
            && (HandleRequestVote(q, a).1.granted <==> AtLeast(LastTerm(p.log), LastIndex(p.log), q.log))
            && HandleRequestVote(q, a).0.term == p'.term
  {
    VoteExact(q, BeginElection(me, p).1);
  }

  /** The reply is a vote for the election that is still on. */
  predicate Counts(p: Peer, a: VoteArgs, r: VoteReply) {
    r.granted && r.term <= p.term && p.role == Candidate && p.term == a.term == p.electionTerm
  }

  /** A candidate becomes leader exactly when its voters, each counted once, are a strict majority with this reply. */
  lemma {:induction false} VoteReplyExact(n: nat, p: Peer, from: nat, a: VoteArgs, r: VoteReply)
    ensures var q := HandleVoteReply(n, p, from, a, r);
            && q.tally == (if Counts(p, a, r) then p.tally + {from} else p.tally)
            && (q.role == Leader && p.role != Leader <==> Counts(p, a, r) && 2 * |p.tally + {from}| > n)
            && (q.role == Leader && p.role != Leader ==>
                  |q.next| == |q.matched| == n && forall i | 0 <= i < n :: q.next[i] == |p.log| && q.matched[i] == 0)
            && (p.role == Leader && r.term <= p.term ==> q == p)
            && q.term == Max(p.term, r.term)
            && (r.term > p.term ==> q.role == Follower && q.votedFor == None)
            && (r.term <= p.term ==> q.votedFor == p.votedFor)
            && q.log == p.log && q.commit == p.commit && q.electionTerm == p.electionTerm
            && q.applied == p.applied && q.queue == p.queue && q.delivered == p.delivered
  {
  }

  // ---------------------------------------------------------------- accepting entries

  /** Entry x of the message is new to the log, or of another term than what stands in its place. */
  predicate Differs(log: seq<Entry>, at: nat, entries: seq<Entry>, x: nat)
    requires x < |entries|
  {
    at + x >= |log| || log[at + x].term != entries[x].term
  }

  /** The first index of the message that differs, or its length. */
  predicate FirstDifference(log: seq<Entry>, at: nat, entries: seq<Entry>, x: nat) {
    && x <= |entries|
    && (x < |entries| ==> Differs(log, at, entries, x))
    && forall y | 0 <= y < x :: !Differs(log, at, entries, y)
  }

  /**
   Accepted entries change the log from the first difference on and nowhere else: a message that tells nothing new
   loses nothing, and after a difference the log ends where the message ends.
   */
  lemma {:induction false} MergeExact(log: seq<Entry>, at: nat, entries: seq<Entry>, x: nat)
    requires at <= |log| && FirstDifference(log, at, entries, x)
    ensures at + x <= |log|
    ensures Merge(log, at, entries) == if x == |entries| then log else log[..at + x] + entries[x..]
    decreases |entries|
  {
    if x > 0 {
      var rest, after := entries[1..], at + 1;
      assert !Differs(log, at, entries, 0);
      RestDiffers(log, at, entries, x);
      MergeExact(log, after, rest, x - 1);
      assert entries[x..] == rest[x - 1..];
    } else if entries != [] {
      MergeReplaces(log, at, entries);
      assert entries[0..] == entries;
    }
  }

  lemma {:induction false} RestDiffers(log: seq<Entry>, at: nat, entries: seq<Entry>, x: nat)
    requires FirstDifference(log, at, entries, x) && x > 0
    ensures FirstDifference(log, at + 1, entries[1..], x - 1)
  {
    var rest, after := entries[1..], at + 1;
    assert forall y | 0 <= y < |rest| :: rest[y] == entries[y + 1];
    forall y | 0 <= y < x - 1 ensures !Differs(log, after, rest, y) {
      assert !Differs(log, at, entries, y + 1);
    }
  }

  /** From a difference on the message replaces the log. */
  lemma {:induction false} MergeReplaces(log: seq<Entry>, at: nat, entries: seq<Entry>)
    requires at <= |log| && entries != [] && Differs(log, at, entries, 0)
    ensures Merge(log, at, entries) == log[..at] + entries
  {
    var front, rest := log[..at] + [entries[0]], entries[1..];
    AppendAll(front, rest);
    assert at == |log| ==> log + [entries[0]] == front;
    assert front + rest == log[..at] + entries;
  }

  /** At the end of a log every entry is appended. */
  lemma {:induction false} AppendAll(log: seq<Entry>, entries: seq<Entry>)
    ensures Merge(log, |log|, entries) == log + entries
    decreases |entries|
  {
    if entries != [] {
      AppendAll(log + [entries[0]], entries[1..]);
      assert log + entries == log + [entries[0]] + entries[1..];
    }
  }

  lemma {:induction false} SomeFirstDifference(log: seq<Entry>, at: nat, entries: seq<Entry>) returns (x: nat)
    ensures FirstDifference(log, at, entries, x)
  {
    x := 0;
    while x < |entries| && !Differs(log, at, entries, x)
      invariant x <= |entries| && forall y | 0 <= y < x :: !Differs(log, at, entries, y)
    {
      x := x + 1;
    }
  }

  /** Equal terms at an index mean equal entries there, as between any two logs of a run. */
  predicate Matching(log: seq<Entry>, at: nat, entries: seq<Entry>) {
    forall x | 0 <= x < |entries| && at + x < |log| && log[at + x].term == entries[x].term :: log[at + x] == entries[x]
  }

  /** After the merge every entry of the message stands at its index, and what came before it is untouched. */
  lemma {:induction false} MergeHolds(log: seq<Entry>, at: nat, entries: seq<Entry>)
    requires at <= |log| && Matching(log, at, entries)
    ensures var r := Merge(log, at, entries);
            && r[..at] == log[..at] && r[at..at + |entries|] == entries
            && (r == log || |r| == at + |entries|)
  {
    var x := SomeFirstDifference(log, at, entries);
    MergeExact(log, at, entries, x);
    forall y | 0 <= y < x ensures at + y < |log| && log[at + y] == entries[y] {
      assert !Differs(log, at, entries, y);
    }
    SpliceHolds(log, at, entries, x, Merge(log, at, entries));
  }

  lemma {:induction false} SpliceHolds(log: seq<Entry>, at: nat, entries: seq<Entry>, x: nat, r: seq<Entry>)
    requires x <= |entries| && at + x <= |log| && forall y | 0 <= y < x :: log[at + y] == entries[y]
    requires r == if x == |entries| then log else log[..at + x] + entries[x..]
    ensures r[..at] == log[..at] && at + |entries| <= |r| && r[at..at + |entries|] == entries
    ensures r == log || |r| == at + |entries|
  {
    forall y | 0 <= y < |entries| ensures r[at + y] == entries[y] {
      if y >= x {
        assert r[at + y] == entries[x..][y - x];
      }
    }
  }

  /** The message goes on from an entry of the peer's log, in the slice it still has. */
  predicate Fits(p: Peer, a: AppendArgs) {
    p.base <= a.prev < |p.log| && p.log[a.prev].term == a.prevTerm
  }

  /** The hint of a rejection is the first index of the run of the conflicting term that ends at the probed index. */
  predicate RunOfTerm(log: seq<Entry>, base: nat, first: nat, last: nat) {
    && first <= last < |log|
    && (forall x | first <= x <= last :: log[x].term == log[last].term)
    && (first == last || first > base)
    && (first <= base + 1 || log[first - 1].term != log[last].term)
  }

  lemma {:induction false} FirstOfTermRun(log: seq<Entry>, base: nat, index: nat)
    requires index < |log|
    ensures RunOfTerm(log, base, FirstOfTerm(log, base, index), index)
  {
    if index > base + 1 && log[index - 1].term == log[index].term {
      FirstOfTermRun(log, base, index - 1);
    }
  }

  /**
   What an AppendEntries does. A stale one changes nothing and tells the newer term. Any other makes the peer a
   follower of its term; it succeeds exactly when it fits or starts before the snapshot. Where it fits, the commit
   index becomes the larger of its old value and what the leader has committed of the entries the message covers.
   A rejection says how long the log is and, unless that is too short, where the conflicting term starts.
   */
  lemma {:induction false} AppendExact(p: Peer, a: AppendArgs)
    requires |p.log| > 0
    ensures var (q, r) := HandleAppend(p, a);
            && (a.term < p.term ==> q == p && !r.success && r.term == p.term > a.term)
            && (a.term >= p.term ==>
                  && q.role == Follower && q.term == a.term && q.votedFor == VoteIn(p, a.term) && r.term <= a.term
                  && (r.success <==> Fits(p, a) || a.prev < Min(p.base, |p.log|))
                  && q.commit == (if Fits(p, a) then Max(p.commit, Min(a.commit, a.prev + |a.entries|)) else p.commit)
                  && (!Fits(p, a) ==> q.log == p.log && r.logLength == |p.log|)
                  && (!r.success && a.prev < |p.log| ==>
                        r.conflictTerm == p.log[a.prev].term && RunOfTerm(p.log, p.base, r.firstIndex, a.prev)))
            && p == q.(role := p.role, term := p.term, votedFor := p.votedFor, log := p.log, commit := p.commit)
  {
    if a.prev < |p.log| {
      FirstOfTermRun(p.log, p.base, a.prev);
    }
  }

  /** What the log holds after a message that fits: all of the message, and nothing lost that it does not contradict. */
  lemma {:induction false} AppendFits(p: Peer, a: AppendArgs)
    requires |p.log| > 0 && a.term >= p.term && Fits(p, a) && Matching(p.log, a.prev + 1, a.entries)
    ensures var q := HandleAppend(p, a).0;
            && q.log[..a.prev + 1] == p.log[..a.prev + 1] && |q.log| > a.prev + |a.entries|
            && q.log[a.prev + 1..a.prev + 1 + |a.entries|] == a.entries
            && (q.log == p.log || |q.log| == a.prev + 1 + |a.entries|)
  {
    MergeHolds(p.log, a.prev + 1, a.entries);
  }

  // ---------------------------------------------------------------- the leader's side

  /** A message carries nothing until the match point is known, and then the whole rest of the log. */
  lemma {:induction false} MessageExact(me: nat, p: Peer, to: nat)
    requires to < |p.next| && to < |p.matched| && 1 <= p.next[to] <= |p.log|
    ensures var a := MakeAppend(me, p, to);
            && a.term == p.term && a.leader == me && a.commit == p.commit
            && a.prev + 1 == p.next[to] && Fits(p.(base := 0), a)
            && p.log[a.prev + 1..a.prev + 1 + |a.entries|] == a.entries
            && a.prev + 1 + |a.entries| == (if p.next[to] == p.matched[to] + 1 then |p.log| else p.next[to])
  {
  }

  /** The reply is for the term this peer leads. */
  predicate Live(p: Peer, a: AppendArgs, r: AppendReply) {
    r.term <= p.term && p.role == Leader && p.term == a.term
  }

  /**
   What a reply does: a newer term makes the peer step down; a late reply does nothing; a success moves the match
   index to the end of the message and the next index right behind it, never back; a rejection moves the next index to
   where fast backup says, unless that is not above what is matched or compacted. No other peer's indices move.
   */
  lemma {:induction false} AppendReplyExact(p: Peer, from: nat, a: AppendArgs, r: AppendReply)
    requires from < |p.next| && from < |p.matched|
    requires p.role == Leader && p.term == a.term ==> a.prev < |p.log|
    ensures var q := HandleAppendReply(p, from, a, r);
            && (r.term > p.term ==> q.term == r.term && q.role == Follower && q.votedFor == None)
            && (r.term <= p.term && !Live(p, a, r) ==> q == p)
            && (Live(p, a, r) ==> p == q.(next := p.next, matched := p.matched))
            && |q.next| == |p.next| && |q.matched| == |p.matched|
            && (forall i | 0 <= i < |p.next| && i != from :: q.next[i] == p.next[i])
            && (forall i | 0 <= i < |p.matched| && i != from :: q.matched[i] == p.matched[i])
            && (Live(p, a, r) && r.success ==>
                  && q.matched[from] == Max(p.matched[from], a.prev + |a.entries|)
                  && q.next[from] == (if q.matched[from] > p.matched[from] then q.matched[from] + 1 else p.next[from]))
            && (Live(p, a, r) && !r.success ==>
                  var next := BackUp(p.log, p.base, a.prev, a.prevTerm, r);
                  && q.matched == p.matched
                  && q.next[from] == (if p.matched[from] < a.prev && Max(p.matched[from], p.base) < next then next
                                      else p.next[from]))
  {
  }

  /** v is the largest index that a strict majority reaches, the leader with its whole log. */
  ghost predicate MajorityReaches(me: nat, p: Peer, v: nat)
    requires |p.log| > 0 && me < |p.matched|
  {
    var reached := p.matched[me := |p.log| - 1];
    2 * CountAtLeast(reached, v) > |reached| && forall w: nat | w > v :: 2 * CountAtLeast(reached, w) <= |reached|
  }

  /**
   The commit index moves if and only if this peer leads and the largest index that a strict majority reaches is above
   it and holds an entry of the current term; then it moves there.
   */
  lemma {:induction false} CommitExact(me: nat, p: Peer, v: nat)
    requires |p.log| > 0 && me < |p.matched|
    requires p.role == Leader ==> forall i | 0 <= i < |p.matched| :: p.matched[i] < |p.log|
    requires p.role == Leader ==> MajorityReaches(me, p, v)
    ensures p.role == Leader ==> v < |p.log|
    ensures AdvanceCommit(me, p) ==
              p.(commit := if p.role == Leader && v > p.commit && p.log[v].term == p.term then v else p.commit)
  {
    if p.role == Leader {
      MajorityReachesOne(me, p, v);
      MajorityIndexBound(p.matched[me := |p.log| - 1], |p.log|);
    }
  }

  lemma {:induction false} MajorityReachesOne(me: nat, p: Peer, v: nat)
    requires |p.log| > 0 && me < |p.matched| && MajorityReaches(me, p, v)
    ensures v == MajorityIndex(p.matched[me := |p.log| - 1])
  {
    var reached := p.matched[me := |p.log| - 1];
    MajorityIndexExact(reached, MajorityIndex(reached));
    MajorityIndexExact(reached, v);
  }

  /** There is always such an index. */
  lemma {:induction false} MajorityReachesSome(me: nat, p: Peer) returns (v: nat)
    requires |p.log| > 0 && me < |p.matched|
    ensures MajorityReaches(me, p, v)
  {
    var reached := p.matched[me := |p.log| - 1];
    v := MajorityIndex(reached);
    MajorityIndexExact(reached, v);
    forall w: nat | w > v ensures 2 * CountAtLeast(reached, w) <= |reached| {
      MajorityIndexExact(reached, w);
    }
  }

  // ---------------------------------------------------------------- restart and delivery

  /** A crash keeps exactly what was persisted: everything else is as in a peer that has never run. */
  lemma {:induction false} RestartExact(n: nat, p: Peer)
    requires p.base < |p.log|
    ensures var r := RestartPeer(n, p);
            && r.term == p.term && r.votedFor == p.votedFor && r.log == p.log && r.base == p.base
            && FreshPeer(n) == r.(term := 0, votedFor := None, log := [NIL_ENTRY], base := 0)
  {
  }

  /** The peer after k sends on the apply channel. */
  ghost function Delivered(p: Peer, k: nat): (q: Peer)
    requires k <= |p.queue|
    ensures q == p.(queue := p.queue[k..], delivered := p.delivered + p.queue[..k])
  {
    if k == 0 then p else Deliver(Delivered(p, k - 1))
  }

  lemma {:induction false} MessagesJoin(log: seq<Entry>, from: nat, mid: nat, to: nat)
    requires from <= mid <= to <= |log|
    ensures Messages(log[from..mid], from) + Messages(log[mid..to], mid) == Messages(log[from..to], from)
  {
    var a, b, c := Messages(log[from..mid], from), Messages(log[mid..to], mid), Messages(log[from..to], from);
    assert |a + b| == |c|;
    forall i | 0 <= i < |c| ensures (a + b)[i] == c[i] {
      assert c[i] == ApplyMsg(from + i, log[from + i].command);
    }
  }

  lemma {:induction false} TakesAll(p: Peer)
    requires p.applied <= p.commit < |p.log| && p.queue == []
    requires p.delivered == Messages(p.log[1..p.applied + 1], 1)
    ensures var q := TakeBatch(p);
            && q == p.(queue := q.queue, applied := p.commit) && |q.queue| == p.commit - p.applied
            && p.delivered + q.queue == Messages(p.log[1..p.commit + 1], 1)
  {
    MessagesJoin(p.log, 1, p.applied + 1, p.commit + 1);
  }

  lemma {:induction false} SendsAll(p: Peer)
    ensures Delivered(p, |p.queue|) == p.(queue := [], delivered := p.delivered + p.queue)
  {
    assert p.queue[|p.queue|..] == [] && p.queue[..|p.queue|] == p.queue;
  }

  /** Once the applier has taken a batch and sent it, everything committed has been delivered, each index once. */
  lemma {:induction false} ApplierCatchesUp(p: Peer)
    requires p.applied <= p.commit < |p.log| && p.queue == []
    requires p.delivered == Messages(p.log[1..p.applied + 1], 1)
    ensures var q := TakeBatch(p);
            && q.applied == p.commit && |q.queue| == p.commit - p.applied
            && Delivered(q, |q.queue|) ==
                 p.(applied := p.commit, delivered := Messages(p.log[1..p.commit + 1], 1))
  {
    TakesAll(p);
    SendsAll(TakeBatch(p));
  }
}
