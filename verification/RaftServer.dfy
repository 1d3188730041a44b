/**
 The Raft peer of src/raft1/raft.go as the object it is: fields that handlers update in
 place under a lock, a slice that holds only the part of the log after the last
 snapshot, and a persister. Each method is proved to compute the function of
 RaftPeer.dfy on the whole logical log, which the ghost field `full` remembers, with
 every access inside the slice and with the persister up to date when the lock is released.
 */
module RaftServer {
  import opened Basics
  import opened Majority
  import opened RaftPeer

  /** What persist() writes. */
  datatype Persisted = Persisted(term: nat, votedFor: Option<nat>, logs: seq<Entry>, base: nat, baseTerm: nat)

  /** The variables of the peer's goroutines: ticker, vote collectors and applier. */
  datatype Locals = Locals(electing: bool, electionTerm: nat, tally: set<nat>, queue: seq<ApplyMsg>,
    delivered: seq<ApplyMsg>)

  datatype SnapshotArgs = SnapshotArgs(term: nat, leader: nat, index: nat, lastTerm: nat)

  /** What a leader sends to a follower. */
  datatype Sending = SendEntries(append: AppendArgs) | SendSnapshot(snapshot: SnapshotArgs)

  class Server {
    const me: nat
    const n: nat

    var role: Role
    var term: nat
    var votedFor: Option<nat>
    var logs: seq<Entry>        // the slice: logs[0] is the entry at index base
    var base: nat               // last_included_index_
    var baseTerm: nat           // last_included_term_
    var commit: nat
    var applied: nat
    var next: seq<nat>
    var matched: seq<nat>
    var local: Locals

    var saved: Persisted        // the persister

    ghost var full: seq<Entry>  // the log as if it had never been compacted

    /** The slice is the tail of the full log. */
    ghost predicate Sliced()
      reads this
    {
      me < n && base < |full| && logs == full[base..] && baseTerm == full[base].term
    }

    /** Memory and persister agree on what must survive a crash. */
    ghost predicate Saved()
      reads this
    {
      saved == Persisted(term, votedFor, logs, base, baseTerm)
    }

    ghost function View(): Peer
      reads this
    {
      Peer(role, term, votedFor, full, base, commit, applied, next, matched,
           local.electing, local.electionTerm, local.tally, local.queue, local.delivered)
    }

    /** What holds whenever the lock is free. That commit stays inside the log is a matter of the cluster. */
    ghost predicate Valid()
      reads this
    {
      Sliced() && Saved() && |next| == |matched| == n
    }

    constructor (me: nat, n: nat)
      requires me < n
      ensures Valid() && View() == FreshPeer(n) && this.me == me && this.n == n
    {
      this.me, this.n := me, n;
      role, term, votedFor := Follower, 0, None;
      logs, base, baseTerm := [NIL_ENTRY], 0, 0;
      commit, applied := 0, 0;
      next, matched := seq(n, i => 1), seq(n, i => 0);
      local := Locals(false, 0, {}, [], []);
      saved := Persisted(0, None, [NIL_ENTRY], 0, 0);
      full := [NIL_ENTRY];
    }

    /** Make() after a crash: everything volatile starts afresh, the rest is read back. */
    method Restart()
      requires Valid()
      modifies this
      ensures Valid() && View() == RestartPeer(n, old(View()))
    {
      ResetVolatile();
      var s := saved;
      term, votedFor, logs, base, baseTerm := s.term, s.votedFor, s.logs, s.base, s.baseTerm;
    }

    method ResetVolatile()
      modifies `role, `commit, `applied, `next, `matched, `local
      ensures View() == FreshPeer(n).(term := term, votedFor := votedFor, log := full, base := base)
    {
      role, commit, applied := Follower, 0, 0;
      next, matched := seq(n, i => 1), seq(n, i => 0);
      local := Locals(false, 0, {}, [], []);
      assert next == FreshPeer(n).next && matched == FreshPeer(n).matched;
    }

    method Persist()
      modifies `saved
      ensures Saved()
    {
      saved := Persisted(term, votedFor, logs, base, baseTerm);
    }

    function LogLength(): (r: nat)
      reads this
      ensures Sliced() ==> r == |full|
    {
      base + |logs|
    }

    function GetEntry(index: nat): (e: Entry)
      requires Sliced() && base <= index < |full|
      reads this
      ensures e == full[index]
    {
      logs[index - base]
    }

    function GetSlice(begin: nat, end: nat): (s: seq<Entry>)
      requires Sliced() && base <= begin <= end <= |full|
      reads this
      ensures s == full[begin..end]
    {
      logs[begin - base..end - base]
    }

    // -------------------------------------------------------------- elections

    method BecomeFollowerOf(newer: nat)
      requires Sliced()
      modifies `term, `role, `votedFor, `saved
      ensures Sliced() && Saved() && View() == StepDown(old(View()), newer)
    {
      term, role, votedFor := newer, Follower, None;
      Persist();
    }

    method RequestVote(a: VoteArgs) returns (r: VoteReply)
      requires Valid()
      modifies `term, `role, `votedFor, `saved
      ensures Valid() && (View(), r) == HandleRequestVote(old(View()), a)
    {
      if a.term < term {
        return VoteReply(term, false);
      }
      if a.term > term {
        BecomeFollowerOf(a.term);
      }
      if votedFor == Some(a.candidate) {
        return VoteReply(0, true);
      }
      if votedFor.Some? {
        return VoteReply(term, false);
      }
      var lastTerm := GetEntry(LogLength() - 1).term;
      if a.lastTerm > lastTerm {
        votedFor := Some(a.candidate);
        Persist();
        return VoteReply(term, true);
      }
      if a.lastTerm < lastTerm {
        return VoteReply(term, false);
      }
      if a.lastIndex >= LogLength() - 1 {
        votedFor := Some(a.candidate);
        Persist();
        return VoteReply(term, true);
      }
      return VoteReply(term, false);
    }

    /** The first lock-held section of startElection. */
    method StartElection() returns (a: VoteArgs)
      requires Valid()
      modifies `term, `votedFor, `saved, `local
      ensures Valid() && (View(), a) == BeginElection(me, old(View()))
    {
      var last := LogLength() - 1;
      a := VoteArgs(term + 1, me, last, GetEntry(last).term);
      term, votedFor := term + 1, Some(me);
      local := local.(electing := false, electionTerm := term, tally := {me});
      Persist();
    }

    /** Lines 922-926: the loop that sets every peer's next and match index. */
    method ResetIndices()
      requires |next| == |matched| == n && Sliced()
      modifies `next, `matched
      ensures |next| == |matched| == n && forall k | 0 <= k < n :: next[k] == |full| && matched[k] == 0
    {
      var i, length := 0, LogLength();
      while i < n
        invariant 0 <= i <= n && |next| == |matched| == n
        invariant forall k | 0 <= k < i :: next[k] == length && matched[k] == 0
      {
        next, matched := next[i := length], matched[i := 0];
        i := i + 1;
      }
    }

    method OnVoteReply(from: nat, a: VoteArgs, r: VoteReply)
      requires Valid()
      modifies `term, `role, `votedFor, `saved, `local, `next, `matched
      ensures Valid() && View() == HandleVoteReply(n, old(View()), from, a, r)
    {
      if r.term > term {
        BecomeFollowerOf(r.term);
        return;
      }
      if role != Candidate || term != a.term || local.electionTerm != a.term {
        return;
      }
      if r.granted {
        local := local.(tally := local.tally + {from});
        if |local.tally| > n / 2 {
          role := Leader;
          ResetIndices();
          assert next == seq(n, i => |old(full)|) && matched == seq(n, i => 0);
        }
      }
    }

    // -------------------------------------------------------------- replication

    /** Lines 546-549: the first index of the conflicting term that is still in the slice. */
    method FirstConflict(prev: nat) returns (first: nat)
      requires Sliced() && base <= prev < |full|
      ensures first == FirstOfTerm(full, base, prev)
    {
      first := prev;
      var conflictTerm := GetEntry(prev).term;
      while first > base + 1 && GetEntry(first - 1).term == conflictTerm
        invariant base <= first <= prev && full[first].term == conflictTerm
        invariant FirstOfTerm(full, base, first) == FirstOfTerm(full, base, prev)
      {
        first := first - 1;
      }
    }

    /** Lines 562-583: the entries go in one by one; a conflict overwrites and truncates. */
    method MergeEntries(at: nat, entries: seq<Entry>) returns (modified: bool)
      requires Sliced() && base < at <= |full|
      modifies `logs, `full
      ensures Sliced() && full == Merge(old(full), at, entries)
      ensures !modified ==> full == old(full)
    {
      modified := false;
      var k := 0;
      assert entries[0..] == entries;
      while k < |entries|
        invariant 0 <= k <= |entries| && Sliced() && at + k <= |full|
        invariant Merge(full, at + k, entries[k..]) == Merge(old(full), at, entries)
        invariant !modified ==> full == old(full)
      {
        var e := entries[k];
        assert entries[k..][0] == e && entries[k..][1..] == entries[k + 1..];
        var index := at + k;
        if index == LogLength() {
          full := full + [e];
          logs := logs + [e];
          modified := true;
        } else if GetEntry(index).term != e.term {
          full := full[..index] + [e];
          logs := logs[index - base := e][..index + 1 - base];
          modified := true;
        }
        k := k + 1;
      }
    }

    /** Lines 590-603: the commit index follows the leader's as far as the message reaches. */
    method FollowCommit(upto: nat, covered: nat)
      requires Valid()
      modifies `commit, `saved
      ensures Valid()
      ensures var reach := Min(Min(upto, |full| - 1), covered);
              commit == if reach <= old(commit) then old(commit) else reach
    {
      var reach := Min(Min(upto, LogLength() - 1), covered);
      if reach > commit {
        commit := reach;
        Persist();
      }
    }

    /** Lines 561-588: the entries are merged and the log is saved if it changed. */
    method TakeEntries(at: nat, entries: seq<Entry>)
      requires Valid() && base < at <= |full|
      modifies `logs, `full, `saved
      ensures Valid() && full == Merge(old(full), at, entries)
    {
      var modified := MergeEntries(at, entries);
      if modified {
        Persist();
      }
    }

    /** Lines 558-609: the previous entry matches. */
    method AcceptEntries(a: AppendArgs) returns (r: AppendReply)
      requires Valid() && base <= a.prev < |full|
      modifies `logs, `full, `commit, `saved
      ensures Valid() && (View(), r) == AcceptAppend(old(View()), a)
    {
      TakeEntries(a.prev + 1, a.entries);
      r := AppendReply(0, true, 0, 0, 0);
      FollowCommit(a.commit, a.prev + |a.entries|);
    }

    method AppendEntries(a: AppendArgs) returns (r: AppendReply)
      requires Valid()
      modifies `term, `votedFor, `role, `logs, `full, `commit, `saved
      ensures Valid() && (View(), r) == HandleAppend(old(View()), a)
    {
      if a.term < term {
        return AppendReply(term, false, 0, 0, 0);
      }
      Follow(a.term);
      if LogLength() <= a.prev {
        return AppendReply(0, false, 0, 0, LogLength());
      }
      if a.prev < base {
        return AppendReply(0, true, 0, 0, LogLength());
      }
      var conflictTerm := GetEntry(a.prev).term;
      if conflictTerm != a.prevTerm {
        var first := FirstConflict(a.prev);
        return AppendReply(0, false, conflictTerm, first, LogLength());
      }
      r := AcceptEntries(a);
    }

    /** Lines 517-525: a newer term is adopted and persisted, and the peer follows. */
    method Follow(t: nat)
      requires Valid() && t >= term
      modifies `term, `votedFor, `role, `saved
      ensures Valid()
      ensures View() == old(View()).(term := t, votedFor := if t > old(term) then None else old(votedFor),
                                     role := Follower)
    {
      if t > term {
        term, votedFor := t, None;
        Persist();
      }
      role := Follower;
    }

    /** sendAppendEntriesHelper: entries while the slice still has them, the snapshot otherwise. */
    method MakeAppendTo(to: nat) returns (r: Sending)
      requires Valid() && to < n && next[to] <= |full|
      ensures next[to] <= base ==> r == SendSnapshot(SnapshotArgs(term, me, base, baseTerm))
      ensures next[to] > base ==> r == SendEntries(MakeAppend(me, View(), to))
    {
      if next[to] <= base {
        return SendSnapshot(SnapshotArgs(term, me, base, baseTerm));
      }
      var prev := next[to] - 1;
      var entries := [];
      if next[to] == matched[to] + 1 {
        entries := GetSlice(prev + 1, LogLength());
      }
      r := SendEntries(AppendArgs(term, me, prev, GetEntry(prev).term, entries, commit));
    }

    /** Lines 751-754: the leader's search for the conflicting term. */
    method SearchTerm(prev: nat, conflictTerm: nat) returns (k: nat)
      requires Sliced() && prev < |full|
      ensures k == LastOfTerm(full, base, prev, conflictTerm)
    {
      k := prev;
      while k > base && GetEntry(k).term != conflictTerm && k > 0
        invariant k <= prev
        invariant LastOfTerm(full, base, k, conflictTerm) == LastOfTerm(full, base, prev, conflictTerm)
      {
        k := k - 1;
      }
    }

    method OnAppendReply(from: nat, a: AppendArgs, r: AppendReply)
      requires Valid() && from < n
      requires role == Leader && term == a.term ==> a.prev < |full|
      modifies `term, `role, `votedFor, `saved, `next, `matched
      ensures Valid() && View() == HandleAppendReply(old(View()), from, a, r)
    {
      if r.term > term {
        BecomeFollowerOf(r.term);
        return;
      }
      if role != Leader || term != a.term {
        return;
      }
      if !r.success {
        if matched[from] >= a.prev {
          return;
        }
        var newNext := 0;
        if r.logLength <= a.prev {
          newNext := r.logLength;
        } else if r.conflictTerm > a.prevTerm {
          newNext := r.firstIndex;
        } else {
          var k := SearchTerm(a.prev, r.conflictTerm);
          newNext := if k == base then r.firstIndex else k + 1;
        }
        if matched[from] >= newNext || newNext <= base {
          return;
        }
        next := next[from := newNext];
        return;
      }
      var newMatch := a.prev + |a.entries|;
      if newMatch > matched[from] {
        matched := matched[from := newMatch];
        next := next[from := matched[from] + 1];
      }
    }

    /** commit(). A majority index above commit but before the snapshot would make the source panic (line 95). */
    method RunCommit()
      requires Valid()
      requires role == Leader ==> forall i | 0 <= i < n :: matched[i] < |full|
      requires role == Leader ==>
                 var m := MajorityIndex(matched[me := |full| - 1]); m <= commit || base <= m
      modifies `commit
      ensures Valid() && View() == AdvanceCommit(me, old(View()))
    {
      if role != Leader {
        return;
      }
      var copy := SortDescending(matched[me := LogLength() - 1]);
      var m := copy[n / 2];
      assert m == MajorityIndex(matched[me := |full| - 1]);
      MajorityIndexBound(matched[me := |full| - 1], |full|);
      if m > commit && GetEntry(m).term == term {
        commit := m;
      }
    }

    /** Start(): the index and term the command would commit at. */
    method Start(command: Command) returns (index: nat, startTerm: nat, isLeader: bool)
      requires Valid()
      modifies `logs, `full, `saved
      ensures Valid() && View() == StartCommand(old(View()), command)
      ensures isLeader == (role == Leader) && startTerm == term
      ensures isLeader ==> index == |old(full)| && full[index] == Entry(command, term)
      ensures !isLeader ==> index == commit
    {
      if role != Leader {
        return commit, term, false;
      }
      full := full + [Entry(command, term)];
      logs := logs + [Entry(command, term)];
      Persist();
      return LogLength() - 1, term, true;
    }

    // -------------------------------------------------------------- delivery

    method ApplierTake()
      requires Valid() && base <= applied <= commit < |full|
      modifies `local, `applied
      ensures Valid() && View() == TakeBatch(old(View()))
    {
      var entries := GetSlice(applied + 1, commit + 1);
      local := local.(queue := local.queue + Messages(entries, applied + 1));
      applied := commit;
    }

    method ApplierSend() returns (m: ApplyMsg)
      requires Valid() && local.queue != []
      modifies `local
      ensures Valid() && View() == Deliver(old(View())) && m == old(local.queue[0])
    {
      m := local.queue[0];
      local := local.(queue := local.queue[1..], delivered := local.delivered + [m]);
    }

    // -------------------------------------------------------------- compaction

    /** Snapshot(): the slice is cut, the log it stands for is not. */
    method Snapshot(index: nat)
      requires Valid() && applied < |full|
      modifies `logs, `base, `baseTerm, `saved
      ensures Valid()
      ensures View() == old(View()).(base := if old(base) < index <= applied then index else old(base))
    {
      if index > applied || index <= base {
        return;
      }
      logs, base, baseTerm := GetSlice(index, LogLength()), index, GetEntry(index).term;
      Persist();
    }

    /** Lines 644-655: the slice is cut at the snapshot, or replaced when the log does not hold it. */
    method MoveBase(index: nat, lastTerm: nat)
      requires Valid() && index > base
      modifies `logs, `full, `base, `baseTerm
      ensures Sliced() && base == index && baseTerm == lastTerm
      ensures index < |old(full)| && old(full)[index].term == lastTerm ==> full == old(full)
      ensures !(index < |old(full)| && old(full)[index].term == lastTerm) ==>
                logs == [Entry("", lastTerm)] && |full| == index + 1
    {
      if LogLength() > index && GetEntry(index).term == lastTerm {
        logs := GetSlice(index, LogLength());
      } else {
        logs, full := [NIL_ENTRY], seq(index, i => NIL_ENTRY) + [Entry("", lastTerm)];
      }
      base, baseTerm := index, lastTerm;
      logs := logs[0 := Entry(logs[0].command, lastTerm)];
      assert logs == full[base..];
    }

    /**
     InstallSnapshot(). If the log reaches the snapshot with the same term, only the slice
     is cut. Otherwise the whole log is replaced by a placeholder at the snapshot index.
     */
    method InstallSnapshot(a: SnapshotArgs) returns (replyTerm: nat)
      requires Valid()
      modifies `logs, `full, `base, `baseTerm, `commit, `saved
      ensures Valid() && replyTerm == old(term)
      ensures a.term < term || a.index <= old(base) ==> View() == old(View())
      ensures a.term >= term && a.index > old(base) ==>
                base == a.index && baseTerm == a.lastTerm &&
                commit == if old(commit) >= a.index then old(commit) else a.index
      ensures a.term >= term && old(base) < a.index < |old(full)| && old(full)[a.index].term == a.lastTerm ==>
                full == old(full)
      ensures a.term >= term && old(base) < a.index &&
                !(a.index < |old(full)| && old(full)[a.index].term == a.lastTerm) ==>
                logs == [Entry("", a.lastTerm)] && |full| == a.index + 1
    {
      replyTerm := term;
      if a.term < term {
        return;
      }
      if a.index <= base {
        return;
      }
      MoveBase(a.index, a.lastTerm);
      commit := if commit >= a.index then commit else a.index;
      Persist();
    }
  }

  /**
   Compaction is invisible: on a message that starts at or after the snapshot, a compacted
   peer takes the same decision, builds the same log and moves its commit index as the
   uncompacted peer does; only the conflict hint stops at the end of the slice.
   */
  lemma {:induction false} CompactionInvisible(p: Peer, a: AppendArgs)
    requires p.base < |p.log| && p.base <= a.prev
    ensures var (q, r) := HandleAppend(p, a);
            var (q0, r0) := HandleAppend(p.(base := 0), a);
            && q == q0.(base := p.base)
            && r == r0.(firstIndex := r.firstIndex)
            && (r.firstIndex == r0.firstIndex || r0.firstIndex <= r.firstIndex == Min(a.prev, p.base + 1))
  {
    if a.prev < |p.log| {
      FirstOfTermAbove(p.log, p.base, a.prev);
    }
  }

  lemma {:induction false} FirstOfTermAbove(lg: seq<Entry>, base: nat, index: nat)
    requires base <= index < |lg|
    ensures FirstOfTerm(lg, base, index) == FirstOfTerm(lg, 0, index)
            || FirstOfTerm(lg, 0, index) <= FirstOfTerm(lg, base, index) == Min(index, base + 1)
  {
    if index > base + 1 && lg[index - 1].term == lg[index].term {
      FirstOfTermAbove(lg, base, index - 1);
    }
  }
}
