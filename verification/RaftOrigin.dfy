/**
 Where log entries come from: every entry of every log, at whatever index, was appended at
 that index by one call of Start on a leader. A command that is started once therefore has
 one place in all logs, before and after any crash and in racy runs too.
 */
module RaftOrigin {
  import opened RaftPeer
  import opened RaftCluster

  /** Step j is a call of Start that appends e at index x. */
  predicate Starts(s: Cluster, step: Step, x: nat, e: Entry) {
    && step.ClientStart? && step.i < |s.peers| && s.peers[step.i].role == Leader
    && |s.peers[step.i].log| == x && e == Entry(step.command, s.peers[step.i].term)
  }

  /** Some step before moment k started e at index x. */
  ghost predicate Started(states: seq<Cluster>, steps: seq<Step>, k: nat, x: nat, e: Entry) {
    exists j :: 0 <= j < k && j < |steps| && j < |states| && Starts(states[j], steps[j], x, e)
  }

  ghost predicate LogStarted(states: seq<Cluster>, steps: seq<Step>, k: nat, lg: seq<Entry>) {
    forall x {:trigger Started(states, steps, k, x, lg[x])} | 1 <= x < |lg| :: Started(states, steps, k, x, lg[x])
  }

  /** The entries as they are to stand from index `at` on. */
  ghost predicate EntriesStarted(states: seq<Cluster>, steps: seq<Step>, k: nat, at: nat, entries: seq<Entry>) {
    forall x {:trigger entries[x]} | 0 <= x < |entries| :: Started(states, steps, k, at + x, entries[x])
  }

  ghost predicate MessageStarted(states: seq<Cluster>, steps: seq<Step>, k: nat, m: Message) {
    m.Append? ==> EntriesStarted(states, steps, k, m.append.prev + 1, m.append.entries)
  }

  ghost predicate AllStarted(states: seq<Cluster>, steps: seq<Step>, k: nat, s: Cluster) {
    && (forall i {:trigger LogStarted(states, steps, k, s.peers[i].log)} | 0 <= i < |s.peers| ::
          LogStarted(states, steps, k, s.peers[i].log))
    && (forall m {:trigger MessageStarted(states, steps, k, m)} | m in s.net :: MessageStarted(states, steps, k, m))
  }

  lemma {:induction false} StartedLater(states: seq<Cluster>, steps: seq<Step>, k: nat, x: nat, e: Entry)
    requires Started(states, steps, k, x, e)
    ensures Started(states, steps, k + 1, x, e)
  {
  }

  lemma {:induction false} LogLater(states: seq<Cluster>, steps: seq<Step>, k: nat, lg: seq<Entry>)
    requires LogStarted(states, steps, k, lg)
    ensures LogStarted(states, steps, k + 1, lg)
  {
    forall x | 1 <= x < |lg| ensures Started(states, steps, k + 1, x, lg[x]) {
      StartedLater(states, steps, k, x, lg[x]);
    }
  }

  lemma {:induction false} MessageLater(states: seq<Cluster>, steps: seq<Step>, k: nat, m: Message)
    requires MessageStarted(states, steps, k, m)
    ensures MessageStarted(states, steps, k + 1, m)
  {
    if m.Append? {
      var at, entries := m.append.prev + 1, m.append.entries;
      forall x | 0 <= x < |entries| ensures Started(states, steps, k + 1, at + x, entries[x]) {
        StartedLater(states, steps, k, at + x, entries[x]);
      }
    }
  }

  /** Merging keeps every entry at its index. */
  lemma {:induction false} MergeStarted(states: seq<Cluster>, steps: seq<Step>, k: nat, lg: seq<Entry>, at: nat,
                                        entries: seq<Entry>)
    requires 1 <= at <= |lg| && LogStarted(states, steps, k, lg)
    requires EntriesStarted(states, steps, k, at, entries)
    ensures LogStarted(states, steps, k, Merge(lg, at, entries))
    decreases |entries|
  {
    if entries != [] {
      var rest := entries[1..];
      assert Started(states, steps, k, at + 0, entries[0]);
      forall x | 0 <= x < |rest| ensures Started(states, steps, k, at + 1 + x, rest[x]) {
        assert rest[x] == entries[x + 1];
      }
      var lg' := if at == |lg| then lg + [entries[0]]
                 else if lg[at].term != entries[0].term then lg[..at] + [entries[0]] else lg;
      forall x | 1 <= x < |lg'| ensures Started(states, steps, k, x, lg'[x]) {
        assert x < |lg| ==> Started(states, steps, k, x, lg[x]);
      }
      MergeStarted(states, steps, k, lg', at + 1, rest);
    }
  }

  lemma {:induction false} HandledStarted(states: seq<Cluster>, steps: seq<Step>, k: nat, p: Peer, m: Message)
    requires |p.log| > 0 && LogStarted(states, steps, k, p.log) && m.Append? && MessageStarted(states, steps, k, m)
    ensures LogStarted(states, steps, k, HandleAppend(p, m.append).0.log)
  {
    var a := m.append;
    if a.prev < |p.log| {
      MergeStarted(states, steps, k, p.log, a.prev + 1, a.entries);
    }
  }

  /** The log of the peer that moves. */
  lemma {:induction false} MovedLog(n: nat, states: seq<Cluster>, steps: seq<Step>, k: nat)
    requires k < |steps| && k < |states| && Enabled(n, states[k], steps[k])
    requires AllStarted(states, steps, k, states[k])
    ensures LogStarted(states, steps, k + 1, PeerAfter(n, states[k], steps[k]).log)
  {
    var s, step := states[k], steps[k];
    var p := s.peers[step.i];
    assert LogStarted(states, steps, k, p.log);
    LogLater(states, steps, k, p.log);
    match step
    case OnAppend(_, m) =>
      assert MessageStarted(states, steps, k, m);
      HandledStarted(states, steps, k, p, m);
      LogLater(states, steps, k, HandleAppend(p, m.append).0.log);
    case ClientStart(_, command) =>
      StartedHere(states, steps, k, p);
    case _ =>
      assert PeerAfter(n, s, step).log == p.log;
  }

  lemma {:induction false} StartedHere(states: seq<Cluster>, steps: seq<Step>, k: nat, p: Peer)
    requires k < |steps| && k < |states| && steps[k].ClientStart? && steps[k].i < |states[k].peers|
    requires p == states[k].peers[steps[k].i] && LogStarted(states, steps, k + 1, p.log)
    ensures LogStarted(states, steps, k + 1, StartCommand(p, steps[k].command).log)
  {
    var lg := StartCommand(p, steps[k].command).log;
    forall x | 1 <= x < |lg| ensures Started(states, steps, k + 1, x, lg[x]) {
      if x < |p.log| {
        assert Started(states, steps, k + 1, x, p.log[x]);
      } else {
        assert Starts(states[k], steps[k], x, lg[x]);
      }
    }
  }

  lemma {:induction false} SentStarted(n: nat, states: seq<Cluster>, steps: seq<Step>, k: nat, m: Message)
    requires k < |steps| && k < |states| && Enabled(n, states[k], steps[k])
    requires AllStarted(states, steps, k, states[k]) && m in Sent(n, states[k], steps[k])
    ensures MessageStarted(states, steps, k, m)
  {
    if m.Append? {
      var p, a := states[k].peers[steps[k].i], m.append;
      assert LogStarted(states, steps, k, p.log);
      var at := a.prev + 1;
      forall x | 0 <= x < |a.entries| ensures Started(states, steps, k, at + x, a.entries[x]) {
        assert a.entries[x] == p.log[at + x];
        assert Started(states, steps, k, at + x, p.log[at + x]);
      }
    }
  }

  lemma {:induction false} StepStarted(n: nat, states: seq<Cluster>, steps: seq<Step>, k: nat)
    requires k < |steps| && k < |states| && Enabled(n, states[k], steps[k])
    requires AllStarted(states, steps, k, states[k])
    ensures AllStarted(states, steps, k + 1, Next(n, states[k], steps[k]))
  {
    var s, step := states[k], steps[k];
    var s' := Next(n, s, step);
    MovedLog(n, states, steps, k);
    forall i | 0 <= i < |s'.peers| ensures LogStarted(states, steps, k + 1, s'.peers[i].log) {
      if i != step.i {
        assert LogStarted(states, steps, k, s.peers[i].log);
        LogLater(states, steps, k, s.peers[i].log);
      }
    }
    forall m | m in s'.net ensures MessageStarted(states, steps, k + 1, m) {
      if m !in s.net {
        SentStarted(n, states, steps, k, m);
      }
      assert MessageStarted(states, steps, k, m);
      MessageLater(states, steps, k, m);
    }
  }

  lemma {:induction false} StartedAt(n: nat, states: seq<Cluster>, steps: seq<Step>, k: nat)
    requires IsRun(n, states, steps) && k < |states|
    ensures AllStarted(states, steps, k, states[k])
  {
    if k > 0 {
      StartedAt(n, states, steps, k - 1);
      assert steps[k - 1] == steps[k - 1];
      StepStarted(n, states, steps, k - 1);
    }
  }

  /** The command is handed to Start of a leader at most once in the run. */
  ghost predicate StartedOnce(states: seq<Cluster>, steps: seq<Step>, command: Command) {
    forall j, k | 0 <= j < |steps| && 0 <= k < |steps| && StartsCommand(states, steps, j, command)
                  && StartsCommand(states, steps, k, command) :: j == k
  }

  predicate StartsCommand(states: seq<Cluster>, steps: seq<Step>, j: nat, command: Command)
    requires j < |steps|
  {
    && steps[j].ClientStart? && steps[j].command == command
    && j < |states| && steps[j].i < |states[j].peers| && states[j].peers[steps[j].i].role == Leader
  }

  /**
   One place for one Start: in every run, if a command is started once, all entries that hold it, in any logs at any
   moments, sit at the same index.
   */
  lemma {:induction false} OnePlace(n: nat, states: seq<Cluster>, steps: seq<Step>, command: Command,
                                    a: nat, b: nat, i: nat, j: nat, x: nat, y: nat)
    requires IsRun(n, states, steps) && StartedOnce(states, steps, command)
    requires a < |states| && b < |states| && i < |states[a].peers| && j < |states[b].peers|
    requires 1 <= x < |states[a].peers[i].log| && 1 <= y < |states[b].peers[j].log|
    requires states[a].peers[i].log[x].command == command == states[b].peers[j].log[y].command
    ensures x == y && states[a].peers[i].log[x] == states[b].peers[j].log[y]
  {
    StartedAt(n, states, steps, a);
    StartedAt(n, states, steps, b);
    var d, e := states[a].peers[i].log[x], states[b].peers[j].log[y];
    assert LogStarted(states, steps, a, states[a].peers[i].log);
    assert LogStarted(states, steps, b, states[b].peers[j].log);
    assert Started(states, steps, a, x, d);
    assert Started(states, steps, b, y, e);
    var k :| 0 <= k < a && k < |steps| && k < |states| && Starts(states[k], steps[k], x, d);
    var l :| 0 <= l < b && l < |steps| && l < |states| && Starts(states[l], steps[l], y, e);
    assert StartsCommand(states, steps, k, command) && StartsCommand(states, steps, l, command);
  }
}
