/**
 Rebalancing shards over groups (src/shardkv1/shardcfg/shardcfg.go), as a function of the
 assignment and of the groups in ascending order, with its theorems: the result is
 balanced, and no balanced assignment changes fewer shards.
 */
module ShardBalance {
  import opened Loads

  /** How many shards group g has. */
  function Count(shards: seq<int>, g: int): (c: nat)
    ensures c <= |shards|
  {
    if shards == [] then 0 else
    Count(shards[..|shards| - 1], g) + if shards[|shards| - 1] == g then 1 else 0
  }

  function Counts(shards: seq<int>, gs: seq<int>): (cs: seq<nat>)
    ensures |cs| == |gs|
    ensures forall j | 0 <= j < |gs| :: cs[j] == Count(shards, gs[j])
  {
    seq(|gs|, j requires 0 <= j < |gs| => Count(shards, gs[j]))
  }

  predicate Ascending(gs: seq<int>) {
    forall i, j | 0 <= i < j < |gs| :: gs[i] < gs[j]
  }

  predicate Assigned(shards: seq<int>, gs: seq<int>) {
    forall s | 0 <= s < |shards| :: shards[s] in gs
  }

  /** How many shards belong to no group. */
  function Unassigned(shards: seq<int>, gs: seq<int>): nat {
    if shards == [] then 0 else
    Unassigned(shards[..|shards| - 1], gs) + if shards[|shards| - 1] in gs then 0 else 1
  }

  /** How many shards two assignments treat differently. */
  function Changes(a: seq<int>, b: seq<int>): nat
    requires |a| == |b|
  {
    if a == [] then 0 else
    Changes(a[..|a| - 1], b[..|b| - 1]) + if a[|a| - 1] == b[|b| - 1] then 0 else 1
  }

  function Least(shards: seq<int>, gs: seq<int>): int
    requires gs != []
  {
    gs[LeastIndex(Counts(shards, gs))]
  }

  /** The first loop: from shard s on, each shard without a group goes to the group that has least. */
  function Fill(shards: seq<int>, gs: seq<int>, s: nat): (r: seq<int>)
    requires gs != [] && s <= |shards|
    ensures |r| == |shards|
    decreases |shards| - s
  {
    if s == |shards| then shards
    else if shards[s] in gs then Fill(shards, gs, s + 1)
    else Fill(shards[s := Least(shards, gs)], gs, s + 1)
  }

  function FirstOf(shards: seq<int>, g: int): (s: nat)
    requires Count(shards, g) > 0
    ensures s < |shards| && shards[s] == g && forall t | 0 <= t < s :: shards[t] != g
  {
    if Count(shards[..|shards| - 1], g) > 0 then FirstOf(shards[..|shards| - 1], g)
    else
      CountZero(shards[..|shards| - 1], g);
      |shards| - 1
  }

  lemma {:induction false} CountZero(shards: seq<int>, g: int)
    ensures Count(shards, g) == 0 <==> forall t | 0 <= t < |shards| :: shards[t] != g
  {
    if shards != [] {
      CountZero(shards[..|shards| - 1], g);
    }
  }

  /** The second loop: one shard from the group that has most to the group that has least, until they are level. */
  function Level(shards: seq<int>, gs: seq<int>): (r: seq<int>)
    requires gs != [] && Ascending(gs)
    ensures |r| == |shards|
    decreases Squares(Counts(shards, gs))
  {
    var cs := Counts(shards, gs);
    var m, l := MostIndex(cs), LeastIndex(cs);
    if cs[m] < cs[l] + 2 then shards
    else
      var s := FirstOf(shards, gs[m]);
      MoveCounts(shards, gs, m, l, s);
      MoveShrinks(cs, m, l);
      Level(shards[s := gs[l]], gs)
  }

  /** Rebalance(): with no groups every shard goes to group 0. */
  function Rebalanced(shards: seq<int>, gs: seq<int>): (r: seq<int>)
    requires Ascending(gs)
    ensures |r| == |shards|
  {
    if gs == [] then seq(|shards|, i => 0) else Level(Fill(shards, gs, 0), gs)
  }

  // ---------------------------------------------------------------- one shard changes

  lemma {:induction false} CountChanged(shards: seq<int>, s: nat, h: int, g: int)
    requires s < |shards|
    ensures Count(shards[s := h], g) == Count(shards, g) - (if shards[s] == g then 1 else 0) + (if h == g then 1 else 0)
  {
    var n := |shards| - 1;
    if s == n {
      assert shards[s := h][..n] == shards[..n];
    } else {
      CountChanged(shards[..n], s, h, g);
      assert shards[s := h][..n] == shards[..n][s := h];
    }
  }

  lemma {:induction false} MoveCounts(shards: seq<int>, gs: seq<int>, m: nat, l: nat, s: nat)
    requires Ascending(gs) && m < |gs| && l < |gs| && m != l && s < |shards| && shards[s] == gs[m]
    requires Count(shards, gs[m]) > 0
    ensures Counts(shards[s := gs[l]], gs) == Moved(Counts(shards, gs), m, l)
  {
    var ds := Counts(shards[s := gs[l]], gs);
    forall j | 0 <= j < |gs| ensures ds[j] == Moved(Counts(shards, gs), m, l)[j] {
      CountChanged(shards, s, gs[l], gs[j]);
    }
  }

  lemma {:induction false} FillCounts(shards: seq<int>, gs: seq<int>, l: nat, s: nat)
    requires Ascending(gs) && l < |gs| && s < |shards| && shards[s] !in gs
    ensures Counts(shards[s := gs[l]], gs) == Counts(shards, gs)[l := Counts(shards, gs)[l] + 1]
  {
    var ds := Counts(shards[s := gs[l]], gs);
    forall j | 0 <= j < |gs| ensures ds[j] == Counts(shards, gs)[l := Counts(shards, gs)[l] + 1][j] {
      CountChanged(shards, s, gs[l], gs[j]);
    }
  }

  lemma {:induction false} UnassignedChanged(shards: seq<int>, gs: seq<int>, s: nat, h: int)
    requires s < |shards| && shards[s] !in gs && h in gs
    ensures Unassigned(shards[s := h], gs) == Unassigned(shards, gs) - 1
  {
    var n := |shards| - 1;
    if s == n {
      assert shards[s := h][..n] == shards[..n];
    } else {
      UnassignedChanged(shards[..n], gs, s, h);
      assert shards[s := h][..n] == shards[..n][s := h];
    }
  }

  lemma {:induction false} UnassignedNone(shards: seq<int>, gs: seq<int>)
    requires Assigned(shards, gs)
    ensures Unassigned(shards, gs) == 0
  {
    if shards != [] {
      UnassignedNone(shards[..|shards| - 1], gs);
    }
  }

  lemma {:induction false} ChangesStep(a: seq<int>, b: seq<int>, s: nat, h: int)
    requires |a| == |b| && s < |b|
    ensures Changes(a, b[s := h]) <= Changes(a, b) + 1
  {
    var n := |b| - 1;
    if s == n {
      assert b[s := h][..n] == b[..n];
    } else {
      ChangesStep(a[..n], b[..n], s, h);
      assert b[s := h][..n] == b[..n][s := h];
    }
  }

  lemma {:induction false} ChangesNone(a: seq<int>)
    ensures Changes(a, a) == 0
  {
    if a != [] {
      ChangesNone(a[..|a| - 1]);
    }
  }

  // ---------------------------------------------------------------- every shard is counted once

  lemma {:induction false} SumZero(cs: seq<nat>)
    requires forall j | 0 <= j < |cs| :: cs[j] == 0
    ensures Sum(cs) == 0
  {
    if cs != [] {
      SumZero(cs[1..]);
    }
  }

  /** The groups' counts and the shards without a group add up to all shards. */
  lemma {:induction false} CountsAddUp(shards: seq<int>, gs: seq<int>)
    requires Ascending(gs)
    ensures Sum(Counts(shards, gs)) + Unassigned(shards, gs) == |shards|
  {
    if shards == [] {
      SumZero(Counts(shards, gs));
    } else {
      var rest, g := shards[..|shards| - 1], shards[|shards| - 1];
      CountsAddUp(rest, gs);
      var cs, ds := Counts(rest, gs), Counts(shards, gs);
      if g in gs {
        var j :| 0 <= j < |gs| && gs[j] == g;
        assert ds == cs[j := cs[j] + 1];
        Changed(cs, j, cs[j] + 1, 0);
      } else {
        assert ds == cs;
      }
    }
  }

  // ---------------------------------------------------------------- the loops

  /** The even split: n shards over k groups are q each, and one more for r of the groups. */
  predicate Even(n: nat, k: nat, q: nat, r: nat) {
    n == k * q + r && r < k
  }

  lemma {:induction false} EvenSplit(n: nat, k: nat)
    requires k > 0
    ensures Even(n, k, n / k, n % k)
  {
  }

  /** How many shards must leave a group that stays. */
  function MustMove(shards: seq<int>, gs: seq<int>, q: nat, r: nat): nat {
    Need(Counts(shards, gs), q, r)
  }

  /** The first loop assigns every shard, changes one per shard without a group and makes no move necessary. */
  lemma {:induction false} FillAssigns(start: seq<int>, shards: seq<int>, gs: seq<int>, s: nat, q: nat, r: nat)
    requires Even(|shards|, |gs|, q, r)
    requires gs != [] && Ascending(gs) && s <= |shards| == |start|
    requires forall t | 0 <= t < s :: shards[t] in gs
    ensures var end := Fill(shards, gs, s);
            && Assigned(end, gs)
            && MustMove(end, gs, q, r) == MustMove(shards, gs, q, r)
            && Changes(start, end) <= Changes(start, shards) + Unassigned(shards, gs)
    decreases |shards| - s
  {
    if s < |shards| {
      if shards[s] in gs {
        FillAssigns(start, shards, gs, s + 1, q, r);
      } else {
        var l := LeastIndex(Counts(shards, gs));
        var next := shards[s := gs[l]];
        FillAssigns(start, next, gs, s + 1, q, r);
        FillCounts(shards, gs, l, s);
        UnassignedChanged(shards, gs, s, gs[l]);
        ChangesStep(start, shards, s, gs[l]);
        FillStepNeutral(shards, gs, s, q, r);
      }
    }
  }

  /** The first loop leaves the shards that have a group alone. */
  lemma {:induction false} FillKeeps(shards: seq<int>, gs: seq<int>, s: nat)
    requires gs != [] && s <= |shards|
    ensures forall t | 0 <= t < |shards| && (t < s || shards[t] in gs) :: Fill(shards, gs, s)[t] == shards[t]
    decreases |shards| - s
  {
    if s < |shards| {
      FillKeeps(if shards[s] in gs then shards else shards[s := Least(shards, gs)], gs, s + 1);
    }
  }

  lemma {:induction false} FillStepNeutral(shards: seq<int>, gs: seq<int>, s: nat, q: nat, r: nat)
    requires Even(|shards|, |gs|, q, r)
    requires gs != [] && Ascending(gs) && s < |shards| && shards[s] !in gs
    ensures MustMove(shards[s := Least(shards, gs)], gs, q, r) == MustMove(shards, gs, q, r)
  {
    var cs := Counts(shards, gs);
    var l := LeastIndex(cs);
    FillCounts(shards, gs, l, s);
    UnassignedChanged(shards, gs, s, gs[l]);
    CountsAddUp(shards, gs);
    FillNeutral(cs, q, r);
  }

  /** One move of the second loop: one change more, one shard less to move. */
  lemma {:induction false} LevelStep(start: seq<int>, shards: seq<int>, gs: seq<int>, q: nat, r: nat, m: nat, l: nat,
                                     s: nat)
    requires Even(|shards|, |gs|, q, r)
    requires gs != [] && Ascending(gs) && Assigned(shards, gs) && |start| == |shards|
    requires m == MostIndex(Counts(shards, gs)) && l == LeastIndex(Counts(shards, gs))
    requires Counts(shards, gs)[m] >= Counts(shards, gs)[l] + 2 && s == FirstOf(shards, gs[m])
    ensures var next := shards[s := gs[l]];
            && Assigned(next, gs) && Squares(Counts(next, gs)) < Squares(Counts(shards, gs))
            && Changes(start, next) <= Changes(start, shards) + 1
            && MustMove(shards, gs, q, r) == MustMove(next, gs, q, r) + 1
  {
    var cs := Counts(shards, gs);
    MoveCounts(shards, gs, m, l, s);
    MoveShrinks(cs, m, l);
    ChangesStep(start, shards, s, gs[l]);
    CountsAddUp(shards, gs);
    UnassignedNone(shards, gs);
    MoveNeeded(cs, m, l, q, r);
  }

  /** The second loop keeps every shard assigned, balances, and moves exactly as many shards as it must. */
  lemma {:induction false} LevelBalances(start: seq<int>, shards: seq<int>, gs: seq<int>, q: nat, r: nat)
    requires Even(|shards|, |gs|, q, r)
    requires gs != [] && Ascending(gs) && Assigned(shards, gs) && |start| == |shards|
    ensures var end := Level(shards, gs);
            && Assigned(end, gs)
            && Balanced(Counts(end, gs))
            && Changes(start, end) <= Changes(start, shards) + MustMove(shards, gs, q, r)
            && (MustMove(shards, gs, q, r) == 0 ==> end == shards)
    decreases Squares(Counts(shards, gs))
  {
    var cs := Counts(shards, gs);
    var m, l := MostIndex(cs), LeastIndex(cs);
    if cs[m] >= cs[l] + 2 {
      var s := FirstOf(shards, gs[m]);
      LevelStep(start, shards, gs, q, r, m, l, s);
      LevelBalances(start, shards[s := gs[l]], gs, q, r);
    }
  }

  /** Rebalance leaves every shard with a group of the configuration and no two groups more than one shard apart. */
  lemma {:induction false} RebalanceBalances(shards: seq<int>, gs: seq<int>, q: nat, r: nat)
    requires Even(|shards|, |gs|, q, r)
    requires gs != [] && Ascending(gs)
    ensures Assigned(Rebalanced(shards, gs), gs) && Balanced(Counts(Rebalanced(shards, gs), gs))
    ensures Changes(shards, Rebalanced(shards, gs)) <= Unassigned(shards, gs) + MustMove(shards, gs, q, r)
    ensures MustMove(shards, gs, q, r) == 0 ==>
              forall t | 0 <= t < |shards| && shards[t] in gs :: Rebalanced(shards, gs)[t] == shards[t]
  {
    ChangesNone(shards);
    FillKeeps(shards, gs, 0);
    FillAssigns(shards, shards, gs, 0, q, r);
    LevelBalances(shards, Fill(shards, gs, 0), gs, q, r);
  }

  /** Without groups every shard ends at group 0, wherever it was. */
  lemma {:induction false} NoGroupsUnassign(shards: seq<int>)
    ensures var end := Rebalanced(shards, []);
            |end| == |shards| && Count(end, 0) == |shards| && Unassigned(end, []) == |shards|
  {
    if shards != [] {
      var n := |shards| - 1;
      NoGroupsUnassign(shards[..n]);
      assert Rebalanced(shards, [])[..n] == Rebalanced(shards[..n], []);
    }
  }

  // ---------------------------------------------------------------- which shard moves where

  /** The group with least shards; of several the one with the smallest id. */
  predicate FirstLeast(shards: seq<int>, gs: seq<int>, g: int) {
    && g in gs
    && forall h | h in gs ::
         Count(shards, g) < Count(shards, h) || (Count(shards, g) == Count(shards, h) && g <= h)
  }

  /** The group with most shards; of several the one with the smallest id. */
  predicate FirstMost(shards: seq<int>, gs: seq<int>, g: int) {
    && g in gs
    && forall h | h in gs ::
         Count(shards, g) > Count(shards, h) || (Count(shards, g) == Count(shards, h) && g <= h)
  }

  /** The first shard without a group is given to the first group with least. */
  predicate FillMove(a: seq<int>, b: seq<int>, gs: seq<int>, s: nat, g: int) {
    && s < |a| && a[s] !in gs && (forall t | 0 <= t < s :: a[t] in gs)
    && FirstLeast(a, gs, g) && b == a[s := g]
  }

  /** All shards have a group, and the first shard of the first group with most goes to the first group with least. */
  predicate LevelMove(a: seq<int>, b: seq<int>, gs: seq<int>, s: nat, g: int) {
    && s < |a| && Assigned(a, gs) && (forall t | 0 <= t < s :: a[t] != a[s])
    && FirstMost(a, gs, a[s]) && FirstLeast(a, gs, g) && Count(a, a[s]) >= Count(a, g) + 2 && b == a[s := g]
  }

  ghost predicate MoveOf(a: seq<int>, b: seq<int>, gs: seq<int>) {
    exists s: nat, g :: FillMove(a, b, gs, s, g) || LevelMove(a, b, gs, s, g)
  }

  ghost predicate Trace(trace: seq<seq<int>>, gs: seq<int>) {
    |trace| > 0 && forall k | 0 <= k < |trace| - 1 :: MoveOf(trace[k], trace[k + 1], gs)
  }

  /** Every move is determined: shards and groups leave no choice, so all servers compute the same configuration. */
  lemma {:induction false} MovesDetermined(a: seq<int>, b: seq<int>, c: seq<int>, gs: seq<int>)
    requires MoveOf(a, b, gs) && MoveOf(a, c, gs)
    ensures b == c
  {
    var s: nat, g :| FillMove(a, b, gs, s, g) || LevelMove(a, b, gs, s, g);
    var t: nat, h :| FillMove(a, c, gs, t, h) || LevelMove(a, c, gs, t, h);
    assert g == h;
    if FillMove(a, b, gs, s, g) {
      assert FillMove(a, c, gs, t, h);
    } else {
      assert a[s] == a[t];
    }
    assert s == t;
  }

  lemma {:induction false} LeastIsFirst(shards: seq<int>, gs: seq<int>)
    requires gs != [] && Ascending(gs)
    ensures FirstLeast(shards, gs, Least(shards, gs))
    ensures FirstMost(shards, gs, gs[MostIndex(Counts(shards, gs))])
  {
    var cs := Counts(shards, gs);
    var l, m := LeastIndex(cs), MostIndex(cs);
    forall h | h in gs
      ensures Count(shards, gs[l]) < Count(shards, h) || (Count(shards, gs[l]) == Count(shards, h) && gs[l] <= h)
      ensures Count(shards, gs[m]) > Count(shards, h) || (Count(shards, gs[m]) == Count(shards, h) && gs[m] <= h)
    {
      var j :| 0 <= j < |gs| && gs[j] == h;
      assert cs[j] == Count(shards, h) && cs[l] == Count(shards, gs[l]) && cs[m] == Count(shards, gs[m]);
    }
  }

  lemma {:induction false} Prepend(a: seq<int>, trace: seq<seq<int>>, gs: seq<int>) returns (r: seq<seq<int>>)
    requires Trace(trace, gs) && MoveOf(a, trace[0], gs)
    ensures r == [a] + trace && Trace(r, gs)
  {
    r := [a] + trace;
    forall k | 0 <= k < |r| - 1 ensures MoveOf(r[k], r[k + 1], gs) {
      if k > 0 {
        assert MoveOf(trace[k - 1], trace[k], gs);
      }
    }
  }

  lemma {:induction false} LevelByMoves(shards: seq<int>, gs: seq<int>) returns (trace: seq<seq<int>>)
    requires gs != [] && Ascending(gs) && Assigned(shards, gs)
    ensures Trace(trace, gs) && trace[0] == shards && trace[|trace| - 1] == Level(shards, gs)
    decreases Squares(Counts(shards, gs))
  {
    var cs := Counts(shards, gs);
    var m, l := MostIndex(cs), LeastIndex(cs);
    if cs[m] < cs[l] + 2 {
      trace := [shards];
    } else {
      var s := FirstOf(shards, gs[m]);
      MoveCounts(shards, gs, m, l, s);
      MoveShrinks(cs, m, l);
      LeastIsFirst(shards, gs);
      assert LevelMove(shards, shards[s := gs[l]], gs, s, gs[l]);
      trace := LevelByMoves(shards[s := gs[l]], gs);
      trace := Prepend(shards, trace, gs);
    }
  }

  lemma {:induction false} FillByMoves(shards: seq<int>, gs: seq<int>, s: nat) returns (trace: seq<seq<int>>)
    requires gs != [] && Ascending(gs) && s <= |shards| && forall t | 0 <= t < s :: shards[t] in gs
    ensures Trace(trace, gs) && trace[0] == shards && trace[|trace| - 1] == Level(Fill(shards, gs, s), gs)
    decreases |shards| - s
  {
    if s == |shards| {
      trace := LevelByMoves(shards, gs);
    } else if shards[s] in gs {
      trace := FillByMoves(shards, gs, s + 1);
    } else {
      LeastIsFirst(shards, gs);
      var g := Least(shards, gs);
      assert FillMove(shards, shards[s := g], gs, s, g);
      trace := FillByMoves(shards[s := g], gs, s + 1);
      trace := Prepend(shards, trace, gs);
    }
  }

  lemma {:induction false} NoMoveLeft(shards: seq<int>, gs: seq<int>, next: seq<int>)
    requires Assigned(shards, gs) && Balanced(Counts(shards, gs))
    ensures !MoveOf(shards, next, gs)
  {
    forall s: nat, g ensures !LevelMove(shards, next, gs, s, g) {
      if s < |shards| && shards[s] in gs && g in gs {
        var i :| 0 <= i < |gs| && gs[i] == shards[s];
        var j :| 0 <= j < |gs| && gs[j] == g;
        assert Counts(shards, gs)[i] <= Counts(shards, gs)[j] + 1;
      }
    }
  }

  /**
   Rebalance is exactly this: as long as some shard has no group, the first such shard goes to the least loaded group;
   then, as long as two groups are two or more apart, the first shard of the most loaded group goes to the least loaded
   one; ties go to the smallest id. It stops when no such move is left. With MovesDetermined there is one such trace.
   */
  lemma {:induction false} RebalanceByMoves(shards: seq<int>, gs: seq<int>) returns (trace: seq<seq<int>>)
    requires gs != [] && Ascending(gs)
    ensures Trace(trace, gs) && trace[0] == shards && trace[|trace| - 1] == Rebalanced(shards, gs)
    ensures forall next :: !MoveOf(Rebalanced(shards, gs), next, gs)
  {
    trace := FillByMoves(shards, gs, 0);
    forall next ensures !MoveOf(Rebalanced(shards, gs), next, gs) {
      RebalancedRests(shards, gs, next);
    }
  }

  lemma {:induction false} RebalancedRests(shards: seq<int>, gs: seq<int>, next: seq<int>)
    requires gs != [] && Ascending(gs)
    ensures !MoveOf(Rebalanced(shards, gs), next, gs)
  {
    EvenSplit(|shards|, |gs|);
    RebalanceBalances(shards, gs, |shards| / |gs|, |shards| % |gs|);
    NoMoveLeft(Rebalanced(shards, gs), gs, next);
  }

  // ---------------------------------------------------------------- no assignment does better

  /** The shards that group g has in a and not in b. */
  function Departures(a: seq<int>, b: seq<int>, g: int): nat
    requires |a| == |b|
  {
    if a == [] then 0 else
    Departures(a[..|a| - 1], b[..|b| - 1], g) + if a[|a| - 1] == g && b[|b| - 1] != g then 1 else 0
  }

  lemma {:induction false} DeparturesBound(a: seq<int>, b: seq<int>, g: int)
    requires |a| == |b|
    ensures Departures(a, b, g) >= Minus(Count(a, g), Count(b, g))
  {
    if a != [] {
      DeparturesBound(a[..|a| - 1], b[..|b| - 1], g);
    }
  }

  function AllDepartures(a: seq<int>, b: seq<int>, gs: seq<int>): (ds: seq<nat>)
    requires |a| == |b|
    ensures |ds| == |gs| && forall j | 0 <= j < |gs| :: ds[j] == Departures(a, b, gs[j])
  {
    seq(|gs|, j requires 0 <= j < |gs| => Departures(a, b, gs[j]))
  }

  /** Every change is a departure from one group, or concerns a shard that had none. */
  lemma {:induction false} ChangesSplit(a: seq<int>, b: seq<int>, gs: seq<int>)
    requires |a| == |b| && Ascending(gs) && Assigned(b, gs)
    ensures Changes(a, b) == Unassigned(a, gs) + Sum(AllDepartures(a, b, gs))
  {
    if a == [] {
      SumZero(AllDepartures(a, b, gs));
    } else {
      ChangesSplit(a[..|a| - 1], b[..|b| - 1], gs);
      DeparturesStep(a, b, gs);
    }
  }

  lemma {:induction false} DeparturesStep(a: seq<int>, b: seq<int>, gs: seq<int>)
    requires |a| == |b| > 0 && Ascending(gs)
    ensures Sum(AllDepartures(a, b, gs)) == Sum(AllDepartures(a[..|a| - 1], b[..|b| - 1], gs)) +
            if a[|a| - 1] in gs && a[|a| - 1] != b[|b| - 1] then 1 else 0
  {
    var n := |a| - 1;
    var ds, es := AllDepartures(a[..n], b[..n], gs), AllDepartures(a, b, gs);
    if a[n] in gs && a[n] != b[n] {
      var j :| 0 <= j < |gs| && gs[j] == a[n];
      assert es == ds[j := ds[j] + 1];
      Changed(ds, j, ds[j] + 1, 0);
    } else {
      assert es == ds;
    }
  }

  lemma {:induction false} SumExceeds(ds: seq<nat>, cs: seq<nat>, ts: seq<nat>)
    requires |ds| == |cs| == |ts| && forall j | 0 <= j < |cs| :: ds[j] >= Minus(cs[j], ts[j])
    ensures Sum(ds) >= Excess(cs, ts)
  {
    if cs != [] {
      SumExceeds(ds[1..], cs[1..], ts[1..]);
    }
  }

  /** Any balanced assignment of the shards changes at least those without a group and those that must move. */
  lemma {:induction false} ChangesAtLeast(a: seq<int>, b: seq<int>, gs: seq<int>, q: nat, r: nat)
    requires Even(|a|, |gs|, q, r)
    requires |a| == |b| && gs != [] && Ascending(gs) && Assigned(b, gs) && Balanced(Counts(b, gs))
    ensures Changes(a, b) >= Unassigned(a, gs) + MustMove(a, gs, q, r)
  {
    ChangesSplit(a, b, gs);
    forall j | 0 <= j < |gs| ensures AllDepartures(a, b, gs)[j] >= Minus(Counts(a, gs)[j], Counts(b, gs)[j]) {
      DeparturesBound(a, b, gs[j]);
    }
    SumExceeds(AllDepartures(a, b, gs), Counts(a, gs), Counts(b, gs));
    CountsAddUp(b, gs);
    UnassignedNone(b, gs);
    NeedIsLowerBound(Counts(a, gs), Counts(b, gs), q, r);
  }

  /** Rebalance changes as few shards as any balanced assignment over the same groups, whatever it starts from. */
  lemma {:induction false} RebalanceIsMinimal(shards: seq<int>, gs: seq<int>, other: seq<int>, q: nat, r: nat)
    requires Even(|shards|, |gs|, q, r)
    requires gs != [] && Ascending(gs) && |other| == |shards|
    requires Assigned(other, gs) && Balanced(Counts(other, gs))
    ensures Changes(shards, Rebalanced(shards, gs)) <= Changes(shards, other)
    ensures Changes(shards, Rebalanced(shards, gs)) == Unassigned(shards, gs) + MustMove(shards, gs, q, r)
  {
    RebalanceBalances(shards, gs, q, r);
    ChangesAtLeast(shards, other, gs, q, r);
    ChangesAtLeast(shards, Rebalanced(shards, gs), gs, q, r);
  }

  // ---------------------------------------------------------------- joins and leaves

  lemma {:induction false} CountAsChanges(a: seq<int>, b: seq<int>, g: int)
    requires |a| == |b| && forall t | 0 <= t < |a| :: a[t] != g
    ensures Count(b, g) <= Changes(a, b)
    ensures Count(b, g) == Changes(a, b) ==> forall t | 0 <= t < |a| && a[t] != b[t] :: b[t] == g
  {
    if a != [] {
      CountAsChanges(a[..|a| - 1], b[..|b| - 1], g);
    }
  }

  /**
   Group j joins balanced groups: exactly the new even share q, the floor of the number of
   shards over the number of groups, moves, and all of it to the new group.
   */
  lemma {:induction false} JoinMoves(shards: seq<int>, gs: seq<int>, j: nat, q: nat, r: nat)
    requires Ascending(gs) && j < |gs| && |gs| >= 2 && Even(|shards|, |gs|, q, r)
    requires Assigned(shards, gs) && forall t | 0 <= t < |shards| :: shards[t] != gs[j]
    requires BalancedBut(Counts(shards, gs), j)
    ensures var end := Rebalanced(shards, gs);
            Changes(shards, end) == q && forall t | 0 <= t < |shards| && shards[t] != end[t] :: end[t] == gs[j]
  {
    var end := Rebalanced(shards, gs);
    CountZero(shards, gs[j]);
    CountsAddUp(shards, gs);
    UnassignedNone(shards, gs);
    JoinNeed(Counts(shards, gs), j, q, r);
    RebalanceBalances(shards, gs, q, r);
    RebalanceIsMinimal(shards, gs, end, q, r);
    CountsAddUp(end, gs);
    UnassignedNone(end, gs);
    BalancedShape(Counts(end, gs), q, r);
    CountAsChanges(shards, end, gs[j]);
  }

  /** Group `gone` leaves balanced groups: its shards move, no other does, and the second loop has nothing to do. */
  lemma {:induction false} LeaveMovesOnlyDeparted(shards: seq<int>, gs: seq<int>, gone: int)
    requires gs != [] && Ascending(gs) && gone !in gs
    requires forall t | 0 <= t < |shards| :: shards[t] in gs || shards[t] == gone
    requires Balanced(Counts(shards, gs))
    ensures var r := Rebalanced(shards, gs);
            && r == Fill(shards, gs, 0)
            && Changes(shards, r) == Count(shards, gone)
            && forall t | 0 <= t < |shards| && shards[t] != gone :: r[t] == shards[t]
  {
    EvenSplit(|shards|, |gs|);
    var q, r := |shards| / |gs|, |shards| % |gs|;
    CountsAddUp(shards, gs);
    LeaveNeed(Counts(shards, gs), q, r);
    RebalanceBalances(shards, gs, q, r);
    RebalanceIsMinimal(shards, gs, Rebalanced(shards, gs), q, r);
    UnassignedAreGone(shards, gs, gone);
    FillAssigns(shards, shards, gs, 0, q, r);
    LevelBalances(shards, Fill(shards, gs, 0), gs, q, r);
  }

  lemma {:induction false} UnassignedAreGone(shards: seq<int>, gs: seq<int>, gone: int)
    requires gone !in gs && forall t | 0 <= t < |shards| :: shards[t] in gs || shards[t] == gone
    ensures Unassigned(shards, gs) == Count(shards, gone)
  {
    if shards != [] {
      UnassignedAreGone(shards[..|shards| - 1], gs, gone);
    }
  }
}
