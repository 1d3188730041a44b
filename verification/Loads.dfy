/**
 Loads of a list of groups: the arithmetic behind shard rebalancing. cs[j] is the number
 of shards of group j. An even split of a total over k groups is q each and one more for
 r of them, where total == k * q + r and r < k.
 */
module Loads {
  import opened Basics

  function Sum(cs: seq<nat>): nat {
    if cs == [] then 0 else cs[0] + Sum(cs[1..])
  }

  /** x * x, as the sum of the first x odd numbers. */
  function Square(x: nat): nat {
    if x == 0 then 0 else Square(x - 1) + 2 * x - 1
  }

  function SquaresTo(cs: seq<nat>, n: nat): nat
    requires n <= |cs|
  {
    if n == 0 then 0 else SquaresTo(cs, n - 1) + Square(cs[n - 1])
  }

  function Squares(cs: seq<nat>): nat {
    SquaresTo(cs, |cs|)
  }

  function Minus(a: nat, b: nat): nat {
    if a > b then a - b else 0
  }

  /** What the groups hold above level q. */
  function Over(cs: seq<nat>, q: nat): nat {
    if cs == [] then 0 else Minus(cs[0], q) + Over(cs[1..], q)
  }

  /** What the groups lack below level q. */
  function Under(cs: seq<nat>, q: nat): nat {
    if cs == [] then 0 else Minus(q, cs[0]) + Under(cs[1..], q)
  }

  /** How many groups are above level q. */
  function Tall(cs: seq<nat>, q: nat): nat {
    if cs == [] then 0 else (if cs[0] > q then 1 else 0) + Tall(cs[1..], q)
  }

  /** No two loads are more than one apart. */
  predicate Balanced(cs: seq<nat>) {
    forall i, j | 0 <= i < |cs| && 0 <= j < |cs| :: cs[i] <= cs[j] + 1
  }

  /** How many shards have to leave their group before a total of |cs| * q + r can be balanced. */
  function Need(cs: seq<nat>, q: nat, r: nat): nat {
    TallBelowOver(cs, q);
    Over(cs, q) - Min(r, Tall(cs, q))
  }

  // ---------------------------------------------------------------- one group changes

  lemma {:induction false} SquaresChanged(cs: seq<nat>, i: nat, v: nat, n: nat)
    requires i < |cs| && n <= |cs|
    ensures SquaresTo(cs[i := v], n) == SquaresTo(cs, n) + if i < n then Square(v) - Square(cs[i]) else 0
  {
    if n > 0 {
      SquaresChanged(cs, i, v, n - 1);
    }
  }

  lemma {:induction false} Changed(cs: seq<nat>, i: nat, v: nat, q: nat)
    requires i < |cs|
    ensures Sum(cs[i := v]) == Sum(cs) - cs[i] + v
    ensures Over(cs[i := v], q) == Over(cs, q) - Minus(cs[i], q) + Minus(v, q)
    ensures Under(cs[i := v], q) == Under(cs, q) - Minus(q, cs[i]) + Minus(q, v)
    ensures Tall(cs[i := v], q) == Tall(cs, q) - (if cs[i] > q then 1 else 0) + (if v > q then 1 else 0)
  {
    if i == 0 {
      assert cs[i := v][1..] == cs[1..];
    } else {
      Changed(cs[1..], i - 1, v, q);
      assert cs[i := v][1..] == cs[1..][i - 1 := v];
    }
  }

  // ---------------------------------------------------------------- levels

  lemma {:induction false} Times(k: nat, q: nat)
    ensures (k + 1) * q == k * q + q && k * (q + 1) == k * q + k
  {
  }

  lemma {:induction false} TimesGrows(k: nat, q: nat, q': nat)
    requires q < q'
    ensures k * q + k <= k * q'
    decreases q' - q
  {
    Times(k, q);
    if q + 1 < q' {
      TimesGrows(k, q + 1, q');
    }
  }

  lemma {:induction false} SumSplits(cs: seq<nat>, q: nat)
    ensures Sum(cs) + Under(cs, q) == |cs| * q + Over(cs, q)
  {
    if cs != [] {
      SumSplits(cs[1..], q);
      Times(|cs[1..]|, q);
    }
  }

  lemma {:induction false} TallBelowOver(cs: seq<nat>, q: nat)
    ensures Tall(cs, q) <= Over(cs, q) && Tall(cs, q) <= |cs|
    ensures (exists i | 0 <= i < |cs| :: cs[i] >= q + 2) ==> Tall(cs, q) < Over(cs, q)
    ensures (forall i | 0 <= i < |cs| :: cs[i] <= q + 1) ==> Tall(cs, q) == Over(cs, q)
  {
    if cs != [] {
      TallBelowOver(cs[1..], q);
      if i :| 0 <= i < |cs| && cs[i] >= q + 2 {
        assert i > 0 ==> cs[1..][i - 1] == cs[i];
      }
    }
  }

  lemma {:induction false} UnderZero(cs: seq<nat>, q: nat)
    ensures Under(cs, q) == 0 <==> forall i | 0 <= i < |cs| :: cs[i] >= q
  {
    if cs != [] {
      UnderZero(cs[1..], q);
      assert forall i | 1 <= i < |cs| :: cs[i] == cs[1..][i - 1];
    }
  }

  lemma {:induction false} OverZero(cs: seq<nat>, q: nat)
    ensures Over(cs, q) == 0 <==> forall i | 0 <= i < |cs| :: cs[i] <= q
  {
    if cs != [] {
      OverZero(cs[1..], q);
      assert forall i | 1 <= i < |cs| :: cs[i] == cs[1..][i - 1];
    }
  }

  lemma {:induction false} TallAll(cs: seq<nat>, q: nat)
    ensures Tall(cs, q) == |cs| <==> forall i | 0 <= i < |cs| :: cs[i] > q
  {
    if cs != [] {
      TallBelowOver(cs[1..], q);
      TallAll(cs[1..], q);
      assert forall i | 1 <= i < |cs| :: cs[i] == cs[1..][i - 1];
    }
  }

  /** Loads within one of each other are the even split: q or q + 1, with exactly r groups at q + 1. */
  lemma {:induction false} BalancedShape(cs: seq<nat>, q: nat, r: nat)
    requires Balanced(cs) && Sum(cs) == |cs| * q + r && r < |cs|
    ensures Tall(cs, q) == r && forall i | 0 <= i < |cs| :: q <= cs[i] <= q + 1
  {
    var low := cs[LeastIndex(cs)];
    SumSplits(cs, low);
    UnderZero(cs, low);
    TallBelowOver(cs, low);
    TallAll(cs, low);
    if low < q {
      TimesGrows(|cs|, low, q);
    } else if low > q {
      TimesGrows(|cs|, q, low);
    }
  }

  // ---------------------------------------------------------------- extremes

  /** The first index of the smallest load. */
  function LeastIndex(cs: seq<nat>): (l: nat)
    requires |cs| > 0
    ensures l < |cs|
    ensures forall j | 0 <= j < |cs| :: cs[l] <= cs[j]
    ensures forall j | 0 <= j < l :: cs[l] < cs[j]
  {
    if |cs| == 1 then 0 else
    var l := LeastIndex(cs[..|cs| - 1]);
    if cs[|cs| - 1] < cs[l] then |cs| - 1 else l
  }

  /** The first index of the largest load. */
  function MostIndex(cs: seq<nat>): (m: nat)
    requires |cs| > 0
    ensures m < |cs|
    ensures forall j | 0 <= j < |cs| :: cs[j] <= cs[m]
    ensures forall j | 0 <= j < m :: cs[j] < cs[m]
  {
    if |cs| == 1 then 0 else
    var m := MostIndex(cs[..|cs| - 1]);
    if cs[|cs| - 1] > cs[m] then |cs| - 1 else m
  }

  lemma {:induction false} LeastAtMostEven(cs: seq<nat>, q: nat, r: nat)
    requires Sum(cs) <= |cs| * q + r && r < |cs|
    ensures cs[LeastIndex(cs)] <= q
  {
    Times(|cs|, q);
    SumSplits(cs, q + 1);
    UnderZero(cs, q + 1);
  }

  lemma {:induction false} MostAboveEven(cs: seq<nat>, q: nat, r: nat)
    requires Sum(cs) == |cs| * q + r && |cs| > 0 && cs[MostIndex(cs)] >= cs[LeastIndex(cs)] + 2
    ensures cs[MostIndex(cs)] > q
  {
    SumSplits(cs, q);
    UnderZero(cs, q);
    OverZero(cs, q);
  }

  // ---------------------------------------------------------------- the two kinds of move

  function Moved(cs: seq<nat>, m: nat, l: nat): seq<nat>
    requires m < |cs| && l < |cs| && cs[m] > 0 && m != l
  {
    cs[m := cs[m] - 1][l := cs[l] + 1]
  }

  /** A move from a larger to a smaller load, two apart or more, shrinks the sum of squares. */
  lemma {:induction false} MoveShrinks(cs: seq<nat>, m: nat, l: nat)
    requires m < |cs| && l < |cs| && cs[m] >= cs[l] + 2
    ensures Squares(Moved(cs, m, l)) < Squares(cs)
  {
    var ds := cs[m := cs[m] - 1];
    SquaresChanged(cs, m, cs[m] - 1, |cs|);
    SquaresChanged(ds, l, cs[l] + 1, |cs|);
    SquaresDrop(Squares(cs), Squares(ds), Squares(ds[l := cs[l] + 1]), cs[m], cs[l]);
  }

  lemma {:induction false} SquaresDrop(a: nat, b: nat, c: nat, high: nat, low: nat)
    requires high >= low + 2
    requires b == a - Square(high) + Square(high - 1) && c == b - Square(low) + Square(low + 1)
    ensures c == a - 2 * (high - low) + 2
  {
  }

  lemma {:induction false} MovedLevels(cs: seq<nat>, m: nat, l: nat, q: nat)
    requires m < |cs| && l < |cs| && cs[m] >= cs[l] + 2 && cs[l] <= q < cs[m]
    ensures Over(Moved(cs, m, l), q) == Over(cs, q) - 1 + (if cs[l] == q then 1 else 0)
    ensures Tall(Moved(cs, m, l), q) == Tall(cs, q) - (if cs[m] == q + 1 then 1 else 0) + (if cs[l] == q then 1 else 0)
  {
    var ds := cs[m := cs[m] - 1];
    Changed(cs, m, cs[m] - 1, q);
    Changed(ds, l, cs[l] + 1, q);
  }

  /** A move from the largest to the smallest load brings the groups exactly one shard closer to balance. */
  lemma {:induction false} MoveNeeded(cs: seq<nat>, m: nat, l: nat, q: nat, r: nat)
    requires Sum(cs) == |cs| * q + r && r < |cs| && m == MostIndex(cs) && l == LeastIndex(cs) && cs[m] >= cs[l] + 2
    ensures Need(cs, q, r) == Need(Moved(cs, m, l), q, r) + 1
  {
    LeastAtMostEven(cs, q, r);
    MostAboveEven(cs, q, r);
    MovedLevels(cs, m, l, q);
    SumSplits(cs, q);
    UnderZero(cs, q);
    TallBelowOver(cs, q);
    var cs' := Moved(cs, m, l);
    OneCloser(Over(cs, q), Under(cs, q), Tall(cs, q), Over(cs', q), Tall(cs', q), q, r, cs[m], cs[l]);
  }

  lemma {:induction false} OneCloser(over: nat, under: nat, tall: nat, over': nat, tall': nat, q: nat, r: nat,
                                     high: nat, low: nat)
    requires over == under + r && low <= q < high && high >= low + 2
    requires tall <= over && (high >= q + 2 ==> tall < over) && (high == q + 1 ==> tall == over)
    requires under == 0 <==> low >= q
    requires over' == over - 1 + (if low == q then 1 else 0)
    requires tall' == tall - (if high == q + 1 then 1 else 0) + (if low == q then 1 else 0)
    ensures over - Min(r, tall) == over' - Min(r, tall') + 1
  {
  }

  /** Giving an unassigned shard to the smallest load does not change what has to move. */
  lemma {:induction false} FillNeutral(cs: seq<nat>, q: nat, r: nat)
    requires Sum(cs) < |cs| * q + r && r < |cs|
    ensures Need(cs[LeastIndex(cs) := cs[LeastIndex(cs)] + 1], q, r) == Need(cs, q, r)
  {
    var l := LeastIndex(cs);
    LeastAtMostEven(cs, q, r);
    Changed(cs, l, cs[l] + 1, q);
    SumSplits(cs, q);
    UnderZero(cs, q);
    TallBelowOver(cs, q);
  }

  // ---------------------------------------------------------------- the lower bound

  /** The shards that must leave to get from loads cs to loads ts. */
  function Excess(cs: seq<nat>, ts: seq<nat>): nat
    requires |cs| == |ts|
  {
    if cs == [] then 0 else Minus(cs[0], ts[0]) + Excess(cs[1..], ts[1..])
  }

  lemma {:induction false} ExcessBound(cs: seq<nat>, ts: seq<nat>, q: nat)
    requires |cs| == |ts| && forall i | 0 <= i < |ts| :: q <= ts[i] <= q + 1
    ensures Excess(cs, ts) + Tall(ts, q) >= Over(cs, q)
    ensures Excess(cs, ts) + Tall(cs, q) >= Over(cs, q)
  {
    if cs != [] {
      ExcessBound(cs[1..], ts[1..], q);
    }
  }

  /** No balanced target can be reached with fewer departures than Need. */
  lemma {:induction false} NeedIsLowerBound(cs: seq<nat>, ts: seq<nat>, q: nat, r: nat)
    requires |cs| == |ts| && Balanced(ts) && Sum(ts) == |ts| * q + r && r < |ts|
    ensures Excess(cs, ts) >= Need(cs, q, r)
  {
    BalancedShape(ts, q, r);
    ExcessBound(cs, ts, q);
  }

  // ---------------------------------------------------------------- joining and leaving

  ghost predicate BalancedBut(cs: seq<nat>, j: nat) {
    forall a, b | 0 <= a < |cs| && 0 <= b < |cs| && a != j && b != j :: cs[a] <= cs[b] + 1
  }

  /** A group joins balanced groups: exactly the new even share q has to move. */
  lemma {:induction false} JoinNeed(cs: seq<nat>, j: nat, q: nat, r: nat)
    requires j < |cs| && cs[j] == 0 && BalancedBut(cs, j) && |cs| >= 2
    requires Sum(cs) == |cs| * q + r && r < |cs|
    ensures Need(cs, q, r) == q
  {
    OldGroupsAbove(cs, j, q, r);
    Changed(cs, j, q, q);
    UnderZero(cs[j := q], q);
    SumSplits(cs, q);
    TallBelowOver(cs, q);
    if exists i | 0 <= i < |cs| :: cs[i] >= q + 2 {
      AllTall(cs, j, q);
    }
  }

  /** The old groups all hold at least the new even share. */
  lemma {:induction false} OldGroupsAbove(cs: seq<nat>, j: nat, q: nat, r: nat)
    requires j < |cs| && cs[j] == 0 && BalancedBut(cs, j) && |cs| >= 2
    requires Sum(cs) == |cs| * q + r
    ensures forall a | 0 <= a < |cs| && a != j :: cs[a] >= q
  {
    if a :| 0 <= a < |cs| && a != j && cs[a] < q {
      SumSplits(cs, q);
      UnderZero(cs, q);
      OverZero(cs, q);
      assert false;
    }
  }

  /** If one old group is two above q, all old groups are above q. */
  lemma {:induction false} AllTall(cs: seq<nat>, j: nat, q: nat)
    requires j < |cs| && cs[j] == 0 && BalancedBut(cs, j) && exists i | 0 <= i < |cs| :: cs[i] >= q + 2
    ensures Tall(cs, q) == |cs| - 1
  {
    Changed(cs, j, q + 1, q);
    TallAll(cs[j := q + 1], q);
  }

  /** Balanced groups that together hold no more than the total need no move: new shards only fill them up. */
  lemma {:induction false} LeaveNeed(cs: seq<nat>, q: nat, r: nat)
    requires Balanced(cs) && Sum(cs) <= |cs| * q + r && r < |cs|
    ensures Need(cs, q, r) == 0
  {
    SumSplits(cs, q);
    TallBelowOver(cs, q);
    OverZero(cs, q);
    UnderZero(cs, q);
    LeastAtMostEven(cs, q, r);
  }
}
