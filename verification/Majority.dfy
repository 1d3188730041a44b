/**
 Majorities of a fixed set of peers, and the arithmetic with which a leader finds
 the highest log index that a strict majority of the peers holds.
 */
module Majority {
  import opened Basics


  /** The peers of a cluster of size n are numbered 0..n-1. */
  function Peers(n: nat): (s: set<nat>)
    ensures |s| == n
    ensures forall i: nat :: i in s <==> i < n
  {
    if n == 0 then {} else Peers(n - 1) + {n - 1}
  }

  /** A strict majority of the n peers. */
  predicate IsQuorum(n: nat, q: set<nat>) {
    q <= Peers(n) && 2 * |q| > n
  }

  /** Any two majorities of the same cluster share a peer. */
  lemma {:induction false} QuorumsMeet(n: nat, a: set<nat>, b: set<nat>) returns (i: nat)
    requires IsQuorum(n, a) && IsQuorum(n, b)
    ensures i in a && i in b && i < n
  {
    SubsetSize(a + b, Peers(n));
    assert |a + b| == |a| + |b| - |a * b|;
    i :| i in a * b;
  }

  predicate Descending(s: seq<nat>) {
    forall i, j | 0 <= i < j < |s| :: s[i] >= s[j]
  }

  function Insert(x: nat, s: seq<nat>): (r: seq<nat>)
    ensures |r| == |s| + 1
  {
    if s == [] || x >= s[0] then [x] + s else [s[0]] + Insert(x, s[1..])
  }

  /** The descending sort that commit() applies to its copy of the match indices. */
  function SortDescending(s: seq<nat>): (r: seq<nat>)
    ensures |r| == |s|
  {
    if s == [] then [] else Insert(s[0], SortDescending(s[1..]))
  }

  /** How many elements of s are at least v. */
  function CountAtLeast(s: seq<nat>, v: nat): (c: nat)
    ensures c <= |s|
  {
    if s == [] then 0 else (if s[0] >= v then 1 else 0) + CountAtLeast(s[1..], v)
  }

  lemma {:induction false} InsertBelow(x: nat, s: seq<nat>, top: nat)
    requires x <= top && forall i | 0 <= i < |s| :: s[i] <= top
    ensures forall i | 0 <= i < |s| + 1 :: Insert(x, s)[i] <= top
  {
    if s != [] && x < s[0] {
      InsertBelow(x, s[1..], top);
    }
  }

  lemma {:induction false} InsertSorts(x: nat, s: seq<nat>)
    requires Descending(s)
    ensures Descending(Insert(x, s))
  {
    if s != [] && x < s[0] {
      InsertSorts(x, s[1..]);
      InsertBelow(x, s[1..], s[0]);
    }
  }

  lemma {:induction false} InsertPermutes(x: nat, s: seq<nat>)
    ensures multiset(Insert(x, s)) == multiset{x} + multiset(s)
  {
    if s != [] && x < s[0] {
      InsertPermutes(x, s[1..]);
      assert s == [s[0]] + s[1..];
    }
  }

  /** The sort returns a descending permutation of its input. */
  lemma {:induction false} SortDescendingSorts(s: seq<nat>)
    ensures Descending(SortDescending(s))
    ensures multiset(SortDescending(s)) == multiset(s)
  {
    if s != [] {
      SortDescendingSorts(s[1..]);
      InsertSorts(s[0], SortDescending(s[1..]));
      InsertPermutes(s[0], SortDescending(s[1..]));
      assert s == [s[0]] + s[1..];
    }
  }

  lemma {:induction false} CountInsert(x: nat, s: seq<nat>, v: nat)
    ensures CountAtLeast(Insert(x, s), v) == CountAtLeast(s, v) + if x >= v then 1 else 0
  {
    var r := Insert(x, s);
    if s == [] || x >= s[0] {
      assert r[1..] == s;
    } else {
      CountInsert(x, s[1..], v);
      assert r[1..] == Insert(x, s[1..]);
    }
  }

  lemma {:induction false} CountSorted(s: seq<nat>, v: nat)
    ensures CountAtLeast(SortDescending(s), v) == CountAtLeast(s, v)
  {
    if s != [] {
      CountSorted(s[1..], v);
      CountInsert(s[0], SortDescending(s[1..]), v);
    }
  }

  lemma {:induction false} CountDescending(s: seq<nat>, v: nat, k: nat)
    requires Descending(s) && k < |s|
    ensures v <= s[k] <==> CountAtLeast(s, v) > k
  {
    if k == 0 {
      if v > s[0] {
        CountNone(s, v);
      }
    } else {
      CountDescending(s[1..], v, k - 1);
      if s[0] < v {
        CountNone(s, v);
      }
    }
  }

  lemma {:induction false} CountNone(s: seq<nat>, v: nat)
    requires forall i | 0 <= i < |s| :: s[i] < v
    ensures CountAtLeast(s, v) == 0
  {
    if s != [] {
      CountNone(s[1..], v);
    }
  }

  /** The index commit() picks: the element at len/2 of the descending copy. */
  function MajorityIndex(matched: seq<nat>): (m: nat)
    requires |matched| > 0
  {
    SortDescending(matched)[|matched| / 2]
  }

  /** MajorityIndex is exactly the largest value that a strict majority reaches. */
  lemma {:induction false} MajorityIndexExact(matched: seq<nat>, v: nat)
    requires |matched| > 0
    ensures v <= MajorityIndex(matched) <==> 2 * CountAtLeast(matched, v) > |matched|
  {
    SortDescendingSorts(matched);
    CountDescending(SortDescending(matched), v, |matched| / 2);
    CountSorted(matched, v);
  }

  /** The peers whose match index is at least v. */
  function Holders(matched: seq<nat>, v: nat): (q: set<nat>) {
    set i: nat | i < |matched| && matched[i] >= v
  }

  lemma {:induction false} HoldersCount(matched: seq<nat>, v: nat)
    ensures |Holders(matched, v)| == CountAtLeast(matched, v)
  {
    if matched == [] {
      assert Holders(matched, v) == {};
    } else {
      var rest := matched[1..];
      HoldersCount(rest, v);
      var shifted := set i | i in Holders(rest, v) :: i + 1;
      ShiftSize(Holders(rest, v), shifted);
      var first := if matched[0] >= v then {0} else {};
      forall i: nat ensures i in Holders(matched, v) <==> i in first + shifted {
        if i in Holders(matched, v) && i > 0 {
          assert i - 1 in Holders(rest, v);
        }
      }
      assert Holders(matched, v) == first + shifted;
    }
  }

  lemma {:induction false} ShiftSize(s: set<nat>, t: set<nat>)
    requires t == set i | i in s :: i + 1
    ensures |t| == |s|
  {
    if x :| x in s {
      ShiftSize(s - {x}, set i | i in s - {x} :: i + 1);
      var rest := set i | i in s - {x} :: i + 1;
      forall y ensures y in t <==> y in rest + {x + 1} {
        if y in t {
          var i :| i in s && y == i + 1;
          assert i == x || i in s - {x};
        }
      }
      assert t == rest + {x + 1};
    }
  }

  /** The peers that hold the majority index form a quorum. */
  lemma {:induction false} HoldersQuorum(matched: seq<nat>)
    requires |matched| > 0
    ensures IsQuorum(|matched|, Holders(matched, MajorityIndex(matched)))
  {
    var v := MajorityIndex(matched);
    MajorityIndexExact(matched, v);
    HoldersCount(matched, v);
  }
}
