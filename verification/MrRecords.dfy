/**
 The records of a MapReduce job (src/mr/worker.go, src/main/mrsequential.go): key/value
 pairs, the order of their keys, sorting, the partition into reduce slices, and what it
 means for a list of records to be the reduction of a multiset of pairs.
 */
module MrRecords {
  datatype KeyValue = KeyValue(key: string, value: string)

  // ---------------------------------------------------------------- the order of keys

  /** Go's < on strings. */
  predicate Less(a: string, b: string) {
    b != "" && (a == "" || a[0] < b[0] || (a[0] == b[0] && Less(a[1..], b[1..])))
  }

  lemma {:induction false} LessTotal(a: string, b: string)
    ensures a == b ==> !Less(a, b)
    ensures a != b ==> Less(a, b) != Less(b, a)
  {
    if a != "" && b != "" && a[0] == b[0] {
      LessTotal(a[1..], b[1..]);
      assert a == [a[0]] + a[1..] && b == [b[0]] + b[1..];
    }
  }

  lemma {:induction false} LessTransitive(a: string, b: string, c: string)
    requires Less(a, b) && Less(b, c)
    ensures Less(a, c)
  {
    if a != "" && a[0] == b[0] == c[0] {
      LessTransitive(a[1..], b[1..], c[1..]);
    }
  }

  predicate Sorted(kvs: seq<KeyValue>) {
    forall i, j | 0 <= i < j < |kvs| :: !Less(kvs[j].key, kvs[i].key)
  }

  /** What sort.Sort(ByKey(kvs)) may leave: it does not keep the order of equal keys. */
  predicate IsSortOf(sorted: seq<KeyValue>, kvs: seq<KeyValue>) {
    Sorted(sorted) && multiset(sorted) == multiset(kvs)
  }

  lemma {:induction false} InsertKeepsSorted(kvs: seq<KeyValue>, i: nat, kv: KeyValue)
    requires Sorted(kvs) && i <= |kvs|
    requires forall k | i <= k < |kvs| :: Less(kv.key, kvs[k].key)
    requires i > 0 ==> !Less(kv.key, kvs[i - 1].key)
    ensures Sorted(kvs[..i] + [kv] + kvs[i..])
  {
    var r := kvs[..i] + [kv] + kvs[i..];
    forall a, b | 0 <= a < b < |r| ensures !Less(r[b].key, r[a].key) {
      if a == i {
        assert r[b] == kvs[b - 1];
        LessTotal(kv.key, kvs[b - 1].key);
      } else if b == i {
        assert r[a] == kvs[a];
        LessTotal(kv.key, kvs[i - 1].key);
        LessTotal(kvs[a].key, kvs[i - 1].key);
        if Less(kv.key, kvs[a].key) && a < i - 1 {
          if kvs[a].key != kvs[i - 1].key {
            LessTransitive(kv.key, kvs[a].key, kvs[i - 1].key);
          }
        }
      }
    }
  }

  lemma {:induction false} InsertCounts(kvs: seq<KeyValue>, i: nat, kv: KeyValue)
    requires i <= |kvs|
    ensures multiset(kvs[..i] + [kv] + kvs[i..]) == multiset(kvs) + multiset{kv}
  {
    assert kvs == kvs[..i] + kvs[i..];
  }

  /** One insertion from the right. */
  method Insert(sorted: seq<KeyValue>, kv: KeyValue) returns (r: seq<KeyValue>)
    requires Sorted(sorted)
    ensures Sorted(r) && multiset(r) == multiset(sorted) + multiset{kv}
  {
    var i := |sorted|;
    while i > 0 && Less(kv.key, sorted[i - 1].key)
      invariant 0 <= i <= |sorted|
      invariant forall k | i <= k < |sorted| :: Less(kv.key, sorted[k].key)
    {
      i := i - 1;
    }
    InsertKeepsSorted(sorted, i, kv);
    InsertCounts(sorted, i, kv);
    r := sorted[..i] + [kv] + sorted[i..];
  }

  lemma {:induction false} TakeCounts(kvs: seq<KeyValue>, n: nat)
    requires n < |kvs|
    ensures multiset(kvs[..n + 1]) == multiset(kvs[..n]) + multiset{kvs[n]}
  {
    assert kvs[..n + 1] == kvs[..n] + [kvs[n]];
  }

  /** The library sort that both programs call. */
  method SortByKey(kvs: seq<KeyValue>) returns (sorted: seq<KeyValue>)
    ensures IsSortOf(sorted, kvs)
  {
    sorted := [];
    for n := 0 to |kvs|
      invariant Sorted(sorted) && multiset(sorted) == multiset(kvs[..n])
    {
      TakeCounts(kvs, n);
      sorted := Insert(sorted, kvs[n]);
    }
    assert kvs[..|kvs|] == kvs;
  }

  lemma {:induction false} AppendCount<T>(s: seq<T>, x: T, y: T)
    ensures multiset(s + [x])[y] == multiset(s)[y] + if x == y then 1 else 0
  {
  }

  // ---------------------------------------------------------------- reductions

  predicate Mentions(pairs: multiset<KeyValue>, key: string) {
    exists kv :: kv in pairs && kv.key == key
  }

  /** vs arranges the values that pairs holds for key. */
  ghost predicate Arranges(vs: seq<string>, pairs: multiset<KeyValue>, key: string) {
    forall v :: multiset(vs)[v] == pairs[KeyValue(key, v)]
  }

  type Reducer = (string, seq<string>) -> string

  /** rec reduces some arrangement of exactly the values that pairs holds for its key. */
  ghost predicate IsResult(reducef: Reducer, pairs: multiset<KeyValue>, rec: KeyValue) {
    && Mentions(pairs, rec.key)
    && exists vs :: Arranges(vs, pairs, rec.key) && rec.value == reducef(rec.key, vs)
  }

  predicate DistinctKeys(recs: seq<KeyValue>) {
    forall i, j | 0 <= i < j < |recs| :: recs[i].key != recs[j].key
  }

  predicate Covers(recs: seq<KeyValue>, key: string) {
    exists i :: 0 <= i < |recs| && recs[i].key == key
  }

  /** recs holds one record for every key of pairs and for no other, with the reduction of some arrangement of exactly
      that key's values. */
  ghost predicate IsReduction(reducef: Reducer, pairs: multiset<KeyValue>, recs: seq<KeyValue>) {
    && DistinctKeys(recs)
    && (forall i {:trigger IsResult(reducef, pairs, recs[i])} | 0 <= i < |recs| :: IsResult(reducef, pairs, recs[i]))
    && (forall kv {:trigger Covers(recs, kv.key)} | kv in pairs :: Covers(recs, kv.key))
  }

  predicate NoSharedKey(a: multiset<KeyValue>, b: multiset<KeyValue>) {
    forall x, y | x in a && y in b :: x.key != y.key
  }

  lemma {:induction false} ResultInMore(reducef: Reducer, a: multiset<KeyValue>, b: multiset<KeyValue>, rec: KeyValue)
    requires IsResult(reducef, a, rec) && NoSharedKey(a, b)
    ensures IsResult(reducef, a + b, rec)
  {
    var vs :| Arranges(vs, a, rec.key) && rec.value == reducef(rec.key, vs);
    var x :| x in a && x.key == rec.key;
    assert x in a + b;
    forall v ensures multiset(vs)[v] == (a + b)[KeyValue(rec.key, v)] {
      assert KeyValue(rec.key, v) !in b;
    }
    assert Arranges(vs, a + b, rec.key);
  }

  lemma {:induction false} MergedDistinct(reducef: Reducer, a: multiset<KeyValue>, b: multiset<KeyValue>,
                                          ra: seq<KeyValue>, rb: seq<KeyValue>)
    requires IsReduction(reducef, a, ra) && IsReduction(reducef, b, rb) && NoSharedKey(a, b)
    ensures DistinctKeys(ra + rb)
  {
    forall i, j | 0 <= i < |ra| && 0 <= j < |rb| ensures ra[i].key != rb[j].key {
      assert IsResult(reducef, a, ra[i]) && IsResult(reducef, b, rb[j]);
    }
  }

  lemma {:induction false} CoversConcat(ra: seq<KeyValue>, rb: seq<KeyValue>, key: string)
    requires Covers(ra, key) || Covers(rb, key)
    ensures Covers(ra + rb, key)
  {
    if Covers(ra, key) {
      var i :| 0 <= i < |ra| && ra[i].key == key;
      assert (ra + rb)[i].key == key;
    } else {
      var i :| 0 <= i < |rb| && rb[i].key == key;
      assert (ra + rb)[|ra| + i].key == key;
    }
  }

  /** Reductions of pairs that share no key can be put together. */
  lemma {:induction false} ReductionsMerge(reducef: Reducer, a: multiset<KeyValue>, b: multiset<KeyValue>,
                                           ra: seq<KeyValue>, rb: seq<KeyValue>)
    requires IsReduction(reducef, a, ra) && IsReduction(reducef, b, rb) && NoSharedKey(a, b)
    ensures IsReduction(reducef, a + b, ra + rb)
  {
    MergedDistinct(reducef, a, b, ra, rb);
    forall i | 0 <= i < |ra + rb| ensures IsResult(reducef, a + b, (ra + rb)[i]) {
      if i < |ra| {
        ResultInMore(reducef, a, b, ra[i]);
      } else {
        ResultInMore(reducef, b, a, rb[i - |ra|]);
        assert a + b == b + a;
      }
    }
    forall kv | kv in a + b ensures Covers(ra + rb, kv.key) {
      CoversConcat(ra, rb, kv.key);
    }
  }

  /** The reduce function does not look at the order of its values. */
  ghost predicate OrderInsensitive(reducef: Reducer) {
    forall k, a, b | multiset(a) == multiset(b) :: reducef(k, a) == reducef(k, b)
  }

  lemma {:induction false} ResultUnique(reducef: Reducer, pairs: multiset<KeyValue>, r: KeyValue, s: KeyValue)
    requires OrderInsensitive(reducef) && IsResult(reducef, pairs, r) && IsResult(reducef, pairs, s) && r.key == s.key
    ensures r == s
  {
    var a :| Arranges(a, pairs, r.key) && r.value == reducef(r.key, a);
    var b :| Arranges(b, pairs, s.key) && s.value == reducef(s.key, b);
    assert multiset(a) == multiset(b);
  }

  lemma {:induction false} ReductionCovers(reducef: Reducer, pairs: multiset<KeyValue>, a: seq<KeyValue>,
                                           b: seq<KeyValue>, x: KeyValue)
    requires OrderInsensitive(reducef) && IsReduction(reducef, pairs, a) && IsReduction(reducef, pairs, b)
    requires x in a
    ensures x in b
  {
    var i :| 0 <= i < |a| && a[i] == x;
    assert IsResult(reducef, pairs, a[i]);
    var kv :| kv in pairs && kv.key == a[i].key;
    assert Covers(b, kv.key);
    var j :| 0 <= j < |b| && b[j].key == kv.key;
    assert IsResult(reducef, pairs, b[j]);
    ResultUnique(reducef, pairs, a[i], b[j]);
  }

  lemma {:induction false} DistinctCount(recs: seq<KeyValue>, x: KeyValue)
    requires DistinctKeys(recs)
    ensures multiset(recs)[x] == if x in recs then 1 else 0
  {
    if recs != [] {
      var rest := recs[1..];
      DistinctCount(rest, x);
      assert recs == [recs[0]] + rest;
      assert x in rest ==> exists j :: 0 <= j < |rest| && rest[j] == x && recs[j + 1] == x;
    }
  }

  /** Two reductions of the same pairs hold the same records, when the reduce function ignores order. */
  lemma {:induction false} ReductionUnique(reducef: Reducer, pairs: multiset<KeyValue>, a: seq<KeyValue>,
                                           b: seq<KeyValue>)
    requires OrderInsensitive(reducef) && IsReduction(reducef, pairs, a) && IsReduction(reducef, pairs, b)
    ensures multiset(a) == multiset(b)
  {
    forall x ensures multiset(a)[x] == multiset(b)[x] {
      DistinctCount(a, x);
      DistinctCount(b, x);
      if x in a { ReductionCovers(reducef, pairs, a, b, x); }
      if x in b { ReductionCovers(reducef, pairs, b, a, x); }
    }
  }

  // ---------------------------------------------------------------- the partition

  /** ihash(key) % n, for any hash. */
  function Slots(hash: string -> nat, n: nat): (slot: string -> nat)
    requires n > 0
    ensures forall k :: slot(k) < n
  {
    (k: string) => hash(k) % n
  }

  function Bucket(kvs: seq<KeyValue>, slot: string -> nat, r: nat): seq<KeyValue> {
    if kvs == [] then []
    else Bucket(kvs[..|kvs| - 1], slot, r) + if slot(kvs[|kvs| - 1].key) == r then [kvs[|kvs| - 1]] else []
  }

  lemma {:induction false} BucketConcat(a: seq<KeyValue>, b: seq<KeyValue>, slot: string -> nat, r: nat)
    ensures Bucket(a + b, slot, r) == Bucket(a, slot, r) + Bucket(b, slot, r)
  {
    if b == [] {
      assert a + b == a;
    } else {
      BucketConcat(a, b[..|b| - 1], slot, r);
      assert (a + b)[..|a + b| - 1] == a + b[..|b| - 1];
    }
  }

  lemma {:induction false} BucketLast(front: seq<KeyValue>, last: KeyValue, slot: string -> nat, r: nat, kv: KeyValue)
    ensures multiset(Bucket(front + [last], slot, r))[kv] ==
            multiset(Bucket(front, slot, r))[kv] + if slot(last.key) == r && last == kv then 1 else 0
  {
    assert (front + [last])[..|front|] == front;
    if slot(last.key) == r {
      assert Bucket(front + [last], slot, r) == Bucket(front, slot, r) + [last];
      AppendCount(Bucket(front, slot, r), last, kv);
    }
  }

  lemma {:induction false} BucketOneMore(front: seq<KeyValue>, last: KeyValue, slot: string -> nat, r: nat,
                                         kv: KeyValue)
    requires multiset(Bucket(front, slot, r))[kv] == if slot(kv.key) == r then multiset(front)[kv] else 0
    ensures multiset(Bucket(front + [last], slot, r))[kv] ==
            if slot(kv.key) == r then multiset(front + [last])[kv] else 0
  {
    BucketLast(front, last, slot, r, kv);
    AppendCount(front, last, kv);
  }

  /** Each pair lands in the bucket of its key, as often as it was emitted, and in no other. */
  lemma {:induction false} BucketCount(kvs: seq<KeyValue>, slot: string -> nat, r: nat, kv: KeyValue)
    ensures multiset(Bucket(kvs, slot, r))[kv] == if slot(kv.key) == r then multiset(kvs)[kv] else 0
  {
    if kvs != [] {
      var front, last := kvs[..|kvs| - 1], kvs[|kvs| - 1];
      BucketCount(front, slot, r, kv);
      BucketOneMore(front, last, slot, r, kv);
      assert kvs == front + [last];
    }
  }
}
