/**
 The loops over a sorted slice of pairs: the one of the reduce worker (src/mr/worker.go)
 and the one of the sequential program (src/main/mrsequential.go). Both compute one
 function, and that function is a reduction: every key once, with exactly its values.
 */
module MrGrouping {
  import opened MrRecords

  /** The end of the run of equal keys that starts at i, when everything before j belongs to it. */
  function RunEnd(kvs: seq<KeyValue>, i: nat, j: nat): (e: nat)
    requires i < j <= |kvs|
    ensures j <= e <= |kvs|
    ensures forall k | j <= k < e :: kvs[k].key == kvs[i].key
    ensures e < |kvs| ==> kvs[e].key != kvs[i].key
    decreases |kvs| - j
  {
    if j == |kvs| || kvs[j].key != kvs[i].key then j else RunEnd(kvs, i, j + 1)
  }

  function Values(kvs: seq<KeyValue>, i: nat, j: nat): (vs: seq<string>)
    requires i <= j <= |kvs|
    ensures |vs| == j - i
  {
    seq(j - i, k requires 0 <= k < j - i => kvs[i + k].value)
  }

  function Group(kvs: seq<KeyValue>, reducef: Reducer, i: nat, j: nat): KeyValue
    requires i < j <= |kvs|
  {
    KeyValue(kvs[i].key, reducef(kvs[i].key, Values(kvs, i, j)))
  }

  /** One record for each run of equal keys from index i on. */
  function Reduction(kvs: seq<KeyValue>, reducef: Reducer, i: nat): seq<KeyValue>
    requires i <= |kvs|
    decreases |kvs| - i
  {
    if i == |kvs| then []
    else
      var j := RunEnd(kvs, i, i + 1);
      [Group(kvs, reducef, i, j)] + Reduction(kvs, reducef, j)
  }

  // ---------------------------------------------------------------- what the function means

  /** In a sorted slice a key that ended does not come back. */
  lemma {:induction false} KeysApart(kvs: seq<KeyValue>, i: nat, j: nat, k: nat)
    requires Sorted(kvs) && i < j <= k < |kvs| && kvs[j].key != kvs[i].key
    ensures kvs[k].key != kvs[i].key
  {
    LessTotal(kvs[i].key, kvs[j].key);
    assert j < k ==> !Less(kvs[k].key, kvs[j].key);
  }

  lemma {:induction false} LastCount(kvs: seq<KeyValue>, i: nat, j: nat, v: string)
    requires i < j <= |kvs| && kvs[j - 1].key == kvs[i].key
    ensures multiset(Values(kvs, i, j))[v] ==
            multiset(Values(kvs, i, j - 1))[v] + if kvs[j - 1].value == v then 1 else 0
    ensures multiset(kvs[i..j])[KeyValue(kvs[i].key, v)] ==
            multiset(kvs[i..j - 1])[KeyValue(kvs[i].key, v)] + if kvs[j - 1].value == v then 1 else 0
  {
    assert Values(kvs, i, j) == Values(kvs, i, j - 1) + [kvs[j - 1].value];
    AppendCount(Values(kvs, i, j - 1), kvs[j - 1].value, v);
    assert kvs[i..j] == kvs[i..j - 1] + [kvs[j - 1]];
    AppendCount(kvs[i..j - 1], kvs[j - 1], KeyValue(kvs[i].key, v));
  }

  lemma {:induction false} GroupCount(kvs: seq<KeyValue>, i: nat, j: nat, v: string)
    requires i <= j <= |kvs| && i < |kvs|
    requires forall k | i <= k < j :: kvs[k].key == kvs[i].key
    ensures multiset(Values(kvs, i, j))[v] == multiset(kvs[i..j])[KeyValue(kvs[i].key, v)]
    decreases j
  {
    if i < j {
      GroupCount(kvs, i, j - 1, v);
      LastCount(kvs, i, j, v);
    }
  }

  lemma {:induction false} GroupReduces(kvs: seq<KeyValue>, reducef: Reducer, i: nat, j: nat)
    requires i < j <= |kvs|
    requires forall k | i <= k < j :: kvs[k].key == kvs[i].key
    ensures IsReduction(reducef, multiset(kvs[i..j]), [Group(kvs, reducef, i, j)])
  {
    var pairs := multiset(kvs[i..j]);
    var key := kvs[i].key;
    var vs := Values(kvs, i, j);
    forall v ensures multiset(vs)[v] == pairs[KeyValue(key, v)] {
      GroupCount(kvs, i, j, v);
    }
    assert Arranges(vs, pairs, key);
    assert IsResult(reducef, pairs, KeyValue(key, reducef(key, vs)));
    assert kvs[i] == kvs[i..j][0] && kvs[i] in pairs;
    assert Mentions(pairs, key);
    var recs := [Group(kvs, reducef, i, j)];
    forall kv | kv in pairs ensures Covers(recs, kv.key) {
      assert recs[0].key == kv.key;
    }
  }

  lemma {:induction false} RunApart(kvs: seq<KeyValue>, i: nat, j: nat)
    requires Sorted(kvs) && i < j <= |kvs|
    requires forall k | i <= k < j :: kvs[k].key == kvs[i].key
    requires j < |kvs| ==> kvs[j].key != kvs[i].key
    ensures NoSharedKey(multiset(kvs[i..j]), multiset(kvs[j..]))
  {
    forall b | j <= b < |kvs| ensures kvs[b].key != kvs[i].key {
      KeysApart(kvs, i, j, b);
    }
    forall y | y in multiset(kvs[j..]) ensures y.key != kvs[i].key {
      assert y in kvs[j..];
    }
  }

  lemma {:induction false} RunReduces(kvs: seq<KeyValue>, reducef: Reducer, i: nat, j: nat, rest: seq<KeyValue>)
    requires Sorted(kvs) && i < j <= |kvs|
    requires forall k | i <= k < j :: kvs[k].key == kvs[i].key
    requires j < |kvs| ==> kvs[j].key != kvs[i].key
    requires IsReduction(reducef, multiset(kvs[j..]), rest)
    ensures IsReduction(reducef, multiset(kvs[i..]), [Group(kvs, reducef, i, j)] + rest)
  {
    GroupReduces(kvs, reducef, i, j);
    RunApart(kvs, i, j);
    SplitPairs(kvs, i, j);
    ReductionsMerge(reducef, multiset(kvs[i..j]), multiset(kvs[j..]), [Group(kvs, reducef, i, j)], rest);
  }

  lemma {:induction false} SplitPairs(kvs: seq<KeyValue>, i: nat, j: nat)
    requires i <= j <= |kvs|
    ensures multiset(kvs[i..]) == multiset(kvs[i..j]) + multiset(kvs[j..])
  {
    assert kvs[i..] == kvs[i..j] + kvs[j..];
  }

  lemma {:induction false} NothingReduces(reducef: Reducer, kvs: seq<KeyValue>)
    requires kvs == []
    ensures IsReduction(reducef, multiset(kvs), [])
  {
  }

  /** The reduce function is called once for each distinct key, with exactly that key's values. */
  lemma {:induction false} ReductionReduces(kvs: seq<KeyValue>, reducef: Reducer, i: nat)
    requires Sorted(kvs) && i <= |kvs|
    ensures IsReduction(reducef, multiset(kvs[i..]), Reduction(kvs, reducef, i))
    decreases |kvs| - i
  {
    if i == |kvs| {
      NothingReduces(reducef, kvs[i..]);
    } else {
      var j := RunEnd(kvs, i, i + 1);
      assert Reduction(kvs, reducef, i) == [Group(kvs, reducef, i, j)] + Reduction(kvs, reducef, j);
      ReductionReduces(kvs, reducef, j);
      RunReduces(kvs, reducef, i, j, Reduction(kvs, reducef, j));
    }
  }

  // ---------------------------------------------------------------- the loops

  function Records(keys: seq<string>, result: map<string, string>): seq<KeyValue>
    requires forall k | k in keys :: k in result
  {
    seq(|keys|, n requires 0 <= n < |keys| => KeyValue(keys[n], result[keys[n]]))
  }

  lemma {:induction false} RecordsAppend(keys: seq<string>, result: map<string, string>, key: string, value: string)
    requires (forall k | k in keys :: k in result) && key !in keys
    ensures Records(keys + [key], result[key := value]) == Records(keys, result) + [KeyValue(key, value)]
  {
  }

  /** Everything grouped so far has keys that do not occur from i on. */
  predicate Behind(keys: seq<string>, kvs: seq<KeyValue>, i: nat)
    requires i <= |kvs|
  {
    forall k | i <= k < |kvs| :: kvs[k].key !in keys
  }

  lemma {:induction false} BehindNext(keys: seq<string>, kvs: seq<KeyValue>, i: nat, j: nat)
    requires Sorted(kvs) && i < j <= |kvs| && Behind(keys, kvs, i)
    requires j < |kvs| ==> kvs[j].key != kvs[i].key
    ensures Behind(keys + [kvs[i].key], kvs, j)
  {
    forall k | j <= k < |kvs| ensures kvs[k].key !in keys + [kvs[i].key] {
      KeysApart(kvs, i, j, k);
    }
  }

  lemma {:induction false} RunEndIs(kvs: seq<KeyValue>, i: nat, j: nat, e: nat)
    requires i < j <= e <= |kvs|
    requires forall k | j <= k < e :: kvs[k].key == kvs[i].key
    requires e < |kvs| ==> kvs[e].key != kvs[i].key
    ensures RunEnd(kvs, i, j) == e
    decreases e - j
  {
    if j < e {
      RunEndIs(kvs, i, j + 1, e);
    }
  }

  lemma {:induction false} ReductionUnfolds(kvs: seq<KeyValue>, reducef: Reducer, i: nat, j: nat)
    requires i < j <= |kvs|
    requires forall k | i <= k < j :: kvs[k].key == kvs[i].key
    requires j < |kvs| ==> kvs[j].key != kvs[i].key
    ensures Reduction(kvs, reducef, i) == [Group(kvs, reducef, i, j)] + Reduction(kvs, reducef, j)
  {
    RunEndIs(kvs, i, i + 1, j);
  }

  lemma {:induction false} AppendMoves<T>(a: seq<T>, x: T, b: seq<T>)
    ensures (a + [x]) + b == a + ([x] + b)
  {
  }

  /** One group of the reduce worker's loop: i..j is a whole run. */
  method AddGroup(kvs: seq<KeyValue>, reducef: Reducer, values: seq<string>, i: nat, j: nat, keys: seq<string>,
                  result: map<string, string>)
    returns (keys': seq<string>, result': map<string, string>)
    requires Sorted(kvs) && values == Values(kvs, 0, |kvs|) && i < j <= |kvs|
    requires forall k | i <= k < j :: kvs[k].key == kvs[i].key
    requires j < |kvs| ==> kvs[j].key != kvs[i].key
    requires (forall k | k in keys :: k in result) && Behind(keys, kvs, i)
    ensures (forall k | k in keys' :: k in result') && Behind(keys', kvs, j)
    ensures Records(keys', result') + Reduction(kvs, reducef, j) == Records(keys, result) + Reduction(kvs, reducef, i)
  {
    var key := kvs[i].key;
    assert values[i..j] == Values(kvs, i, j);
    keys', result' := keys + [key], result[key := reducef(key, values[i..j])];
    RecordsAppend(keys, result, key, reducef(key, values[i..j]));
    BehindNext(keys, kvs, i, j);
    ReductionUnfolds(kvs, reducef, i, j);
    AppendMoves(Records(keys, result), Group(kvs, reducef, i, j), Reduction(kvs, reducef, j));
  }

  /** The reduce worker's loop over the sorted pairs. */
  method ReduceSorted(kvs: seq<KeyValue>, reducef: Reducer) returns (keys: seq<string>, result: map<string, string>)
    requires Sorted(kvs)
    ensures forall k | k in keys :: k in result
    ensures Records(keys, result) == Reduction(kvs, reducef, 0)
  {
    keys, result := [], map[];
    var values := Values(kvs, 0, |kvs|);
    var i := 0;
    while i < |kvs|
      invariant i <= |kvs|
      invariant (forall k | k in keys :: k in result) && Behind(keys, kvs, i)
      invariant Records(keys, result) + Reduction(kvs, reducef, i) == Reduction(kvs, reducef, 0)
    {
      var j := i + 1;
      while j < |kvs|
        invariant i < j <= |kvs|
        invariant forall k | i <= k < j :: kvs[k].key == kvs[i].key
      {
        if kvs[i].key != kvs[j].key {
          keys, result := AddGroup(kvs, reducef, values, i, j, keys, result);
          i := j;
          break;
        }
        j := j + 1;
      }
      if j >= |kvs| {
        keys, result := AddGroup(kvs, reducef, values, i, j, keys, result);
        break;
      }
    }
  }

  /** Lines 70-73 of the sequential program: where the run of equal keys ends. */
  method EndOfRun(kvs: seq<KeyValue>, i: nat) returns (j: nat)
    requires i < |kvs|
    ensures i < j <= |kvs| && forall k | i <= k < j :: kvs[k].key == kvs[i].key
    ensures j < |kvs| ==> kvs[j].key != kvs[i].key
  {
    j := i + 1;
    while j < |kvs| && kvs[j].key == kvs[i].key
      invariant i < j <= |kvs|
      invariant forall k | i <= k < j :: kvs[k].key == kvs[i].key
    {
      j := j + 1;
    }
  }

  /** Lines 74-77: the values of the run. */
  method CollectValues(kvs: seq<KeyValue>, i: nat, j: nat) returns (values: seq<string>)
    requires i <= j <= |kvs|
    ensures values == Values(kvs, i, j)
  {
    values := [];
    for k := i to j
      invariant values == Values(kvs, i, k)
    {
      values := values + [kvs[k].value];
    }
  }

  /** The grouping loop of the sequential program. */
  method ReduceSequentially(kvs: seq<KeyValue>, reducef: Reducer) returns (out: seq<KeyValue>)
    ensures out == Reduction(kvs, reducef, 0)
  {
    out := [];
    var i := 0;
    while i < |kvs|
      invariant i <= |kvs|
      invariant out + Reduction(kvs, reducef, i) == Reduction(kvs, reducef, 0)
    {
      var j := EndOfRun(kvs, i);
      var values := CollectValues(kvs, i, j);
      ReductionUnfolds(kvs, reducef, i, j);
      AppendMoves(out, Group(kvs, reducef, i, j), Reduction(kvs, reducef, j));
      out := out + [KeyValue(kvs[i].key, reducef(kvs[i].key, values))];
      i := j;
    }
  }

  /** The map worker's partition loop. */
  method Partition(kva: seq<KeyValue>, hash: string -> nat, n: nat) returns (slices: seq<seq<KeyValue>>)
    requires n > 0
    ensures |slices| == n
    ensures forall r | 0 <= r < n :: slices[r] == Bucket(kva, Slots(hash, n), r)
  {
    slices := seq(n, _ => []);
    for i := 0 to |kva|
      invariant |slices| == n
      invariant forall r | 0 <= r < n :: slices[r] == Bucket(kva[..i], Slots(hash, n), r)
    {
      var index := hash(kva[i].key) % n;
      assert kva[..i + 1][..i] == kva[..i];
      slices := slices[index := slices[index] + [kva[i]]];
    }
    assert kva[..|kva|] == kva;
  }

  // ---------------------------------------------------------------- the sequential program

  type Mapper = (string, string) -> seq<KeyValue>

  /** What the map calls on the first n inputs emit. Inputs are file names; read gives a file's content. */
  function Emitted(inputs: seq<string>, read: string -> string, mapf: Mapper, n: nat): seq<KeyValue>
    requires n <= |inputs|
  {
    if n == 0 then [] else Emitted(inputs, read, mapf, n - 1) + mapf(inputs[n - 1], read(inputs[n - 1]))
  }

  /** mrsequential: map every input, sort, reduce each run of equal keys. */
  method Sequential(inputs: seq<string>, read: string -> string, mapf: Mapper, reducef: Reducer)
    returns (out: seq<KeyValue>)
    ensures IsReduction(reducef, multiset(Emitted(inputs, read, mapf, |inputs|)), out)
  {
    var intermediate := [];
    for n := 0 to |inputs|
      invariant intermediate == Emitted(inputs, read, mapf, n)
    {
      var kva := mapf(inputs[n], read(inputs[n]));
      intermediate := intermediate + kva;
    }
    var sorted := SortByKey(intermediate);
    out := ReduceSequentially(sorted, reducef);
    ReductionReduces(sorted, reducef, 0);
    assert sorted[0..] == sorted;
  }
}
