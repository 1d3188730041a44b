/**
 The shard configuration object of src/shardkv1/shardcfg/shardcfg.go: analyze and
 Rebalance as loops over the Shards array and the Groups map, proved to compute the
 functions of ShardBalance.dfy. The order in which the map is walked does not matter.
 */
module ShardConfig {
  import opened Loads
  import opened ShardBalance

  // ---------------------------------------------------------------- the groups in order

  function InsertGid(x: int, gs: seq<int>): (r: seq<int>)
    ensures |r| == |gs| + 1
  {
    if gs == [] || x <= gs[0] then [x] + gs else [gs[0]] + InsertGid(x, gs[1..])
  }

  /** slices.Sort on the collected group ids. */
  function SortGids(gs: seq<int>): (r: seq<int>)
    ensures |r| == |gs|
  {
    if gs == [] then [] else InsertGid(gs[0], SortGids(gs[1..]))
  }

  function Members(gs: seq<int>): set<int> {
    set g | g in gs
  }

  predicate Distinct(gs: seq<int>) {
    forall i, j | 0 <= i < j < |gs| :: gs[i] != gs[j]
  }

  lemma {:induction false} InsertGidMembers(x: int, gs: seq<int>)
    ensures forall g :: g in InsertGid(x, gs) <==> g == x || g in gs
  {
    if gs != [] && x > gs[0] {
      InsertGidMembers(x, gs[1..]);
      assert gs == [gs[0]] + gs[1..];
    }
  }

  lemma {:induction false} InsertGidAscends(x: int, gs: seq<int>)
    requires Ascending(gs) && x !in gs
    ensures Ascending(InsertGid(x, gs))
  {
    if gs != [] && x > gs[0] {
      InsertGidAscends(x, gs[1..]);
      InsertGidMembers(x, gs[1..]);
      var rest := InsertGid(x, gs[1..]);
      forall j | 0 <= j < |rest| ensures gs[0] < rest[j] {
        assert rest[j] in rest;
      }
    }
  }

  lemma {:induction false} SortGidsSorts(gs: seq<int>)
    requires Distinct(gs)
    ensures Ascending(SortGids(gs)) && forall g :: g in SortGids(gs) <==> g in gs
  {
    if gs != [] {
      SortGidsSorts(gs[1..]);
      InsertGidMembers(gs[0], SortGids(gs[1..]));
      InsertGidAscends(gs[0], SortGids(gs[1..]));
      assert gs == [gs[0]] + gs[1..];
    }
  }

  /** Two ascending lists of the same ids are the same list. */
  lemma {:induction false} AscendingUnique(a: seq<int>, b: seq<int>)
    requires Ascending(a) && Ascending(b) && forall g :: g in a <==> g in b
    ensures a == b
  {
    assert a != [] ==> a[0] in a;
    assert b != [] ==> b[0] in b;
    if a != [] {
      assert a[0] in b && b[0] in a;
      assert a[0] == b[0];
      forall g ensures g in a[1..] <==> g in b[1..] {
        assert g in a <==> g == a[0] || g in a[1..];
        assert g in b <==> g == b[0] || g in b[1..];
        assert a[0] !in a[1..] && b[0] !in b[1..];
      }
      AscendingUnique(a[1..], b[1..]);
    }
  }

  /** gs lists the ids of the configuration's groups in ascending order. */
  ghost predicate Lists(gs: seq<int>, groups: map<int, seq<string>>) {
    Ascending(gs) && forall g :: g in gs <==> g in groups
  }

  lemma {:induction false} SomeMember<T>(s: set<T>) returns (g: T)
    requires |s| > 0
    ensures g in s
  {
    g :| g in s;
  }

  /** Go walks a map in an order of its own choosing. */
  method AnyOf<T(==)>(s: set<T>) returns (g: T)
    requires s != {}
    ensures g in s
  {
    g :| g in s;
  }

  lemma {:induction false} NoGroups(gs: seq<int>, groups: map<int, seq<string>>)
    requires Lists(gs, groups)
    ensures gs == [] <==> |groups| < 1
  {
    if gs != [] {
      assert gs[0] in gs;
      assert gs[0] in groups.Keys;
    }
    if |groups| > 0 {
      var g := SomeMember(groups.Keys);
      assert g in groups;
    }
  }

  /** One more group for the running extremes. */
  lemma {:induction false} ExtremesStep(cs: seq<nat>, i: nat)
    requires i < |cs|
    ensures i == 0 ==> LeastIndex(cs[..1]) == 0 && MostIndex(cs[..1]) == 0
    ensures i > 0 ==> LeastIndex(cs[..i + 1]) == if cs[i] < cs[LeastIndex(cs[..i])] then i else LeastIndex(cs[..i])
    ensures i > 0 ==> MostIndex(cs[..i + 1]) == if cs[i] > cs[MostIndex(cs[..i])] then i else MostIndex(cs[..i])
  {
    assert cs[..i + 1][..i] == cs[..i];
  }

  lemma {:induction false} FillStep(shards: seq<int>, gs: seq<int>, s: nat)
    requires gs != [] && s < |shards|
    ensures Fill(shards, gs, s) == Fill(if shards[s] in gs then shards else shards[s := Least(shards, gs)], gs, s + 1)
  {
  }

  // ---------------------------------------------------------------- the object

  type Groups = map<int, seq<string>>

  /** How Join and Leave end: done, refused with false, or the process stops. */
  datatype Outcome = Changed | Refused | Fatal

  predicate SharesServer(groups: Groups, servers: seq<string>) {
    exists g, s :: g in groups && s in groups[g] && s in servers
  }

  /** Some joining group has a server of another group, old or joining. */
  predicate Conflict(groups: Groups, joining: Groups) {
    exists g :: g in joining && (SharesServer(groups - {g}, joining[g]) || SharesServer(joining - {g}, joining[g]))
  }

  /** Index i holds the first group of the list that is unknown or was named before. */
  predicate FirstBad(groups: Groups, gids: seq<int>, i: nat) {
    && i < |gids|
    && Distinct(gids[..i]) && (forall g | g in gids[..i] :: g in groups)
    && (gids[i] !in groups || gids[i] in gids[..i])
  }

  class Config {
    var num: nat
    var shards: array<int>
    var groups: Groups

    constructor (nshards: nat)
      ensures fresh(shards) && shards.Length == nshards && groups == map[] && num == 0
      ensures forall s | 0 <= s < nshards :: shards[s] == 0
    {
      num := 0;
      shards := new int[nshards](i => 0);
      groups := map[];
    }

    /** Lines 92-98: the map's keys, in whatever order it yields them, then sorted. */
    method SortedGids(ghost gs: seq<int>) returns (r: seq<int>)
      requires Lists(gs, groups)
      ensures r == gs
    {
      var keys: seq<int> := [];
      var rest := groups.Keys;
      while rest != {}
        invariant rest <= groups.Keys && Distinct(keys)
        invariant forall g :: g in groups <==> g in keys || g in rest
        invariant forall g | g in keys :: g !in rest
        decreases rest
      {
        var k := AnyOf(rest);
        keys, rest := keys + [k], rest - {k};
      }
      SortGidsSorts(keys);
      r := SortGids(keys);
      AscendingUnique(r, gs);
    }

    /** Lines 81-84: how many shards each group has. */
    method Tally() returns (counts: map<int, nat>)
      ensures forall g :: (if g in counts then counts[g] else 0) == Count(shards[..], g)
    {
      counts := map[];
      var i := 0;
      while i < shards.Length
        invariant 0 <= i <= shards.Length
        invariant forall g :: (if g in counts then counts[g] else 0) == Count(shards[..i], g)
      {
        var g := shards[i];
        counts := counts[g := (if g in counts then counts[g] else 0) + 1];
        assert shards[..i + 1][..i] == shards[..i];
        i := i + 1;
      }
      assert shards[..i] == shards[..];
    }

    /** Lines 86-108: the scan over the sorted groups. */
    static method Scan(groups: seq<int>, counts: map<int, nat>, ghost cs: seq<nat>)
      returns (mg: int, mn: int, lg: int, ln: int)
      requires |cs| == |groups|
      requires forall i | 0 <= i < |cs| :: cs[i] == (if groups[i] in counts then counts[groups[i]] else 0) <= 256
      ensures groups == [] ==> (mg, mn, lg, ln) == (-1, -1, -1, 257)
      ensures groups != [] ==>
                && mg == groups[MostIndex(cs)] && mn == cs[MostIndex(cs)]
                && lg == groups[LeastIndex(cs)] && ln == cs[LeastIndex(cs)]
    {
      mn, mg, ln, lg := -1, -1, 257, -1;
      var i := 0;
      while i < |groups|
        invariant 0 <= i <= |groups|
        invariant i == 0 ==> (mg, mn, lg, ln) == (-1, -1, -1, 257)
        invariant i > 0 ==>
                    && mg == groups[MostIndex(cs[..i])] && mn == cs[MostIndex(cs[..i])]
                    && lg == groups[LeastIndex(cs[..i])] && ln == cs[LeastIndex(cs[..i])]
      {
        var g := groups[i];
        var c := if g in counts then counts[g] else 0;
        ExtremesStep(cs, i);
        if c < ln {
          ln, lg := c, g;
        }
        if c > mn {
          mn, mg := c, g;
        }
        i := i + 1;
      }
      assert cs[..i] == cs;
    }

    /** analyze(): the first group with most shards and the first with least, in ascending order of ids. */
    method Analyze(ghost gs: seq<int>) returns (mg: int, mn: int, lg: int, ln: int)
      requires Lists(gs, groups) && shards.Length <= 256
      ensures gs == [] ==> (mg, mn, lg, ln) == (-1, -1, -1, 257)
      ensures gs != [] ==>
                var cs := Counts(shards[..], gs);
                && mg == gs[MostIndex(cs)] && mn == cs[MostIndex(cs)]
                && lg == gs[LeastIndex(cs)] && ln == cs[LeastIndex(cs)]
    {
      var counts := Tally();
      var sorted := SortedGids(gs);
      mg, mn, lg, ln := Scan(sorted, counts, Counts(shards[..], gs));
    }

    /** Lines 132-138: the shards without a group. */
    method FillShards(ghost gs: seq<int>)
      requires Lists(gs, groups) && gs != [] && shards.Length <= 256
      modifies shards
      ensures shards[..] == Fill(old(shards[..]), gs, 0)
    {
      var s := 0;
      while s < shards.Length
        invariant 0 <= s <= shards.Length
        invariant Fill(shards[..], gs, s) == Fill(old(shards[..]), gs, 0)
      {
        var g := shards[s];
        assert g in groups <==> g in gs;
        ghost var before := shards[..];
        if g !in groups {
          var _, _, lg, _ := Analyze(gs);
          shards[s] := lg;
          assert shards[..] == before[s := lg];
        }
        FillStep(before, gs, s);
        s := s + 1;
      }
    }

    /** Lines 147-152: one shard from mg to lg. */
    method MoveOne(mg: int, lg: int)
      requires Count(shards[..], mg) > 0
      modifies shards
      ensures shards[..] == old(shards[..])[FirstOf(old(shards[..]), mg) := lg]
    {
      var s := 0;
      ghost var f := FirstOf(shards[..], mg);
      while s < shards.Length
        invariant 0 <= s <= f < shards.Length && shards[..] == old(shards[..])
      {
        if shards[s] == mg {
          shards[s] := lg;
          return;
        }
        s := s + 1;
      }
    }

    /** Lines 141-153: from most to least until they are at most one apart. */
    method LevelShards(ghost gs: seq<int>)
      requires Lists(gs, groups) && gs != [] && shards.Length <= 256
      modifies shards
      ensures shards[..] == Level(old(shards[..]), gs)
    {
      while true
        invariant Level(shards[..], gs) == Level(old(shards[..]), gs)
        decreases Squares(Counts(shards[..], gs))
      {
        var mg, mn, lg, ln := Analyze(gs);
        if mn < ln + 2 {
          break;
        }
        ghost var before := shards[..];
        ghost var cs := Counts(before, gs);
        MoveOne(mg, lg);
        MoveCounts(before, gs, MostIndex(cs), LeastIndex(cs), FirstOf(before, mg));
        MoveShrinks(cs, MostIndex(cs), LeastIndex(cs));
      }
    }

    /** Rebalance(): terminates with the assignment that ShardBalance.Rebalanced names, for up to 256 shards. */
    method Rebalance(ghost gs: seq<int>)
      requires Lists(gs, groups) && shards.Length <= 256
      modifies shards
      ensures shards[..] == Rebalanced(old(shards[..]), gs)
    {
      NoGroups(gs, groups);
      if |groups| < 1 {
        var s := 0;
        while s < shards.Length
          invariant 0 <= s <= shards.Length && forall t | 0 <= t < s :: shards[t] == 0
        {
          shards[s] := 0;
          s := s + 1;
        }
        return;
      }
      FillShards(gs);
      LevelShards(gs);
    }

    /** Lines 164-172: whether a server of the list is in a group already. */
    method Clashes(servers: seq<string>) returns (clash: bool)
      ensures clash <==> SharesServer(groups, servers)
    {
      var rest := groups.Keys;
      while rest != {}
        invariant rest <= groups.Keys
        invariant forall g, s | g in groups && g !in rest && s in groups[g] :: s !in servers
        decreases rest
      {
        var g := AnyOf(rest);
        for i := 0 to |groups[g]|
          invariant forall k | 0 <= k < i :: groups[g][k] !in servers
        {
          if groups[g][i] in servers {
            assert groups[g][i] in groups[g];
            return true;
          }
        }
        rest := rest - {g};
      }
      return false;
    }

    /**
     Join(). It succeeds exactly when there is a group to join, none of them is known and no server is shared; a
     refusal keeps every old group but may already have taken some of the new ones.
     */
    method Join(joining: Groups) returns (o: Outcome)
      modifies `groups, `num
      ensures o == Changed <==> joining != map[] && joining.Keys !! old(groups).Keys && !Conflict(old(groups), joining)
      ensures o == Changed ==> groups == old(groups) + joining && num == old(num) + 1
      ensures o == Refused ==> !(joining.Keys !! old(groups).Keys)
      ensures o == Fatal ==> joining == map[] || Conflict(old(groups), joining)
      ensures o != Changed ==> num == old(num)
      ensures forall g | g in old(groups) :: g in groups && groups[g] == old(groups)[g]
      ensures forall g | g in groups && g !in old(groups) :: g in joining && groups[g] == joining[g]
    {
      var rest := joining.Keys;
      ghost var before := groups;
      while rest != {}
        invariant rest <= joining.Keys && num == old(num) && before == old(groups)
        invariant forall g | g in before :: g in groups && groups[g] == before[g]
        invariant forall g | g in groups && g !in before :: g in joining && groups[g] == joining[g]
        invariant forall g | g in joining && g !in rest :: g in groups && g !in before
        invariant forall g | g in rest :: g in groups ==> g in before
        invariant NoneClash(joining, groups, rest)
        decreases rest
      {
        var gid := AnyOf(rest);
        if gid in groups {
          return Refused;
        }
        var clash := Clashes(joining[gid]);
        if clash {
          ClashIsConflict(before, joining, groups, gid);
          return Fatal;
        }
        NoneClashGrows(joining, groups, rest, gid);
        groups := groups[gid := joining[gid]];
        rest := rest - {gid};
      }
      if joining == map[] {
        return Fatal;
      }
      forall g | g in joining ensures g in groups && g !in before && groups[g] == joining[g] {
        assert g !in rest;
      }
      JoinedAll(before, joining, groups);
      NoConflict(before, joining, groups);
      num := num + 1;
      return Changed;
    }

    /** JoinBalance(): a join that succeeds is followed by a rebalance over all groups, any other leaves the shards. */
    method JoinBalance(joining: Groups, ghost gs: seq<int>) returns (o: Outcome)
      requires Lists(gs, groups + joining) && shards.Length <= 256
      modifies this`groups, this`num, shards
      ensures o == Changed <==> joining != map[] && joining.Keys !! old(groups).Keys && !Conflict(old(groups), joining)
      ensures o == Changed ==> groups == old(groups) + joining && shards[..] == Rebalanced(old(shards[..]), gs)
      ensures o != Changed ==> shards[..] == old(shards[..])
    {
      o := Join(joining);
      if o == Changed {
        Rebalance(gs);
      }
    }

    /**
     Leave(). It succeeds exactly when the list is not empty, all its groups are known and none is named twice; a
     refusal comes at the first group that is unknown or named before, when those before it are already gone.
     */
    method Leave(gids: seq<int>) returns (o: Outcome)
      modifies `groups, `num
      ensures o == Changed <==> gids != [] && Distinct(gids) && forall g | g in gids :: g in old(groups)
      ensures o == Changed ==> groups == old(groups) - Members(gids) && num == old(num) + 1
      ensures o == Fatal <==> gids == []
      ensures o == Fatal ==> groups == old(groups)
      ensures o == Refused ==>
                exists i: nat :: FirstBad(old(groups), gids, i) && groups == old(groups) - Members(gids[..i])
      ensures o != Changed ==> num == old(num)
    {
      ghost var before := groups;
      for i := 0 to |gids|
        invariant num == old(num) && before == old(groups)
        invariant groups == before - Members(gids[..i])
        invariant Distinct(gids[..i]) && forall g | g in gids[..i] :: g in before
      {
        var gid := gids[i];
        if gid !in groups {
          assert gids[i] in gids;
          assert gid in before ==> gid in gids[..i];
          assert FirstBad(before, gids, i);
          return Refused;
        }
        groups := groups - {gid};
        assert gids[..i + 1] == gids[..i] + [gid];
        assert Members(gids[..i + 1]) == Members(gids[..i]) + {gid};
      }
      if gids == [] {
        return Fatal;
      }
      assert gids[..|gids|] == gids;
      num := num + 1;
      return Changed;
    }

    /** LeaveBalance() */
    method LeaveBalance(gids: seq<int>, ghost gs: seq<int>) returns (o: Outcome)
      requires Lists(gs, groups - Members(gids)) && shards.Length <= 256
      modifies this`groups, this`num, shards
      ensures o == Changed <==> gids != [] && Distinct(gids) && forall g | g in gids :: g in old(groups)
      ensures o == Changed ==> groups == old(groups) - Members(gids) && shards[..] == Rebalanced(old(shards[..]), gs)
      ensures o == Refused ==>
                exists i: nat :: FirstBad(old(groups), gids, i) && groups == old(groups) - Members(gids[..i])
      ensures o != Changed ==> shards[..] == old(shards[..])
    {
      o := Leave(gids);
      if o == Changed {
        Rebalance(gs);
      }
    }
  }

  // ---------------------------------------------------------------- conflicts, group by group

  /** The joining groups taken so far share no server with any group taken. */
  ghost predicate NoneClash(joining: Groups, now: Groups, rest: set<int>) {
    forall g, x, s {:trigger g in joining, s in now[x]} |
      g in joining && g !in rest && x in now && x != g && s in now[x] :: s !in joining[g]
  }

  lemma {:induction false} ClashIsConflict(before: Groups, joining: Groups, now: Groups, gid: int)
    requires gid in joining && gid !in now && SharesServer(now, joining[gid])
    requires forall g | g in before :: g in now && now[g] == before[g]
    requires forall g | g in now && g !in before :: g in joining && now[g] == joining[g]
    ensures Conflict(before, joining)
  {
    var x, s :| x in now && s in now[x] && s in joining[gid];
    if x in before {
      assert x in before - {gid} && s in (before - {gid})[x];
    } else {
      assert x in joining - {gid} && s in (joining - {gid})[x];
    }
  }

  lemma {:induction false} NoneClashGrows(joining: Groups, now: Groups, rest: set<int>, gid: int)
    requires NoneClash(joining, now, rest) && gid in rest && gid in joining && gid !in now
    requires !SharesServer(now, joining[gid])
    requires forall g | g in joining && g !in rest :: g in now && now[g] == joining[g]
    ensures NoneClash(joining, now[gid := joining[gid]], rest - {gid})
  {
    var next := now[gid := joining[gid]];
    assert forall y, t | y in now && t in now[y] :: t !in joining[gid];
    forall g, x, s | g in joining && g !in rest - {gid} && x in next && x != g && s in next[x]
      ensures s !in joining[g]
    {
      if g == gid {
        assert x in now && s in now[x];
      } else if x == gid {
        assert g in now && now[g] == joining[g];
      } else {
        assert s in now[x];
      }
    }
  }

  lemma {:induction false} JoinedAll(before: Groups, joining: Groups, now: Groups)
    requires forall g | g in before :: g in now && now[g] == before[g]
    requires forall g | g in joining :: g in now && now[g] == joining[g]
    requires forall g | g in now && g !in before :: g in joining
    ensures now == before + joining
  {
    var all := before + joining;
    forall g ensures g in now <==> g in all {
      assert g in all <==> g in before || g in joining;
    }
    forall g | g in now ensures now[g] == all[g] {
      assert g in joining ==> all[g] == joining[g];
    }
  }

  lemma {:induction false} NoConflict(before: Groups, joining: Groups, now: Groups)
    requires NoneClash(joining, now, {}) && before.Keys !! joining.Keys
    requires forall g | g in before :: g in now && now[g] == before[g]
    requires forall g | g in joining :: g in now && now[g] == joining[g]
    ensures !Conflict(before, joining)
  {
    forall g | g in joining
      ensures !SharesServer(before - {g}, joining[g]) && !SharesServer(joining - {g}, joining[g])
    {
      forall x, s | x in before - {g} && s in before[x] ensures s !in joining[g] {
        assert x in now && s in now[x];
      }
      forall x, s | x in joining - {g} && s in joining[x] ensures s !in joining[g] {
        assert x in now && s in now[x];
      }
    }
  }
}
