/**
 Runs of any transition system: `can` says which steps are possible in a state, `next` is
 the state after a step. The protocols of this project use it to show that a state can
 still lead somewhere, whatever happened before.
 */
module Runs {
  ghost predicate Chain<S(!new), T(!new)>(can: (S, T) -> bool, next: (S, T) -> S, ss: seq<S>, ts: seq<T>) {
    && |ss| == |ts| + 1
    && forall k | 0 <= k < |ts| :: can(ss[k], ts[k]) && ss[k + 1] == next(ss[k], ts[k])
  }

  /** Some steps go from s to t. */
  ghost predicate Leads<S(!new), T(!new)>(can: (S, T) -> bool, next: (S, T) -> S, s: S, t: S) {
    exists ss, ts :: Chain(can, next, ss, ts) && ss[0] == s && ss[|ts|] == t
  }

  lemma {:induction false} Stay<S(!new), T(!new)>(can: (S, T) -> bool, next: (S, T) -> S, s: S)
    ensures Leads(can, next, s, s)
  {
    var ts: seq<T> := [];
    assert Chain(can, next, [s], ts);
  }

  lemma {:induction false} One<S(!new), T(!new)>(can: (S, T) -> bool, next: (S, T) -> S, s: S, step: T)
    requires can(s, step)
    ensures Leads(can, next, s, next(s, step))
  {
    assert Chain(can, next, [s, next(s, step)], [step]);
  }

  /** A run goes on to any state that its last one leads to. */
  lemma {:induction false} Continue<S(!new), T(!new)>(can: (S, T) -> bool, next: (S, T) -> S, ss: seq<S>, ts: seq<T>,
                                                      t: S)
    returns (ss': seq<S>, ts': seq<T>)
    requires Chain(can, next, ss, ts) && Leads(can, next, ss[|ts|], t)
    ensures Chain(can, next, ss', ts') && ss <= ss' && ts <= ts' && ss'[|ts'|] == t
  {
    var us, vs :| Chain(can, next, us, vs) && us[0] == ss[|ts|] && us[|vs|] == t;
    ss', ts' := ss + us[1..], ts + vs;
    assert forall k | 0 <= k < |us| :: ss'[|ts| + k] == us[k];
    forall k | 0 <= k < |ts'| ensures can(ss'[k], ts'[k]) && ss'[k + 1] == next(ss'[k], ts'[k]) {
      if k >= |ts| {
        var j := k - |ts|;
        assert can(us[j], vs[j]) && us[j + 1] == next(us[j], vs[j]);
        assert ss'[|ts| + (j + 1)] == us[j + 1];
      }
    }
  }

  lemma {:induction false} Join<S(!new), T(!new)>(can: (S, T) -> bool, next: (S, T) -> S, s: S, t: S, u: S)
    requires Leads(can, next, s, t) && Leads(can, next, t, u)
    ensures Leads(can, next, s, u)
  {
    var ss, ts :| Chain(can, next, ss, ts) && ss[0] == s && ss[|ts|] == t;
    var ss', ts' := Continue(can, next, ss, ts, u);
    assert ss'[0] == s;
  }

  /** What every step keeps holds wherever a state leads. */
  lemma {:induction false} Keeps<S(!new), T(!new)>(can: (S, T) -> bool, next: (S, T) -> S, inv: S -> bool, s: S, t: S)
    requires Leads(can, next, s, t) && inv(s)
    requires forall u, step | inv(u) && can(u, step) :: inv(next(u, step))
    ensures inv(t)
  {
    var ss, ts :| Chain(can, next, ss, ts) && ss[0] == s && ss[|ts|] == t;
    KeptAlong(can, next, inv, ss, ts, |ts|);
  }

  lemma {:induction false} KeptAlong<S(!new), T(!new)>(can: (S, T) -> bool, next: (S, T) -> S, inv: S -> bool,
                                                       ss: seq<S>, ts: seq<T>, k: nat)
    requires Chain(can, next, ss, ts) && k <= |ts| && inv(ss[0])
    requires forall u, step | inv(u) && can(u, step) :: inv(next(u, step))
    ensures inv(ss[k])
  {
    if k > 0 {
      KeptAlong(can, next, inv, ss, ts, k - 1);
      assert can(ss[k - 1], ts[k - 1]);
    }
  }
}
