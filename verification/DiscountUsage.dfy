/**
 How often a discount is used (apps/api/src/order/order.service.ts). A checkout reads the usage count and
 compares it with the limit; the increment and the order row appear together with the commit. Between the
 two, other checkouts may do the same.
 */
module DiscountUsage {
  import opened Wrappers

  type Id = nat

  /** `pending` are the checkouts that have passed the check and are not finished, with their discount. */
  datatype State = State(used: map<Id, nat>, limits: map<Id, nat>, pending: map<Id, Id>, orders: seq<Option<Id>>)

  datatype Step =
    | Check(checkout: Id, discount: Id)
    | Commit(checkout: Id)
    | Abort(checkout: Id)
    | PlainOrder

  function Apply(s: State, step: Step): State {
    match step
    case Check(checkout, discount) =>
      if checkout in s.pending || discount !in s.used then s
      else if discount in s.limits && s.used[discount] >= s.limits[discount] then s  // 400
      else s.(pending := s.pending[checkout := discount])
    case Commit(checkout) =>
      if checkout !in s.pending || s.pending[checkout] !in s.used then s
      else
        var d := s.pending[checkout];
        s.(used := s.used[d := s.used[d] + 1], orders := s.orders + [Some(d)], pending := s.pending - {checkout})
    case Abort(checkout) => s.(pending := s.pending - {checkout})
    case PlainOrder => s.(orders := s.orders + [None])
  }

  function Run(s: State, steps: seq<Step>): State {
    if steps == [] then s else Apply(Run(s, steps[..|steps| - 1]), steps[|steps| - 1])
  }

  /** The orders that carry the discount. */
  function Carrying(orders: seq<Option<Id>>, d: Id): nat {
    if orders == [] then 0
    else Carrying(orders[..|orders| - 1], d) + (if orders[|orders| - 1] == Some(d) then 1 else 0)
  }

  /** A checkout gets the discount exactly if the discount exists and is not used up when it looks. */
  lemma CheckEffect(s: State, checkout: Id, d: Id)
    requires checkout !in s.pending
    ensures var t := Apply(s, Check(checkout, d));
            if d in s.used && (d in s.limits ==> s.used[d] < s.limits[d])
            then t == s.(pending := s.pending[checkout := d])
            else t == s
  {
  }

  /** A commit counts one use and stores one order; an abort leaves no trace. */
  lemma FinishEffect(s: State, checkout: Id)
    requires checkout in s.pending && s.pending[checkout] in s.used
    ensures var d, t := s.pending[checkout], Apply(s, Commit(checkout));
            && d in t.used && t.used[d] == s.used[d] + 1 && t.orders == s.orders + [Some(d)] && checkout !in t.pending
            && t.limits == s.limits && (forall e :: e in s.used && e != d ==> e in t.used && t.used[e] == s.used[e])
    ensures Apply(s, Abort(checkout)) == s.(pending := s.pending - {checkout})
    ensures Apply(s, PlainOrder) == s.(orders := s.orders + [None])
  {
  }

  lemma StepCounts(s: State, step: Step, d: Id)
    requires d in s.used
    ensures var t := Apply(s, step);
            d in t.used && t.used[d] + Carrying(s.orders, d) == s.used[d] + Carrying(t.orders, d)
  {
    assert forall o :: (s.orders + [o])[..|s.orders|] == s.orders;
  }

  /** The usage count rises by exactly the number of committed orders that carry the discount. */
  lemma {:induction false} CountsOrders(s: State, steps: seq<Step>, d: Id)
    requires d in s.used
    ensures var t := Run(s, steps);
            d in t.used && t.used[d] + Carrying(s.orders, d) == s.used[d] + Carrying(t.orders, d)
  {
    if steps != [] {
      hide Apply, Carrying;
      CountsOrders(s, steps[..|steps| - 1], d);
      StepCounts(Run(s, steps[..|steps| - 1]), steps[|steps| - 1], d);
    }
  }

  /** The checkouts of one discount that are between their check and their end. */
  ghost function InFlight(s: State, d: Id): set<Id> {
    set c | c in s.pending && s.pending[c] == d
  }

  /** At no time are more than `k` checkouts of the discount under way. */
  ghost predicate AtMost(s: State, steps: seq<Step>, d: Id, k: nat) {
    forall i :: 0 <= i <= |steps| ==> |InFlight(Run(s, steps[..i]), d)| <= k
  }

  lemma InFlightAdd(s: State, c: Id, d: Id)
    requires c !in s.pending
    ensures |InFlight(s.(pending := s.pending[c := d]), d)| == |InFlight(s, d)| + 1
  {
    assert InFlight(s.(pending := s.pending[c := d]), d) == InFlight(s, d) + {c};
  }

  lemma InFlightDrop(s: State, t: State, c: Id, d: Id)
    requires t.pending == s.pending - {c}
    ensures |InFlight(t, d)| == |InFlight(s, d)| - (if c in s.pending && s.pending[c] == d then 1 else 0)
  {
    if c in s.pending && s.pending[c] == d {
      assert InFlight(s, d) == InFlight(t, d) + {c};
    } else {
      assert InFlight(s, d) == InFlight(t, d);
    }
  }

  /** The usage so far and the checkouts under way never add up to more than limit + k - 1. */
  ghost predicate Headroom(s: State, d: Id, k: nat) {
    d in s.used && d in s.limits && s.used[d] + |InFlight(s, d)| <= s.limits[d] + k - 1
  }

  lemma StepHeadroom(s: State, step: Step, d: Id, k: nat)
    requires Headroom(s, d, k) && |InFlight(Apply(s, step), d)| <= k
    ensures Headroom(Apply(s, step), d, k)
  {
    var t := Apply(s, step);
    match step
    case Check(checkout, discount) =>
      if t != s {
        if discount == d { InFlightAdd(s, checkout, d); } else { assert InFlight(t, d) == InFlight(s, d); }
      }
    case Commit(checkout) => if t != s { InFlightDrop(s, t, checkout, d); }
    case Abort(checkout) => InFlightDrop(s, t, checkout, d);
    case PlainOrder => assert InFlight(t, d) == InFlight(s, d);
  }

  lemma {:induction false} RunHeadroom(s: State, steps: seq<Step>, d: Id, k: nat)
    requires Headroom(s, d, k) && AtMost(s, steps, d, k)
    ensures Headroom(Run(s, steps), d, k) && Run(s, steps).limits == s.limits
  {
    if steps != [] {
      var init := steps[..|steps| - 1];
      assert forall i :: 0 <= i <= |init| ==> init[..i] == steps[..i];
      assert steps[..|steps|] == steps;
      RunHeadroom(s, init, d, k);
      StepHeadroom(Run(s, init), steps[|steps| - 1], d, k);
    }
  }

  /** With at most `k` checkouts at a time, the limit is exceeded by at most k - 1; one at a time never exceeds it. */
  lemma LimitExceededByLess(s: State, steps: seq<Step>, d: Id, k: nat)
    requires d in s.used && d in s.limits && s.used[d] <= s.limits[d] && InFlight(s, d) == {} && k >= 1
             && AtMost(s, steps, d, k)
    ensures var t := Run(s, steps); d in t.used && t.used[d] <= s.limits[d] + k - 1
  {
    RunHeadroom(s, steps, d, k);
  }

  // ----- the bound is reached -----

  function Checks(d: Id, k: nat): seq<Step> {
    if k == 0 then [] else Checks(d, k - 1) + [Check(k - 1, d)]
  }

  function Commits(k: nat): seq<Step> {
    if k == 0 then [] else Commits(k - 1) + [Commit(k - 1)]
  }

  /** The checkouts `from` to `to` are under way, all of them for `d`. */
  ghost predicate PendingRange(pending: map<Id, Id>, d: Id, from: nat, to: nat) {
    forall c :: (c in pending <==> from <= c < to) && (c in pending ==> pending[c] == d)
  }

  lemma OneMore(pending: map<Id, Id>, d: Id, k: nat)
    requires PendingRange(pending, d, 0, k)
    ensures k !in pending && PendingRange(pending[k := d], d, 0, k + 1)
  {
  }

  lemma OneLess(pending: map<Id, Id>, d: Id, from: nat, to: nat)
    requires from < to && PendingRange(pending, d, from, to)
    ensures from in pending && pending[from] == d && PendingRange(pending - {from}, d, from + 1, to)
  {
  }

  lemma {:induction false} AfterChecks(s: State, d: Id, k: nat)
    requires s.pending == map[] && d in s.used && (d in s.limits ==> s.used[d] < s.limits[d])
    ensures var t := Run(s, Checks(d, k)); t == s.(pending := t.pending) && PendingRange(t.pending, d, 0, k)
  {
    if k > 0 {
      AfterChecks(s, d, k - 1);
      assert Checks(d, k)[..|Checks(d, k)| - 1] == Checks(d, k - 1);
      var before := Run(s, Checks(d, k - 1));
      assert Run(s, Checks(d, k)) == Apply(before, Check(k - 1, d));
      hide Checks, Run, PendingRange;
      OneMore(before.pending, d, k - 1);
    }
  }

  lemma {:induction false} AfterCommits(s: State, d: Id, k: nat, n: nat)
    requires n <= k && PendingRange(s.pending, d, 0, k) && d in s.used
    ensures var t := Run(s, Commits(n)); PendingRange(t.pending, d, n, k) && d in t.used && t.used[d] == s.used[d] + n
  {
    if n > 0 {
      AfterCommits(s, d, k, n - 1);
      assert Commits(n)[..|Commits(n)| - 1] == Commits(n - 1);
      var before := Run(s, Commits(n - 1));
      assert Run(s, Commits(n)) == Apply(before, Commit(n - 1));
      hide Commits, Run, PendingRange;
      OneLess(before.pending, d, n - 1, k);
    }
  }

  lemma {:induction false} RunConcat(s: State, a: seq<Step>, b: seq<Step>)
    ensures Run(s, a + b) == Run(Run(s, a), b)
  {
    if b == [] {
      assert a + b == a;
    } else {
      assert (a + b)[..|a + b| - 1] == a + b[..|b| - 1];
      RunConcat(s, a, b[..|b| - 1]);
    }
  }

  /** For every `k`, checkouts that all read the last free use push the count to limit + k - 1. */
  lemma BoundIsReached(limit: nat, k: nat)
    requires limit >= 1
    ensures var t := Run(State(map[0 := limit - 1], map[0 := limit], map[], []), Checks(0, k) + Commits(k));
            0 in t.used && t.used[0] == limit + k - 1
    ensures AtMost(State(map[0 := limit - 1], map[0 := limit], map[], []), Checks(0, k) + Commits(k), 0, k)
  {
    var s := State(map[0 := limit - 1], map[0 := limit], map[], []);
    AfterChecks(s, 0, k);
    AfterCommits(Run(s, Checks(0, k)), 0, k, k);
    RunConcat(s, Checks(0, k), Commits(k));
    BurstAtMost(s, 0, k);
  }

  lemma {:induction false} ChecksPrefix(d: Id, k: nat, i: nat)
    requires i <= k
    ensures |Checks(d, k)| == k && Checks(d, k)[..i] == Checks(d, i)
  {
    if k > 0 {
      ChecksPrefix(d, k - 1, if i < k then i else k - 1);
      assert i < k ==> Checks(d, k)[..i] == Checks(d, k - 1)[..i];
      assert Checks(d, k)[..k] == Checks(d, k);
    }
  }

  lemma {:induction false} CommitsPrefix(k: nat, i: nat)
    requires i <= k
    ensures |Commits(k)| == k && Commits(k)[..i] == Commits(i)
  {
    if k > 0 {
      CommitsPrefix(k - 1, if i < k then i else k - 1);
      assert i < k ==> Commits(k)[..i] == Commits(k - 1)[..i];
      assert Commits(k)[..k] == Commits(k);
    }
  }

  lemma {:induction false} RangeSize(s: State, d: Id, from: nat, n: nat)
    requires PendingRange(s.pending, d, from, from + n)
    ensures |InFlight(s, d)| == n
    decreases n
  {
    if n == 0 {
      assert InFlight(s, d) == {};
    } else {
      var t := s.(pending := s.pending - {from});
      RangeSize(t, d, from + 1, n - 1);
      InFlightDrop(s, t, from, d);
    }
  }

  /** The checkouts of this run are never more than `k` at a time. */
  lemma BurstAtMost(s: State, d: Id, k: nat)
    requires s.pending == map[] && d in s.used && (d in s.limits ==> s.used[d] < s.limits[d])
    ensures AtMost(s, Checks(d, k) + Commits(k), d, k)
  {
    var steps := Checks(d, k) + Commits(k);
    ChecksPrefix(d, k, k);
    CommitsPrefix(k, k);
    forall i | 0 <= i <= |steps| ensures |InFlight(Run(s, steps[..i]), d)| <= k {
      if i <= k {
        ChecksPrefix(d, k, i);
        assert steps[..i] == Checks(d, k)[..i];
        AfterChecks(s, d, i);
        RangeSize(Run(s, steps[..i]), d, 0, i);
      } else {
        var n := i - k;
        CommitsPrefix(k, n);
        assert steps[..i] == Checks(d, k) + Commits(k)[..n];
        RunConcat(s, Checks(d, k), Commits(n));
        AfterChecks(s, d, k);
        AfterCommits(Run(s, Checks(d, k)), d, k, n);
        RangeSize(Run(s, steps[..i]), d, n, k - n);
      }
    }
  }
}
