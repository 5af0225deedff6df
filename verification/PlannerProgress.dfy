/** How many passes the planner needs, and how exact its weighted shares are. */
module PlannerProgress {
  import opened Wrappers
  import opened Sorting
  import opened Planner
  import opened PlannerProofs
  import opened PlannerTheorems

  /** The number of times the body of the main loop runs. */
  function Passes(prefs: seq<NamedPreferences>, capacity: map<string, int>, l: Ledger): nat
    requires Distinct(prefs) && NothingOwed(l)
    decreases |prefs|, Measure(prefs, l)
  {
    if l.remaining <= 0 then 0
    else
      PassesEnd(prefs, capacity, l);
      var ps := RunPass(prefs, capacity, l);
      1 + if ps.modified then Passes(ps.next, capacity, ps.ledger) else 0
  }

  /** What the first `i` clusters of a pass took from the unplaced and the preallocated replicas. */
  function Taken(prefs: seq<NamedPreferences>, i: nat, quota: NamedPreferences -> int,
                 capacity: map<string, int>, l: Ledger): int
    requires i <= |prefs|
  {
    var now := Pass(prefs, i, quota, capacity, l).ledger;
    (l.remaining + Pending(prefs, l.preallocated)) - (now.remaining + Pending(prefs, now.preallocated))
  }

  lemma TakesItsShare(p: NamedPreferences, start: int, prealloc: int, remaining: int, share: int,
                      capacity: map<string, int>)
    requires p.weight >= 0 && prealloc >= 0 && remaining >= 0 && share >= 0
    requires !Share(p, start, prealloc, remaining, share, capacity).full
    ensures var o := Share(p, start, prealloc, remaining, share, capacity);
            && (o.total - start) + (prealloc - o.preallocated) == Min(share, remaining)
            && o.preallocated <= prealloc
  {
  }

  /** One cluster that does not fill up takes its rounded-up share or everything that is left. */
  lemma TakenStep(prefs: seq<NamedPreferences>, i: nat, quota: NamedPreferences -> int, capacity: map<string, int>,
                  l: Ledger)
    requires Distinct(prefs) && NothingOwed(l) && l.remaining >= 0 && WeightsNonNegative(prefs)
    requires i < |prefs| && quota(prefs[i]) >= 0
    requires |Pass(prefs, i + 1, quota, capacity, l).next| == i + 1
    ensures var before := Pass(prefs, i, quota, capacity, l);
            var after := Pass(prefs, i + 1, quota, capacity, l);
            && |before.next| == i
            && Taken(prefs, i + 1, quota, capacity, l) ==
               Taken(prefs, i, quota, capacity, l) + Min(quota(prefs[i]), before.ledger.remaining)
            && Pending(prefs, after.ledger.preallocated) <= Pending(prefs, before.ledger.preallocated)
  {
    var p, before := prefs[i], Pass(prefs, i, quota, capacity, l);
    PassDropsClusters(prefs, i, quota, capacity, l);
    PassOwesNothing(prefs, i, quota, capacity, l);
    var o := ShareOf(before, p, quota(p), capacity);
    TakesItsShare(p, Get(before.ledger.plan, p.clusterName), Get(before.ledger.preallocated, p.clusterName),
                  before.ledger.remaining, quota(p), capacity);
    PendingUpdate(prefs, before.ledger.preallocated, i, o.preallocated);
  }

  /** What the first `i` clusters are due together. */
  function SumQuota(prefs: seq<NamedPreferences>, i: nat, quota: NamedPreferences -> int): int
    requires i <= |prefs|
  {
    if i == 0 then 0 else SumQuota(prefs, i - 1, quota) + quota(prefs[i - 1])
  }

  lemma {:induction false} TakesAllQuotas(prefs: seq<NamedPreferences>, i: nat, quota: NamedPreferences -> int,
                                          capacity: map<string, int>, l: Ledger)
    requires Distinct(prefs) && NothingOwed(l) && l.remaining > 0 && WeightsNonNegative(prefs) && Signed(quota)
    requires i <= |prefs| && |Pass(prefs, i, quota, capacity, l).next| == i
    ensures var taken := Taken(prefs, i, quota, capacity, l);
            && Pass(prefs, i, quota, capacity, l).ledger.remaining >= l.remaining - taken
            && (taken >= l.remaining || taken >= SumQuota(prefs, i, quota))
  {
    hide Pending, Distinct, Pass;
    PassStep(prefs, i, quota, capacity, l);
    if i > 0 {
      assert prefs[i - 1] in prefs;
      TakenStep(prefs, i - 1, quota, capacity, l);
      TakesAllQuotas(prefs, i - 1, quota, capacity, l);
      PassOwesNothing(prefs, i - 1, quota, capacity, l);
    }
  }

  // Arithmetic of rounded-up shares.

  lemma Cancel(a: int, b: int, w: int)
    requires w > 0 && a * w >= b * w
    ensures a >= b
  {
  }

  lemma CancelStrict(a: int, b: int, w: int)
    requires w > 0 && a * w > b * w
    ensures a > b
  {
  }

  lemma SumOfProducts(s: int, q: int, w: int, d: int, u: int, v: int)
    requires s * w >= d * u && q * w >= d * v
    ensures (s + q) * w >= d * (u + v)
  {
  }

  ghost predicate RoundsUp(quota: NamedPreferences -> int, p: NamedPreferences, distribute: int, weightSum: int) {
    quota(p) * weightSum >= distribute * p.weight
  }

  lemma {:induction false} QuotasCover(prefs: seq<NamedPreferences>, i: nat, quota: NamedPreferences -> int,
                                       distribute: int, weightSum: int)
    requires i <= |prefs| && forall p :: p in prefs ==> RoundsUp(quota, p, distribute, weightSum)
    ensures SumQuota(prefs, i, quota) * weightSum >= distribute * WeightSum(prefs[..i])
  {
    if i > 0 {
      var p := prefs[i - 1];
      QuotasCover(prefs, i - 1, quota, distribute, weightSum);
      assert RoundsUp(quota, p, distribute, weightSum);
      assert prefs[..i][..i - 1] == prefs[..i - 1];
      SumOfProducts(SumQuota(prefs, i - 1, quota), quota(p), weightSum, distribute,
                    WeightSum(prefs[..i - 1]), p.weight);
    } else {
      assert prefs[..0] == [];
    }
  }

  /** Shares rounded up add up to at least the whole. */
  lemma SharesCoverTheWhole(prefs: seq<NamedPreferences>, distribute: int)
    requires distribute >= 0 && WeightsNonNegative(prefs) && WeightSum(prefs) > 0
    ensures SumQuota(prefs, |prefs|, Quota(distribute, WeightSum(prefs))) >= distribute
  {
    var weightSum := WeightSum(prefs);
    var quota := Quota(distribute, weightSum);
    forall p | p in prefs ensures RoundsUp(quota, p, distribute, weightSum) {
      RoundedUp(distribute, p.weight, weightSum);
    }
    QuotasCover(prefs, |prefs|, quota, distribute, weightSum);
    assert prefs[..|prefs|] == prefs;
    Cancel(SumQuota(prefs, |prefs|, quota), distribute, weightSum);
  }

  /** A pass that fills no cluster absorbs at least as many replicas, unplaced or preallocated, as
      were unplaced at its start: rounded-up shares cover the whole. */
  lemma PassProgress(prefs: seq<NamedPreferences>, capacity: map<string, int>, l: Ledger)
    requires Distinct(prefs) && NothingOwed(l) && l.remaining > 0 && WeightsNonNegative(prefs)
    requires WeightSum(prefs) > 0 && |RunPass(prefs, capacity, l).next| == |prefs|
    ensures var ps := RunPass(prefs, capacity, l);
            && ps.next == prefs
            && (ps.ledger.remaining + Pending(prefs, ps.ledger.preallocated)) + l.remaining <=
               l.remaining + Pending(prefs, l.preallocated)
  {
    var weightSum, n := WeightSum(prefs), |prefs|;
    var quota := Quota(l.remaining, weightSum);
    assert prefs[..n] == prefs;
    QuotasAreSigned(l.remaining, weightSum);
    PassKeepsClusters(prefs, n, quota, capacity, l);
    TakesAllQuotas(prefs, n, quota, capacity, l);
    SharesCoverTheWhole(prefs, l.remaining);
  }

  /** The bound the source asks for: with non-negative weights the loop runs at most once per cluster
      and once per replica preallocated on entry, plus one. */
  lemma {:induction false} PassBound(prefs: seq<NamedPreferences>, capacity: map<string, int>, l: Ledger)
    requires Distinct(prefs) && NothingOwed(l) && WeightsNonNegative(prefs)
    ensures Passes(prefs, capacity, l) <= |prefs| + Pending(prefs, l.preallocated) + 1
    decreases |prefs|, Measure(prefs, l)
  {
    PendingNonNegative(prefs, l);
    if l.remaining > 0 {
      PassesEnd(prefs, capacity, l);
      var ps := RunPass(prefs, capacity, l);
      if ps.modified {
        if |ps.next| == |prefs| {
          PassProgress(prefs, capacity, l);
        } else {
          PendingShrinks(prefs, capacity, l);
        }
        PassBound(ps.next, capacity, ps.ledger);
      }
    }
  }

  /** A pass leaves no cluster with more preallocated replicas to pay for than it had. */
  lemma PendingShrinks(prefs: seq<NamedPreferences>, capacity: map<string, int>, l: Ledger)
    requires Distinct(prefs) && NothingOwed(l) && l.remaining > 0 && WeightsNonNegative(prefs) && WeightSum(prefs) > 0
    ensures var ps := RunPass(prefs, capacity, l);
            Pending(ps.next, ps.ledger.preallocated) <= Pending(prefs, l.preallocated)
  {
    var weightSum := WeightSum(prefs);
    QuotasAreSigned(l.remaining, weightSum);
    PendingShrinksUpTo(prefs, |prefs|, Quota(l.remaining, weightSum), capacity, l);
    assert prefs[..|prefs|] == prefs;
  }

  lemma {:induction false} PendingShrinksUpTo(prefs: seq<NamedPreferences>, i: nat, quota: NamedPreferences -> int,
                                              capacity: map<string, int>, l: Ledger)
    requires Distinct(prefs) && NothingOwed(l) && l.remaining >= 0 && WeightsNonNegative(prefs) && Signed(quota)
    requires i <= |prefs|
    ensures var ps := Pass(prefs, i, quota, capacity, l);
            Pending(ps.next, ps.ledger.preallocated) <= Pending(prefs[..i], l.preallocated)
  {
    hide Distinct, WeightsNonNegative, NothingOwed, Signed, Share, ShareOf, Apply;
    if i > 0 {
      var p, ps := prefs[i - 1], Pass(prefs, i - 1, quota, capacity, l);
      var o := ShareOf(ps, p, quota(p), capacity);
      PendingShrinksUpTo(prefs, i - 1, quota, capacity, l);
      PassOwesNothing(prefs, i - 1, quota, capacity, l);
      assert prefs[..i][..i - 1] == prefs[..i - 1] && prefs[..i][i - 1] == p;
      PendingStep(prefs, i - 1, quota, capacity, l);
      PendingApply(ps, p, o);
    }
  }

  lemma PendingStep(prefs: seq<NamedPreferences>, i: nat, quota: NamedPreferences -> int, capacity: map<string, int>,
                    l: Ledger)
    requires Distinct(prefs) && WeightsNonNegative(prefs) && Signed(quota) && i < |prefs|
    requires var ps := Pass(prefs, i, quota, capacity, l); NothingOwed(ps.ledger) && ps.ledger.remaining >= 0
    ensures var p, ps := prefs[i], Pass(prefs, i, quota, capacity, l);
            && p.weight >= 0
            && 0 <= ShareOf(ps, p, quota(p), capacity).preallocated <= Get(l.preallocated, p.clusterName)
            && forall q :: q in ps.next ==> q.clusterName != p.clusterName
  {
    var p, ps := prefs[i], Pass(prefs, i, quota, capacity, l);
    assert p in prefs;
    PassVisits(prefs, i, quota, capacity, l);
    PassElsewhere(prefs, 0, i, quota, capacity, l, p.clusterName);
    TakesNoMore(p, Get(ps.ledger.plan, p.clusterName), Get(ps.ledger.preallocated, p.clusterName),
                ps.ledger.remaining, quota(p), capacity);
  }

  lemma TakesNoMore(p: NamedPreferences, start: int, prealloc: int, remaining: int, share: int,
                    capacity: map<string, int>)
    requires prealloc >= 0 && remaining >= 0 && share >= 0
    ensures 0 <= Share(p, start, prealloc, remaining, share, capacity).preallocated <= prealloc
  {
  }

  lemma PendingApply(ps: PassState, p: NamedPreferences, o: Outcome)
    requires p.weight >= 0 && o.preallocated >= 0 && forall q :: q in ps.next ==> q.clusterName != p.clusterName
    ensures var r := Apply(ps, p, o);
            Pending(r.next, r.ledger.preallocated) <= Pending(ps.next, ps.ledger.preallocated) + o.preallocated
  {
    PendingElsewhere(ps.next, ps.ledger.preallocated, p.clusterName, o.preallocated);
    assert (ps.next + [p])[..|ps.next|] == ps.next;
  }

  // -------------------------------------------------------------------------- the bound when replicas are scarce

  /** No plan is above its maximum or its capacity. */
  ghost predicate Within(prefs: seq<NamedPreferences>, capacity: map<string, int>, plan: map<string, int>) {
    forall p :: p in prefs ==> FitsIn(p, capacity, Get(plan, p.clusterName))
  }

  predicate FitsIn(p: NamedPreferences, capacity: map<string, int>, count: int) {
    && (p.maxReplicas.Some? ==> count <= p.maxReplicas.value)
    && (p.clusterName in capacity ==> count <= capacity[p.clusterName])
  }

  lemma ShareMovesWithin(p: NamedPreferences, start: int, prealloc: int, remaining: int, share: int,
                         capacity: map<string, int>)
    requires remaining >= 0 && prealloc >= 0 && share >= 0 && FitsIn(p, capacity, start)
    ensures var o := Share(p, start, prealloc, remaining, share, capacity);
            && FitsIn(p, capacity, o.total)
            && (o.total - start) + (prealloc - o.preallocated) >= if o.modified then 1 else 0
  {
  }

  /** Within their bounds, even clusters that fill up give nothing back. */
  lemma {:induction false} PassMeasureWithin(prefs: seq<NamedPreferences>, i: nat, quota: NamedPreferences -> int,
                                             capacity: map<string, int>, l: Ledger)
    requires i <= |prefs| && Distinct(prefs) && NothingOwed(l) && l.remaining >= 0 && Signed(quota)
    requires WeightsNonNegative(prefs) && Within(prefs, capacity, l.plan)
    ensures var ps := Pass(prefs, i, quota, capacity, l);
            ps.ledger.remaining + Pending(prefs, ps.ledger.preallocated) <=
            l.remaining + Pending(prefs, l.preallocated) - if ps.modified then 1 else 0
  {
    hide Share, Pending, Distinct, FitsIn, Pass, ShareOf, Apply;
    PassStep(prefs, i, quota, capacity, l);
    if i > 0 {
      var p, ps := prefs[i - 1], Pass(prefs, i - 1, quota, capacity, l);
      assert p in prefs;
      OutcomeIs(ps, p, quota(p), capacity);
      ModifiedIs(ps, p, ShareOf(ps, p, quota(p), capacity));
      PassMeasureWithin(prefs, i - 1, quota, capacity, l);
      PassOwesNothing(prefs, i - 1, quota, capacity, l);
      StillUntouched(prefs, i - 1, quota, capacity, l);
      ShareMovesWithin(p, Get(ps.ledger.plan, p.clusterName), Get(ps.ledger.preallocated, p.clusterName),
                       ps.ledger.remaining, quota(p), capacity);
      StepMeasure(prefs, i - 1, ps, ShareOf(ps, p, quota(p), capacity));
    }
  }

  /** Before its turn in a pass a cluster has what it had at the start. */
  lemma StillUntouched(prefs: seq<NamedPreferences>, j: nat, quota: NamedPreferences -> int,
                       capacity: map<string, int>, l: Ledger)
    requires Distinct(prefs) && j < |prefs|
    ensures SameEntry(l, Pass(prefs, j, quota, capacity, l).ledger, prefs[j].clusterName)
  {
    PassElsewhere(prefs, 0, j, quota, capacity, l, prefs[j].clusterName);
  }

  lemma StepMeasure(prefs: seq<NamedPreferences>, i: nat, ps: PassState, o: Outcome)
    requires Distinct(prefs) && i < |prefs| && prefs[i].weight >= 0
    requires var p := prefs[i];
             (o.total - Get(ps.ledger.plan, p.clusterName)) +
             (Get(ps.ledger.preallocated, p.clusterName) - o.preallocated) >= if o.modified then 1 else 0
    ensures var r := Apply(ps, prefs[i], o);
            r.ledger.remaining + Pending(prefs, r.ledger.preallocated) <=
            ps.ledger.remaining + Pending(prefs, ps.ledger.preallocated) - if o.modified then 1 else 0
  {
    PendingUpdate(prefs, ps.ledger.preallocated, i, o.preallocated);
  }

  lemma {:induction false} FewerPending(prefs: seq<NamedPreferences>, i: nat, quota: NamedPreferences -> int,
                                        capacity: map<string, int>, l: Ledger, l': Ledger)
    requires i <= |prefs| && NothingOwed(l')
    ensures Pending(Pass(prefs, i, quota, capacity, l).next, l'.preallocated) <= Pending(prefs[..i], l'.preallocated)
  {
    hide Share, ShareOf, Apply, Pending, NothingOwed, Pass;
    PassStep(prefs, i, quota, capacity, l);
    if i > 0 {
      var before, p := Pass(prefs, i - 1, quota, capacity, l), prefs[i - 1];
      FewerPending(prefs, i - 1, quota, capacity, l, l');
      NextIs(before, p, ShareOf(before, p, quota(p), capacity));
      PendingOneMore(before.next, p, l');
      PendingOneMore(prefs[..i - 1], p, l');
      assert prefs[..i] == prefs[..i - 1] + [p];
    } else {
      assert prefs[..0] == [];
    }
  }

  lemma PendingOneMore(prefs: seq<NamedPreferences>, p: NamedPreferences, l: Ledger)
    requires NothingOwed(l)
    ensures Pending(prefs + [p], l.preallocated) ==
            Pending(prefs, l.preallocated) + if p.weight >= 0 then Get(l.preallocated, p.clusterName) else 0
    ensures Get(l.preallocated, p.clusterName) >= 0
  {
    assert (prefs + [p])[..|prefs|] == prefs;
  }

  lemma WithinKept(prefs: seq<NamedPreferences>, capacity: map<string, int>, l: Ledger)
    requires Distinct(prefs) && NothingOwed(l) && l.remaining > 0 && WeightSum(prefs) > 0
    requires WeightsNonNegative(prefs) && Within(prefs, capacity, l.plan)
    ensures var ps := RunPass(prefs, capacity, l); Within(ps.next, capacity, ps.ledger.plan)
  {
    hide Share, FitsIn, WeightSum;
    var quota, ps := Quota(l.remaining, WeightSum(prefs)), RunPass(prefs, capacity, l);
    QuotasAreSigned(l.remaining, WeightSum(prefs));
    PassesEnd(prefs, capacity, l);
    forall p | p in ps.next ensures FitsIn(p, capacity, Get(ps.ledger.plan, p.clusterName)) {
      assert p in prefs;
      var o, j := PassResult(prefs, p, capacity, l);
      PassOwesNothing(prefs, j, quota, capacity, l);
      ShareMovesWithin(p, Get(l.plan, p.clusterName), Get(l.preallocated, p.clusterName),
                       Pass(prefs, j, quota, capacity, l).ledger.remaining, quota(p), capacity);
    }
  }

  /** The other bound: if no plan is above its maximum or capacity on entry, the loop runs at most once per
      replica that is unplaced or preallocated, plus one, however many clusters there are. */
  lemma {:induction false} PassBoundScarce(prefs: seq<NamedPreferences>, capacity: map<string, int>, l: Ledger)
    requires Distinct(prefs) && NothingOwed(l) && WeightsNonNegative(prefs) && Within(prefs, capacity, l.plan)
    requires l.remaining >= 0
    ensures Passes(prefs, capacity, l) <= l.remaining + Pending(prefs, l.preallocated) + 1
    decreases |prefs|, Measure(prefs, l)
  {
    hide Within, FitsIn, Pending, WeightSum, Pass;
    PendingNonNegative(prefs, l);
    if l.remaining > 0 {
      PassesEnd(prefs, capacity, l);
      var ps := RunPass(prefs, capacity, l);
      if ps.modified {
        var quota := Quota(l.remaining, WeightSum(prefs));
        QuotasAreSigned(l.remaining, WeightSum(prefs));
        PassMeasureWithin(prefs, |prefs|, quota, capacity, l);
        FewerPending(prefs, |prefs|, quota, capacity, l, ps.ledger);
        assert prefs[..|prefs|] == prefs;
        WithinKept(prefs, capacity, l);
        PassBoundScarce(ps.next, capacity, ps.ledger);
      }
    }
  }

  // -------------------------------------------------------------------------- the bound is reached

  /** What a pass does to a single unbounded cluster due all that remains. */
  lemma SinglePass(n: NamedPreferences, quota: NamedPreferences -> int, capacity: map<string, int>, l: Ledger)
    requires n.maxReplicas.None? && n.clusterName !in capacity
    requires l.remaining > 0 && quota(n) == l.remaining && Get(l.preallocated, n.clusterName) >= 0
    ensures var ps := Pass([n], 1, quota, capacity, l);
            var owed := Get(l.preallocated, n.clusterName);
            && ps.modified && ps.next == [n]
            && Get(ps.ledger.preallocated, n.clusterName) == owed - Min(l.remaining, owed)
            && ps.ledger.remaining == Min(l.remaining, owed)
  {
    assert Pass([n], 0, quota, capacity, l) == PassState(l, false, []);
  }

  /** One unbounded cluster with `r` unplaced replicas absorbs at most `r` of its `owed` preallocated ones
      per pass, and needs `owed / r` passes, rounded up, and one more. */
  lemma {:induction false} LinearPasses(n: NamedPreferences, capacity: map<string, int>, l: Ledger, owed: nat, r: nat)
    requires n.weight > 0 && n.maxReplicas.None? && n.clusterName !in capacity
    requires NothingOwed(l) && r > 0 && l.remaining == r && Get(l.preallocated, n.clusterName) == owed
    ensures Passes([n], capacity, l) == (owed + r - 1) / r + 1
    decreases owed
  {
    hide Pass, Pending, Quota, WeightSum;
    PassesEnd([n], capacity, l);
    SingleWeight(n);
    WholeQuota(n, r);
    SinglePass(n, Quota(r, n.weight), capacity, l);
    var after := RunPass([n], capacity, l).ledger;
    PassCount(owed, r);
    if owed > r {
      LinearPasses(n, capacity, after, owed - r, r);
    } else if owed > 0 {
      LinearPasses(n, capacity, after, 0, owed);
    }
  }

  lemma WholeQuota(n: NamedPreferences, r: nat)
    requires n.weight > 0
    ensures Quota(r, n.weight)(n) == r
  {
    WholeShare(r, n.weight);
  }

  lemma PassCount(owed: nat, r: nat)
    requires r > 0
    ensures owed == 0 ==> (owed + r - 1) / r == 0
    ensures 0 < owed <= r ==> (owed + r - 1) / r == 1 && (owed - 1) / owed == 0
    ensures owed > r ==> (owed + r - 1) / r == (owed - r + r - 1) / r + 1
  {
    if owed > r {
      DivideOnceMore(owed - 1, r);
    } else if owed > 0 {
      DivideOnceMore(owed - 1, r);
    }
  }

  lemma DivideOnceMore(a: nat, r: nat)
    requires r > 0
    ensures (a + r) / r == a / r + 1
    ensures a < r ==> a / r == 0
  {
    DivisionBounds(a, r);
    OneTimesMore(a / r, r);
    QuotientIs(a + r, r, a / r + 1);
    if a < r { QuotientIs(a, r, 0); }
  }

  lemma DivisionBounds(a: nat, r: nat)
    requires r > 0
    ensures (a / r) * r <= a < (a / r) * r + r
  {
  }

  lemma QuotientIs(a: nat, r: nat, q: nat)
    requires r > 0 && q * r <= a < q * r + r
    ensures a / r == q
  {
    DivisionBounds(a, r);
    OneTimesMore(a / r, r);
    OneTimesMore(q, r);
    CancelStrict(a / r + 1, q, r);
    CancelStrict(q + 1, a / r, r);
  }

  lemma SingleWeight(n: NamedPreferences)
    ensures WeightSum([n]) == n.weight
  {
    assert [n][..0] == [];
  }

  lemma WholeShare(r: nat, w: int)
    requires w > 0
    ensures RoundedShare(r, w, w) == r
  {
    hide RoundedShare;
    RoundedUp(r, w, w);
    var q := RoundedShare(r, w, w);
    Cancel(q, r, w);
    OneTimesMore(r, w);
    CancelStrict(r + 1, q, w);
  }

  /** A whole call that takes that many passes: one cluster running `owed` of `owed + r` wanted replicas. */
  lemma LinearCall(c: string, hash: nat, w: int, owed: nat, r: nat)
    requires w > 0 && r > 0
    ensures var n := NamedPreferences(c, hash, 0, None, w);
            var p := SchedulingPreference(owed + r, false, map[]);
            Passes([n], map[], AfterPreallocation([n], p, map[], map[c := owed], map[])) == (owed + r - 1) / r + 1
  {
    hide Passes;
    var n := NamedPreferences(c, hash, 0, None, w);
    var p := SchedulingPreference(owed + r, false, map[]);
    var current := map[c := owed];
    var l := AfterPreallocation([n], p, map[], current, map[]);
    var l1 := Minimums([n], 1, map[], Start(p, map[]));
    assert Minimums([n], 0, map[], Start(p, map[])) == Start(p, map[]);
    assert Preallocations([n], 0, current, map[], l1) == l1;
    assert l == Preallocate(l1, n, current, map[]);
    LinearPasses(n, map[], l, owed, r);
  }

  // -------------------------------------------------------------------------- when pending replicas are halved

  /** What cluster `j` pays off in a pass: its share, as far as replicas are left at its turn and as far as
      it owes any. */
  function PaidOff(prefs: seq<NamedPreferences>, j: nat, quota: NamedPreferences -> int,
                   capacity: map<string, int>, l: Ledger): int
    requires j < |prefs|
  {
    var available := Pass(prefs, j, quota, capacity, l).ledger.remaining;
    Min(Min(quota(prefs[j]), available), Get(l.preallocated, prefs[j].clusterName))
  }

  function SumPaidOff(prefs: seq<NamedPreferences>, i: nat, quota: NamedPreferences -> int,
                      capacity: map<string, int>, l: Ledger): int
    requires i <= |prefs|
  {
    if i == 0 then 0 else SumPaidOff(prefs, i - 1, quota, capacity, l) + PaidOff(prefs, i - 1, quota, capacity, l)
  }

  lemma {:induction false} PendingPaidOff(prefs: seq<NamedPreferences>, i: nat, quota: NamedPreferences -> int,
                                          capacity: map<string, int>, l: Ledger)
    requires i <= |prefs| && Distinct(prefs) && WeightsNonNegative(prefs)
    ensures Pending(prefs, Pass(prefs, i, quota, capacity, l).ledger.preallocated) ==
            Pending(prefs, l.preallocated) - SumPaidOff(prefs, i, quota, capacity, l)
  {
    hide Pending, Distinct, Share, Pass, ShareOf;
    PassStep(prefs, i, quota, capacity, l);
    if i > 0 {
      var p, ps := prefs[i - 1], Pass(prefs, i - 1, quota, capacity, l);
      assert p in prefs;
      OutcomeIs(ps, p, quota(p), capacity);
      PendingPaidOff(prefs, i - 1, quota, capacity, l);
      StillUntouched(prefs, i - 1, quota, capacity, l);
      SharePaysOff(p, Get(ps.ledger.plan, p.clusterName), Get(l.preallocated, p.clusterName),
                   ps.ledger.remaining, quota(p), capacity);
      PendingUpdate(prefs, ps.ledger.preallocated, i - 1, ShareOf(ps, p, quota(p), capacity).preallocated);
    }
  }

  lemma SharePaysOff(p: NamedPreferences, start: int, prealloc: int, remaining: int, share: int,
                     capacity: map<string, int>)
    ensures Share(p, start, prealloc, remaining, share, capacity).preallocated ==
            prealloc - Min(Min(share, remaining), prealloc)
  {
  }

  /** A pass halves the pending preallocated replicas exactly if what the clusters pay off is at least half
      of them. */
  lemma HalvedIff(prefs: seq<NamedPreferences>, capacity: map<string, int>, l: Ledger)
    requires Distinct(prefs) && WeightsNonNegative(prefs) && WeightSum(prefs) > 0
    ensures 2 * Pending(prefs, RunPass(prefs, capacity, l).ledger.preallocated) <= Pending(prefs, l.preallocated) <==>
            Pending(prefs, l.preallocated) <=
            2 * SumPaidOff(prefs, |prefs|, Quota(l.remaining, WeightSum(prefs)), capacity, l)
  {
    PendingPaidOff(prefs, |prefs|, Quota(l.remaining, WeightSum(prefs)), capacity, l);
  }

  /** For a single unbounded cluster: exactly if at least half as many replicas are unplaced. */
  lemma SingleHalvedIff(n: NamedPreferences, capacity: map<string, int>, l: Ledger)
    requires n.weight > 0 && n.maxReplicas.None? && n.clusterName !in capacity
    requires NothingOwed(l) && l.remaining > 0
    ensures var owed := Get(l.preallocated, n.clusterName);
            2 * Get(RunPass([n], capacity, l).ledger.preallocated, n.clusterName) <= owed <==> owed <= 2 * l.remaining
  {
    SingleWeight(n);
    WholeQuota(n, l.remaining);
    SinglePass(n, Quota(l.remaining, n.weight), capacity, l);
  }

  /** Every cluster owes at least its share. */
  ghost predicate OweTheirShares(prefs: seq<NamedPreferences>, quota: NamedPreferences -> int, l: Ledger) {
    forall p :: p in prefs ==> quota(p) <= Get(l.preallocated, p.clusterName)
  }

  lemma ShareFitsWhole(distribute: int, weight: int, weightSum: int)
    requires distribute >= 0 && 0 <= weight <= weightSum && weightSum > 0
    ensures RoundedShare(distribute, weight, weightSum) <= distribute
  {
    hide RoundedShare;
    RoundedUp(distribute, weight, weightSum);
    TimesMore(distribute, weight, weightSum);
    OneTimesMore(distribute, weightSum);
    CancelStrict(distribute + 1, RoundedShare(distribute, weight, weightSum), weightSum);
  }

  lemma TimesMore(d: int, a: int, b: int)
    requires d >= 0 && a <= b
    ensures d * a <= d * b
  {
  }

  lemma OneTimesMore(d: int, w: int)
    ensures (d + 1) * w == d * w + w
  {
  }

  /** While every cluster pays off its whole share, nothing is placed anew and all the replicas stay
      available. */
  lemma {:induction false} PaysWholeShares(prefs: seq<NamedPreferences>, i: nat, quota: NamedPreferences -> int,
                                           capacity: map<string, int>, l: Ledger)
    requires i <= |prefs| && Distinct(prefs) && OweTheirShares(prefs, quota, l)
    requires forall p :: p in prefs ==> 0 <= quota(p) <= l.remaining
    ensures Pass(prefs, i, quota, capacity, l).ledger.remaining >= l.remaining
    ensures SumPaidOff(prefs, i, quota, capacity, l) == SumQuota(prefs, i, quota)
  {
    hide Distinct, Share, Pass, ShareOf, Apply;
    PassStep(prefs, i, quota, capacity, l);
    if i > 0 {
      var p, ps := prefs[i - 1], Pass(prefs, i - 1, quota, capacity, l);
      assert p in prefs;
      PaysWholeShares(prefs, i - 1, quota, capacity, l);
      StillUntouched(prefs, i - 1, quota, capacity, l);
      OutcomeIs(ps, p, quota(p), capacity);
      RemainingIs(ps, p, ShareOf(ps, p, quota(p), capacity));
      WholeShareIsPaid(p, Get(ps.ledger.plan, p.clusterName), Get(l.preallocated, p.clusterName),
                       ps.ledger.remaining, quota(p), capacity);
    }
  }

  lemma RemainingIs(ps: PassState, p: NamedPreferences, o: Outcome)
    ensures Apply(ps, p, o).ledger.remaining == ps.ledger.remaining - (o.total - Get(ps.ledger.plan, p.clusterName))
  {
  }

  lemma WholeShareIsPaid(p: NamedPreferences, start: int, prealloc: int, remaining: int, share: int,
                         capacity: map<string, int>)
    requires 0 <= share <= remaining && share <= prealloc
    ensures Share(p, start, prealloc, remaining, share, capacity).total <= start
  {
  }

  /** For any number of clusters each of which owes at least its share: a pass halves the pending replicas
      exactly if on entry they are at most twice the sum of the shares. */
  lemma HalvedIffSharesSuffice(prefs: seq<NamedPreferences>, capacity: map<string, int>, l: Ledger)
    requires Distinct(prefs) && WeightsNonNegative(prefs) && WeightSum(prefs) > 0 && l.remaining > 0
    requires OweTheirShares(prefs, Quota(l.remaining, WeightSum(prefs)), l)
    ensures 2 * Pending(prefs, RunPass(prefs, capacity, l).ledger.preallocated) <= Pending(prefs, l.preallocated) <==>
            Pending(prefs, l.preallocated) <= 2 * SumQuota(prefs, |prefs|, Quota(l.remaining, WeightSum(prefs)))
  {
    hide RoundedShare, Pass, Pending, SumPaidOff, RunPass, WeightSum;
    var quota := Quota(l.remaining, WeightSum(prefs));
    forall p | p in prefs ensures 0 <= quota(p) <= l.remaining {
      WeightSumPositive(prefs, p);
      SharesAreSigned(l.remaining, p.weight, WeightSum(prefs));
      ShareFitsWhole(l.remaining, p.weight, WeightSum(prefs));
    }
    PaysWholeShares(prefs, |prefs|, quota, capacity, l);
    HalvedIff(prefs, capacity, l);
  }

  // -------------------------------------------------------------------------- fair shares

  /** No minimum, maximum or capacity interferes with the weights. */
  ghost predicate Unconstrained(order: seq<NamedPreferences>, capacity: map<string, int>) {
    forall n :: n in order ==> n.minReplicas == 0 && n.maxReplicas.None? && n.clusterName !in capacity && n.weight >= 0
  }

  function AtLeastZero(x: int): int {
    if x < 0 then 0 else x
  }

  lemma {:induction false} UnconstrainedPass(prefs: seq<NamedPreferences>, i: nat, quota: NamedPreferences -> int,
                                             capacity: map<string, int>, l: Ledger)
    requires Distinct(prefs) && i <= |prefs| && Unconstrained(prefs, capacity) && Signed(quota) && l.remaining >= 0
    requires forall p :: p in prefs ==> Get(l.plan, p.clusterName) == 0 && Get(l.preallocated, p.clusterName) == 0
    ensures Pass(prefs, i, quota, capacity, l).ledger.remaining == AtLeastZero(l.remaining - SumQuota(prefs, i, quota))
    ensures SumQuota(prefs, i, quota) >= 0
  {
    hide Share, Pass, ShareOf, Apply, Distinct;
    PassStep(prefs, i, quota, capacity, l);
    if i > 0 {
      var p, ps := prefs[i - 1], Pass(prefs, i - 1, quota, capacity, l);
      assert p in prefs;
      UnconstrainedPass(prefs, i - 1, quota, capacity, l);
      StillUntouched(prefs, i - 1, quota, capacity, l);
      OutcomeIs(ps, p, quota(p), capacity);
      RemainingIs(ps, p, ShareOf(ps, p, quota(p), capacity));
      UnconstrainedShare(p, ps.ledger.remaining, quota(p), capacity);
    }
  }

  lemma UnconstrainedShare(p: NamedPreferences, remaining: int, share: int, capacity: map<string, int>)
    requires p.maxReplicas.None? && p.clusterName !in capacity && share >= 0 && remaining >= 0
    ensures Share(p, 0, 0, remaining, share, capacity).total == Min(share, remaining)
  {
  }

  /** One pass over unconstrained clusters that have nothing yet. */
  lemma FairPass(prefs: seq<NamedPreferences>, quota: NamedPreferences -> int, capacity: map<string, int>, l: Ledger,
                 j: nat)
    requires Distinct(prefs) && j < |prefs| && Unconstrained(prefs, capacity) && Signed(quota) && l.remaining >= 0
    requires forall p :: p in prefs ==> Get(l.plan, p.clusterName) == 0 && Get(l.preallocated, p.clusterName) == 0
    requires SumQuota(prefs, |prefs|, quota) >= l.remaining
    ensures var r := Pass(prefs, |prefs|, quota, capacity, l).ledger;
            && r.remaining == 0
            && Get(r.plan, prefs[j].clusterName) ==
               Min(quota(prefs[j]), AtLeastZero(l.remaining - SumQuota(prefs, j, quota)))
  {
    hide Pass, SumQuota, Share;
    assert prefs[j] in prefs;
    UnconstrainedPass(prefs, |prefs|, quota, capacity, l);
    UnconstrainedPass(prefs, j, quota, capacity, l);
    PassOutcome(prefs, j, quota, capacity, l);
    UnconstrainedShare(prefs[j], Pass(prefs, j, quota, capacity, l).ledger.remaining, quota(prefs[j]), capacity);
  }

  ghost predicate NothingRuns(order: seq<NamedPreferences>, current: map<string, int>) {
    forall n :: n in order ==> Get(current, n.clusterName) <= 0
  }

  lemma {:induction false} NothingToKeep(order: seq<NamedPreferences>, i: nat, current: map<string, int>,
                                         capacity: map<string, int>, l: Ledger)
    requires i <= |order| && NothingRuns(order, current) && AllZero(l.plan)
    ensures Preallocations(order, i, current, capacity, l) == l
  {
    if i > 0 {
      assert order[i - 1] in order;
      NothingToKeep(order, i - 1, current, capacity, l);
    }
  }

  /** When only weights matter, one pass places everything, and each cluster in turn gets its
      proportional share rounded up, as long as replicas last. */
  lemma FairShares(order: seq<NamedPreferences>, p: SchedulingPreference, plan: map<string, int>,
                   current: map<string, int>, capacity: map<string, int>, j: nat)
    requires Distinct(order) && AllZero(plan) && Unconstrained(order, capacity)
    requires p.rebalance || NothingRuns(order, current)
    requires p.totalReplicas > 0 && WeightSum(order) > 0 && j < |order|
    ensures var l := Final(order, p, plan, current, capacity);
            var quota := Quota(p.totalReplicas, WeightSum(order));
            && l.remaining == 0
            && Get(l.plan, order[j].clusterName) ==
               Min(quota(order[j]), AtLeastZero(p.totalReplicas - SumQuota(order, j, quota)))
  {
    hide Pending, Share, RoundedShare, Pass, SumQuota, AtLeastZero, AfterPreallocation, Iterate, WeightSum;
    var quota := Quota(p.totalReplicas, WeightSum(order));
    var l := AfterPreallocation(order, p, plan, current, capacity);
    NothingGivenYet(order, p, plan, current, capacity);
    assert forall n :: n in order ==> Get(l.plan, n.clusterName) == 0 && Get(l.preallocated, n.clusterName) == 0;
    QuotasAreSigned(p.totalReplicas, WeightSum(order));
    SharesCoverTheWhole(order, p.totalReplicas);
    FairPass(order, quota, capacity, l, j);
    assert RunPass(order, capacity, l) == Pass(order, |order|, quota, capacity, l);
    DoneAfterOnePass(order, capacity, l);
  }

  /** The first two stages give nothing to anybody. */
  lemma NothingGivenYet(order: seq<NamedPreferences>, p: SchedulingPreference, plan: map<string, int>,
                        current: map<string, int>, capacity: map<string, int>)
    requires AllZero(plan) && Unconstrained(order, capacity) && p.totalReplicas > 0
    requires p.rebalance || NothingRuns(order, current)
    ensures var l := AfterPreallocation(order, p, plan, current, capacity);
            l.remaining == p.totalReplicas && AllZero(l.plan) && l.preallocated == map[] && NothingOwed(l)
  {
    var l0 := Start(p, plan);
    NothingMinimal(order, |order|, capacity, l0);
    MinimumsPreallocateNothing(order, |order|, capacity, l0);
    if !p.rebalance {
      NothingToKeep(order, |order|, current, capacity, Minimums(order, |order|, capacity, l0));
    }
  }

  lemma DoneAfterOnePass(prefs: seq<NamedPreferences>, capacity: map<string, int>, l: Ledger)
    requires Distinct(prefs) && NothingOwed(l) && l.remaining > 0
    requires RunPass(prefs, capacity, l).ledger.remaining == 0
    ensures Iterate(prefs, capacity, l) == RunPass(prefs, capacity, l).ledger
  {
    PassesEnd(prefs, capacity, l);
  }

  lemma {:induction false} NothingMinimal(order: seq<NamedPreferences>, i: nat, capacity: map<string, int>, l: Ledger)
    requires i <= |order| && Unconstrained(order, capacity) && l.remaining >= 0 && AllZero(l.plan)
    ensures var r := Minimums(order, i, capacity, l);
            r.remaining == l.remaining && AllZero(r.plan)
  {
    if i > 0 {
      NothingMinimal(order, i - 1, capacity, l);
      assert order[i - 1] in order;
    }
  }

  /** Then no cluster gets fewer replicas than one of smaller or equal weight behind it. */
  lemma HeavierGetsMore(order: seq<NamedPreferences>, p: SchedulingPreference, plan: map<string, int>,
                        current: map<string, int>, capacity: map<string, int>, i: nat, j: nat)
    requires Distinct(order) && AllZero(plan) && Unconstrained(order, capacity) && SortedBy(NotAfter, order)
    requires p.rebalance || NothingRuns(order, current)
    requires p.totalReplicas > 0 && WeightSum(order) > 0 && i < j < |order|
    ensures var l := Final(order, p, plan, current, capacity);
            Get(l.plan, order[i].clusterName) >= Get(l.plan, order[j].clusterName)
  {
    hide Pending, RoundedShare, Pass, SumQuota, Final, Distinct, SortedBy;
    hide Unconstrained, AllZero, WeightSum, NothingRuns;
    var quota := Quota(p.totalReplicas, WeightSum(order));
    FairShares(order, p, plan, current, capacity, i);
    FairShares(order, p, plan, current, capacity, j);
    EarlierIsHeavier(order, capacity, i, j);
    SharesFollowWeights(p.totalReplicas, order[i].weight, order[j].weight, WeightSum(order));
    QuotasAreSigned(p.totalReplicas, WeightSum(order));
    SumQuotaGrows(order, i, j, capacity, quota);
  }

  lemma EarlierIsHeavier(order: seq<NamedPreferences>, capacity: map<string, int>, i: nat, j: nat)
    requires Unconstrained(order, capacity) && SortedBy(NotAfter, order) && i < j < |order|
    ensures order[i].weight >= order[j].weight >= 0
  {
    assert NotAfter(order[i], order[j]) && order[j] in order;
  }

  lemma SharesFollowWeights(distribute: int, heavy: int, light: int, weightSum: int)
    requires weightSum > 0 && distribute >= 0 && heavy >= light >= 0
    ensures RoundedShare(distribute, heavy, weightSum) >= RoundedShare(distribute, light, weightSum)
  {
    hide RoundedShare;
    RoundedUp(distribute, heavy, weightSum);
    RoundedUp(distribute, light, weightSum);
    var a, b := RoundedShare(distribute, heavy, weightSum), RoundedShare(distribute, light, weightSum);
    TimesMore(distribute, light, heavy);
    OneTimesMore(a, weightSum);
    CancelStrict(a + 1, b, weightSum);
  }

  lemma {:induction false} SumQuotaGrows(order: seq<NamedPreferences>, i: nat, k: nat, capacity: map<string, int>,
                                         quota: NamedPreferences -> int)
    requires i <= k <= |order| && Unconstrained(order, capacity) && Signed(quota)
    ensures SumQuota(order, i, quota) <= SumQuota(order, k, quota)
  {
    if i < k {
      assert order[k - 1] in order;
      SumQuotaGrows(order, i, k - 1, capacity, quota);
    }
  }

  // -------------------------------------------------------------------------- equal weights

  ghost predicate EquallyHeavy(order: seq<NamedPreferences>, w: int) {
    forall n :: n in order ==> n.weight == w
  }

  lemma {:induction false} EqualWeightSum(order: seq<NamedPreferences>, w: int)
    requires EquallyHeavy(order, w)
    ensures WeightSum(order) == |order| * w
  {
    if order != [] {
      var front := order[..|order| - 1];
      assert order[|order| - 1] in order;
      EqualWeightSum(front, w);
      OneTimesMore(|front|, w);
    }
  }

  lemma {:induction false} EqualSumQuota(order: seq<NamedPreferences>, i: nat, quota: NamedPreferences -> int, q: int)
    requires i <= |order| && forall n :: n in order ==> quota(n) == q
    ensures SumQuota(order, i, quota) == i * q
  {
    if i > 0 {
      assert order[i - 1] in order;
      EqualSumQuota(order, i - 1, quota, q);
      OneTimesMore(i - 1, q);
    }
  }

  /** The share of one of `count` equally heavy clusters: the whole divided by their number, rounded up. */
  lemma EqualShare(distribute: nat, count: nat, w: int)
    requires count > 0 && w > 0 && count * w > 0
    ensures RoundedShare(distribute, w, count * w) == (distribute + count - 1) / count
  {
    hide RoundedShare;
    RoundedUp(distribute, w, count * w);
    var q := RoundedShare(distribute, w, count * w);
    TimesAssociative(q, count, w);
    Cancel(q * count, distribute, w);
    TimesPlus(distribute, count, w);
    CancelStrict(distribute + count, q * count, w);
    QuotientIs(distribute + count - 1, count, q);
  }

  lemma TimesAssociative(a: int, b: int, c: int)
    ensures a * (b * c) == (a * b) * c
  {
  }

  lemma TimesPlus(a: int, b: int, w: int)
    ensures (a + b) * w == a * w + b * w
  {
  }

  lemma Positive(a: int, b: int)
    requires a > 0 && b > 0
    ensures a * b > 0
  {
  }

  /** Where only weights matter and all are equal, the replicas are split evenly, rounded up, from the front
      of the order on while they last. */
  lemma EqualSplit(order: seq<NamedPreferences>, p: SchedulingPreference, plan: map<string, int>,
                   current: map<string, int>, capacity: map<string, int>, w: int, j: nat)
    requires Distinct(order) && AllZero(plan) && Unconstrained(order, capacity) && EquallyHeavy(order, w) && w > 0
    requires p.rebalance || NothingRuns(order, current)
    requires p.totalReplicas > 0 && j < |order|
    ensures var each := (p.totalReplicas + |order| - 1) / |order|;
            Get(Final(order, p, plan, current, capacity).plan, order[j].clusterName) ==
            Min(each, AtLeastZero(p.totalReplicas - j * each))
  {
    hide RoundedShare, Final, WeightSum, SumQuota, Unconstrained, NothingRuns, AllZero, Distinct;
    var each := (p.totalReplicas + |order| - 1) / |order|;
    Positive(|order|, w);
    EqualWeightSum(order, w);
    EqualShare(p.totalReplicas, |order|, w);
    var quota := Quota(p.totalReplicas, WeightSum(order));
    assert forall n :: n in order ==> quota(n) == each;
    assert order[j] in order;
    FairShares(order, p, plan, current, capacity, j);
    EqualSumQuota(order, j, quota, each);
  }
}
