/** The planner's guarantees, stated about whole calls: `l` is always the final ledger of a call. */
module PlannerTheorems {
  import opened Wrappers
  import opened Sorting
  import opened Planner
  import opened PlannerProofs

  ghost predicate AllZero(plan: map<string, int>) {
    forall c :: c in plan ==> plan[c] == 0
  }

  /** Minimums and capacities are not negative. */
  ghost predicate NonNegative(order: seq<NamedPreferences>, capacity: map<string, int>) {
    && (forall p :: p in order ==> p.minReplicas >= 0)
    && (forall c :: c in capacity ==> capacity[c] >= 0)
  }

  // -------------------------------------------------------------------------- conservation and bounds

  /** Nothing is lost or invented: planned replicas and unplaced ones add up to the total, whatever
      the preferences say, and a non-negative total never leaves a negative remainder. */
  lemma Conservation(order: seq<NamedPreferences>, p: SchedulingPreference, plan: map<string, int>,
                     current: map<string, int>, capacity: map<string, int>)
    requires Distinct(order) && AllZero(plan)
    ensures var l := Final(order, p, plan, current, capacity);
            && Total(order, l.plan) + l.remaining == p.totalReplicas
            && (p.totalReplicas >= 0 ==> l.remaining >= 0)
  {
    var l0 := Start(p, plan);
    ZeroTotal(order, plan);
    MinimumsConserve(order, |order|, capacity, l0, p.totalReplicas);
    var l1 := Minimums(order, |order|, capacity, l0);
    PreallocationsConserve(order, |order|, current, capacity, l1, p.totalReplicas);
    var l2 := AfterPreallocation(order, p, plan, current, capacity);
    IterateConserves(order, order, capacity, l2, p.totalReplicas);
    if p.totalReplicas >= 0 {
      MinimumsRemain(order, |order|, capacity, l0);
      PreallocationsRemain(order, |order|, current, capacity, l1);
      IterateRemains(order, capacity, l2);
    }
  }

  lemma {:induction false} ZeroTotal(order: seq<NamedPreferences>, plan: map<string, int>)
    requires AllZero(plan)
    ensures Total(order, plan) == 0
  {
    if order != [] {
      ZeroTotal(order[..|order| - 1], plan);
    }
  }

  lemma {:induction false} MinimumsRemain(order: seq<NamedPreferences>, i: nat, capacity: map<string, int>, l: Ledger)
    requires i <= |order| && l.remaining >= 0
    ensures Minimums(order, i, capacity, l).remaining >= 0
  {
    if i > 0 { MinimumsRemain(order, i - 1, capacity, l); }
  }

  lemma {:induction false} PreallocationsRemain(order: seq<NamedPreferences>, i: nat, current: map<string, int>,
                                                capacity: map<string, int>, l: Ledger)
    requires i <= |order| && l.remaining >= 0
    ensures Preallocations(order, i, current, capacity, l).remaining >= 0
  {
    if i > 0 { PreallocationsRemain(order, i - 1, current, capacity, l); }
  }

  lemma {:induction false} IterateRemains(prefs: seq<NamedPreferences>, capacity: map<string, int>, l: Ledger)
    requires Distinct(prefs) && NothingOwed(l) && l.remaining >= 0
    ensures Iterate(prefs, capacity, l).remaining >= 0
    decreases |prefs|, Measure(prefs, l)
  {
    if l.remaining > 0 {
      PassesEnd(prefs, capacity, l);
      var ps := RunPass(prefs, capacity, l);
      if ps.modified {
        IterateRemains(ps.next, capacity, ps.ledger);
      }
    }
  }

  // What the first two stages give to one cluster.

  lemma MinimumFor(order: seq<NamedPreferences>, j: nat, capacity: map<string, int>, l: Ledger)
    requires Distinct(order) && j < |order|
    ensures var p := order[j];
            Get(Minimums(order, |order|, capacity, l).plan, p.clusterName) ==
            CapTo(capacity, p.clusterName, Min(p.minReplicas, Minimums(order, j, capacity, l).remaining))
  {
    MinimumKept(order, j + 1, |order|, capacity, l, order[j].clusterName);
  }

  lemma {:induction false} MinimumKept(order: seq<NamedPreferences>, i: nat, k: nat, capacity: map<string, int>,
                                       l: Ledger, c: string)
    requires i <= k <= |order| && forall j :: i <= j < k ==> order[j].clusterName != c
    ensures Get(Minimums(order, i, capacity, l).plan, c) == Get(Minimums(order, k, capacity, l).plan, c)
  {
    if i < k { MinimumKept(order, i, k - 1, capacity, l, c); }
  }

  /** What letting a cluster keep its running replicas adds to the `planned` it has. */
  function Extra(p: NamedPreferences, planned: int, remaining: int, current: map<string, int>,
                 capacity: map<string, int>): (e: int)
    ensures e >= 0
  {
    if p.clusterName in current && current[p.clusterName] > planned then
      var wanted := Min(RunningTarget(p, capacity, current[p.clusterName]) - planned, remaining);
      if wanted < 0 then 0 else wanted
    else 0
  }

  lemma PreallocationFor(order: seq<NamedPreferences>, j: nat, current: map<string, int>, capacity: map<string, int>,
                         l: Ledger)
    requires Distinct(order) && j < |order|
    ensures var p := order[j];
            var planned := Get(l.plan, p.clusterName);
            Get(Preallocations(order, |order|, current, capacity, l).plan, p.clusterName) ==
            planned + Extra(p, planned, Preallocations(order, j, current, capacity, l).remaining, current, capacity)
  {
    PreallocationKept(order, 0, j, current, capacity, l, order[j].clusterName);
    PreallocationKept(order, j + 1, |order|, current, capacity, l, order[j].clusterName);
  }

  lemma {:induction false} PreallocationKept(order: seq<NamedPreferences>, i: nat, k: nat, current: map<string, int>,
                                             capacity: map<string, int>, l: Ledger, c: string)
    requires i <= k <= |order| && forall j :: i <= j < k ==> order[j].clusterName != c
    ensures Get(Preallocations(order, i, current, capacity, l).plan, c) ==
            Get(Preallocations(order, k, current, capacity, l).plan, c)
  {
    if i < k { PreallocationKept(order, i, k - 1, current, capacity, l, c); }
  }

  /** The first two stages give cluster `j` at least its minimum as far as `remaining` allowed at its turn. */
  lemma BeforePasses(order: seq<NamedPreferences>, p: SchedulingPreference, plan: map<string, int>,
                     current: map<string, int>, capacity: map<string, int>, j: nat)
    requires Distinct(order) && j < |order|
    ensures var n := order[j];
            var available := Minimums(order, j, capacity, Start(p, plan)).remaining;
            var minimum := CapTo(capacity, n.clusterName, Min(n.minReplicas, available));
            var got := Get(AfterPreallocation(order, p, plan, current, capacity).plan, n.clusterName);
            && got >= minimum
            && (|| got == minimum
                || (n.clusterName in current && got <= RunningTarget(n, capacity, current[n.clusterName])))
  {
    var l0 := Start(p, plan);
    MinimumFor(order, j, capacity, l0);
    if !p.rebalance {
      PreallocationFor(order, j, current, capacity, Minimums(order, |order|, capacity, l0));
    }
  }

  /** Every planned count lies between 0 and the capacity, and within the maximum unless the minimum is
      above it. */
  lemma Bounds(order: seq<NamedPreferences>, p: SchedulingPreference, plan: map<string, int>,
               current: map<string, int>, capacity: map<string, int>, n: NamedPreferences)
    requires Distinct(order) && NonNegative(order, capacity) && p.totalReplicas >= 0 && n in order
    ensures var x := Get(Final(order, p, plan, current, capacity).plan, n.clusterName);
            && ((n.maxReplicas.Some? ==> n.maxReplicas.value >= 0) ==> 0 <= x)
            && (n.maxReplicas.Some? && n.minReplicas <= n.maxReplicas.value ==> x <= n.maxReplicas.value)
            && (n.clusterName in capacity ==> x <= capacity[n.clusterName])
  {
    var j :| 0 <= j < |order| && order[j] == n;
    MinimumsRemain(order, j, capacity, Start(p, plan));
    BeforePasses(order, p, plan, current, capacity, j);
    IterateBounds(order, n, capacity, AfterPreallocation(order, p, plan, current, capacity));
  }

  // -------------------------------------------------------------------------- exceeding a maximum

  /** What cluster `j` gets as its minimum. */
  function MinimumGiven(order: seq<NamedPreferences>, j: nat, p: SchedulingPreference, plan: map<string, int>,
                        capacity: map<string, int>): int
    requires j < |order|
  {
    var available := Minimums(order, j, capacity, Start(p, plan)).remaining;
    CapTo(capacity, order[j].clusterName, Min(order[j].minReplicas, available))
  }

  /** A plan ends above a maximum exactly if the minimum given in the first stage is above it and the
      main loop gets no chance to lower it: nothing is left to spread, or no cluster has a weight. */
  lemma MaximumExceededIff(order: seq<NamedPreferences>, p: SchedulingPreference, plan: map<string, int>,
                           current: map<string, int>, capacity: map<string, int>, j: nat)
    requires Distinct(order) && WeightsNonNegative(order) && p.totalReplicas >= 0
    requires j < |order| && order[j].maxReplicas.Some?
    ensures Get(Final(order, p, plan, current, capacity).plan, order[j].clusterName) > order[j].maxReplicas.value <==>
            && MinimumGiven(order, j, p, plan, capacity) > order[j].maxReplicas.value
            && (AfterPreallocation(order, p, plan, current, capacity).remaining == 0 || WeightSum(order) == 0)
  {
    var n, l := order[j], AfterPreallocation(order, p, plan, current, capacity);
    BeforePasses(order, p, plan, current, capacity, j);
    NothingOverspent(order, p, plan, current, capacity);
    WeightSumNonNegative(order);
    if Get(l.plan, n.clusterName) <= n.maxReplicas.value {
      IterateBounds(order, n, capacity, l);
    } else if l.remaining > 0 && WeightSum(order) > 0 {
      LoweredToMaximum(order, n, capacity, l);
    }
  }

  lemma NothingOverspent(order: seq<NamedPreferences>, p: SchedulingPreference, plan: map<string, int>,
                         current: map<string, int>, capacity: map<string, int>)
    requires p.totalReplicas >= 0
    ensures AfterPreallocation(order, p, plan, current, capacity).remaining >= 0
  {
    MinimumsRemain(order, |order|, capacity, Start(p, plan));
    PreallocationsRemain(order, |order|, current, capacity, Minimums(order, |order|, capacity, Start(p, plan)));
  }

  /** The first pass takes a cluster above its maximum down to it, for good. */
  lemma LoweredToMaximum(order: seq<NamedPreferences>, n: NamedPreferences, capacity: map<string, int>, l: Ledger)
    requires Distinct(order) && NothingOwed(l) && WeightsNonNegative(order) && l.remaining > 0 && WeightSum(order) > 0
    requires n in order && n.maxReplicas.Some? && Get(l.plan, n.clusterName) > n.maxReplicas.value
    ensures Get(Iterate(order, capacity, l).plan, n.clusterName) <= n.maxReplicas.value
  {
    var quota := Quota(l.remaining, WeightSum(order));
    QuotasAreSigned(l.remaining, WeightSum(order));
    var o, j := PassResult(order, n, capacity, l);
    PassOwesNothing(order, j, quota, capacity, l);
    ShareLowers(n, Get(l.plan, n.clusterName), Get(l.preallocated, n.clusterName),
                Pass(order, j, quota, capacity, l).ledger.remaining, quota(n), capacity);
    DroppedIsFinal(order, n, capacity, l);
  }

  lemma ShareLowers(p: NamedPreferences, start: int, prealloc: int, remaining: int, share: int,
                    capacity: map<string, int>)
    requires p.maxReplicas.Some? && start > p.maxReplicas.value && prealloc >= 0 && remaining >= 0 && share >= 0
    ensures var o := Share(p, start, prealloc, remaining, share, capacity);
            o.full && o.total <= p.maxReplicas.value
  {
  }

  /** Such a call: a single cluster asking for a minimum above its maximum gets it when it is all there is. */
  lemma MinimumBeatsMaximum(c: string, hash: nat, minReplicas: nat, maxReplicas: int, weight: int)
    ensures var n := NamedPreferences(c, hash, minReplicas, Some(maxReplicas), weight);
            var p := SchedulingPreference(minReplicas, true, map[]);
            Get(Final([n], p, map[], map[], map[]).plan, c) == minReplicas
  {
    var n := NamedPreferences(c, hash, minReplicas, Some(maxReplicas), weight);
    var p := SchedulingPreference(minReplicas, true, map[]);
    assert [n][..0] == [];
    assert Minimums([n], 0, map[], Start(p, map[])) == Start(p, map[]);
  }

  // -------------------------------------------------------------------------- maximality

  /** Replicas stay unplaced only if every cluster with a positive weight is exactly full. */
  lemma Maximality(order: seq<NamedPreferences>, p: SchedulingPreference, plan: map<string, int>,
                   current: map<string, int>, capacity: map<string, int>)
    requires Distinct(order) && WeightsNonNegative(order)
    ensures var l := Final(order, p, plan, current, capacity);
            l.remaining <= 0 || forall n :: n in order && n.weight > 0 ==> Settled(n, capacity, l.plan)
  {
    var l := Final(order, p, plan, current, capacity);
    if l.remaining > 0 {
      forall n | n in order && n.weight > 0 ensures Settled(n, capacity, l.plan) {
        IterateSettles(order, n, capacity, AfterPreallocation(order, p, plan, current, capacity));
      }
    }
  }

  // -------------------------------------------------------------------------- running replicas

  /** The running replicas a cluster is entitled to keep. */
  function Kept(n: NamedPreferences, current: map<string, int>, capacity: map<string, int>): int {
    RunningTarget(n, capacity, Get(current, n.clusterName))
  }

  /** The minimum as far as maximum and capacity allow it. */
  function AllowedMinimum(n: NamedPreferences, capacity: map<string, int>): int {
    CapTo(capacity, n.clusterName, LimitTo(n.maxReplicas, n.minReplicas))
  }

  function MinimumDue(n: NamedPreferences, capacity: map<string, int>): int {
    CapTo(capacity, n.clusterName, n.minReplicas)
  }

  function Due(n: NamedPreferences, current: map<string, int>, capacity: map<string, int>): int {
    var m, k := MinimumDue(n, capacity), Kept(n, current, capacity);
    if m < k then k else m
  }

  /** The sum of what the first `i` clusters are due. */
  function SumDue(order: seq<NamedPreferences>, i: nat, current: map<string, int>, capacity: map<string, int>): int
    requires i <= |order|
  {
    if i == 0 then 0 else SumDue(order, i - 1, current, capacity) + Due(order[i - 1], current, capacity)
  }

  function SumMinimum(order: seq<NamedPreferences>, i: nat, capacity: map<string, int>): int
    requires i <= |order|
  {
    if i == 0 then 0 else SumMinimum(order, i - 1, capacity) + MinimumDue(order[i - 1], capacity)
  }

  lemma {:induction false} SumGap(order: seq<NamedPreferences>, i: nat, k: nat, current: map<string, int>,
                                  capacity: map<string, int>)
    requires i <= k <= |order|
    ensures SumDue(order, i, current, capacity) - SumMinimum(order, i, capacity) <=
            SumDue(order, k, current, capacity) - SumMinimum(order, k, capacity)
  {
    if i < k { SumGap(order, i, k - 1, current, capacity); }
  }

  lemma {:induction false} SumMinimumGrows(order: seq<NamedPreferences>, i: nat, k: nat, capacity: map<string, int>)
    requires i <= k <= |order| && NonNegative(order, capacity)
    ensures SumMinimum(order, i, capacity) <= SumMinimum(order, k, capacity)
  {
    if i < k { SumMinimumGrows(order, i, k - 1, capacity); }
  }

  lemma {:induction false} MinimumsSuffice(order: seq<NamedPreferences>, i: nat, capacity: map<string, int>, l: Ledger)
    requires i <= |order| && NonNegative(order, capacity) && SumMinimum(order, |order|, capacity) <= l.remaining
    ensures Minimums(order, i, capacity, l).remaining == l.remaining - SumMinimum(order, i, capacity)
    ensures i < |order| ==>
      CapTo(capacity, order[i].clusterName, Min(order[i].minReplicas, Minimums(order, i, capacity, l).remaining)) ==
      MinimumDue(order[i], capacity)
  {
    if i > 0 { MinimumsSuffice(order, i - 1, capacity, l); }
    if i < |order| { SumMinimumGrows(order, i + 1, |order|, capacity); }
  }

  lemma ExtraSuffices(n: NamedPreferences, remaining: int, current: map<string, int>, capacity: map<string, int>)
    requires n.minReplicas >= 0 && forall c :: c in capacity ==> capacity[c] >= 0
    requires remaining >= Due(n, current, capacity) - MinimumDue(n, capacity)
    ensures Extra(n, MinimumDue(n, capacity), remaining, current, capacity) ==
            Due(n, current, capacity) - MinimumDue(n, capacity)
  {
  }

  lemma {:induction false} PreallocationsSuffice(order: seq<NamedPreferences>, i: nat, current: map<string, int>,
                                                 capacity: map<string, int>, l: Ledger)
    requires Distinct(order) && i <= |order| && NonNegative(order, capacity)
    requires forall n :: n in order ==> Get(l.plan, n.clusterName) == MinimumDue(n, capacity)
    requires SumDue(order, |order|, current, capacity) - SumMinimum(order, |order|, capacity) <= l.remaining
    ensures Preallocations(order, i, current, capacity, l).remaining ==
            l.remaining - (SumDue(order, i, current, capacity) - SumMinimum(order, i, capacity))
  {
    if i > 0 {
      var n, before := order[i - 1], Preallocations(order, i - 1, current, capacity, l);
      assert n in order;
      PreallocationsSuffice(order, i - 1, current, capacity, l);
      PreallocationKept(order, 0, i - 1, current, capacity, l, n.clusterName);
      SumGap(order, i, |order|, current, capacity);
      ExtraSuffices(n, before.remaining, current, capacity);
      PreallocateExtra(before, n, current, capacity);
    }
  }

  lemma PreallocateExtra(l: Ledger, n: NamedPreferences, current: map<string, int>, capacity: map<string, int>)
    ensures Preallocate(l, n, current, capacity).remaining ==
            l.remaining - Extra(n, Get(l.plan, n.clusterName), l.remaining, current, capacity)
  {
  }

  lemma MinimumsGiven(order: seq<NamedPreferences>, capacity: map<string, int>, l: Ledger)
    requires Distinct(order) && NonNegative(order, capacity) && SumMinimum(order, |order|, capacity) <= l.remaining
    ensures var r := Minimums(order, |order|, capacity, l);
            && (forall n :: n in order ==> Get(r.plan, n.clusterName) == MinimumDue(n, capacity))
            && r.remaining == l.remaining - SumMinimum(order, |order|, capacity)
  {
    forall j | 0 <= j < |order|
      ensures Get(Minimums(order, |order|, capacity, l).plan, order[j].clusterName) == MinimumDue(order[j], capacity)
    {
      MinimumsSuffice(order, j, capacity, l);
      MinimumFor(order, j, capacity, l);
    }
    MinimumsSuffice(order, |order|, capacity, l);
  }

  lemma DueGiven(order: seq<NamedPreferences>, j: nat, current: map<string, int>, capacity: map<string, int>, l: Ledger)
    requires Distinct(order) && j < |order| && NonNegative(order, capacity)
    requires forall n :: n in order ==> Get(l.plan, n.clusterName) == MinimumDue(n, capacity)
    requires SumDue(order, |order|, current, capacity) - SumMinimum(order, |order|, capacity) <= l.remaining
    ensures Get(Preallocations(order, |order|, current, capacity, l).plan, order[j].clusterName) ==
            Due(order[j], current, capacity)
  {
    assert order[j] in order;
    PreallocationsSuffice(order, j, current, capacity, l);
    SumGap(order, j + 1, |order|, current, capacity);
    ExtraSuffices(order[j], Preallocations(order, j, current, capacity, l).remaining, current, capacity);
    PreallocationFor(order, j, current, capacity, l);
  }

  /** Without rebalancing, if what all clusters are due fits in the total, every cluster keeps the
      replicas it already runs, up to its maximum and capacity. */
  lemma RunningReplicasStay(order: seq<NamedPreferences>, p: SchedulingPreference, plan: map<string, int>,
                            current: map<string, int>, capacity: map<string, int>, n: NamedPreferences)
    requires Distinct(order) && NonNegative(order, capacity) && !p.rebalance && n in order
    requires SumDue(order, |order|, current, capacity) <= p.totalReplicas
    ensures Get(Final(order, p, plan, current, capacity).plan, n.clusterName) >= Kept(n, current, capacity)
  {
    SumGap(order, 0, |order|, current, capacity);
    MinimumsGiven(order, capacity, Start(p, plan));
    var j :| 0 <= j < |order| && order[j] == n;
    DueGiven(order, j, current, capacity, Minimums(order, |order|, capacity, Start(p, plan)));
    IterateBounds(order, n, capacity, AfterPreallocation(order, p, plan, current, capacity));
  }

  lemma {:induction false} DueIsCurrent(order: seq<NamedPreferences>, i: nat, current: map<string, int>,
                                        capacity: map<string, int>)
    requires i <= |order|
    requires forall n :: n in order ==> Due(n, current, capacity) == Get(current, n.clusterName)
    ensures SumDue(order, i, current, capacity) == Total(order[..i], current)
  {
    if i > 0 {
      DueIsCurrent(order, i - 1, current, capacity);
      assert order[..i][..i - 1] == order[..i - 1];
    }
  }

  lemma {:induction false} TotalSqueezed(order: seq<NamedPreferences>, low: map<string, int>, high: map<string, int>)
    requires forall n :: n in order ==> Get(low, n.clusterName) <= Get(high, n.clusterName)
    ensures Total(order, low) <= Total(order, high)
    ensures Total(order, low) == Total(order, high) ==>
              forall n :: n in order ==> Get(low, n.clusterName) == Get(high, n.clusterName)
  {
    if order != [] {
      var front, last := order[..|order| - 1], order[|order| - 1];
      assert order == front + [last];
      TotalSqueezed(front, low, high);
    }
  }

  /** The replicas run as planned: every cluster has what it is due, within its bounds, and they add up. */
  ghost predicate WellPlaced(order: seq<NamedPreferences>, p: SchedulingPreference, current: map<string, int>,
                             capacity: map<string, int>)
  {
    && Total(order, current) == p.totalReplicas
    && forall n :: n in order ==>
         MinimumDue(n, capacity) <= Get(current, n.clusterName) == Kept(n, current, capacity)
  }

  /** Stability: without rebalancing, planning anew where the replicas run as planned moves nothing. */
  lemma PlacedStaysPlaced(order: seq<NamedPreferences>, p: SchedulingPreference, plan: map<string, int>,
                          current: map<string, int>, capacity: map<string, int>, n: NamedPreferences)
    requires Distinct(order) && AllZero(plan) && NonNegative(order, capacity) && !p.rebalance && n in order
    requires WellPlaced(order, p, current, capacity)
    ensures Get(Final(order, p, plan, current, capacity).plan, n.clusterName) == Get(current, n.clusterName)
  {
    hide Final, Distinct, Kept;
    var l := Final(order, p, plan, current, capacity);
    DueIsCurrent(order, |order|, current, capacity);
    assert order[..|order|] == order;
    forall m | m in order ensures Get(current, m.clusterName) <= Get(l.plan, m.clusterName) {
      RunningReplicasStay(order, p, plan, current, capacity, m);
    }
    Conservation(order, p, plan, current, capacity);
    NothingNegative(order, current, capacity);
    TotalSqueezed(order, current, l.plan);
  }

  lemma NothingNegative(order: seq<NamedPreferences>, current: map<string, int>, capacity: map<string, int>)
    requires NonNegative(order, capacity)
    requires forall n :: n in order ==> MinimumDue(n, capacity) <= Get(current, n.clusterName)
    ensures Total(order, current) >= 0
  {
    forall n | n in order ensures 0 <= Get(current, n.clusterName) {
      assert MinimumDue(n, capacity) >= 0;
    }
    ZeroTotal(order, map[]);
    TotalSqueezed(order, map[], current);
  }

  // -------------------------------------------------------------------------- scarcity

  lemma {:induction false} NothingLeft(order: seq<NamedPreferences>, i: nat, k: nat, capacity: map<string, int>,
                                       l: Ledger)
    requires i <= k <= |order| && NonNegative(order, capacity) && Minimums(order, i, capacity, l).remaining == 0
    ensures Minimums(order, k, capacity, l).remaining == 0
  {
    if i < k { NothingLeft(order, i, k - 1, capacity, l); }
  }

  lemma {:induction false} NothingToPreallocate(order: seq<NamedPreferences>, i: nat, current: map<string, int>,
                                                capacity: map<string, int>, l: Ledger)
    requires i <= |order| && l.remaining == 0
    ensures Preallocations(order, i, current, capacity, l).remaining == 0
  {
    if i > 0 { NothingToPreallocate(order, i - 1, current, capacity, l); }
  }

  /** A cluster short of its minimum took all there was at its turn. */
  lemma ShortMeansEmpty(order: seq<NamedPreferences>, p: SchedulingPreference, plan: map<string, int>,
                        current: map<string, int>, capacity: map<string, int>, i: nat)
    requires Distinct(order) && NonNegative(order, capacity) && p.totalReplicas >= 0 && i < |order|
    requires Get(Final(order, p, plan, current, capacity).plan, order[i].clusterName) <
             AllowedMinimum(order[i], capacity)
    ensures Minimums(order, i + 1, capacity, Start(p, plan)).remaining == 0
  {
    assert order[i] in order;
    MinimumsRemain(order, i, capacity, Start(p, plan));
    BeforePasses(order, p, plan, current, capacity, i);
    IterateBounds(order, order[i], capacity, AfterPreallocation(order, p, plan, current, capacity));
  }

  /** When replicas are too few for the minimums, heavier clusters come first: behind a cluster that
      ends up below what its maximum and capacity allow of its minimum, nobody gets anything. */
  lemma Scarcity(order: seq<NamedPreferences>, p: SchedulingPreference, plan: map<string, int>,
                 current: map<string, int>, capacity: map<string, int>, i: nat, j: nat)
    requires Distinct(order) && NonNegative(order, capacity) && p.totalReplicas >= 0 && i < j < |order|
    requires Get(Final(order, p, plan, current, capacity).plan, order[i].clusterName) <
             AllowedMinimum(order[i], capacity)
    ensures Get(Final(order, p, plan, current, capacity).plan, order[j].clusterName) == 0
  {
    hide Iterate, Distinct, Pass, WeightSum;
    var l0 := Start(p, plan);
    var l1 := Minimums(order, |order|, capacity, l0);
    ShortMeansEmpty(order, p, plan, current, capacity, i);
    NothingLeft(order, i + 1, j, capacity, l0);
    NothingLeft(order, i + 1, |order|, capacity, l0);
    MinimumFor(order, j, capacity, l0);
    NothingToPreallocate(order, j, current, capacity, l1);
    NothingToPreallocate(order, |order|, current, capacity, l1);
    PreallocationFor(order, j, current, capacity, l1);
    NothingToSpread(order, capacity, AfterPreallocation(order, p, plan, current, capacity));
  }

  lemma NothingToSpread(order: seq<NamedPreferences>, capacity: map<string, int>, l: Ledger)
    requires Distinct(order) && NothingOwed(l)
    ensures l.remaining <= 0 ==> Iterate(order, capacity, l) == l
  {
  }

  // -------------------------------------------------------------------------- order of the clusters

  /** The pairs (weight, hash) of the clusters are all different. */
  ghost predicate NoTiedClusters(prefs: seq<NamedPreferences>) {
    forall a, b :: a in prefs && b in prefs && a.weight == b.weight && a.hash == b.hash ==> a == b
  }

  lemma {:induction false} NamedPermutes(p: SchedulingPreference, hash: string -> nat, a: seq<string>, b: seq<string>)
    requires DistinctNames(a) && DistinctNames(b) && multiset(a) == multiset(b)
    ensures multiset(Named(p, hash, a)) == multiset(Named(p, hash, b))
  {
    NamedCount(p, hash, a);
    NamedCount(p, hash, b);
    var x, y := Named(p, hash, a), Named(p, hash, b);
    SameMembers(a, b);
    forall n: NamedPreferences ensures multiset(x)[n] == multiset(y)[n] {
      assert n.clusterName in a <==> n.clusterName in b;
    }
  }

  /** The preferences of a list of distinct clusters hold each cluster's entry once. */
  lemma {:induction false} NamedCount(p: SchedulingPreference, hash: string -> nat, available: seq<string>)
    requires DistinctNames(available)
    ensures forall n: NamedPreferences ::
      multiset(Named(p, hash, available))[n] ==
      if n.clusterName in available && n.hash == hash(n.clusterName)
         && PreferenceFor(p, n.clusterName) == Some(ClusterPreferences(n.minReplicas, n.maxReplicas, n.weight))
      then 1 else 0
  {
    if available != [] {
      var front, c := available[..|available| - 1], available[|available| - 1];
      NamedCount(p, hash, front);
      assert available == front + [c];
      assert c !in front;
    }
  }

  /** If no two clusters tie, the order in which the clusters are listed does not matter. */
  lemma OrderIndependent(p: SchedulingPreference, hash: string -> nat, a: seq<string>, b: seq<string>,
                         orderA: seq<NamedPreferences>, orderB: seq<NamedPreferences>,
                         current: map<string, int>, capacity: map<string, int>)
    requires DistinctNames(a) && DistinctNames(b) && multiset(a) == multiset(b)
    requires IsOrder(orderA, p, hash, a) && IsOrder(orderB, p, hash, b) && NoTiedClusters(orderA)
    ensures Final(orderA, p, Unlisted(p, a), current, capacity) == Final(orderB, p, Unlisted(p, b), current, capacity)
  {
    NamedPermutes(p, hash, a, b);
    SortedUnique(NotAfter, orderA, orderB);
    SameMembers(a, b);
    assert Unlisted(p, a) == Unlisted(p, b);
  }

  // -------------------------------------------------------------------------- who takes part, in which order

  /** The order is by decreasing weight and, at equal weight, by increasing hash. */
  lemma HeavierThenSmallerHash(p: SchedulingPreference, hash: string -> nat, available: seq<string>,
                               order: seq<NamedPreferences>, i: nat, j: nat)
    requires IsOrder(order, p, hash, available) && i < j < |order|
    ensures order[i].weight >= order[j].weight
    ensures order[i].weight == order[j].weight ==> order[i].hash <= order[j].hash
  {
    assert NotAfter(order[i], order[j]);
  }

  /** A cluster takes part with its own preference; with the one under "*" only if it has none; and not at
      all if there is neither. */
  lemma OwnPreferenceWins(p: SchedulingPreference, hash: string -> nat, available: seq<string>,
                          order: seq<NamedPreferences>)
    requires IsOrder(order, p, hash, available)
    ensures forall n :: n in order ==> AppliesTo(n, p, hash) && n.clusterName in available
    ensures forall c :: c in available && (c in p.clusters || "*" in p.clusters) ==>
              exists n :: n in order && n.clusterName == c
  {
    NamedApply(p, hash, available);
    SameMembers(order, Named(p, hash, available));
    forall n | n in order ensures AppliesTo(n, p, hash) && n.clusterName in available {
      assert n in Named(p, hash, available);
    }
    forall c | c in available && (c in p.clusters || "*" in p.clusters)
      ensures exists n :: n in order && n.clusterName == c
    {
      NamedCovers(p, hash, available, c);
      var n :| n in Named(p, hash, available) && n.clusterName == c;
      assert n in order;
    }
  }

  lemma {:induction false} NamedCovers(p: SchedulingPreference, hash: string -> nat, available: seq<string>, c: string)
    requires c in available && (c in p.clusters || "*" in p.clusters)
    ensures exists n :: n in Named(p, hash, available) && n.clusterName == c
  {
    var front, last := available[..|available| - 1], available[|available| - 1];
    var named := Named(p, hash, available);
    if c == last {
      assert named[|named| - 1].clusterName == c && named[|named| - 1] in named;
    } else {
      assert available == front + [last];
      NamedCovers(p, hash, front, c);
      var n :| n in Named(p, hash, front) && n.clusterName == c;
      assert n in named;
    }
  }

  /** A cluster without an entry keeps what it was planned before the call. */
  lemma FinalElsewhere(order: seq<NamedPreferences>, p: SchedulingPreference, plan: map<string, int>,
                       current: map<string, int>, capacity: map<string, int>, c: string)
    requires Distinct(order) && forall n :: n in order ==> n.clusterName != c
    ensures Get(Final(order, p, plan, current, capacity).plan, c) == Get(plan, c)
  {
    hide Pass, Distinct;
    var l0 := Start(p, plan);
    var l1 := Minimums(order, |order|, capacity, l0);
    forall j | 0 <= j < |order| ensures order[j].clusterName != c { assert order[j] in order; }
    MinimumKept(order, 0, |order|, capacity, l0, c);
    PreallocationKept(order, 0, |order|, current, capacity, l1, c);
    IterateElsewhere(order, capacity, AfterPreallocation(order, p, plan, current, capacity), c);
  }

  /** A cluster for which nothing is set is planned 0. */
  lemma NothingSetPlannedZero(p: SchedulingPreference, hash: string -> nat, available: seq<string>,
                              order: seq<NamedPreferences>, current: map<string, int>,
                              capacity: map<string, int>, c: string)
    requires IsOrder(order, p, hash, available) && c !in p.clusters && "*" !in p.clusters
    ensures forall n :: n in order ==> n.clusterName != c
    ensures Get(Final(order, p, Unlisted(p, available), current, capacity).plan, c) == 0
  {
    OwnPreferenceWins(p, hash, available, order);
    FinalElsewhere(order, p, Unlisted(p, available), current, capacity, c);
  }

  // -------------------------------------------------------------------------- what each stage is for

  /** If the minimums fit in the total, every cluster gets its own as far as maximum and capacity allow. */
  lemma MinimumsHonoured(order: seq<NamedPreferences>, p: SchedulingPreference, plan: map<string, int>,
                         current: map<string, int>, capacity: map<string, int>, n: NamedPreferences)
    requires Distinct(order) && NonNegative(order, capacity) && n in order
    requires SumMinimum(order, |order|, capacity) <= p.totalReplicas
    ensures Get(Final(order, p, plan, current, capacity).plan, n.clusterName) >= AllowedMinimum(n, capacity)
  {
    hide Iterate;
    var j :| 0 <= j < |order| && order[j] == n;
    MinimumsSuffice(order, j, capacity, Start(p, plan));
    BeforePasses(order, p, plan, current, capacity, j);
    IterateBounds(order, n, capacity, AfterPreallocation(order, p, plan, current, capacity));
  }

  /** When rebalancing, what runs where now makes no difference. */
  lemma RebalanceIgnoresCurrent(order: seq<NamedPreferences>, p: SchedulingPreference, plan: map<string, int>,
                                current: map<string, int>, current': map<string, int>, capacity: map<string, int>)
    requires Distinct(order) && p.rebalance
    ensures Final(order, p, plan, current, capacity) == Final(order, p, plan, current', capacity)
  {
  }

  lemma {:induction false} PreallocationElsewhere(order: seq<NamedPreferences>, i: nat, k: nat,
                                                  current: map<string, int>, capacity: map<string, int>,
                                                  l: Ledger, c: string)
    requires i <= k <= |order| && forall j :: i <= j < k ==> order[j].clusterName != c
    ensures SameEntry(Preallocations(order, i, current, capacity, l), Preallocations(order, k, current, capacity, l), c)
  {
    if i < k { PreallocationElsewhere(order, i, k - 1, current, capacity, l, c); }
  }

  /** What a cluster has beyond its minimum when the main loop starts is exactly what is booked as
      preallocated, to be paid off from its later shares. */
  lemma PreallocatedIsBooked(order: seq<NamedPreferences>, p: SchedulingPreference, plan: map<string, int>,
                             current: map<string, int>, capacity: map<string, int>, n: NamedPreferences)
    requires Distinct(order) && n in order
    ensures var l := AfterPreallocation(order, p, plan, current, capacity);
            var c := n.clusterName;
            && Get(l.preallocated, c) >= 0
            && Get(l.plan, c) ==
               Get(Minimums(order, |order|, capacity, Start(p, plan)).plan, c) + Get(l.preallocated, c)
  {
    var j :| 0 <= j < |order| && order[j] == n;
    var l1 := Minimums(order, |order|, capacity, Start(p, plan));
    MinimumsPreallocateNothing(order, |order|, capacity, Start(p, plan));
    if !p.rebalance {
      PreallocationElsewhere(order, 0, j, current, capacity, l1, n.clusterName);
      PreallocationElsewhere(order, j + 1, |order|, current, capacity, l1, n.clusterName);
    }
  }

  // -------------------------------------------------------------------------- overflow

  /** When rebalancing all overflow is reported; otherwise every positive overflow as long as something is
      unplaced, each cut to what is. */
  lemma OverflowReported(p: SchedulingPreference, l: Ledger)
    ensures p.rebalance ==> OverflowOf(p, l) == l.overflow
    ensures !p.rebalance ==> forall c ::
              (c in OverflowOf(p, l) <==> c in l.overflow && l.overflow[c] > 0 && l.remaining > 0)
              && (c in OverflowOf(p, l) ==>
                    (OverflowOf(p, l)[c] == l.overflow[c] || OverflowOf(p, l)[c] == l.remaining)
                    && OverflowOf(p, l)[c] <= l.overflow[c] && OverflowOf(p, l)[c] <= l.remaining)
  {
  }

  /** Overflow is only ever suggested for clusters planned exactly at capacity, stays within their
      maximum together with the plan, and without rebalancing never exceeds what is left unplaced. */
  lemma OverflowOnlyWhereFull(order: seq<NamedPreferences>, p: SchedulingPreference, plan: map<string, int>,
                              current: map<string, int>, capacity: map<string, int>)
    requires Distinct(order)
    ensures var l := Final(order, p, plan, current, capacity);
            var overflow := OverflowOf(p, l);
            && (forall n :: n in order ==> OverflowSound(n, capacity, l.(overflow := overflow)))
            && (forall c :: c in overflow ==> exists n :: n in order && n.clusterName == c)
            && (!p.rebalance ==> forall c :: c in overflow ==> 0 < overflow[c] <= l.remaining)
  {
    var l2 := AfterPreallocation(order, p, plan, current, capacity);
    var l := Final(order, p, plan, current, capacity);
    NoOverflowYet(order, p, plan, current, capacity);
    forall n | n in order ensures OverflowSound(n, capacity, l) {
      IterateOverflow(order, n, capacity, l2);
    }
    forall c | c in l.overflow ensures exists n :: n in order && n.clusterName == c {
      if forall n :: n in order ==> n.clusterName != c {
        IterateElsewhere(order, capacity, l2, c);
      }
    }
  }

  lemma NoOverflowYet(order: seq<NamedPreferences>, p: SchedulingPreference, plan: map<string, int>,
                      current: map<string, int>, capacity: map<string, int>)
    ensures AfterPreallocation(order, p, plan, current, capacity).overflow == map[]
  {
    MinimumsPreallocateNothing(order, |order|, capacity, Start(p, plan));
    PreallocationsOweNothing(order, |order|, current, capacity, Minimums(order, |order|, capacity, Start(p, plan)));
  }
}
