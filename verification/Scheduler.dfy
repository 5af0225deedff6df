/** Turning a plan into the replica count each cluster is told to run. */
module Scheduler {
  import opened Wrappers
  import opened Sorting
  import opened Planner
  import opened PlannerProofs
  import opened PlannerTheorems

  /** Plan and overflow of each planned cluster, and 0 for clusters only known to run replicas now. */
  function Combined(plan: map<string, int>, overflow: map<string, int>, current: map<string, int>): map<string, int> {
    map c | c in current.Keys + plan.Keys + overflow.Keys :: Get(plan, c) + Get(overflow, c)
  }

  /** The result combines plan and overflow of a call that works through `order`. */
  ghost predicate ScheduledBy(order: seq<NamedPreferences>, p: SchedulingPreference, hash: string -> nat,
                              available: seq<string>,
                              current: map<string, int>, capacity: map<string, int>, result: map<string, int>)
  {
    && IsOrder(order, p, hash, available)
    && var l := Final(order, p, Unlisted(p, available), current, capacity);
       result == Combined(l.plan, OverflowOf(p, l), current)
  }

  method Schedule(p: SchedulingPreference, hash: string -> nat, clusterNames: seq<string>,
                  current: map<string, int>, capacity: map<string, int>)
    returns (result: map<string, int>)
    requires DistinctNames(clusterNames)
    ensures exists order :: ScheduledBy(order, p, hash, clusterNames, current, capacity, result)
  {
    hide Final, OverflowOf, Combined, IsOrder;
    var plan, overflow := Plan(p, hash, clusterNames, current, capacity);
    result := Combine(plan, overflow, current);
    ghost var order :| PlannedBy(order, p, hash, clusterNames, current, capacity, plan, overflow);
    assert ScheduledBy(order, p, hash, clusterNames, current, capacity, result);
  }

  method Combine(plan: map<string, int>, overflow: map<string, int>,
                 current: map<string, int>) returns (result: map<string, int>)
    ensures result == Combined(plan, overflow, current)
    ensures result.Keys == current.Keys + plan.Keys + overflow.Keys
    ensures forall c :: c in result ==> result[c] == Get(plan, c) + Get(overflow, c)
  {
    result := map[];
    var keys := current.Keys;
    while keys != {}
      invariant keys <= current.Keys
      invariant result.Keys == current.Keys - keys && forall c :: c in result ==> result[c] == 0
      decreases keys
    {
      var c :| c in keys;
      result := result[c := 0];
      keys := keys - {c};
    }
    result := SetAll(result, plan);
    result := AddAll(result, overflow);
  }

  method SetAll(result0: map<string, int>, m: map<string, int>) returns (result: map<string, int>)
    ensures result == result0 + m
  {
    result := result0;
    var keys := m.Keys;
    while keys != {}
      invariant keys <= m.Keys && result == result0 + (m - keys)
      decreases keys
    {
      var c :| c in keys;
      result := result[c := m[c]];
      keys := keys - {c};
    }
  }

  method AddAll(result0: map<string, int>, m: map<string, int>) returns (result: map<string, int>)
    ensures result.Keys == result0.Keys + m.Keys
    ensures forall c :: c in result ==> result[c] == Get(result0, c) + Get(m, c)
  {
    result := result0;
    var keys := m.Keys;
    while keys != {}
      invariant keys <= m.Keys && result.Keys == result0.Keys + (m.Keys - keys)
      invariant forall c :: c in result ==> result[c] == Get(result0, c) + if c in keys then 0 else Get(m, c)
      decreases keys
    {
      var c :| c in keys;
      result := result[c := Get(result, c) + m[c]];
      keys := keys - {c};
    }
  }

  // -------------------------------------------------------------------------- what is scheduled

  ghost predicate PlansFor(l: Ledger, keys: set<string>) {
    l.plan.Keys == keys
  }

  function Names(prefs: seq<NamedPreferences>, i: nat): set<string>
    requires i <= |prefs|
  {
    set j | 0 <= j < i :: prefs[j].clusterName
  }

  lemma {:induction false} MinimumsPlan(order: seq<NamedPreferences>, i: nat, capacity: map<string, int>, l: Ledger)
    requires i <= |order|
    ensures PlansFor(Minimums(order, i, capacity, l), l.plan.Keys + Names(order, i))
  {
    if i > 0 {
      MinimumsPlan(order, i - 1, capacity, l);
      assert Names(order, i) == Names(order, i - 1) + {order[i - 1].clusterName};
    }
  }

  lemma {:induction false} PreallocationsPlan(order: seq<NamedPreferences>, i: nat, current: map<string, int>,
                                              capacity: map<string, int>, l: Ledger)
    requires i <= |order| && forall n :: n in order ==> n.clusterName in l.plan
    ensures PlansFor(Preallocations(order, i, current, capacity, l), l.plan.Keys)
  {
    if i > 0 {
      PreallocationsPlan(order, i - 1, current, capacity, l);
      assert order[i - 1] in order;
    }
  }

  lemma {:induction false} PassPlans(prefs: seq<NamedPreferences>, i: nat, quota: NamedPreferences -> int,
                                     capacity: map<string, int>, l: Ledger)
    requires i <= |prefs| && forall n :: n in prefs ==> n.clusterName in l.plan
    ensures PlansFor(Pass(prefs, i, quota, capacity, l).ledger, l.plan.Keys)
  {
    if i > 0 {
      PassPlans(prefs, i - 1, quota, capacity, l);
      assert prefs[i - 1] in prefs;
    }
  }

  lemma {:induction false} IteratePlans(prefs: seq<NamedPreferences>, capacity: map<string, int>, l: Ledger)
    requires Distinct(prefs) && NothingOwed(l) && forall n :: n in prefs ==> n.clusterName in l.plan
    ensures PlansFor(Iterate(prefs, capacity, l), l.plan.Keys)
    decreases |prefs|, Measure(prefs, l)
  {
    if l.remaining > 0 {
      PassesEnd(prefs, capacity, l);
      var ps := RunPass(prefs, capacity, l);
      if WeightSum(prefs) > 0 {
        PassPlans(prefs, |prefs|, Quota(l.remaining, WeightSum(prefs)), capacity, l);
      }
      if ps.modified {
        IteratePlans(ps.next, capacity, ps.ledger);
      }
    }
  }

  /** Exactly the available clusters are planned for. */
  lemma PlannedClusters(p: SchedulingPreference, hash: string -> nat, available: seq<string>,
                        order: seq<NamedPreferences>,
                        current: map<string, int>, capacity: map<string, int>)
    requires DistinctNames(available) && IsOrder(order, p, hash, available)
    ensures Final(order, p, Unlisted(p, available), current, capacity).plan.Keys == set c | c in available
  {
    var plan := Unlisted(p, available);
    var l0 := Start(p, plan);
    MinimumsPlan(order, |order|, capacity, l0);
    var l1 := Minimums(order, |order|, capacity, l0);
    PreallocationsPlan(order, |order|, current, capacity, l1);
    IteratePlans(order, capacity, AfterPreallocation(order, p, plan, current, capacity));
    NamedIffPreferred(p, hash, available);
    SameMembers(order, Named(p, hash, available));
    forall c ensures c in available <==> c in plan.Keys + Names(order, |order|) {
      if c in available && PreferenceFor(p, c).Some? {
        var n :| n in Named(p, hash, available) && n.clusterName == c;
        assert n in order;
      }
      if c in Names(order, |order|) {
        var j :| 0 <= j < |order| && order[j].clusterName == c;
        assert order[j] in order && order[j] in Named(p, hash, available);
      }
    }
  }

  lemma NamedIffPreferred(p: SchedulingPreference, hash: string -> nat, available: seq<string>)
    requires DistinctNames(available)
    ensures forall n :: n in Named(p, hash, available) ==> n.clusterName in available
    ensures forall c :: c in available && PreferenceFor(p, c).Some? ==>
      exists n :: n in Named(p, hash, available) && n.clusterName == c
  {
    NamedFrom(p, hash, available);
    NamedCount(p, hash, available);
    forall c | c in available && PreferenceFor(p, c).Some?
      ensures exists n :: n in Named(p, hash, available) && n.clusterName == c
    {
      var q := PreferenceFor(p, c).value;
      var n := NamedPreferences(c, hash(c), q.minReplicas, q.maxReplicas, q.weight);
      assert multiset(Named(p, hash, available))[n] == 1;
      assert n in Named(p, hash, available);
    }
  }

  /** Every available cluster, and every other one running replicas, is told a count: 0 for the latter.
      Without rebalancing the counts are just the plan once everything has been placed. */
  lemma ScheduledClusters(p: SchedulingPreference, hash: string -> nat, available: seq<string>,
                          order: seq<NamedPreferences>,
                          current: map<string, int>, capacity: map<string, int>)
    requires DistinctNames(available) && IsOrder(order, p, hash, available)
    ensures var l := Final(order, p, Unlisted(p, available), current, capacity);
            var result := Combined(l.plan, OverflowOf(p, l), current);
            && result.Keys == current.Keys + set c | c in available
            && (forall c :: c in current && c !in available ==> result[c] == 0)
            && (!p.rebalance && l.remaining == 0 ==> forall c :: c in available ==> Get(result, c) == Get(l.plan, c))
  {
    hide Final, OverflowSound, OverflowOf, Distinct, DistinctNames, Unlisted;
    var plan := Unlisted(p, available);
    var l := Final(order, p, plan, current, capacity);
    PlannedClusters(p, hash, available, order, current, capacity);
    OverflowOnlyWhereFull(order, p, plan, current, capacity);
    OrderIsAvailable(p, hash, available, order);
    assert OverflowOf(p, l).Keys <= l.plan.Keys;
    assert !p.rebalance && l.remaining == 0 ==> OverflowOf(p, l) == map[];
    CombinedIs(available, l.plan, OverflowOf(p, l), current);
  }

  lemma CombinedIs(available: seq<string>, plan: map<string, int>, overflow: map<string, int>,
                   current: map<string, int>)
    requires plan.Keys == (set c | c in available) && overflow.Keys <= plan.Keys
    ensures var result := Combined(plan, overflow, current);
            && result.Keys == current.Keys + set c | c in available
            && (forall c :: c in current && c !in available ==> result[c] == 0)
            && (overflow == map[] ==> forall c :: c in available ==> Get(result, c) == Get(plan, c))
  {
  }

  lemma OrderIsAvailable(p: SchedulingPreference, hash: string -> nat, available: seq<string>,
                         order: seq<NamedPreferences>)
    requires SortOf(NotAfter, Named(p, hash, available), order)
    ensures forall n :: n in order ==> n.clusterName in available
  {
    NamedFrom(p, hash, available);
    SameMembers(order, Named(p, hash, available));
    forall n | n in order ensures n.clusterName in available {
      assert n in Named(p, hash, available);
    }
  }

  lemma {:induction false} TotalOfSum(order: seq<NamedPreferences>, a: map<string, int>, b: map<string, int>,
                                      sum: map<string, int>)
    requires forall n :: n in order ==>
               Get(sum, n.clusterName) == Get(a, n.clusterName) + Get(b, n.clusterName)
    ensures Total(order, sum) == Total(order, a) + Total(order, b)
  {
    if order != [] {
      var front, last := order[..|order| - 1], order[|order| - 1];
      assert order == front + [last];
      TotalOfSum(front, a, b, sum);
    }
  }

  /** What is scheduled adds up: all replicas asked for, less the unplaced ones, and all the overflow. */
  lemma ScheduledTotal(p: SchedulingPreference, hash: string -> nat, available: seq<string>,
                       order: seq<NamedPreferences>, current: map<string, int>, capacity: map<string, int>)
    requires IsOrder(order, p, hash, available)
    ensures var l := Final(order, p, Unlisted(p, available), current, capacity);
            var overflow := OverflowOf(p, l);
            Total(order, Combined(l.plan, overflow, current)) == p.totalReplicas - l.remaining + Total(order, overflow)
  {
    hide Final, OverflowOf;
    var l := Final(order, p, Unlisted(p, available), current, capacity);
    Conservation(order, p, Unlisted(p, available), current, capacity);
    TotalOfSum(order, l.plan, OverflowOf(p, l), Combined(l.plan, OverflowOf(p, l), current));
  }

  /** A cluster runs its plan, or more only where the plan fills its capacity, and overflow never takes
      it past its maximum: what is scheduled is above the maximum only if the plan alone is. */
  lemma ScheduledReplicas(order: seq<NamedPreferences>, p: SchedulingPreference, plan: map<string, int>,
                          current: map<string, int>, capacity: map<string, int>, n: NamedPreferences)
    requires Distinct(order) && n in order
    ensures var l := Final(order, p, plan, current, capacity);
            var c := n.clusterName;
            var planned, scheduled := Get(l.plan, c), Get(Combined(l.plan, OverflowOf(p, l), current), c);
            && planned <= scheduled
            && (n.maxReplicas.Some? && scheduled > n.maxReplicas.value ==> scheduled == planned)
            && (scheduled > planned ==> c in capacity && planned == capacity[c])
  {
    var l := Final(order, p, plan, current, capacity);
    OverflowOnlyWhereFull(order, p, plan, current, capacity);
    assert OverflowSound(n, capacity, l.(overflow := OverflowOf(p, l)));
  }
}
