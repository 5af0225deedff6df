/** What the replica planner guarantees. */
module PlannerProofs {
  import opened Wrappers
  import opened Planner

  // -------------------------------------------------------------------------- one cluster at a time

  /** Two ledgers say the same about one cluster. */
  ghost predicate SameEntry(a: Ledger, b: Ledger, c: string) {
    && Get(a.plan, c) == Get(b.plan, c)
    && Get(a.preallocated, c) == Get(b.preallocated, c)
    && (c in a.overflow <==> c in b.overflow)
    && (c in a.overflow ==> a.overflow[c] == b.overflow[c])
  }

  lemma {:induction false} PassElsewhere(prefs: seq<NamedPreferences>, i: nat, k: nat, quota: NamedPreferences -> int,
                                         capacity: map<string, int>, l: Ledger, c: string)
    requires i <= k <= |prefs|
    requires forall j :: i <= j < k ==> prefs[j].clusterName != c
    ensures SameEntry(Pass(prefs, i, quota, capacity, l).ledger, Pass(prefs, k, quota, capacity, l).ledger, c)
  {
    hide Pass, Share, ShareOf, Apply;
    if i < k {
      PassElsewhere(prefs, i, k - 1, quota, capacity, l, c);
      PassStep(prefs, k, quota, capacity, l);
      var ps, q := Pass(prefs, k - 1, quota, capacity, l), prefs[k - 1];
      ApplyElsewhere(ps, q, ShareOf(ps, q, quota(q), capacity), c);
    }
  }

  lemma ApplyElsewhere(ps: PassState, p: NamedPreferences, o: Outcome, c: string)
    requires p.clusterName != c
    ensures SameEntry(ps.ledger, Apply(ps, p, o).ledger, c)
  {
  }

  lemma {:induction false} PassRemembers(prefs: seq<NamedPreferences>, i: nat, k: nat, quota: NamedPreferences -> int,
                                         capacity: map<string, int>, l: Ledger, p: NamedPreferences)
    requires i <= k <= |prefs|
    requires forall j :: i <= j < k ==> prefs[j].clusterName != p.clusterName
    ensures var a, b := Pass(prefs, i, quota, capacity, l), Pass(prefs, k, quota, capacity, l);
            (p in a.next <==> p in b.next) && (a.modified ==> b.modified)
  {
    hide Pass, Share, ShareOf, Apply;
    if i < k {
      PassRemembers(prefs, i, k - 1, quota, capacity, l, p);
      PassStep(prefs, k, quota, capacity, l);
      var ps, q := Pass(prefs, k - 1, quota, capacity, l), prefs[k - 1];
      NextIs(ps, q, ShareOf(ps, q, quota(q), capacity));
      ModifiedIs(ps, q, ShareOf(ps, q, quota(q), capacity));
    }
  }

  lemma {:induction false} PassVisits(prefs: seq<NamedPreferences>, i: nat, quota: NamedPreferences -> int,
                                      capacity: map<string, int>, l: Ledger)
    requires i <= |prefs|
    ensures forall p :: p in Pass(prefs, i, quota, capacity, l).next ==> exists j :: 0 <= j < i && prefs[j] == p
  {
    if i > 0 {
      PassVisits(prefs, i - 1, quota, capacity, l);
    }
  }

  function OutcomeAt(prefs: seq<NamedPreferences>, j: nat, quota: NamedPreferences -> int,
                     capacity: map<string, int>, l: Ledger): Outcome
    requires j < |prefs|
  {
    var p := prefs[j];
    Share(p, Get(l.plan, p.clusterName), Get(l.preallocated, p.clusterName),
          Pass(prefs, j, quota, capacity, l).ledger.remaining, quota(p), capacity)
  }

  /** A pass leaves in the ledger of a cluster the outcome of that cluster's own turn. */
  ghost predicate Took(p: NamedPreferences, o: Outcome, l: Ledger, ps: PassState) {
    var c := p.clusterName;
    && Get(ps.ledger.plan, c) == o.total
    && Get(ps.ledger.preallocated, c) == o.preallocated
    && (if o.overflow.Some? then c in ps.ledger.overflow && ps.ledger.overflow[c] == o.overflow.value
        else (c in ps.ledger.overflow <==> c in l.overflow) &&
             (c in l.overflow ==> ps.ledger.overflow[c] == l.overflow[c]))
    && (p in ps.next <==> !o.full)
    && (o.modified ==> ps.modified)
  }

  lemma PassOutcome(prefs: seq<NamedPreferences>, j: nat, quota: NamedPreferences -> int,
                    capacity: map<string, int>, l: Ledger)
    requires Distinct(prefs) && j < |prefs|
    ensures Took(prefs[j], OutcomeAt(prefs, j, quota, capacity, l), l, Pass(prefs, |prefs|, quota, capacity, l))
  {
    var p := prefs[j];
    PassElsewhere(prefs, 0, j, quota, capacity, l, p.clusterName);
    PassVisits(prefs, j, quota, capacity, l);
    PassElsewhere(prefs, j + 1, |prefs|, quota, capacity, l, p.clusterName);
    PassRemembers(prefs, j + 1, |prefs|, quota, capacity, l, p);
  }

  /** The outcome of a whole pass for one of its clusters. */
  lemma PassResult(prefs: seq<NamedPreferences>, p: NamedPreferences, capacity: map<string, int>, l: Ledger)
    returns (o: Outcome, j: nat)
    requires Distinct(prefs) && p in prefs && WeightSum(prefs) > 0
    ensures j < |prefs| && prefs[j] == p
    ensures o == OutcomeAt(prefs, j, Quota(l.remaining, WeightSum(prefs)), capacity, l)
    ensures Took(p, o, l, RunPass(prefs, capacity, l))
  {
    j :| 0 <= j < |prefs| && prefs[j] == p;
    var quota := Quota(l.remaining, WeightSum(prefs));
    o := OutcomeAt(prefs, j, quota, capacity, l);
    PassOutcome(prefs, j, quota, capacity, l);
  }

  lemma {:induction false} IterateElsewhere(prefs: seq<NamedPreferences>, capacity: map<string, int>, l: Ledger,
                                            c: string)
    requires Distinct(prefs) && NothingOwed(l)
    requires forall p :: p in prefs ==> p.clusterName != c
    ensures SameEntry(l, Iterate(prefs, capacity, l), c)
    decreases |prefs|, Measure(prefs, l)
  {
    if l.remaining > 0 {
      PassesEnd(prefs, capacity, l);
      var ps := RunPass(prefs, capacity, l);
      if WeightSum(prefs) > 0 {
        PassElsewhere(prefs, 0, |prefs|, Quota(l.remaining, WeightSum(prefs)), capacity, l, c);
      }
      if ps.modified {
        IterateElsewhere(ps.next, capacity, ps.ledger, c);
      }
    }
  }

  /** A cluster that a pass drops keeps what it has from then on. */
  lemma DroppedIsFinal(prefs: seq<NamedPreferences>, p: NamedPreferences, capacity: map<string, int>, l: Ledger)
    requires Distinct(prefs) && NothingOwed(l) && p in prefs && l.remaining > 0
    requires p !in RunPass(prefs, capacity, l).next
    ensures SameEntry(RunPass(prefs, capacity, l).ledger, Iterate(prefs, capacity, l), p.clusterName)
  {
    PassesEnd(prefs, capacity, l);
    var ps := RunPass(prefs, capacity, l);
    if ps.modified {
      forall q | q in ps.next ensures q.clusterName != p.clusterName {
        assert q in prefs;
      }
      IterateElsewhere(ps.next, capacity, ps.ledger, p.clusterName);
    }
  }

  // -------------------------------------------------------------------------- the main loop and one cluster

  /** The main loop takes replicas from a cluster only down to its maximum or capacity, and never
      pushes it past either. */
  lemma {:induction false} IterateBounds(prefs: seq<NamedPreferences>, p: NamedPreferences,
                                         capacity: map<string, int>, l: Ledger)
    requires Distinct(prefs) && NothingOwed(l) && p in prefs
    ensures var c := p.clusterName;
            var start, end := Get(l.plan, c), Get(Iterate(prefs, capacity, l).plan, c);
            && end >= CapTo(capacity, c, LimitTo(p.maxReplicas, start))
            && (p.maxReplicas.Some? && start <= p.maxReplicas.value ==> end <= p.maxReplicas.value)
            && (c in capacity && start <= capacity[c] ==> end <= capacity[c])
    decreases |prefs|, Measure(prefs, l)
  {
    if l.remaining > 0 && WeightSum(prefs) > 0 {
      PassesEnd(prefs, capacity, l);
      var ps := RunPass(prefs, capacity, l);
      var o, j := PassResult(prefs, p, capacity, l);
      if o.full {
        DroppedIsFinal(prefs, p, capacity, l);
      } else if ps.modified {
        IterateBounds(ps.next, p, capacity, ps.ledger);
      }
    }
  }

  /** The cluster holds exactly its maximum or exactly its capacity. */
  ghost predicate Settled(p: NamedPreferences, capacity: map<string, int>, plan: map<string, int>) {
    || (p.maxReplicas.Some? && Get(plan, p.clusterName) == p.maxReplicas.value)
    || (p.clusterName in capacity && Get(plan, p.clusterName) == capacity[p.clusterName])
  }

  ghost predicate WeightsNonNegative(prefs: seq<NamedPreferences>) {
    forall p :: p in prefs ==> p.weight >= 0
  }

  lemma {:induction false} WeightSumPositive(prefs: seq<NamedPreferences>, p: NamedPreferences)
    requires WeightsNonNegative(prefs) && p in prefs
    ensures WeightSum(prefs) >= p.weight
  {
    var front := prefs[..|prefs| - 1];
    WeightSumNonNegative(front);
    if p in front {
      WeightSumPositive(front, p);
    }
  }

  lemma {:induction false} WeightSumNonNegative(prefs: seq<NamedPreferences>)
    requires WeightsNonNegative(prefs)
    ensures WeightSum(prefs) >= 0
  {
    if prefs != [] {
      WeightSumNonNegative(prefs[..|prefs| - 1]);
    }
  }

  /** In a pass that changes nothing, no replica leaves the pool. */
  lemma {:induction false} IdlePass(prefs: seq<NamedPreferences>, i: nat, quota: NamedPreferences -> int,
                                    capacity: map<string, int>, l: Ledger)
    requires i <= |prefs| && !Pass(prefs, i, quota, capacity, l).modified
    ensures Pass(prefs, i, quota, capacity, l).ledger.remaining >= l.remaining
  {
    if i > 0 {
      IdlePass(prefs, i - 1, quota, capacity, l);
    }
  }

  lemma {:induction false} IdleSoFar(prefs: seq<NamedPreferences>, i: nat, k: nat, quota: NamedPreferences -> int,
                                     capacity: map<string, int>, l: Ledger)
    requires i <= k <= |prefs| && !Pass(prefs, k, quota, capacity, l).modified
    ensures !Pass(prefs, i, quota, capacity, l).modified
  {
    if i < k {
      IdleSoFar(prefs, i, k - 1, quota, capacity, l);
    }
  }

  lemma RoundedUp(distribute: int, weight: int, weightSum: int)
    requires weightSum > 0 && distribute >= 0 && weight >= 0
    ensures RoundedShare(distribute, weight, weightSum) >= 0
    ensures RoundedShare(distribute, weight, weightSum) * weightSum >= distribute * weight
    ensures RoundedShare(distribute, weight, weightSum) * weightSum < distribute * weight + weightSum
    ensures distribute > 0 && weight > 0 ==> RoundedShare(distribute, weight, weightSum) >= 1
  {
    var product := distribute * weight;
    assert product >= 0;
    if distribute > 0 && weight > 0 {
      assert product > 0;
    }
    RoundUpDivision(product, weightSum);
  }

  lemma RoundUpDivision(a: nat, b: int)
    requires b > 0
    ensures var q := (a + b - 1) / b; q >= 0 && a <= q * b < a + b && (a > 0 ==> q >= 1)
  {
    var q, r := (a + b - 1) / b, (a + b - 1) % b;
    assert a + b - 1 == q * b + r;
  }

  /** If replicas are left over, every cluster that takes part with a positive weight is settled. */
  lemma {:induction false} IterateSettles(prefs: seq<NamedPreferences>, p: NamedPreferences,
                                          capacity: map<string, int>, l: Ledger)
    requires Distinct(prefs) && NothingOwed(l) && p in prefs && p.weight > 0 && WeightsNonNegative(prefs)
    requires Iterate(prefs, capacity, l).remaining > 0
    ensures Settled(p, capacity, Iterate(prefs, capacity, l).plan)
    decreases |prefs|, Measure(prefs, l)
  {
    WeightSumPositive(prefs, p);
    PassesEnd(prefs, capacity, l);
    var ps := RunPass(prefs, capacity, l);
    var o, j := PassResult(prefs, p, capacity, l);
    if o.full {
      DroppedIsFinal(prefs, p, capacity, l);
    } else if ps.modified {
      IterateSettles(ps.next, p, capacity, ps.ledger);
    } else {
      var quota := Quota(l.remaining, WeightSum(prefs));
      IdleSoFar(prefs, j, |prefs|, quota, capacity, l);
      IdlePass(prefs, j, quota, capacity, l);
      RoundedUp(l.remaining, p.weight, WeightSum(prefs));
      assert false;
    }
  }

  /** Overflow is recorded for a cluster filled to capacity, and only as far as its maximum allows. */
  ghost predicate OverflowSound(p: NamedPreferences, capacity: map<string, int>, l: Ledger) {
    var c := p.clusterName;
    c in l.overflow ==>
      && l.overflow[c] > 0
      && c in capacity && Get(l.plan, c) == capacity[c]
      && (p.maxReplicas.Some? ==> Get(l.plan, c) + l.overflow[c] <= p.maxReplicas.value)
  }

  lemma {:induction false} IterateOverflow(prefs: seq<NamedPreferences>, p: NamedPreferences,
                                           capacity: map<string, int>, l: Ledger)
    requires Distinct(prefs) && NothingOwed(l) && p in prefs && p.clusterName !in l.overflow
    ensures OverflowSound(p, capacity, Iterate(prefs, capacity, l))
    decreases |prefs|, Measure(prefs, l)
  {
    if l.remaining > 0 && WeightSum(prefs) > 0 {
      PassesEnd(prefs, capacity, l);
      var ps := RunPass(prefs, capacity, l);
      var o, j := PassResult(prefs, p, capacity, l);
      if o.full {
        DroppedIsFinal(prefs, p, capacity, l);
      } else if ps.modified {
        IterateOverflow(ps.next, p, capacity, ps.ledger);
      }
    }
  }

  // -------------------------------------------------------------------------- conservation

  function Total(prefs: seq<NamedPreferences>, m: map<string, int>): int {
    if prefs == [] then 0 else Total(prefs[..|prefs| - 1], m) + Get(m, prefs[|prefs| - 1].clusterName)
  }

  lemma {:induction false} TotalElsewhere(prefs: seq<NamedPreferences>, m: map<string, int>, c: string, v: int)
    requires forall p :: p in prefs ==> p.clusterName != c
    ensures Total(prefs, m[c := v]) == Total(prefs, m)
  {
    if prefs != [] {
      TotalElsewhere(prefs[..|prefs| - 1], m, c, v);
    }
  }

  lemma {:induction false} TotalUpdate(prefs: seq<NamedPreferences>, m: map<string, int>, p: NamedPreferences, v: int)
    requires Distinct(prefs) && p in prefs
    ensures Total(prefs, m[p.clusterName := v]) == Total(prefs, m) + v - Get(m, p.clusterName)
  {
    var n := |prefs| - 1;
    if p == prefs[n] {
      TotalElsewhere(prefs[..n], m, p.clusterName, v);
    } else {
      assert p in prefs[..n];
      TotalUpdate(prefs[..n], m, p, v);
    }
  }

  /** Every replica is either planned for one of the clusters or still unplaced. */
  ghost predicate Conserved(order: seq<NamedPreferences>, l: Ledger, total: int) {
    Total(order, l.plan) + l.remaining == total
  }

  lemma {:induction false} MinimumsConserve(order: seq<NamedPreferences>, i: nat, capacity: map<string, int>,
                                            l: Ledger, total: int)
    requires Distinct(order) && i <= |order| && Conserved(order, l, total)
    requires forall p :: p in order ==> Get(l.plan, p.clusterName) == 0
    ensures Conserved(order, Minimums(order, i, capacity, l), total)
  {
    if i > 0 {
      var before := Minimums(order, i - 1, capacity, l);
      MinimumsConserve(order, i - 1, capacity, l, total);
      MinimumsElsewhere(order, i - 1, capacity, l, order[i - 1].clusterName);
      var after := AssignMinimum(before, order[i - 1], capacity);
      TotalUpdate(order, before.plan, order[i - 1], after.plan[order[i - 1].clusterName]);
    }
  }

  lemma {:induction false} MinimumsElsewhere(order: seq<NamedPreferences>, i: nat, capacity: map<string, int>,
                                             l: Ledger, c: string)
    requires i <= |order| && forall j :: 0 <= j < i ==> order[j].clusterName != c
    ensures Get(Minimums(order, i, capacity, l).plan, c) == Get(l.plan, c)
  {
    if i > 0 {
      MinimumsElsewhere(order, i - 1, capacity, l, c);
    }
  }

  lemma {:induction false} PreallocationsConserve(order: seq<NamedPreferences>, i: nat, current: map<string, int>,
                                                  capacity: map<string, int>, l: Ledger, total: int)
    requires Distinct(order) && i <= |order| && Conserved(order, l, total)
    ensures Conserved(order, Preallocations(order, i, current, capacity, l), total)
  {
    if i > 0 {
      var before := Preallocations(order, i - 1, current, capacity, l);
      PreallocationsConserve(order, i - 1, current, capacity, l, total);
      var after := Preallocate(before, order[i - 1], current, capacity);
      TotalUpdate(order, before.plan, order[i - 1], Get(after.plan, order[i - 1].clusterName));
    }
  }

  lemma {:induction false} PassConserves(order: seq<NamedPreferences>, prefs: seq<NamedPreferences>, i: nat,
                                         quota: NamedPreferences -> int, capacity: map<string, int>, l: Ledger,
                                         total: int)
    requires Distinct(order) && i <= |prefs| && Conserved(order, l, total)
    requires forall p :: p in prefs ==> p in order
    ensures Conserved(order, Pass(prefs, i, quota, capacity, l).ledger, total)
  {
    if i > 0 {
      var p, ps := prefs[i - 1], Pass(prefs, i - 1, quota, capacity, l);
      PassConserves(order, prefs, i - 1, quota, capacity, l, total);
      var o := ShareOf(ps, p, quota(p), capacity);
      assert p in order;
      TotalUpdate(order, ps.ledger.plan, p, o.total);
    }
  }

  lemma {:induction false} IterateConserves(order: seq<NamedPreferences>, prefs: seq<NamedPreferences>,
                                            capacity: map<string, int>, l: Ledger, total: int)
    requires Distinct(order) && Distinct(prefs) && NothingOwed(l) && Conserved(order, l, total)
    requires forall p :: p in prefs ==> p in order
    ensures Conserved(order, Iterate(prefs, capacity, l), total)
    decreases |prefs|, Measure(prefs, l)
  {
    if l.remaining > 0 {
      PassesEnd(prefs, capacity, l);
      var ps := RunPass(prefs, capacity, l);
      if WeightSum(prefs) > 0 {
        PassConserves(order, prefs, |prefs|, Quota(l.remaining, WeightSum(prefs)), capacity, l, total);
      }
      if ps.modified {
        IterateConserves(order, ps.next, capacity, ps.ledger, total);
      }
    }
  }
}
