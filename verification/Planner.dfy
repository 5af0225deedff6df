/**
  The replica planner: spreads a total number of replicas over member clusters.

  `Planner.Plan` follows the loops of the source; the functions above it say what state each loop
  has reached after its first `i` clusters, and `PlanOf` what the whole call computes from the
  sorted preferences. What the planner is for is proved about those functions in `PlannerProofs`.
  Numbers are unbounded integers and no sign is assumed of any of them.
 */
module Planner {
  import opened Wrappers
  import opened Sorting

  datatype ClusterPreferences = ClusterPreferences(minReplicas: int, maxReplicas: Option<int>, weight: int)

  datatype SchedulingPreference = SchedulingPreference(
    totalReplicas: int, rebalance: bool, clusters: map<string, ClusterPreferences>)

  datatype NamedPreferences = NamedPreferences(
    clusterName: string, hash: nat, minReplicas: int, maxReplicas: Option<int>, weight: int)

  // Decreasing weight, then increasing hash.
  predicate Less(a: NamedPreferences, b: NamedPreferences) {
    a.weight > b.weight || (a.weight == b.weight && a.hash < b.hash)
  }

  predicate NotAfter(a: NamedPreferences, b: NamedPreferences) {
    !Less(b, a)
  }

  /** Division of Go integers by a positive number: truncates toward zero. */
  function GoDiv(a: int, b: int): int
    requires b > 0
  {
    if a >= 0 then a / b else -(-a / b)
  }

  function LimitTo(maxReplicas: Option<int>, x: int): int {
    if maxReplicas.Some? then Min(maxReplicas.value, x) else x
  }

  function CapTo(capacity: map<string, int>, cluster: string, x: int): int {
    if cluster in capacity then Min(x, capacity[cluster]) else x
  }

  predicate Distinct(prefs: seq<NamedPreferences>) {
    forall i, j :: 0 <= i < j < |prefs| ==> prefs[i].clusterName != prefs[j].clusterName
  }

  /** What the planner has decided so far. */
  datatype Ledger = Ledger(
    plan: map<string, int>,          // replicas given to each cluster
    overflow: map<string, int>,      // replicas a cluster would get but has no capacity for
    preallocated: map<string, int>,  // replicas given only because they already run there
    remaining: int)                  // replicas not given to anybody yet

  // -------------------------------------------------------------------------- minimums

  function AssignMinimum(l: Ledger, p: NamedPreferences, capacity: map<string, int>): Ledger {
    var share := CapTo(capacity, p.clusterName, Min(p.minReplicas, l.remaining));
    l.(plan := l.plan[p.clusterName := share], remaining := l.remaining - share)
  }

  function Minimums(prefs: seq<NamedPreferences>, i: nat, capacity: map<string, int>, l: Ledger): Ledger
    requires i <= |prefs|
  {
    if i == 0 then l else AssignMinimum(Minimums(prefs, i - 1, capacity, l), prefs[i - 1], capacity)
  }

  // -------------------------------------------------------------------------- running replicas

  function RunningTarget(p: NamedPreferences, capacity: map<string, int>, count: int): int {
    CapTo(capacity, p.clusterName, LimitTo(p.maxReplicas, count))
  }

  function Preallocate(l: Ledger, p: NamedPreferences, current: map<string, int>, capacity: map<string, int>): Ledger {
    var planned := Get(l.plan, p.clusterName);
    if p.clusterName in current && current[p.clusterName] > planned then
      var wanted := Min(RunningTarget(p, capacity, current[p.clusterName]) - planned, l.remaining);
      var extra := if wanted < 0 then 0 else wanted;
      l.(plan := l.plan[p.clusterName := extra + planned],
      preallocated := l.preallocated[p.clusterName := extra],
      remaining := l.remaining - extra)
    else
      l
  }

  function Preallocations(prefs: seq<NamedPreferences>, i: nat, current: map<string, int>,
                          capacity: map<string, int>, l: Ledger): Ledger
    requires i <= |prefs|
  {
    if i == 0 then l
    else Preallocate(Preallocations(prefs, i - 1, current, capacity, l), prefs[i - 1], current, capacity)
  }

  // -------------------------------------------------------------------------- weighted passes

  function WeightSum(prefs: seq<NamedPreferences>): int {
    if prefs == [] then 0 else WeightSum(prefs[..|prefs| - 1]) + prefs[|prefs| - 1].weight
  }

  /** What one pass does to one cluster. */
  datatype Outcome = Outcome(total: int, preallocated: int, overflow: Option<int>, full: bool, modified: bool)

  /** The share of `distribute` due to a cluster, with fractions rounded up. */
  function RoundedShare(distribute: int, weight: int, weightSum: int): int
    requires weightSum > 0
  {
    GoDiv(distribute * weight + weightSum - 1, weightSum)
  }

  function Quota(distribute: int, weightSum: int): NamedPreferences -> int
    requires weightSum > 0
  {
    (p: NamedPreferences) => RoundedShare(distribute, p.weight, weightSum)
  }

  /** The effect of a pass on a cluster due `share` replicas that starts it with `start` replicas, `prealloc`
      of them still to be paid for, when `remaining` replicas are left at its turn. */
  function Share(p: NamedPreferences, start: int, prealloc: int, remaining: int, share: int,
                 capacity: map<string, int>): Outcome
  {
    var extra := Min(share, remaining);
    var used := Min(extra, prealloc);
    var wanted := start + (extra - used);
    var overMax := p.maxReplicas.Some? && wanted > p.maxReplicas.value;
    var limited := if overMax then p.maxReplicas.value else wanted;
    var overCapacity := p.clusterName in capacity && limited > capacity[p.clusterName];
    var total := if overCapacity then capacity[p.clusterName] else limited;
    Outcome(total, prealloc - used,
            if overCapacity then Some(limited - capacity[p.clusterName]) else None,
            overMax || overCapacity, used > 0 || total > start)
  }

  datatype PassState = PassState(ledger: Ledger, modified: bool, next: seq<NamedPreferences>)

  function Apply(ps: PassState, p: NamedPreferences, o: Outcome): PassState {
    var l := ps.ledger;
    PassState(
      Ledger(
        l.plan[p.clusterName := o.total],
        if o.overflow.Some? then l.overflow[p.clusterName := o.overflow.value] else l.overflow,
        l.preallocated[p.clusterName := o.preallocated],
        l.remaining - (o.total - Get(l.plan, p.clusterName))),
      ps.modified || o.modified,
      if o.full then ps.next else ps.next + [p])
  }

  function ShareOf(ps: PassState, p: NamedPreferences, share: int, capacity: map<string, int>): Outcome {
    Share(p, Get(ps.ledger.plan, p.clusterName), Get(ps.ledger.preallocated, p.clusterName), ps.ledger.remaining,
          share, capacity)
  }

  /** A pass over `prefs` after its first `i` clusters, when each is due what `quota` says. */
  function Pass(prefs: seq<NamedPreferences>, i: nat, quota: NamedPreferences -> int,
                capacity: map<string, int>, l: Ledger): PassState
    requires i <= |prefs|
  {
    if i == 0 then PassState(l, false, [])
    else
      var ps := Pass(prefs, i - 1, quota, capacity, l);
      Apply(ps, prefs[i - 1], ShareOf(ps, prefs[i - 1], quota(prefs[i - 1]), capacity))
  }

  lemma PassStep(prefs: seq<NamedPreferences>, i: nat, quota: NamedPreferences -> int,
                 capacity: map<string, int>, l: Ledger)
    requires i <= |prefs|
    ensures i == 0 ==> Pass(prefs, i, quota, capacity, l) == PassState(l, false, [])
    ensures i > 0 ==>
              var ps, p := Pass(prefs, i - 1, quota, capacity, l), prefs[i - 1];
              Pass(prefs, i, quota, capacity, l) == Apply(ps, p, ShareOf(ps, p, quota(p), capacity))
  {
  }

  function RunPass(prefs: seq<NamedPreferences>, capacity: map<string, int>, l: Ledger): PassState {
    var weightSum := WeightSum(prefs);
    if weightSum > 0 then Pass(prefs, |prefs|, Quota(l.remaining, weightSum), capacity, l)
    else PassState(l, false, [])
  }

  // -------------------------------------------------------------------------- why the passes end

  /** Preallocated replicas still to be paid for by clusters whose weight is not negative. */
  function Pending(prefs: seq<NamedPreferences>, m: map<string, int>): int {
    if prefs == [] then 0
    else
      var p := prefs[|prefs| - 1];
      Pending(prefs[..|prefs| - 1], m) + if p.weight >= 0 then Get(m, p.clusterName) else 0
  }

  predicate NothingOwed(l: Ledger) {
    forall c :: c in l.preallocated ==> l.preallocated[c] >= 0
  }

  lemma PendingNonNegative(prefs: seq<NamedPreferences>, l: Ledger)
    requires NothingOwed(l)
    ensures Pending(prefs, l.preallocated) >= 0
  {
  }

  lemma {:induction false} PendingUpdate(prefs: seq<NamedPreferences>, m: map<string, int>, i: nat, v: int)
    requires Distinct(prefs) && i < |prefs|
    ensures var p := prefs[i];
            Pending(prefs, m[p.clusterName := v]) ==
            Pending(prefs, m) + if p.weight >= 0 then v - Get(m, p.clusterName) else 0
  {
    var n := |prefs| - 1;
    if i < n {
      assert prefs[..n][i] == prefs[i];
      PendingUpdate(prefs[..n], m, i, v);
    } else {
      PendingElsewhere(prefs[..n], m, prefs[n].clusterName, v);
    }
  }

  lemma {:induction false} PendingElsewhere(prefs: seq<NamedPreferences>, m: map<string, int>, c: string, v: int)
    requires forall p :: p in prefs ==> p.clusterName != c
    ensures Pending(prefs, m[c := v]) == Pending(prefs, m)
  {
    if prefs != [] {
      PendingElsewhere(prefs[..|prefs| - 1], m, c, v);
    }
  }

  lemma GoDivFacts(a: int, b: int)
    requires b > 0
    ensures a >= 0 ==> GoDiv(a, b) == a / b >= 0
    ensures a < b ==> GoDiv(a, b) <= 0
  {
    if a < 0 {
      assert -a / b >= 0;
    }
  }

  /** The quotient is the real one with its fraction dropped, on either side of zero. */
  lemma GoDivTruncates(a: int, b: int)
    requires b > 0
    ensures a >= 0 ==> GoDiv(a, b) * b <= a < GoDiv(a, b) * b + b
    ensures a < 0 ==> GoDiv(a, b) * b - b < a <= GoDiv(a, b) * b
  {
    if a < 0 {
      var q := -a / b;
      assert q * b <= -a < q * b + b;
      assert (-q) * b == -(q * b);
    }
  }

  lemma SharesAreSigned(distribute: int, weight: int, weightSum: int)
    requires weightSum > 0 && distribute >= 0
    ensures weight >= 0 ==> RoundedShare(distribute, weight, weightSum) >= 0
    ensures weight < 0 ==> RoundedShare(distribute, weight, weightSum) <= 0
  {
    var a := distribute * weight + weightSum - 1;
    if weight >= 0 {
      assert distribute * weight >= 0;
    } else {
      assert distribute * weight <= 0;
    }
    GoDivFacts(a, weightSum);
  }

  /** Clusters of non-negative weight are due something, others nothing. */
  ghost predicate Signed(quota: NamedPreferences -> int) {
    forall p: NamedPreferences :: if p.weight >= 0 then quota(p) >= 0 else quota(p) <= 0
  }

  lemma QuotasAreSigned(distribute: int, weightSum: int)
    requires weightSum > 0 && distribute >= 0
    ensures Signed(Quota(distribute, weightSum))
  {
    var quota := Quota(distribute, weightSum);
    forall p: NamedPreferences ensures if p.weight >= 0 then quota(p) >= 0 else quota(p) <= 0 {
      SharesAreSigned(distribute, p.weight, weightSum);
    }
  }

  lemma ShareMoves(p: NamedPreferences, start: int, prealloc: int, remaining: int, share: int,
                   capacity: map<string, int>)
    requires remaining >= 0 && prealloc >= 0
    requires if p.weight >= 0 then share >= 0 else share <= 0
    ensures var o := Share(p, start, prealloc, remaining, share, capacity);
            !o.full ==>
              (o.total - start) + (if p.weight >= 0 then prealloc - o.preallocated else 0) >=
              if o.modified then 1 else 0
  {
  }

  lemma {:induction false} PassOwesNothing(prefs: seq<NamedPreferences>, i: nat, quota: NamedPreferences -> int,
                                           capacity: map<string, int>, l: Ledger)
    requires i <= |prefs| && NothingOwed(l) && l.remaining >= 0
    ensures var ps := Pass(prefs, i, quota, capacity, l);
            NothingOwed(ps.ledger) && ps.ledger.remaining >= 0
  {
    if i > 0 {
      PassOwesNothing(prefs, i - 1, quota, capacity, l);
    }
  }

  lemma {:induction false} PassDropsClusters(prefs: seq<NamedPreferences>, i: nat, quota: NamedPreferences -> int,
                                             capacity: map<string, int>, l: Ledger)
    requires i <= |prefs|
    ensures |Pass(prefs, i, quota, capacity, l).next| <= i
  {
    if i > 0 {
      PassDropsClusters(prefs, i - 1, quota, capacity, l);
    }
  }

  lemma {:induction false} PassKeepsClusters(prefs: seq<NamedPreferences>, i: nat, quota: NamedPreferences -> int,
                                             capacity: map<string, int>, l: Ledger)
    requires i <= |prefs| && Distinct(prefs)
    ensures var ps := Pass(prefs, i, quota, capacity, l);
            && |ps.next| <= i
            && (forall p :: p in ps.next ==> p in prefs[..i])
            && Distinct(ps.next)
            && (|ps.next| == i ==> ps.next == prefs[..i])
  {
    hide Pass, Share, ShareOf, Apply;
    PassStep(prefs, i, quota, capacity, l);
    if i > 0 {
      var ps, p := Pass(prefs, i - 1, quota, capacity, l), prefs[i - 1];
      PassKeepsClusters(prefs, i - 1, quota, capacity, l);
      assert prefs[..i] == prefs[..i - 1] + [p];
      NextIs(ps, p, ShareOf(ps, p, quota(p), capacity));
      forall j | 0 <= j < |ps.next| ensures ps.next[j].clusterName != p.clusterName {
        assert ps.next[j] in prefs[..i - 1];
      }
    }
  }

  lemma NextIs(ps: PassState, p: NamedPreferences, o: Outcome)
    ensures Apply(ps, p, o).next == if o.full then ps.next else ps.next + [p]
  {
  }

  lemma ApplyMeasure(prefs: seq<NamedPreferences>, i: nat, ps: PassState, o: Outcome)
    requires Distinct(prefs) && i < |prefs| && !o.full
    requires var p := prefs[i];
             (o.total - Get(ps.ledger.plan, p.clusterName)) +
             (if p.weight >= 0 then Get(ps.ledger.preallocated, p.clusterName) - o.preallocated else 0) >=
             if o.modified then 1 else 0
    ensures var r := Apply(ps, prefs[i], o);
            r.ledger.remaining + Pending(prefs, r.ledger.preallocated) <=
            ps.ledger.remaining + Pending(prefs, ps.ledger.preallocated) - if o.modified then 1 else 0
  {
    PendingUpdate(prefs, ps.ledger.preallocated, i, o.preallocated);
  }

  lemma OutcomeIs(ps: PassState, p: NamedPreferences, share: int, capacity: map<string, int>)
    ensures ShareOf(ps, p, share, capacity) ==
            Share(p, Get(ps.ledger.plan, p.clusterName), Get(ps.ledger.preallocated, p.clusterName),
                  ps.ledger.remaining, share, capacity)
  {
  }

  lemma ModifiedIs(ps: PassState, p: NamedPreferences, o: Outcome)
    ensures Apply(ps, p, o).modified == (ps.modified || o.modified)
  {
  }

  /** As long as a pass has filled no cluster, what it spreads comes out of the unplaced replicas
      and the preallocated ones, and every change it reports makes their sum smaller. */
  lemma {:induction false} PassMeasure(prefs: seq<NamedPreferences>, i: nat, quota: NamedPreferences -> int,
                                       capacity: map<string, int>, l: Ledger)
    requires i <= |prefs| && Distinct(prefs) && NothingOwed(l) && l.remaining >= 0 && Signed(quota)
    requires |Pass(prefs, i, quota, capacity, l).next| == i
    ensures var ps := Pass(prefs, i, quota, capacity, l);
            ps.ledger.remaining + Pending(prefs, ps.ledger.preallocated) <=
            l.remaining + Pending(prefs, l.preallocated) - if ps.modified then 1 else 0
  {
    hide Share, Pending, Distinct, Pass, Apply, ShareOf;
    PassStep(prefs, i, quota, capacity, l);
    if i > 0 {
      var p, ps := prefs[i - 1], Pass(prefs, i - 1, quota, capacity, l);
      PassDropsClusters(prefs, i - 1, quota, capacity, l);
      OutcomeIs(ps, p, quota(p), capacity);
      NextIs(ps, p, ShareOf(ps, p, quota(p), capacity));
      ModifiedIs(ps, p, ShareOf(ps, p, quota(p), capacity));
      PassMeasure(prefs, i - 1, quota, capacity, l);
      PassOwesNothing(prefs, i - 1, quota, capacity, l);
      var o := ShareOf(ps, p, quota(p), capacity);
      ShareMoves(p, Get(ps.ledger.plan, p.clusterName), Get(ps.ledger.preallocated, p.clusterName),
                 ps.ledger.remaining, quota(p), capacity);
      ApplyMeasure(prefs, i - 1, ps, o);
    }
  }

  /** The passes stop: each one that changes something either drops a full cluster or spreads a replica. */
  lemma PassesEnd(prefs: seq<NamedPreferences>, capacity: map<string, int>, l: Ledger)
    requires Distinct(prefs) && NothingOwed(l) && l.remaining > 0
    ensures var ps := RunPass(prefs, capacity, l);
            && NothingOwed(ps.ledger) && ps.ledger.remaining >= 0
            && Distinct(ps.next) && (forall p :: p in ps.next ==> p in prefs)
            && (ps.modified ==>
                  || |ps.next| < |prefs|
                  || (ps.next == prefs &&
                      0 <= ps.ledger.remaining + Pending(prefs, ps.ledger.preallocated) <
                      l.remaining + Pending(prefs, l.preallocated)))
  {
    var weightSum := WeightSum(prefs);
    if weightSum > 0 {
      var ps := RunPass(prefs, capacity, l);
      var quota := Quota(l.remaining, weightSum);
      QuotasAreSigned(l.remaining, weightSum);
      PassOwesNothing(prefs, |prefs|, quota, capacity, l);
      PassKeepsClusters(prefs, |prefs|, quota, capacity, l);
      assert prefs[..|prefs|] == prefs;
      if |ps.next| == |prefs| {
        PassMeasure(prefs, |prefs|, quota, capacity, l);
        PendingNonNegative(prefs, ps.ledger);
      }
    }
  }

  function Measure(prefs: seq<NamedPreferences>, l: Ledger): nat {
    var m := l.remaining + Pending(prefs, l.preallocated);
    if m < 0 then 0 else m
  }

  /** The weighted passes, repeated until nothing is left to place or a pass changes nothing. */
  function Iterate(prefs: seq<NamedPreferences>, capacity: map<string, int>, l: Ledger): Ledger
    requires Distinct(prefs) && NothingOwed(l)
    decreases |prefs|, Measure(prefs, l)
  {
    if l.remaining <= 0 then l
    else
      PassesEnd(prefs, capacity, l);
      var ps := RunPass(prefs, capacity, l);
      if ps.modified then Iterate(ps.next, capacity, ps.ledger) else ps.ledger
  }

  // -------------------------------------------------------------------------- the whole plan

  function Start(p: SchedulingPreference, plan: map<string, int>): Ledger {
    Ledger(plan, map[], map[], p.totalReplicas)
  }

  function AfterPreallocation(order: seq<NamedPreferences>, p: SchedulingPreference, plan: map<string, int>,
                              current: map<string, int>, capacity: map<string, int>): (l: Ledger)
    ensures NothingOwed(l)
  {
    var l := Minimums(order, |order|, capacity, Start(p, plan));
    assert NothingOwed(l) by { MinimumsPreallocateNothing(order, |order|, capacity, Start(p, plan)); }
    if p.rebalance then l
    else
      PreallocationsOweNothing(order, |order|, current, capacity, l);
      Preallocations(order, |order|, current, capacity, l)
  }

  lemma {:induction false} MinimumsPreallocateNothing(prefs: seq<NamedPreferences>, i: nat,
                                                      capacity: map<string, int>, l: Ledger)
    requires i <= |prefs|
    ensures var r := Minimums(prefs, i, capacity, l);
            r.preallocated == l.preallocated && r.overflow == l.overflow
  {
    if i > 0 { MinimumsPreallocateNothing(prefs, i - 1, capacity, l); }
  }

  lemma {:induction false} PreallocationsOweNothing(prefs: seq<NamedPreferences>, i: nat, current: map<string, int>,
                                                    capacity: map<string, int>, l: Ledger)
    requires i <= |prefs| && NothingOwed(l)
    ensures var r := Preallocations(prefs, i, current, capacity, l);
            NothingOwed(r) && r.overflow == l.overflow
  {
    if i > 0 { PreallocationsOweNothing(prefs, i - 1, current, capacity, l); }
  }

  function Final(order: seq<NamedPreferences>, p: SchedulingPreference, plan: map<string, int>,
                 current: map<string, int>, capacity: map<string, int>): Ledger
    requires Distinct(order)
  {
    Iterate(order, capacity, AfterPreallocation(order, p, plan, current, capacity))
  }

  /** Without rebalancing, overflow is trimmed to what could not be placed anywhere. */
  function Trim(overflow: map<string, int>, remaining: int): map<string, int> {
    map c | c in overflow && Min(overflow[c], remaining) > 0 :: Min(overflow[c], remaining)
  }

  function OverflowOf(p: SchedulingPreference, l: Ledger): map<string, int> {
    if p.rebalance then l.overflow else Trim(l.overflow, l.remaining)
  }

  // -------------------------------------------------------------------------- which clusters take part

  /** The preference that applies to a cluster: its own, or else the one under "*". */
  function PreferenceFor(p: SchedulingPreference, cluster: string): Option<ClusterPreferences> {
    if cluster in p.clusters then Some(p.clusters[cluster])
    else if "*" in p.clusters then Some(p.clusters["*"])
    else None
  }

  function Named(p: SchedulingPreference, hash: string -> nat, available: seq<string>): seq<NamedPreferences> {
    if available == [] then []
    else
      var rest := Named(p, hash, available[..|available| - 1]);
      var cluster := available[|available| - 1];
      match PreferenceFor(p, cluster)
      case Some(c) => rest + [NamedPreferences(cluster, hash(cluster), c.minReplicas, c.maxReplicas, c.weight)]
      case None => rest
  }

  function Unlisted(p: SchedulingPreference, available: seq<string>): map<string, int> {
    map c | c in available && PreferenceFor(p, c).None? :: 0
  }

  /** The entry carries what is set for its own cluster or, only if nothing is, what is set under "*". */
  predicate AppliesTo(n: NamedPreferences, p: SchedulingPreference, hash: string -> nat) {
    var c := n.clusterName;
    && n.hash == hash(c)
    && (c in p.clusters ==>
          p.clusters[c] == ClusterPreferences(n.minReplicas, n.maxReplicas, n.weight))
    && (c !in p.clusters ==>
          "*" in p.clusters && p.clusters["*"] == ClusterPreferences(n.minReplicas, n.maxReplicas, n.weight))
  }

  lemma {:induction false} NamedApply(p: SchedulingPreference, hash: string -> nat, available: seq<string>)
    ensures forall n :: n in Named(p, hash, available) ==> AppliesTo(n, p, hash) && n.clusterName in available
  {
    NamedFrom(p, hash, available);
  }

  predicate DistinctNames(names: seq<string>) {
    forall i, j :: 0 <= i < j < |names| ==> names[i] != names[j]
  }

  lemma {:induction false} NamedFrom(p: SchedulingPreference, hash: string -> nat, available: seq<string>)
    ensures forall n :: n in Named(p, hash, available) ==>
      && n.clusterName in available && n.hash == hash(n.clusterName)
      && PreferenceFor(p, n.clusterName) == Some(ClusterPreferences(n.minReplicas, n.maxReplicas, n.weight))
    ensures DistinctNames(available) ==> Distinct(Named(p, hash, available))
  {
    if available != [] {
      var front := available[..|available| - 1];
      NamedFrom(p, hash, front);
      assert forall c :: c in front ==> c in available;
    }
  }

  lemma OrderIsDistinct(p: SchedulingPreference, hash: string -> nat, available: seq<string>,
                        order: seq<NamedPreferences>)
    requires DistinctNames(available) && SortOf(NotAfter, Named(p, hash, available), order)
    ensures Distinct(order)
    ensures forall n :: n in order <==> n in Named(p, hash, available)
  {
    var named := Named(p, hash, available);
    NamedFrom(p, hash, available);
    SameMembers(order, named);
    DistinctPreserved(named, order);
    forall i, j | 0 <= i < j < |order| ensures order[i].clusterName != order[j].clusterName {
      assert order[i] in named && order[j] in named;
    }
  }

  lemma NotAfterIsTotal()
    ensures TotalPreorder(NotAfter)
  {
    forall a, b, c ensures Chains(NotAfter, a, b, c) {
    }
  }

  /** `order` is a way to sort the preferences of the available clusters. */
  ghost predicate IsOrder(order: seq<NamedPreferences>, p: SchedulingPreference, hash: string -> nat,
                          available: seq<string>)
  {
    SortOf(NotAfter, Named(p, hash, available), order) && Distinct(order)
  }

  /** Plan and overflow come from the final ledger of a call that works through `order`. */
  ghost predicate PlannedBy(order: seq<NamedPreferences>, p: SchedulingPreference, hash: string -> nat,
                            available: seq<string>,
                            current: map<string, int>, capacity: map<string, int>,
                            plan: map<string, int>, overflow: map<string, int>)
  {
    && IsOrder(order, p, hash, available)
    && var l := Final(order, p, Unlisted(p, available), current, capacity);
       plan == l.plan && overflow == OverflowOf(p, l)
  }

  /** Distributes the replicas. */
  method Plan(p: SchedulingPreference, hash: string -> nat, available: seq<string>,
              current: map<string, int>, capacity: map<string, int>)
    returns (plan: map<string, int>, overflow: map<string, int>)
    requires DistinctNames(available)
    ensures exists order :: PlannedBy(order, p, hash, available, current, capacity, plan, overflow)
  {
    var preferences;
    preferences, plan := CollectPreferences(p, hash, available);
    NotAfterIsTotal();
    preferences := SortBy(NotAfter, preferences);
    ghost var order := preferences;
    OrderIsDistinct(p, hash, available, order);

    var remaining;
    plan, remaining := AssignMinimums(preferences, capacity, plan, p.totalReplicas);
    var preallocated: map<string, int> := map[];
    if !p.rebalance {
      plan, preallocated, remaining := PreallocateRunning(preferences, current, capacity, plan, remaining);
    }
    ghost var l := Ledger(plan, map[], preallocated, remaining);
    assert l == AfterPreallocation(order, p, Unlisted(p, available), current, capacity);
    plan, overflow, remaining := Distribute(preferences, capacity, plan, preallocated, remaining);
    if !p.rebalance {
      overflow := TrimOverflow(overflow, remaining);
    }
    assert PlannedBy(order, p, hash, available, current, capacity, plan, overflow);
  }

  method CollectPreferences(p: SchedulingPreference, hash: string -> nat, available: seq<string>)
    returns (preferences: seq<NamedPreferences>, plan: map<string, int>)
    ensures preferences == Named(p, hash, available)
    ensures plan == Unlisted(p, available)
    ensures forall n :: n in preferences ==> AppliesTo(n, p, hash) && n.clusterName in available
    ensures forall c :: c in plan <==> c in available && c !in p.clusters && "*" !in p.clusters
    ensures forall c :: c in plan ==> plan[c] == 0
  {
    NamedApply(p, hash, available);
    preferences, plan := [], map[];
    for i := 0 to |available|
      invariant preferences == Named(p, hash, available[..i])
      invariant plan == Unlisted(p, available[..i])
    {
      var cluster := available[i];
      assert available[..i + 1][..i] == available[..i];
      if cluster in p.clusters {
        var c := p.clusters[cluster];
        preferences := preferences + [NamedPreferences(cluster, hash(cluster), c.minReplicas, c.maxReplicas, c.weight)];
      } else if "*" in p.clusters {
        var c := p.clusters["*"];
        preferences := preferences + [NamedPreferences(cluster, hash(cluster), c.minReplicas, c.maxReplicas, c.weight)];
      } else {
        plan := plan[cluster := 0];
      }
    }
    assert available[..|available|] == available;
  }

  /** Gives each cluster the minimum it asks for, as far as replicas and its capacity reach. */
  method AssignMinimums(preferences: seq<NamedPreferences>, capacity: map<string, int>, plan0: map<string, int>,
                        total: int)
    returns (plan: map<string, int>, remaining: int)
    ensures Ledger(plan, map[], map[], remaining) ==
            Minimums(preferences, |preferences|, capacity, Ledger(plan0, map[], map[], total))
    ensures forall n :: n in preferences ==> n.clusterName in plan
  {
    plan, remaining := plan0, total;
    for i := 0 to |preferences|
      invariant Ledger(plan, map[], map[], remaining) ==
                Minimums(preferences, i, capacity, Ledger(plan0, map[], map[], total))
      invariant forall j :: 0 <= j < i ==> preferences[j].clusterName in plan
    {
      var share := Min(preferences[i].minReplicas, remaining);
      if preferences[i].clusterName in capacity {
        share := Min(share, capacity[preferences[i].clusterName]);
      }
      remaining := remaining - share;
      plan := plan[preferences[i].clusterName := share];
    }
  }

  /** Without rebalancing, lets clusters keep the replicas they already run. */
  method PreallocateRunning(preferences: seq<NamedPreferences>, current: map<string, int>, capacity: map<string, int>,
                            plan0: map<string, int>, remaining0: int)
    returns (plan: map<string, int>, preallocated: map<string, int>, remaining: int)
    ensures Ledger(plan, map[], preallocated, remaining) ==
            Preallocations(preferences, |preferences|, current, capacity, Ledger(plan0, map[], map[], remaining0))
  {
    plan, preallocated, remaining := plan0, map[], remaining0;
    ghost var l0 := Ledger(plan0, map[], map[], remaining0);
    ghost var l := l0;
    for i := 0 to |preferences|
      invariant l == Ledger(plan, map[], preallocated, remaining)
      invariant l == Preallocations(preferences, i, current, capacity, l0)
    {
      var pref := preferences[i];
      var planned := Get(plan, pref.clusterName);
      l := Preallocate(l, pref, current, capacity);
      if pref.clusterName in current && current[pref.clusterName] > planned {
        var target := current[pref.clusterName];
        if pref.maxReplicas.Some? {
          target := Min(pref.maxReplicas.value, target);
        }
        if pref.clusterName in capacity {
          target := Min(capacity[pref.clusterName], target);
        }
        assert target == RunningTarget(pref, capacity, current[pref.clusterName]);
        var extra := Min(target - planned, remaining);
        if extra < 0 {
          extra := 0;
        }
        remaining := remaining - extra;
        preallocated := preallocated[pref.clusterName := extra];
        plan := plan[pref.clusterName := extra + planned];
      }
    }
  }

  /** The main loop: spreads what remains by weight until nothing remains or nothing changes. */
  method Distribute(preferences0: seq<NamedPreferences>, capacity: map<string, int>, plan0: map<string, int>,
                    preallocated0: map<string, int>, remaining0: int)
    returns (plan: map<string, int>, overflow: map<string, int>, remaining: int)
    requires Distinct(preferences0) && NothingOwed(Ledger(plan0, map[], preallocated0, remaining0))
    ensures var l := Iterate(preferences0, capacity, Ledger(plan0, map[], preallocated0, remaining0));
            plan == l.plan && overflow == l.overflow && remaining == l.remaining
  {
    var preferences, preallocated := preferences0, preallocated0;
    plan, overflow, remaining := plan0, map[], remaining0;
    ghost var l := Ledger(plan, overflow, preallocated, remaining);
    ghost var done := Iterate(preferences0, capacity, l);
    var modified := true;
    while modified && remaining > 0
      invariant l == Ledger(plan, overflow, preallocated, remaining)
      invariant Distinct(preferences) && NothingOwed(l)
      invariant if modified then Iterate(preferences, capacity, l) == done else l == done
      decreases modified, |preferences|, Measure(preferences, l)
    {
      PassesEnd(preferences, capacity, l);
      preferences, plan, overflow, preallocated, remaining, modified :=
        DistributeOnce(preferences, capacity, plan, overflow, preallocated, remaining);
      l := Ledger(plan, overflow, preallocated, remaining);
    }
  }

  ghost predicate Tracks(ps: PassState, plan: map<string, int>, overflow: map<string, int>,
                         preallocated: map<string, int>, remaining: int, modified: bool,
                         newPreferences: seq<NamedPreferences>)
  {
    && ps.ledger.plan == plan && ps.ledger.overflow == overflow && ps.ledger.preallocated == preallocated
    && ps.ledger.remaining == remaining && ps.modified == modified && ps.next == newPreferences
  }

  /** One round of the main loop. */
  method DistributeOnce(preferences: seq<NamedPreferences>, capacity: map<string, int>, plan0: map<string, int>,
                        overflow0: map<string, int>, preallocated0: map<string, int>, remaining0: int)
    returns (newPreferences: seq<NamedPreferences>, plan: map<string, int>, overflow: map<string, int>,
             preallocated: map<string, int>, remaining: int, modified: bool)
    ensures PassState(Ledger(plan, overflow, preallocated, remaining), modified, newPreferences) ==
            RunPass(preferences, capacity, Ledger(plan0, overflow0, preallocated0, remaining0))
  {
    plan, overflow, preallocated, remaining := plan0, overflow0, preallocated0, remaining0;
    modified := false;
    var weightSum := 0;
    for i := 0 to |preferences|
      invariant weightSum == WeightSum(preferences[..i])
    {
      weightSum := weightSum + preferences[i].weight;
      assert preferences[..i + 1][..i] == preferences[..i];
    }
    assert preferences[..|preferences|] == preferences;
    newPreferences := [];
    var distribute := remaining;
    if weightSum <= 0 {
      return;
    }
    hide Share, SharedOut, WeightSum;
    ghost var l := Ledger(plan, overflow, preallocated, remaining);
    ghost var quota := Quota(distribute, weightSum);
    ghost var ps := PassState(l, false, []);
    for i := 0 to |preferences|
      invariant ps == Pass(preferences, i, quota, capacity, l)
      invariant Tracks(ps, plan, overflow, preallocated, remaining, modified, newPreferences)
    {
      var pref := preferences[i];
      var start := Get(plan, pref.clusterName);
      var prealloc := Get(preallocated, pref.clusterName);
      var share := GoDiv(distribute * pref.weight + weightSum - 1, weightSum);
      assert share == quota(pref);
      var o := GiveShare(pref, start, prealloc, remaining, share, capacity);
      ps := Apply(ps, pref, o);
      preallocated := preallocated[pref.clusterName := o.preallocated];
      if o.overflow.Some? {
        overflow := overflow[pref.clusterName := o.overflow.value];
      }
      if !o.full {
        newPreferences := newPreferences + [pref];
      }
      remaining := remaining - (o.total - start);
      plan := plan[pref.clusterName := o.total];
      if o.modified {
        modified := true;
      }
    }
  }

  /** What giving a share comes to: preallocated replicas are paid off first; a cluster that does not fill up
      takes its share or all that is left; one that does ends exactly at its maximum or capacity; overflow
      is what its maximum would still have allowed. */
  ghost predicate SharedOut(pref: NamedPreferences, start: int, prealloc: int, remaining: int, share: int,
                            capacity: map<string, int>, o: Outcome)
  {
    var paid := prealloc - o.preallocated;
    var wanted := start + Min(share, remaining) - paid;
    var c := pref.clusterName;
    && paid == Min(prealloc, Min(share, remaining))
    && (o.full <==>
        || (pref.maxReplicas.Some? && wanted > pref.maxReplicas.value)
        || (c in capacity && LimitTo(pref.maxReplicas, wanted) > capacity[c]))
    && (!o.full ==> (o.total - start) + paid == Min(share, remaining) && o.overflow.None?)
    && (o.full ==>
          || (pref.maxReplicas.Some? && o.total == pref.maxReplicas.value && o.overflow.None?)
          || (c in capacity && o.total == capacity[c] && o.overflow.Some?))
    && (o.overflow.Some? ==>
          o.overflow.value > 0 && o.total + o.overflow.value == LimitTo(pref.maxReplicas, wanted))
    && (o.modified <==> paid > 0 || o.total > start)
  }

  /** What one cluster takes of its share: preallocated replicas are paid for first. */
  method GiveShare(pref: NamedPreferences, start: int, prealloc: int, remaining: int, share: int,
                   capacity: map<string, int>)
    returns (o: Outcome)
    ensures o == Share(pref, start, prealloc, remaining, share, capacity)
    ensures SharedOut(pref, start, prealloc, remaining, share, capacity, o)
  {
    var extra := Min(share, remaining);
    var used := Min(extra, prealloc);
    var preallocated := prealloc - used;
    extra := extra - used;
    var modified := false;
    if used > 0 {
      modified := true;
    }
    var total := start + extra;
    var full := false;
    if pref.maxReplicas.Some? && total > pref.maxReplicas.value {
      total := pref.maxReplicas.value;
      full := true;
    }
    var overflow := None;
    if pref.clusterName in capacity && total > capacity[pref.clusterName] {
      overflow := Some(total - capacity[pref.clusterName]);
      total := capacity[pref.clusterName];
      full := true;
    }
    if total > start {
      modified := true;
    }
    o := Outcome(total, preallocated, overflow, full, modified);
  }

  method TrimOverflow(overflow: map<string, int>, remaining: int) returns (trimmed: map<string, int>)
    ensures trimmed == Trim(overflow, remaining)
  {
    trimmed := map[];
    var keys := overflow.Keys;
    while keys != {}
      invariant keys <= overflow.Keys
      invariant trimmed == map c | c in Trim(overflow, remaining) && c !in keys :: Trim(overflow, remaining)[c]
      decreases keys
    {
      var key :| key in keys;
      var value := Min(overflow[key], remaining);
      if value > 0 {
        trimmed := trimmed[key := value];
      }
      keys := keys - {key};
    }
  }
}
