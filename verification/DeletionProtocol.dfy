/**
  The life of a federated object and of the member objects managed for it: the sync controller puts
  its finalizer on the federated object before it creates anything, and takes it off only after it
  has found, without its caches, that no member cluster holds a managed object any more.

  One federated name is followed through any number of deletions and re-creations. The API server,
  the users and the caches take nondeterministic steps. What the controller's cache says about member
  objects is left completely open; its cache of the federated object lags behind but never goes back.
 */
module DeletionProtocol {

  /** A version of the federated object; its resource version is its place in the history. */
  datatype Host = Gone | Present(finalizer: bool, deleting: bool, orphaning: bool)

  datatype Target = Absent | Exists(managed: bool, terminating: bool)

  datatype Member = Member(target: Target, hostNamespace: bool)

  datatype Op = Create | Update | Delete | RemoveManagedLabel

  /** Where the controller is in reconciling the object; `rv` is the version it works from. */
  datatype Phase =
    | Idle
    | Fetched(rv: nat)
    | Syncing                                // dispatching to member clusters and waiting
    | Deleting(rv: nat, remaining: bool)     // deleting what the cache shows and waiting
    | Orphaning(rv: nat)                     // about to remove the finalizer because orphaning is requested
    | Unlabeling                             // removing labels from possible orphans and waiting
    | Verifying(rv: nat, verified: set<nat>) // asking the member clusters themselves

  datatype State = State(
    history: seq<Host>,
    cache: nat,                  // the version of the federated object the cache has reached
    members: seq<Member>,
    phase: Phase,
    pending: map<nat, Op>,       // operations dispatched and not yet reported, by cluster
    stragglers: multiset<(nat, Op)>,  // operations that outlived the `Wait` that should have seen their report
    orphaned: bool)              // the finalizer was once removed because orphaning was requested

  function Current(s: State): Host
    requires |s.history| > 0
  {
    s.history[|s.history| - 1]
  }

  predicate Held(h: Host) {
    h.Present? && h.finalizer
  }

  /** The member object counts as managed: it carries the label, and is not a namespace of the host
      cluster that is on its way out together with the federated object itself. */
  predicate Owned(m: Member) {
    m.target.Exists? && m.target.managed && !(m.hostNamespace && m.target.terminating)
  }

  predicate Writes(op: Op) {
    op == Create || op == Update
  }

  /** What the direct check of a member cluster accepts. */
  predicate CheckPasses(m: Member) {
    match m.target
    case Absent => true
    case Exists(managed, terminating) => if terminating then m.hostNamespace else !managed
  }

  // -------------------------------------------------------------------------- steps

  datatype Action =
    | UserStep(host: Host) | MemberStep(i: nat, target: Target) | CacheAdvances(rv: nat)
    | Fetch | EnsureFinalizer | GiveUp
    | Dispatch(i: nat, op: Op) | Effect(i: nat, target: Target) | Report(i: nat)
    | LateEffect(i: nat, op: Op, target: Target) | LateReport(i: nat, op: Op)
    | WaitReturns | WaitTimesOut
    | FoundInCache | Verify(i: nat) | RemoveFinalizer(host: Host)

  ghost predicate Init(s: State) {
    && s.history == [Gone] && s.cache == 0 && s.phase == Idle
    && s.pending == map[] && s.stragglers == multiset{} && !s.orphaned
    && forall i :: 0 <= i < |s.members| ==> !Owned(s.members[i])
  }

  /** What users and other controllers do to the federated object: everything but remove the sync finalizer. */
  ghost predicate UserMay(before: Host, after: Host) {
    match before
    case Gone => after.Present? && !after.deleting
    case Present(finalizer, deleting, _) =>
      if after.Present? then after.finalizer == finalizer && (deleting ==> after.deleting)
      else !finalizer
  }

  /** What others do to a member object: everything but add the managed label or revive a terminating object. */
  ghost predicate OthersMay(before: Target, after: Target) {
    match after
    case Absent => true
    case Exists(managed, terminating) =>
      && (managed ==> before.Exists? && before.managed)
      && (before.Exists? && before.terminating ==> terminating || !managed)
  }

  /** What an operation may do to the member object it was dispatched for. */
  ghost predicate OpMay(op: Op, before: Target, after: Target) {
    || after == before
    || match op
       case Create => after == Exists(true, before.Exists? && before.terminating)
       case Update => before.Exists? && after == Exists(true, before.terminating)
       case Delete => before.Exists? && (after == Absent || after == Exists(before.managed, true))
       case RemoveManagedLabel => before.Exists? && after == Exists(false, before.terminating)
  }

  ghost predicate MayDispatch(phase: Phase, op: Op) {
    match phase
    case Syncing => true
    case Deleting(_, _) => !Writes(op)
    case Unlabeling => op == RemoveManagedLabel
    case _ => false
  }

  function WithTarget(s: State, i: nat, target: Target): State
    requires i < |s.members|
  {
    s.(members := s.members[i := s.members[i].(target := target)])
  }

  function Push(s: State, host: Host): State {
    s.(history := s.history + [host])
  }

  ghost predicate Step(s: State, a: Action, t: State) {
    && |s.history| > 0
    && match a
       case UserStep(host) => UserMay(Current(s), host) && t == Push(s, host)
       case MemberStep(i, target) =>
         i < |s.members| && OthersMay(s.members[i].target, target) && t == WithTarget(s, i, target)
       case CacheAdvances(rv) => s.cache <= rv < |s.history| && t == s.(cache := rv)
       case Fetch =>
         && s.phase == Idle && s.cache < |s.history|
         && t == s.(phase := if s.history[s.cache] == Gone then Unlabeling else Fetched(s.cache))
       case EnsureFinalizer => EnsureFinalizerStep(s, t)
       case GiveUp => s.phase != Idle && s.pending == map[] && t == s.(phase := Idle)
       case Dispatch(i, op) =>
         && i < |s.members| && i !in s.pending && MayDispatch(s.phase, op)
         && t == s.(pending := s.pending[i := op],
                    phase := if s.phase.Deleting? then s.phase.(remaining := true) else s.phase)
       case Effect(i, target) =>
         && i < |s.members| && i in s.pending && OpMay(s.pending[i], s.members[i].target, target)
         && t == WithTarget(s, i, target)
       case Report(i) => i in s.pending && t == s.(pending := s.pending - {i})
       case LateEffect(i, op, target) =>
         && i < |s.members| && (i, op) in s.stragglers && OpMay(op, s.members[i].target, target)
         && t == WithTarget(s, i, target)
       case LateReport(i, op) =>
         (i, op) in s.stragglers && t == s.(stragglers := s.stragglers - multiset{(i, op)})
       case WaitReturns =>
         && s.pending == map[]
         && (match s.phase {
               case Deleting(rv, remaining) => t == s.(phase := if remaining then Idle else Verifying(rv, {}))
               case Syncing => t == s.(phase := Idle)
               case Unlabeling => t == s.(phase := Idle)
               case _ => false
             })
       case WaitTimesOut =>
         && (s.phase.Syncing? || s.phase.Deleting? || s.phase.Unlabeling?)
         && t == s.(phase := Idle, pending := map[], stragglers := s.stragglers + multiset(Unreported(s.pending)))
       case FoundInCache => s.phase.Deleting? && t == s.(phase := s.phase.(remaining := true))
       case Verify(i) =>
         && s.phase.Verifying? && i < |s.members| && CheckPasses(s.members[i])
         && t == s.(phase := s.phase.(verified := s.phase.verified + {i}))
       case RemoveFinalizer(host) => RemoveFinalizerStep(s, host, t)
  }

  function Unreported(pending: map<nat, Op>): set<(nat, Op)> {
    set i | i in pending :: (i, pending[i])
  }

  /** Working from a version that is not being deleted, make sure the finalizer is there; the write
      only succeeds on the current version. A version being deleted leads to the deletion branch. */
  ghost predicate EnsureFinalizerStep(s: State, t: State)
    requires |s.history| > 0
  {
    && s.phase.Fetched? && s.phase.rv < |s.history| && s.history[s.phase.rv].Present?
    && var rv := s.phase.rv;
       var snapshot := s.history[rv];
       if snapshot.deleting then
         t == s.(phase := if !snapshot.finalizer then Idle
                          else if snapshot.orphaning then Orphaning(rv)
                          else Deleting(rv, false))
       else if snapshot.finalizer then t == s.(phase := Syncing)
       else if rv == |s.history| - 1 then t == Push(s, snapshot.(finalizer := true)).(phase := Syncing)
       else t == s.(phase := Idle)
  }

  /** The write that removes the finalizer: after every member cluster has been verified, or at once
      when orphaning is requested. It only succeeds on the current version. */
  ghost predicate RemoveFinalizerStep(s: State, host: Host, t: State)
    requires |s.history| > 0
  {
    && (s.phase.Verifying? || s.phase.Orphaning?) && s.phase.rv < |s.history| && s.history[s.phase.rv].Present?
    && var rv := s.phase.rv;
       var snapshot := s.history[rv];
       var orphaning := s.phase.Orphaning?;
       && (s.phase.Verifying? ==> forall i :: 0 <= i < |s.members| ==> i in s.phase.verified)
       && (host == Gone || host == snapshot.(finalizer := false))
       && if rv == |s.history| - 1
          then t == Push(s, host).(phase := if orphaning then Unlabeling else Idle, orphaned := s.orphaned || orphaning)
          else t == s.(phase := Idle)
  }

  ghost predicate IsRun(run: seq<State>, actions: seq<Action>) {
    && |run| == |actions| + 1 && Init(run[0])
    && forall i :: 0 <= i < |actions| ==> Step(run[i], actions[i], run[i + 1])
  }

  /** A managed member object has an owner that still carries the finalizer. */
  ghost predicate Safe(s: State) {
    s.orphaned || (|s.history| > 0 && forall i :: 0 <= i < |s.members| && Owned(s.members[i]) ==> Held(Current(s)))
  }

  // -------------------------------------------------------------------------- the invariant

  /** From version `rv` on the finalizer has never been missing. */
  ghost predicate HeldSince(s: State, rv: nat) {
    forall j :: rv <= j < |s.history| ==> Held(s.history[j])
  }

  predicate Live(h: Host) {
    Held(h) && !h.deleting
  }

  predicate Doomed(h: Host) {
    Held(h) && h.deleting
  }

  /** Everything about the federated object: the cache may rely on a live version it shows. */
  ghost predicate HostInv(s: State) {
    && s.cache < |s.history|
    && (forall r :: s.cache <= r < |s.history| && Live(s.history[r]) ==> HeldSince(s, r))
    && match s.phase
       case Idle => true
       case Unlabeling => true
       case Fetched(rv) => rv <= s.cache && s.history[rv].Present? && (Live(s.history[rv]) ==> HeldSince(s, rv))
       case Syncing => Held(Current(s))
       case Deleting(rv, _) => rv <= s.cache && Doomed(s.history[rv]) && !s.history[rv].orphaning
       case Orphaning(rv) => rv <= s.cache && Doomed(s.history[rv]) && s.history[rv].orphaning
       case Verifying(rv, _) => rv <= s.cache && Doomed(s.history[rv]) && !s.history[rv].orphaning
  }

  /** Operations that could make an object managed are dispatched and awaited only while syncing, deletes
      only while syncing or deleting, and after orphaning only labels are removed. */
  ghost predicate OpsInv(s: State) {
    && (forall i :: i in s.pending && Writes(s.pending[i]) ==> s.phase.Syncing?)
    && (forall i :: i in s.pending && s.pending[i] == Delete ==> s.phase.Syncing? || s.phase.Deleting?)
    && (s.phase.Unlabeling? ==> forall i :: i in s.pending ==> s.pending[i] == RemoveManagedLabel)
    && (s.phase.Verifying? || s.phase.Orphaning? || s.phase.Idle? || s.phase.Fetched? ==> s.pending == map[])
  }

  ghost predicate Inv(s: State) {
    HostInv(s) && OpsInv(s)
  }

  lemma PushKeepsHost(s: State, host: Host)
    requires HostInv(s) && (Held(Current(s)) ==> Held(host))
    ensures HostInv(Push(s, host))
  {
    var t := Push(s, host);
    forall r | t.cache <= r < |t.history| && Live(t.history[r]) ensures HeldSince(t, r) {
      if r < |s.history| {
        assert HeldSince(s, r);
        assert Held(Current(s));
      }
    }
    if t.phase.Fetched? && Live(t.history[t.phase.rv]) {
      assert HeldSince(s, t.phase.rv) && Held(Current(s));
    }
  }

  lemma EnsureFinalizerKeeps(s: State, t: State)
    requires Inv(s) && Step(s, EnsureFinalizer, t)
    ensures Inv(t)
  {
    var rv := s.phase.rv;
    var snapshot := s.history[rv];
    if !snapshot.deleting && !snapshot.finalizer && rv == |s.history| - 1 {
      PushKeepsHost(s, snapshot.(finalizer := true));
    } else if Live(snapshot) {
      assert HeldSince(s, rv);
      assert Held(Current(s));
    }
  }

  lemma RemoveFinalizerKeeps(s: State, host: Host, t: State)
    requires Inv(s) && Step(s, RemoveFinalizer(host), t)
    ensures Inv(t)
  {
    var rv := s.phase.rv;
    if rv == |s.history| - 1 {
      assert s.cache == rv;
      assert !Live(s.history[rv]);
    }
  }

  lemma CacheKeeps(s: State, rv: nat, t: State)
    requires Inv(s) && Step(s, CacheAdvances(rv), t)
    ensures Inv(t)
  {
    hide Live;
    assert forall r :: t.cache <= r < |t.history| && Live(t.history[r]) ==> HeldSince(s, r);
    assert forall r :: HeldSince(s, r) ==> HeldSince(t, r);
  }

  lemma FetchKeeps(s: State, t: State)
    requires Inv(s) && Step(s, Fetch, t)
    ensures Inv(t)
  {
    hide Live;
    assert forall r :: HeldSince(s, r) ==> HeldSince(t, r);
  }

  // Steps that change neither the federated object nor the cache, and of the controller at most what it
  // waits for.
  ghost predicate KeepsHost(s: State, t: State) {
    && t.history == s.history && t.cache == s.cache
    && (|| t.phase == s.phase || t.phase == Idle
        || (s.phase.Deleting? && t.phase == s.phase.(remaining := true))
        || (s.phase.Deleting? && t.phase == Verifying(s.phase.rv, {}))
        || (s.phase.Verifying? && t.phase.Verifying? && t.phase.rv == s.phase.rv))
  }

  lemma HostKept(s: State, t: State)
    requires HostInv(s) && KeepsHost(s, t)
    ensures HostInv(t)
  {
    hide Live;
    assert forall r :: HeldSince(s, r) <==> HeldSince(t, r);
  }

  predicate OnMembers(a: Action) {
    a.MemberStep? || a.Effect? || a.LateEffect? || a.LateReport?
  }

  lemma MemberStepsKeep(s: State, a: Action, t: State)
    requires Inv(s) && Step(s, a, t) && OnMembers(a)
    ensures KeepsHost(s, t) && OpsInv(t)
  {
    hide HostInv;
  }

  predicate OnOperations(a: Action) {
    a.Dispatch? || a.Report?
  }

  lemma OperationStepsKeep(s: State, a: Action, t: State)
    requires Inv(s) && Step(s, a, t) && OnOperations(a)
    ensures KeepsHost(s, t) && OpsInv(t)
  {
    hide HostInv;
  }

  lemma PhaseStepsKeep(s: State, a: Action, t: State)
    requires Inv(s) && Step(s, a, t)
    requires a.GiveUp? || a.WaitReturns? || a.WaitTimesOut? || a.FoundInCache? || a.Verify?
    ensures KeepsHost(s, t) && OpsInv(t)
  {
    hide HostInv;
  }

  lemma StepKeeps(s: State, a: Action, t: State)
    requires Inv(s) && Step(s, a, t)
    ensures Inv(t)
  {
    hide Step, HostInv, OpsInv, KeepsHost;
    match a {
      case UserStep(host) => UserKeeps(s, host, t);
      case EnsureFinalizer => EnsureFinalizerKeeps(s, t);
      case RemoveFinalizer(host) => RemoveFinalizerKeeps(s, host, t);
      case CacheAdvances(rv) => CacheKeeps(s, rv, t);
      case Fetch => FetchKeeps(s, t);
      case _ =>
        if OnMembers(a) {
          MemberStepsKeep(s, a, t);
        } else if OnOperations(a) {
          OperationStepsKeep(s, a, t);
        } else {
          PhaseStepsKeep(s, a, t);
        }
        HostKept(s, t);
    }
  }

  lemma UserKeeps(s: State, host: Host, t: State)
    requires Inv(s) && Step(s, UserStep(host), t)
    ensures Inv(t)
  {
    PushKeepsHost(s, host);
  }

  lemma {:induction false} RunKeeps(run: seq<State>, actions: seq<Action>, k: nat)
    requires IsRun(run, actions) && k < |run|
    ensures Inv(run[k])
  {
    if k > 0 {
      RunKeeps(run, actions, k - 1);
      StepKeeps(run[k - 1], actions[k - 1], run[k]);
    }
  }

  /** The finalizer comes first: whenever a create or update is under way, it is there. */
  lemma FinalizerComesFirst(run: seq<State>, actions: seq<Action>, k: nat, i: nat)
    requires IsRun(run, actions) && k < |run| && i in run[k].pending && Writes(run[k].pending[i])
    ensures |run[k].history| > 0 && Held(Current(run[k]))
  {
    RunKeeps(run, actions, k);
  }

  // -------------------------------------------------------------------------- orphaning is honoured

  /** The controller deletes managed objects on account of their owner, and verifies that they are gone, only
      for a version that is being deleted and does not ask to orphan them. */
  lemma OrphansAreNotDeleted(run: seq<State>, actions: seq<Action>, k: nat)
    requires IsRun(run, actions) && k < |run|
    ensures var s := run[k];
            && (s.phase.Deleting? || s.phase.Verifying? ==>
                  && s.phase.rv < |s.history| && s.history[s.phase.rv].Present?
                  && s.history[s.phase.rv].deleting && !s.history[s.phase.rv].orphaning)
            && (s.phase.Orphaning? || s.phase.Unlabeling? ==>
                  forall i :: i in s.pending ==> s.pending[i] == RemoveManagedLabel)
            && (forall i :: i in s.pending && s.pending[i] == Delete ==> s.phase.Syncing? || s.phase.Deleting?)
  {
    RunKeeps(run, actions, k);
  }

  /** From `s` the controller gets to `t` by such steps alone. */
  ghost predicate GetsTo(s: State, allowed: set<string>, t: State) {
    exists path, actions :: PathTo(s, path, actions, t) && OfKinds(actions, allowed)
  }

  predicate OfKinds(actions: seq<Action>, allowed: set<string>) {
    forall k :: 0 <= k < |actions| ==> Kind(actions[k]) in allowed
  }

  ghost predicate PathTo(s: State, path: seq<State>, actions: seq<Action>, t: State) {
    && |path| == |actions| + 1 && path[0] == s && path[|actions|] == t
    && forall k :: 0 <= k < |actions| ==> Step(path[k], actions[k], path[k + 1])
  }

  function Kind(a: Action): string {
    match a
    case Fetch => "fetch"
    case EnsureFinalizer => "ensure finalizer"
    case WaitReturns => "wait"
    case Verify(_) => "verify"
    case RemoveFinalizer(_) => "remove finalizer"
    case _ => "other"
  }

  lemma StaysPut(s: State, allowed: set<string>)
    ensures GetsTo(s, allowed, s)
  {
    assert PathTo(s, [s], [], s) && OfKinds([], allowed);
  }

  lemma GetsOn(s: State, allowed: set<string>, t: State, a: Action, u: State)
    requires GetsTo(s, allowed, t) && Step(t, a, u) && Kind(a) in allowed
    ensures GetsTo(s, allowed, u)
  {
    hide Step;
    var path, actions :| PathTo(s, path, actions, t) && OfKinds(actions, allowed);
    var more, moreActions := path + [u], actions + [a];
    forall k | 0 <= k < |moreActions| ensures Step(more[k], moreActions[k], more[k + 1]) {
      if k < |actions| { assert Step(path[k], actions[k], path[k + 1]); }
    }
    assert PathTo(s, more, moreActions, u) && OfKinds(moreActions, allowed);
  }

  /** The controller is idle, and its cache shows the current version of the federated object. */
  predicate Ready(s: State, h: Host) {
    && s.phase == Idle && s.pending == map[] && |s.history| > 0
    && s.cache == |s.history| - 1 && Current(s) == h
  }

  /** Where orphaning is requested, the finalizer comes off without any check of a member cluster, and labels
      are removed afterwards. */
  lemma OrphaningComesOff(s: State) returns (t: State)
    requires Ready(s, Present(true, true, true))
    ensures GetsTo(s, {"fetch", "ensure finalizer", "remove finalizer"}, t)
    ensures t == Push(s, Gone).(phase := Unlabeling, orphaned := true)
  {
    hide GetsTo;
    var allowed := {"fetch", "ensure finalizer", "remove finalizer"};
    var rv := s.cache;
    StaysPut(s, allowed);
    var s1 := s.(phase := Fetched(rv));
    GetsOn(s, allowed, s, Fetch, s1);
    var s2 := s.(phase := Orphaning(rv));
    GetsOn(s, allowed, s1, EnsureFinalizer, s2);
    t := Push(s, Gone).(phase := Unlabeling, orphaned := true);
    GetsOn(s, allowed, s2, RemoveFinalizer(Gone), t);
  }

  /** Nothing stands in the way of a check: the object is absent, not managed, or part of a host cluster
      namespace that is going away. */
  predicate Removed(m: Member) {
    || m.target == Absent
    || (!m.target.terminating && !m.target.managed)
    || (m.target.terminating && m.hostNamespace)
  }

  /** Otherwise it comes off once no member cluster holds a managed object, by checking each of them. */
  lemma DeletionComesOff(s: State) returns (t: State)
    requires Ready(s, Present(true, true, false)) && forall i :: 0 <= i < |s.members| ==> Removed(s.members[i])
    ensures GetsTo(s, {"fetch", "ensure finalizer", "wait", "verify", "remove finalizer"}, t)
    ensures t == Push(s, Gone)
  {
    hide GetsTo;
    var allowed := {"fetch", "ensure finalizer", "wait", "verify", "remove finalizer"};
    var rv := s.cache;
    StaysPut(s, allowed);
    var s1 := s.(phase := Fetched(rv));
    GetsOn(s, allowed, s, Fetch, s1);
    var s2 := s.(phase := Deleting(rv, false));
    GetsOn(s, allowed, s1, EnsureFinalizer, s2);
    var s3 := s.(phase := Verifying(rv, {}));
    GetsOn(s, allowed, s2, WaitReturns, s3);
    var verified := ChecksAll(s, allowed, rv, |s.members|);
    var s4 := s.(phase := Verifying(rv, verified));
    t := Push(s, Gone);
    GetsOn(s, allowed, s4, RemoveFinalizer(Gone), t);
  }

  lemma {:induction false} ChecksAll(s: State, allowed: set<string>, rv: nat, n: nat) returns (verified: set<nat>)
    requires s.phase == Idle && |s.history| > 0 && n <= |s.members| && "verify" in allowed
    requires forall i :: 0 <= i < |s.members| ==> Removed(s.members[i])
    requires GetsTo(s, allowed, s.(phase := Verifying(rv, {})))
    ensures GetsTo(s, allowed, s.(phase := Verifying(rv, verified))) && forall i: nat :: i < n ==> i in verified
  {
    hide GetsTo;
    if n == 0 {
      verified := {};
    } else {
      var before := ChecksAll(s, allowed, rv, n - 1);
      verified := before + {n - 1};
      var from, to := s.(phase := Verifying(rv, before)), s.(phase := Verifying(rv, verified));
      assert CheckPasses(from.members[n - 1]);
      GetsOn(s, allowed, from, Verify(n - 1), to);
    }
  }

  // -------------------------------------------------------------------------- checks in doubt

  /** A create or update of cluster `i` has outlived its `Wait` and may still land. */
  predicate WriteOutstanding(stragglers: multiset<(nat, Op)>, i: nat) {
    (i, Create) in stragglers || (i, Update) in stragglers
  }

  /** The clusters that have been checked, in the verification under way, while a write to them was still
      outstanding: what the check saw may not last. */
  function NextDoubt(s: State, a: Action, t: State, doubt: set<nat>): set<nat> {
    if !t.phase.Verifying? then {}
    else if a.Verify? && WriteOutstanding(s.stragglers, a.i) then doubt + {a.i}
    else doubt
  }

  function Doubt(run: seq<State>, actions: seq<Action>, k: nat): set<nat>
    requires |run| == |actions| + 1 && k < |run|
  {
    if k == 0 then {} else NextDoubt(run[k - 1], actions[k - 1], run[k], Doubt(run, actions, k - 1))
  }

  /** The step takes the finalizer off after a verification. */
  predicate Removes(s: State, a: Action, t: State) {
    a.RemoveFinalizer? && s.phase.Verifying? && |t.history| > |s.history|
  }

  /** Step `m` takes the finalizer off on the strength of a check in doubt. */
  predicate RemovesInDoubt(run: seq<State>, actions: seq<Action>, m: nat)
    requires |run| == |actions| + 1 && m < |actions|
  {
    Removes(run[m], actions[m], run[m + 1]) && Doubt(run, actions, m) != {}
  }

  ghost predicate MembersInv(s: State, doubt: set<nat>) {
    && Safe(s)
    && (s.orphaned || Held(Current(s)) || forall i :: 0 <= i < |s.members| ==> !WriteOutstanding(s.stragglers, i))
    && (s.phase.Verifying? ==>
          forall i :: 0 <= i < |s.members| && i in s.phase.verified && i !in doubt ==>
            !Owned(s.members[i]) && !WriteOutstanding(s.stragglers, i))
  }

  /** Only creates and updates can turn an object into a managed one. */
  lemma OnlyWritersOwn(a: Action, before: Member, after: Member)
    requires before.hostNamespace == after.hostNamespace && !Owned(before) && Owned(after)
    requires a.MemberStep? ==> OthersMay(before.target, after.target)
    ensures !a.MemberStep?
    ensures forall op :: OpMay(op, before.target, after.target) ==> Writes(op)
  {
  }

  lemma CheckedIsNotOwned(m: Member)
    requires CheckPasses(m)
    ensures !Owned(m)
  {
  }

  lemma MembersKeep(s: State, a: Action, t: State, doubt: set<nat>)
    requires Inv(s) && MembersInv(s, doubt) && Step(s, a, t) && (a.MemberStep? || a.Effect? || a.LateEffect?)
    ensures MembersInv(t, doubt)
  {
    var i := a.i;
    if Owned(t.members[i]) && !Owned(s.members[i]) {
      OnlyWritersOwn(a, s.members[i], t.members[i]);
      assert a.LateEffect? ==> WriteOutstanding(s.stragglers, i);
    }
    forall j | 0 <= j < |t.members| && j != i ensures t.members[j] == s.members[j] {
    }
  }

  lemma TimeoutKeeps(s: State, t: State, doubt: set<nat>)
    requires Inv(s) && MembersInv(s, doubt) && Step(s, WaitTimesOut, t)
    ensures MembersInv(t, {})
  {
    forall i | !s.phase.Syncing? && WriteOutstanding(t.stragglers, i) ensures WriteOutstanding(s.stragglers, i) {
      assert forall x :: x in t.stragglers ==> x in s.stragglers || x in Unreported(s.pending);
    }
  }

  lemma RemovalKeeps(s: State, host: Host, t: State, doubt: set<nat>)
    requires Inv(s) && MembersInv(s, doubt) && Step(s, RemoveFinalizer(host), t)
    requires Removes(s, RemoveFinalizer(host), t) ==> doubt == {}
    ensures MembersInv(t, {})
  {
  }

  lemma ReportKeeps(s: State, i: nat, op: Op, t: State, doubt: set<nat>)
    requires MembersInv(s, doubt) && Step(s, LateReport(i, op), t)
    ensures MembersInv(t, doubt)
  {
    assert forall j :: WriteOutstanding(t.stragglers, j) ==> WriteOutstanding(s.stragglers, j);
  }

  lemma CheckKeeps(s: State, i: nat, t: State, doubt: set<nat>)
    requires MembersInv(s, doubt) && Step(s, Verify(i), t)
    ensures MembersInv(t, NextDoubt(s, Verify(i), t, doubt))
  {
    CheckedIsNotOwned(s.members[i]);
  }

  lemma HostStepKeeps(s: State, a: Action, t: State, doubt: set<nat>)
    requires Inv(s) && MembersInv(s, doubt) && Step(s, a, t) && (a.UserStep? || a.EnsureFinalizer?)
    ensures MembersInv(t, doubt)
  {
  }

  lemma PhaseStepKeeps(s: State, a: Action, t: State, doubt: set<nat>)
    requires Inv(s) && MembersInv(s, doubt) && Step(s, a, t)
    requires a.CacheAdvances? || a.Fetch? || a.GiveUp? || a.Dispatch? || a.Report? || a.WaitReturns? || a.FoundInCache?
    ensures MembersInv(t, doubt)
  {
  }

  lemma FewerInDoubt(s: State, doubt: set<nat>)
    requires MembersInv(s, doubt) && !s.phase.Verifying?
    ensures MembersInv(s, {})
  {
  }

  lemma MembersStepKeeps(s: State, a: Action, t: State, doubt: set<nat>)
    requires Inv(s) && MembersInv(s, doubt) && Step(s, a, t) && (Removes(s, a, t) ==> doubt == {})
    ensures MembersInv(t, NextDoubt(s, a, t, doubt))
  {
    hide Inv, MembersInv, Step;
    match a {
      case MemberStep(_, _) => MembersKeep(s, a, t, doubt);
      case Effect(_, _) => MembersKeep(s, a, t, doubt);
      case LateEffect(_, _, _) => MembersKeep(s, a, t, doubt);
      case LateReport(i, op) => ReportKeeps(s, i, op, t, doubt);
      case Verify(i) => CheckKeeps(s, i, t, doubt);
      case WaitTimesOut => TimeoutKeeps(s, t, doubt);
      case RemoveFinalizer(host) => RemovalKeeps(s, host, t, doubt);
      case UserStep(_) => HostStepKeeps(s, a, t, doubt);
      case EnsureFinalizer => HostStepKeeps(s, a, t, doubt);
      case _ => PhaseStepKeeps(s, a, t, doubt);
    }
    if !t.phase.Verifying? {
      match a {
        case WaitTimesOut => NotVerifying(s, a, t);
        case RemoveFinalizer(_) => NotVerifying(s, a, t);
        case Verify(_) => NotVerifying(s, a, t);
        case _ => FewerInDoubt(t, doubt);
      }
    } else {
      NotVerifying(s, a, t);
    }
  }

  /** A verification does not survive a timeout or a removal, and is not ended by a check. */
  lemma NotVerifying(s: State, a: Action, t: State)
    requires Step(s, a, t)
    ensures a.WaitTimesOut? || a.RemoveFinalizer? ==> !t.phase.Verifying?
    ensures a.Verify? ==> t.phase.Verifying?
  {
  }

  lemma {:induction false} RunKeepsMembers(run: seq<State>, actions: seq<Action>, k: nat)
    requires IsRun(run, actions) && k < |run| && forall m :: 0 <= m < k ==> !RemovesInDoubt(run, actions, m)
    ensures MembersInv(run[k], Doubt(run, actions, k))
  {
    hide Inv, MembersInv, Step, NextDoubt;
    if k == 0 {
      NothingManagedYet(run[0]);
    } else {
      RunKeeps(run, actions, k - 1);
      RunKeepsMembers(run, actions, k - 1);
      assert !RemovesInDoubt(run, actions, k - 1);
      MembersStepKeeps(run[k - 1], actions[k - 1], run[k], Doubt(run, actions, k - 1));
    }
  }

  lemma NothingManagedYet(s: State)
    requires Init(s)
    ensures MembersInv(s, {})
  {
  }

  // -------------------------------------------------------------------------- the guarantee

  /** Managed objects never outlive their owner: as long as no finalizer has been taken off on the strength
      of a check in doubt, a managed member object has a federated object that still carries the
      finalizer, in every run without orphaning. */
  lemma ManagedObjectsAreOwned(run: seq<State>, actions: seq<Action>, k: nat)
    requires IsRun(run, actions) && k < |run| && forall m :: 0 <= m < k ==> !RemovesInDoubt(run, actions, m)
    ensures Safe(run[k])
  {
    RunKeepsMembers(run, actions, k);
  }

  /** In particular, if no create or update ever outlives its `Wait`. */
  lemma SafeUnlessLate(run: seq<State>, actions: seq<Action>, k: nat)
    requires IsRun(run, actions) && k < |run|
    requires forall m, i: nat :: 0 <= m < k ==> !WriteOutstanding(run[m].stragglers, i)
    ensures Safe(run[k])
  {
    forall m | 0 <= m < k ensures !RemovesInDoubt(run, actions, m) { NoDoubt(run, actions, m); }
    ManagedObjectsAreOwned(run, actions, k);
  }

  lemma {:induction false} NoDoubt(run: seq<State>, actions: seq<Action>, k: nat)
    requires IsRun(run, actions) && k < |run|
    requires forall m, i: nat :: 0 <= m < k ==> !WriteOutstanding(run[m].stragglers, i)
    ensures Doubt(run, actions, k) == {}
  {
    hide IsRun;
    if k > 0 { NoDoubt(run, actions, k - 1); }
  }

  /** The late operation would leave the member object managed. */
  predicate WouldOwn(op: Op, m: Member) {
    && (op == Create || (op == Update && m.target.Exists?))
    && !(m.hostNamespace && m.target.Exists? && m.target.terminating)
  }

  ghost predicate LandsUnsafely(s: State, a: Action, t: State) {
    a.LateEffect? && Step(s, a, t) && !Safe(t)
  }

  ghost predicate AwaitsLanding(s: State, i: nat, op: Op) {
    i < |s.members| && (i, op) in s.stragglers && WouldOwn(op, s.members[i])
  }

  /** Once the finalizer is off, a single late effect can break the guarantee exactly if a create, or an
      update of an object that exists, is still outstanding. */
  lemma LateEffectIff(s: State)
    requires |s.history| > 0 && Safe(s) && !s.orphaned && !Held(Current(s))
    ensures (exists a, t :: LandsUnsafely(s, a, t)) <==> (exists i: nat, op :: AwaitsLanding(s, i, op))
  {
    if a, t :| LandsUnsafely(s, a, t) {
      assert Owned(t.members[a.i]) && !Owned(s.members[a.i]);
      assert AwaitsLanding(s, a.i, a.op);
    }
    if i: nat, op :| AwaitsLanding(s, i, op) {
      var before := s.members[i].target;
      var target := Exists(true, before.Exists? && before.terminating);
      var t := WithTarget(s, i, target);
      assert OpMay(op, before, target);
      assert Owned(t.members[i]) && Current(t) == Current(s);
      assert LandsUnsafely(s, LateEffect(i, op, target), t);
    }
  }

  /** What happens outside the controller: steps of others on member objects, and operations that outlived
      their `Wait`. */
  predicate Outside(a: Action) {
    a.MemberStep? || a.LateEffect? || a.LateReport?
  }

  /** A path of such steps from `s` to a state in which the guarantee is broken. */
  ghost predicate LeadsAstray(s: State, path: seq<State>, actions: seq<Action>) {
    && |path| == |actions| + 1 && path[0] == s && !Safe(path[|actions|])
    && forall k :: 0 <= k < |actions| ==> Outside(actions[k]) && Step(path[k], actions[k], path[k + 1])
  }

  ghost predicate SomeWriteOutstanding(s: State) {
    exists i: nat :: i < |s.members| && WriteOutstanding(s.stragglers, i)
  }

  /** Nobody owns anything without a finalizer, and nothing on its way can change that. */
  ghost predicate Settled(s: State, t: State) {
    && Safe(t) && !SomeWriteOutstanding(t) && |t.members| == |s.members|
    && t.history == s.history && !t.orphaned
  }

  lemma OutsideKeeps(s: State, a: Action, t: State)
    requires |s.history| > 0 && !Held(Current(s)) && !s.orphaned
    requires Safe(s) && !SomeWriteOutstanding(s) && Outside(a) && Step(s, a, t)
    ensures Settled(s, t)
  {
    forall i: nat | WriteOutstanding(t.stragglers, i) ensures WriteOutstanding(s.stragglers, i) {
    }
    if a.MemberStep? || a.LateEffect? {
      assert !WriteOutstanding(s.stragglers, a.i);
      NotMadeOwned(a, s.members[a.i], t.members[a.i]);
    }
  }

  lemma NotMadeOwned(a: Action, before: Member, after: Member)
    requires before.hostNamespace == after.hostNamespace && !Owned(before)
    requires a.MemberStep? || a.LateEffect?
    requires a.MemberStep? ==> OthersMay(before.target, after.target)
    requires a.LateEffect? ==> OpMay(a.op, before.target, after.target) && !Writes(a.op)
    ensures !Owned(after)
  {
  }

  lemma {:induction false} OutsideStaysSafe(s: State, path: seq<State>, actions: seq<Action>, k: nat)
    requires |s.history| > 0 && !Held(Current(s)) && !s.orphaned && Safe(s) && !SomeWriteOutstanding(s)
    requires |path| == |actions| + 1 && path[0] == s && k <= |actions|
    requires forall m :: 0 <= m < |actions| ==> Outside(actions[m]) && Step(path[m], actions[m], path[m + 1])
    ensures Settled(s, path[k])
  {
    hide Step, Safe, Outside, SomeWriteOutstanding;
    if k > 0 {
      OutsideStaysSafe(s, path, actions, k - 1);
      OutsideKeeps(path[k - 1], actions[k - 1], path[k]);
    }
  }

  /** An outstanding write breaks the guarantee in two steps: others bring the object into a state the write
      applies to, and the write lands. */
  lemma WriteLands(s: State, i: nat) returns (path: seq<State>, actions: seq<Action>)
    requires |s.history| > 0 && !Held(Current(s)) && !s.orphaned
    requires i < |s.members| && WriteOutstanding(s.stragglers, i)
    ensures LeadsAstray(s, path, actions) && |actions| == 2
  {
    var op := if (i, Create) in s.stragglers then Create else Update;
    var present, managed := Exists(false, false), Exists(true, false);
    var middle := WithTarget(s, i, present);
    var last := WithTarget(middle, i, managed);
    path, actions := [s, middle, last], [MemberStep(i, present), LateEffect(i, op, managed)];
    assert OthersMay(s.members[i].target, present) && OpMay(op, present, managed);
    assert Owned(last.members[i]) && Current(last) == Current(s);
  }

  /** Once the finalizer is off, the guarantee can still be broken, by others and late operations alone,
      exactly if a create or update of some member cluster is outstanding. */
  lemma UnsafeReachableIff(s: State)
    requires |s.history| > 0 && Safe(s) && !s.orphaned && !Held(Current(s))
    ensures (exists path, actions :: LeadsAstray(s, path, actions)) <==> SomeWriteOutstanding(s)
  {
    if SomeWriteOutstanding(s) {
      var i: nat :| i < |s.members| && WriteOutstanding(s.stragglers, i);
      var path, actions := WriteLands(s, i);
    } else if path, actions :| LeadsAstray(s, path, actions) {
      OutsideStaysSafe(s, path, actions, |actions|);
    }
  }

  /** So a run that takes the finalizer off with such a write outstanding extends by two steps to a managed
      object without owner. */
  lemma RemovalTooEarly(run: seq<State>, actions: seq<Action>, m: nat, i: nat)
    returns (more: seq<State>, moreActions: seq<Action>)
    requires IsRun(run, actions) && m == |actions| - 1 && Removes(run[m], actions[m], run[m + 1])
    requires !run[m + 1].orphaned && i < |run[m + 1].members| && WriteOutstanding(run[m + 1].stragglers, i)
    ensures IsRun(run + more, actions + moreActions) && |more| == 2 && !Safe(more[1])
  {
    var s := run[m + 1];
    RunKeeps(run, actions, m + 1);
    assert !Held(Current(s)) by { RemovedIsNotHeld(run[m], actions[m], s); }
    var path;
    path, moreActions := WriteLands(s, i);
    more := path[1..];
    Extends(run, actions, path, moreActions);
  }

  lemma RemovedIsNotHeld(s: State, a: Action, t: State)
    requires Step(s, a, t) && Removes(s, a, t)
    ensures !Held(Current(t))
  {
  }

  lemma Extends(run: seq<State>, actions: seq<Action>, path: seq<State>, more: seq<Action>)
    requires IsRun(run, actions) && |path| == |more| + 1 && path[0] == run[|actions|]
    requires forall k :: 0 <= k < |more| ==> Step(path[k], more[k], path[k + 1])
    ensures IsRun(run + path[1..], actions + more)
  {
    hide Step, Init;
    var states, all := run + path[1..], actions + more;
    forall k | 0 <= k < |all| ensures Step(states[k], all[k], states[k + 1]) {
      if k < |actions| {
        assert states[k] == run[k] && states[k + 1] == run[k + 1];
      } else {
        var j := k - |actions|;
        assert states[k] == path[j] && states[k + 1] == path[j + 1];
      }
    }
  }

  // A create that hangs until its `Wait` gives up, and lands after the owner has gone.

  const FRESH := Present(false, false, false)
  const FINALIZED := Present(true, false, false)
  const DOOMED := Present(true, true, false)
  const NOBODY := Member(Absent, false)
  const LEFTOVER := Member(Exists(true, false), false)

  ghost function At(history: seq<Host>, cache: nat, member: Member, phase: Phase,
                    stragglers: multiset<(nat, Op)>): State {
    State(history, cache, [member], phase, map[], stragglers, false)
  }

  ghost function LateState(k: nat): State {
    if k == 0 then At([Gone], 0, NOBODY, Idle, multiset{})
    else if k == 1 then At([Gone, FRESH], 0, NOBODY, Idle, multiset{})
    else if k == 2 then At([Gone, FRESH], 1, NOBODY, Idle, multiset{})
    else if k == 3 then At([Gone, FRESH], 1, NOBODY, Fetched(1), multiset{})
    else if k == 4 then At([Gone, FRESH, FINALIZED], 1, NOBODY, Syncing, multiset{})
    else if k == 5 then At([Gone, FRESH, FINALIZED], 1, NOBODY, Syncing, multiset{}).(pending := map[0 := Create])
    else if k == 6 then At([Gone, FRESH, FINALIZED], 1, NOBODY, Idle, multiset{(0, Create)})
    else if k == 7 then At([Gone, FRESH, FINALIZED, DOOMED], 1, NOBODY, Idle, multiset{(0, Create)})
    else if k == 8 then At([Gone, FRESH, FINALIZED, DOOMED], 3, NOBODY, Idle, multiset{(0, Create)})
    else if k == 9 then At([Gone, FRESH, FINALIZED, DOOMED], 3, NOBODY, Fetched(3), multiset{(0, Create)})
    else if k == 10 then At([Gone, FRESH, FINALIZED, DOOMED], 3, NOBODY, Deleting(3, false), multiset{(0, Create)})
    else if k == 11 then At([Gone, FRESH, FINALIZED, DOOMED], 3, NOBODY, Verifying(3, {}), multiset{(0, Create)})
    else if k == 12 then At([Gone, FRESH, FINALIZED, DOOMED], 3, NOBODY, Verifying(3, {0}), multiset{(0, Create)})
    else if k == 13 then At([Gone, FRESH, FINALIZED, DOOMED, Gone], 3, NOBODY, Idle, multiset{(0, Create)})
    else At([Gone, FRESH, FINALIZED, DOOMED, Gone], 3, LEFTOVER, Idle, multiset{(0, Create)})
  }

  ghost function LateAction(k: nat): Action {
    if k == 0 then UserStep(FRESH)
    else if k == 1 then CacheAdvances(1)
    else if k == 2 || k == 8 then Fetch
    else if k == 3 || k == 9 then EnsureFinalizer
    else if k == 4 then Dispatch(0, Create)
    else if k == 5 then WaitTimesOut
    else if k == 6 then UserStep(DOOMED)
    else if k == 7 then CacheAdvances(3)
    else if k == 10 then WaitReturns
    else if k == 11 then Verify(0)
    else if k == 12 then RemoveFinalizer(Gone)
    else LateEffect(0, Create, Exists(true, false))
  }

  lemma LateStepsBeforeDeletion(k: nat)
    requires k < 7
    ensures Step(LateState(k), LateAction(k), LateState(k + 1))
  {
    if k == 0 { assert [Gone] + [FRESH] == [Gone, FRESH]; }
    if k == 3 { assert [Gone, FRESH] + [FINALIZED] == [Gone, FRESH, FINALIZED]; }
    if k == 5 { LateTimeout(); }
    if k == 6 { assert [Gone, FRESH, FINALIZED] + [DOOMED] == [Gone, FRESH, FINALIZED, DOOMED]; }
  }

  lemma LateTimeout()
    ensures var pending := LateState(5).pending;
            multiset{} + multiset(Unreported(pending)) == multiset{(0, Create)}
  {
    var pending := LateState(5).pending;
    assert 0 in pending && (0, pending[0]) == (0, Create);
    assert Unreported(pending) == {(0 as nat, Create)};
  }

  lemma LateStepsOfDeletion(k: nat)
    requires 7 <= k < 14
    ensures Step(LateState(k), LateAction(k), LateState(k + 1))
  {
    if k == 11 { assert {} + {0 as nat} == {0 as nat}; }
    if k == 12 { assert [Gone, FRESH, FINALIZED, DOOMED] + [Gone] == [Gone, FRESH, FINALIZED, DOOMED, Gone]; }
  }

  lemma LateCreateIsARun() returns (run: seq<State>, actions: seq<Action>)
    ensures IsRun(run, actions) && |run| == 15 && !Safe(run[14])
  {
    run, actions := seq(15, (k: nat) => LateState(k)), seq(14, (k: nat) => LateAction(k));
    forall i | 0 <= i < |actions| ensures Step(run[i], actions[i], run[i + 1]) {
      if i < 7 { LateStepsBeforeDeletion(i); } else { LateStepsOfDeletion(i); }
    }
    assert Owned(run[14].members[0]) && !Held(Current(run[14]));
  }
}
