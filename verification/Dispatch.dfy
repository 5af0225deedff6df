/**
  Dispatching operations to member clusters: the controller starts one goroutine per cluster, a
  create that finds an existing object starts a second one to update it, every goroutine reports
  on an unbuffered channel, and `Wait` receives reports until it has as many as were counted.

  The model interleaves single steps of the controller, of the goroutines and of `Wait`. The state
  is split by cluster: a `Slot` holds what the controller does for one cluster, its goroutines and
  its entries in the status and version maps.
 */
module Dispatch {
  import opened Wrappers

  datatype PropagationStatus =
    | ClusterPropagationOK | WaitingForRemoval
    | ClusterNotReady | CachedRetrievalFailed | ComputeResourceFailed | ApplyOverridesFailed
    | CreationFailed | UpdateFailed | DeletionFailed | LabelRemovalFailed | RetrievalFailed | AlreadyExists
    | FieldRetentionFailed | VersionRetrievalFailed | ClientRetrievalFailed | ManagedLabelFalse
    | CreationTimedOut | UpdateTimedOut | DeletionTimedOut | LabelRemovalTimedOut

  datatype Operation = Create | Update | Delete | RemoveManagedLabel

  /** The status recorded before an operation is started. */
  function TimedOut(op: Operation): PropagationStatus {
    match op
    case Create => CreationTimedOut
    case Update => UpdateTimedOut
    case Delete => DeletionTimedOut
    case RemoveManagedLabel => LabelRemovalTimedOut
  }

  /** The codes with which an operation can fail. */
  function FailureCodes(op: Operation): set<PropagationStatus> {
    match op
    case Create => {ClientRetrievalFailed, ComputeResourceFailed, ApplyOverridesFailed, CreationFailed, RetrievalFailed}
    case Update => {ClientRetrievalFailed, ManagedLabelFalse, ComputeResourceFailed, FieldRetentionFailed,
                    ApplyOverridesFailed, VersionRetrievalFailed, UpdateFailed}
    case Delete => {ClientRetrievalFailed, DeletionFailed}
    case RemoveManagedLabel => {ClientRetrievalFailed, LabelRemovalFailed}
  }

  /** How an operation ended. Only `Failed` is reported as an error on the channel. */
  datatype End =
    | Created | UpToDate | Updated | Deleted | LabelRemoved | Skipped | HandedOver
    | Failed(code: PropagationStatus)

  /** Where a goroutine is. */
  datatype Pc =
    | NotStarted
    | Running
    | Failing(code: PropagationStatus)  // about to record why it failed
    | Skipping                          // about to record that an existing object is not adopted
    | Marking                           // about to note that a resource was updated
    | Versioning(end: End)              // about to record the new version
    | AdoptRecord | AdoptCount | AdoptSpawn  // a create on its way to start an update of the existing object
    | Sending(end: End)
    | Sent(end: End)

  /** What the controller decides to do for a cluster. */
  datatype Decision = Ignore | Report(status: PropagationStatus) | Dispatched(op: Operation)

  datatype Progress = Before | Recorded | Counted | Over

  datatype Slot = Slot(
    decision: Decision,
    main: Progress,                     // how far the controller's loop is with this cluster
    outer: Pc,                          // the goroutine started by the controller
    inner: Pc,                          // the update started by that goroutine, if any
    status: Option<PropagationStatus>,  // the cluster's entry in the status map
    version: bool)                      // whether a version has been recorded for the cluster

  datatype WaitState = NotWaiting | Checking | Selecting | Returned | TimedOutWaiting

  datatype State = State(
    skipAdopting: bool,
    slots: seq<Slot>,
    next: nat,               // the cluster the controller's loop is at
    operationsInitiated: nat,
    resourcesUpdated: bool,
    wait: WaitState,
    received: nat,           // the loop variable of Wait
    ok: bool)

  datatype Action =
    | Controller | Outer(i: nat) | Inner(i: nat)
    | Check | ReceiveOuter(i: nat) | ReceiveInner(i: nat) | Timeout

  ghost predicate Init(s: State) {
    && s.next == 0 && s.operationsInitiated == 0 && !s.resourcesUpdated
    && s.wait == NotWaiting && s.received == 0 && s.ok
    && forall i :: 0 <= i < |s.slots| ==>
         var slot := s.slots[i];
         && slot == Slot(slot.decision, Before, NotStarted, NotStarted, None, false)
         && (slot.decision.Report? ==>
               slot.decision.status in {ClusterNotReady, CachedRetrievalFailed, WaitingForRemoval})
  }

  /** What the body of an operation can come to. */
  ghost predicate Attempt(op: Operation, skipAdopting: bool, pc: Pc) {
    || (pc.Failing? && pc.code in FailureCodes(op))
    || (op == Create && (pc == Versioning(Created) || pc == AdoptRecord || (pc == Skipping && skipAdopting)))
    || (op == Update && (pc == Sending(UpToDate) || pc == Marking))
    || (op == Delete && pc == Sending(Deleted))
    || (op == RemoveManagedLabel && pc == Sending(LabelRemoved))
  }

  /** A step of the controller's loop over the clusters, as the current cluster sees it. */
  ghost predicate ControllerMove(slot: Slot, after: Slot) {
    match slot.decision
    case Ignore => after == slot.(main := Over)
    case Report(status) => after == slot.(main := Over, status := Some(status))
    case Dispatched(op) =>
      match slot.main
      case Before => after == slot.(main := Recorded, status := Some(TimedOut(op)))
      case Recorded => after == slot.(main := Counted)
      case Counted => after == slot.(main := Over, outer := Running)
      case Over => false
  }

  ghost predicate ControllerStep(s: State, t: State) {
    && s.next < |s.slots| && |t.slots| == |s.slots|
    && var slot, after := s.slots[s.next], t.slots[s.next];
       && ControllerMove(slot, after)
       && t == s.(slots := s.slots[s.next := after],
                  next := s.next + if after.main == Over then 1 else 0,
                  operationsInitiated := s.operationsInitiated + if after.main == Counted then 1 else 0)
  }

  /** A step of a goroutine started by the controller, as its cluster sees it. */
  ghost predicate OuterMove(slot: Slot, skipAdopting: bool, after: Slot) {
    && slot.decision.Dispatched?
    && match slot.outer
       case NotStarted => false
       case Running => Attempt(slot.decision.op, skipAdopting, after.outer) && after == slot.(outer := after.outer)
       case Failing(code) => after == slot.(outer := Sending(Failed(code)), status := Some(code))
       case Skipping => after == slot.(outer := Sending(Skipped), status := Some(AlreadyExists))
       case Marking => after == slot.(outer := Versioning(Updated))
       case Versioning(end) => after == slot.(outer := Sending(end), version := true)
       case AdoptRecord => after == slot.(outer := AdoptCount, status := Some(UpdateTimedOut))
       case AdoptCount => after == slot.(outer := AdoptSpawn)
       case AdoptSpawn => after == slot.(outer := Sending(HandedOver), inner := Running)
       case Sending(_) => false
       case Sent(_) => false
  }

  ghost predicate OuterStep(s: State, i: nat, t: State) {
    && i < |s.slots| && |t.slots| == |s.slots|
    && OuterMove(s.slots[i], s.skipAdopting, t.slots[i])
    && t == s.(slots := s.slots[i := t.slots[i]],
               operationsInitiated := s.operationsInitiated + if s.slots[i].outer == AdoptCount then 1 else 0,
               resourcesUpdated := s.resourcesUpdated || s.slots[i].outer == Marking)
  }

  /** A step of an update started by a create, as its cluster sees it. */
  ghost predicate InnerMove(slot: Slot, skipAdopting: bool, after: Slot) {
    match slot.inner
    case Running => Attempt(Update, skipAdopting, after.inner) && after == slot.(inner := after.inner)
    case Failing(code) => after == slot.(inner := Sending(Failed(code)), status := Some(code))
    case Marking => after == slot.(inner := Versioning(Updated))
    case Versioning(end) => after == slot.(inner := Sending(end), version := true)
    case _ => false
  }

  ghost predicate InnerStep(s: State, i: nat, t: State) {
    && i < |s.slots| && |t.slots| == |s.slots|
    && InnerMove(s.slots[i], s.skipAdopting, t.slots[i])
    && t == s.(slots := s.slots[i := t.slots[i]],
               resourcesUpdated := s.resourcesUpdated || s.slots[i].inner == Marking)
  }

  ghost predicate Step(s: State, a: Action, t: State) {
    match a
    case Controller =>
      if s.next < |s.slots| then ControllerStep(s, t) else s.wait == NotWaiting && t == s.(wait := Checking)
    case Outer(i) => OuterStep(s, i, t)
    case Inner(i) => InnerStep(s, i, t)
    case Check =>
      && s.wait == Checking
      && t == s.(wait := if s.received < s.operationsInitiated then Selecting else Returned)
    case ReceiveOuter(i) =>
      && s.wait == Selecting && i < |s.slots| && s.slots[i].outer.Sending?
      && var end := s.slots[i].outer.end;
         t == s.(wait := Checking, received := s.received + 1, ok := s.ok && !end.Failed?,
                 slots := s.slots[i := s.slots[i].(outer := Sent(end))])
    case ReceiveInner(i) =>
      && s.wait == Selecting && i < |s.slots| && s.slots[i].inner.Sending?
      && var end := s.slots[i].inner.end;
         t == s.(wait := Checking, received := s.received + 1, ok := s.ok && !end.Failed?,
                 slots := s.slots[i := s.slots[i].(inner := Sent(end))])
    case Timeout => s.wait == Selecting && t == s.(wait := TimedOutWaiting)
  }

  ghost predicate IsRun(run: seq<State>, actions: seq<Action>) {
    && |run| == |actions| + 1 && Init(run[0])
    && forall i :: 0 <= i < |actions| ==> Step(run[i], actions[i], run[i + 1])
  }

  // -------------------------------------------------------------------------- the invariant of one cluster

  function Bit(b: bool): nat {
    if b then 1 else 0
  }

  /** Operations of this cluster that have been counted. */
  function Initiated(slot: Slot): nat {
    Bit(slot.decision.Dispatched? && (slot.main == Counted || slot.main == Over)) +
    Bit(slot.outer == AdoptSpawn || slot.inner != NotStarted)
  }

  /** Operations of this cluster whose report has been received. */
  function Received(slot: Slot): nat {
    Bit(slot.outer.Sent?) + Bit(slot.inner.Sent?)
  }

  predicate FailureReceived(slot: Slot) {
    (slot.outer.Sent? && slot.outer.end.Failed?) || (slot.inner.Sent? && slot.inner.end.Failed?)
  }

  predicate Ended(pc: Pc) {
    pc.Sending? || pc.Sent?
  }

  /** The ways in which an operation can end other than failing. */
  predicate Success(op: Operation, end: End) {
    match end
    case Created | Skipped | HandedOver => op == Create
    case UpToDate | Updated => op == Update
    case Deleted => op == Delete
    case LabelRemoved => op == RemoveManagedLabel
    case Failed(_) => false
  }

  // The status entry while the goroutine for `op` is at `pc` and nobody else writes the entry.
  ghost predicate StatusAt(op: Operation, pc: Pc, status: Option<PropagationStatus>) {
    match pc
    case Sending(Failed(code)) => code in FailureCodes(op) && status == Some(code)
    case Sent(Failed(code)) => code in FailureCodes(op) && status == Some(code)
    case Sending(Skipped) => op == Create && status == Some(AlreadyExists)
    case Sent(Skipped) => op == Create && status == Some(AlreadyExists)
    case Sending(end) => Success(op, end) && status == Some(TimedOut(op))
    case Sent(end) => Success(op, end) && status == Some(TimedOut(op))
    case Failing(code) => code in FailureCodes(op) && status == Some(TimedOut(op))
    case Skipping => op == Create && status == Some(TimedOut(op))
    case Marking => op == Update && status == Some(TimedOut(op))
    case Versioning(end) =>
      (if op == Create then end == Created else op == Update && end == Updated) && status == Some(TimedOut(op))
    case AdoptRecord => op == Create && status == Some(TimedOut(op))
    case AdoptCount => op == Create && status == Some(UpdateTimedOut)
    case AdoptSpawn => op == Create && status == Some(UpdateTimedOut)
    case NotStarted => status == Some(TimedOut(op))
    case Running => status == Some(TimedOut(op))
  }

  predicate WroteObject(pc: Pc) {
    Ended(pc) && (pc.end == Created || pc.end == Updated)
  }

  ghost predicate SlotInv(slot: Slot, reached: bool, current: bool) {
    && (slot.main == Over <==> reached)
    && (slot.main != Before && slot.main != Over ==> current)
    && (slot.version <==> WroteObject(slot.outer) || WroteObject(slot.inner))
    && match slot.decision
       case Ignore =>
         slot.outer == slot.inner == NotStarted && slot.status == None && (slot.main == Before || slot.main == Over)
       case Report(status) =>
         && slot.outer == slot.inner == NotStarted && (slot.main == Before || slot.main == Over)
         && status in {ClusterNotReady, CachedRetrievalFailed, WaitingForRemoval}
         && slot.status == if slot.main == Over then Some(status) else None
       case Dispatched(op) =>
         && (slot.outer != NotStarted <==> slot.main == Over)
         && (slot.inner != NotStarted <==> Ended(slot.outer) && slot.outer.end == HandedOver)
         && if slot.main == Before then slot.status == None
            else if slot.inner != NotStarted then op == Create && StatusAt(Update, slot.inner, slot.status)
            else StatusAt(op, slot.outer, slot.status)
  }

  // -------------------------------------------------------------------------- the global invariant

  function Sum(slots: seq<Slot>, f: Slot -> nat): nat {
    if slots == [] then 0 else f(slots[0]) + Sum(slots[1..], f)
  }

  lemma {:induction false} SumUpdate(slots: seq<Slot>, f: Slot -> nat, i: nat, slot: Slot)
    requires i < |slots|
    ensures Sum(slots[i := slot], f) == Sum(slots, f) + f(slot) - f(slots[i])
  {
    if i == 0 {
      assert slots[i := slot][1..] == slots[1..];
    } else {
      SumUpdate(slots[1..], f, i - 1, slot);
      assert slots[i := slot][1..] == slots[1..][i - 1 := slot];
    }
  }

  lemma {:induction false} SumAtMost(slots: seq<Slot>, f: Slot -> nat, g: Slot -> nat)
    requires forall i :: 0 <= i < |slots| ==> f(slots[i]) <= g(slots[i])
    ensures Sum(slots, f) <= Sum(slots, g)
    ensures Sum(slots, f) == Sum(slots, g) ==> forall i :: 0 <= i < |slots| ==> f(slots[i]) == g(slots[i])
  {
    if slots != [] {
      SumAtMost(slots[1..], f, g);
      forall i | Sum(slots, f) == Sum(slots, g) && 0 < i < |slots| ensures f(slots[i]) == g(slots[i]) {
        assert slots[i] == slots[1..][i - 1];
      }
    }
  }

  ghost predicate UpdateSeen(slots: seq<Slot>) {
    exists i :: 0 <= i < |slots| && Updating(slots[i])
  }

  predicate Updating(slot: Slot) {
    || slot.outer == Versioning(Updated) || slot.outer == Sending(Updated) || slot.outer == Sent(Updated)
    || slot.inner == Versioning(Updated) || slot.inner == Sending(Updated) || slot.inner == Sent(Updated)
  }

  ghost predicate Inv(s: State) {
    && s.next <= |s.slots|
    && SlotsInv(s.slots, s.next)
    && s.operationsInitiated == Sum(s.slots, Initiated)
    && s.received == Sum(s.slots, Received)
    && (s.ok <==> forall i :: 0 <= i < |s.slots| ==> !FailureReceived(s.slots[i]))
    && (s.resourcesUpdated <==> UpdateSeen(s.slots))
    && (s.wait != NotWaiting ==> s.next == |s.slots|)
    && (s.wait == Returned ==> s.received >= s.operationsInitiated)
    && (s.wait == Selecting ==> s.received < s.operationsInitiated)
  }

  lemma {:induction false} SumZero(slots: seq<Slot>, f: Slot -> nat)
    requires forall i :: 0 <= i < |slots| ==> f(slots[i]) == 0
    ensures Sum(slots, f) == 0
  {
    if slots != [] { SumZero(slots[1..], f); }
  }

  lemma InitEstablishes(s: State)
    requires Init(s)
    ensures Inv(s)
  {
    SumZero(s.slots, Initiated);
    SumZero(s.slots, Received);
  }

  lemma OkFollows(slots: seq<Slot>, i: nat, slot: Slot)
    requires i < |slots| && (FailureReceived(slots[i]) ==> FailureReceived(slot))
    ensures var after := slots[i := slot];
            (forall j :: 0 <= j < |slots| ==> !FailureReceived(after[j])) <==>
            (forall j :: 0 <= j < |slots| ==> !FailureReceived(slots[j])) && !FailureReceived(slot)
  {
    var after := slots[i := slot];
    if FailureReceived(slot) {
      assert FailureReceived(after[i]);
    } else {
      assert forall j :: 0 <= j < |slots| ==> FailureReceived(after[j]) == FailureReceived(slots[j]);
    }
  }

  lemma UpdateFollows(slots: seq<Slot>, i: nat, slot: Slot)
    requires i < |slots| && (Updating(slots[i]) ==> Updating(slot))
    ensures UpdateSeen(slots[i := slot]) <==> UpdateSeen(slots) || Updating(slot)
  {
    var after := slots[i := slot];
    if Updating(slot) {
      assert Updating(after[i]);
    } else {
      assert forall j :: 0 <= j < |slots| ==> Updating(after[j]) == Updating(slots[j]);
    }
  }

  /** Replacing one slot keeps the invariant when the counters follow. */
  lemma SlotReplaced(s: State, t: State, i: nat, slot: Slot)
    requires Inv(s) && i < |s.slots| && t.slots == s.slots[i := slot]
    requires s.next <= t.next <= |s.slots| && (t.next == s.next || (i == s.next && t.next == s.next + 1))
    requires SlotInv(slot, i < t.next, i == t.next)
    requires t.operationsInitiated == s.operationsInitiated + Initiated(slot) - Initiated(s.slots[i])
    requires t.received == s.received + Received(slot) - Received(s.slots[i])
    requires FailureReceived(s.slots[i]) ==> FailureReceived(slot)
    requires t.ok == (s.ok && (FailureReceived(slot) ==> FailureReceived(s.slots[i])))
    requires Updating(s.slots[i]) ==> Updating(slot)
    requires t.resourcesUpdated == (s.resourcesUpdated || (Updating(slot) && !Updating(s.slots[i])))
    requires t.wait == s.wait || (s.wait == Selecting && t.wait == Checking)
    requires s.wait == NotWaiting || t.next == |s.slots|
    requires t.wait == Returned ==> t.received >= t.operationsInitiated
    requires t.wait == Selecting ==> t.received < t.operationsInitiated
    ensures Inv(t)
  {
    SumUpdate(s.slots, Initiated, i, slot);
    SumUpdate(s.slots, Received, i, slot);
    hide SlotInv, FailureReceived, Updating, Initiated, Received, Sum, UpdateSeen;
    OkFollows(s.slots, i, slot);
    UpdateFollows(s.slots, i, slot);
    SlotsFollow(s.slots, s.next, i, slot, t.next);
  }

  ghost predicate SlotsInv(slots: seq<Slot>, next: nat) {
    forall i :: 0 <= i < |slots| ==> SlotInv(slots[i], i < next, i == next)
  }

  lemma SlotsFollow(slots: seq<Slot>, next: nat, i: nat, slot: Slot, next': nat)
    requires SlotsInv(slots, next) && i < |slots| && SlotInv(slot, i < next', i == next')
    requires next' == next || (i == next && next' == next + 1)
    ensures SlotsInv(slots[i := slot], next')
  {
    hide SlotInv;
    var after := slots[i := slot];
    forall j | 0 <= j < |after| ensures SlotInv(after[j], j < next', j == next') {
      assert j != i ==> SlotInv(slots[j], j < next, j == next) && after[j] == slots[j];
      if j != i && next' == next + 1 && j == next' { NotYetReached(slots[j]); }
    }
  }

  // A cluster the loop has not come to is also one the loop may come to next.
  lemma NotYetReached(slot: Slot)
    requires SlotInv(slot, false, false)
    ensures SlotInv(slot, false, true)
  {
  }

  /** Nothing of this cluster is still in flight. */
  predicate Finished(slot: Slot) {
    match slot.decision
    case Dispatched(_) => slot.outer.Sent? && (slot.inner == NotStarted || slot.inner.Sent?)
    case _ => slot.outer == slot.inner == NotStarted
  }

  lemma ReceivedAtMostInitiated(slot: Slot, reached: bool, current: bool)
    requires SlotInv(slot, reached, current)
    ensures Received(slot) <= Initiated(slot)
    ensures reached && Received(slot) == Initiated(slot) ==> Finished(slot)
  {
  }

  lemma AllFinished(s: State)
    requires Inv(s) && s.wait == Returned
    ensures forall i :: 0 <= i < |s.slots| ==> Finished(s.slots[i])
  {
    forall i | 0 <= i < |s.slots| ensures Received(s.slots[i]) <= Initiated(s.slots[i]) {
      ReceivedAtMostInitiated(s.slots[i], true, false);
    }
    SumAtMost(s.slots, Received, Initiated);
    forall i | 0 <= i < |s.slots| ensures Finished(s.slots[i]) {
      ReceivedAtMostInitiated(s.slots[i], true, false);
    }
  }

  lemma FinishedIsStuck(slot: Slot)
    requires Finished(slot)
    ensures forall skipAdopting, after :: !OuterMove(slot, skipAdopting, after) && !InnerMove(slot, skipAdopting, after)
  {
  }

  lemma ControllerKeeps(s: State, t: State)
    requires Inv(s) && Step(s, Controller, t)
    ensures Inv(t)
  {
    hide SlotInv, ControllerMove, FailureReceived, Updating, Initiated, Received;
    if s.next < |s.slots| {
      var slot := s.slots[s.next];
      assert SlotInv(slot, false, true);
      ControllerSlot(slot, t.slots[s.next]);
      SlotReplaced(s, t, s.next, t.slots[s.next]);
    }
  }

  lemma ControllerSlot(slot: Slot, after: Slot)
    requires SlotInv(slot, false, true) && ControllerMove(slot, after)
    ensures SlotInv(after, after.main == Over, after.main != Over)
    ensures Initiated(after) == Initiated(slot) + if after.main == Counted then 1 else 0
    ensures Received(after) == Received(slot) && FailureReceived(after) == FailureReceived(slot)
    ensures Updating(after) == Updating(slot)
  {
  }

  lemma OuterKeeps(s: State, i: nat, t: State)
    requires Inv(s) && Step(s, Outer(i), t)
    ensures Inv(t)
  {
    hide SlotInv, OuterMove, FailureReceived, Updating, Initiated, Received;
    var before, after := s.slots[i], t.slots[i];
    assert SlotInv(before, i < s.next, i == s.next);
    if s.wait == Returned {
      AllFinished(s);
      FinishedIsStuck(before);
    }
    OuterSlot(before, s.skipAdopting, after, i < s.next, i == s.next);
    OuterBooks(before, s.skipAdopting, after, i < s.next, i == s.next);
    SlotReplaced(s, t, i, after);
  }

  lemma OuterSlot(slot: Slot, skipAdopting: bool, after: Slot, reached: bool, current: bool)
    requires SlotInv(slot, reached, current) && OuterMove(slot, skipAdopting, after)
    ensures SlotInv(after, reached, current)
  {
  }

  lemma OuterBooks(slot: Slot, skipAdopting: bool, after: Slot, reached: bool, current: bool)
    requires SlotInv(slot, reached, current) && OuterMove(slot, skipAdopting, after)
    ensures Initiated(after) == Initiated(slot) + if slot.outer == AdoptCount then 1 else 0
    ensures Received(after) == Received(slot) && FailureReceived(after) == FailureReceived(slot)
    ensures Updating(after) <==> Updating(slot) || slot.outer == Marking
    ensures slot.outer == Marking ==> !Updating(slot)
  {
    hide StatusAt;
  }

  lemma InnerKeeps(s: State, i: nat, t: State)
    requires Inv(s) && Step(s, Inner(i), t)
    ensures Inv(t)
  {
    hide SlotInv, InnerMove, FailureReceived, Updating, Initiated, Received;
    var before, after := s.slots[i], t.slots[i];
    assert SlotInv(before, i < s.next, i == s.next);
    InnerSlot(before, s.skipAdopting, after, i < s.next, i == s.next);
    SlotReplaced(s, t, i, after);
  }

  lemma InnerSlot(slot: Slot, skipAdopting: bool, after: Slot, reached: bool, current: bool)
    requires SlotInv(slot, reached, current) && InnerMove(slot, skipAdopting, after)
    ensures SlotInv(after, reached, current)
    ensures Initiated(after) == Initiated(slot)
    ensures Received(after) == Received(slot) && FailureReceived(after) == FailureReceived(slot)
    ensures Updating(after) <==> Updating(slot) || slot.inner == Marking
    ensures slot.inner == Marking ==> !Updating(slot)
  {
  }

  lemma ReceiveKeeps(s: State, a: Action, i: nat, t: State)
    requires Inv(s) && Step(s, a, t) && (a == ReceiveOuter(i) || a == ReceiveInner(i))
    ensures Inv(t)
  {
    hide SlotInv, FailureReceived, Updating, Initiated, Received;
    assert SlotInv(s.slots[i], i < s.next, i == s.next);
    ReceiveSlot(s.slots[i], i < s.next, i == s.next);
    SlotReplaced(s, t, i, t.slots[i]);
  }

  ghost predicate SameBooks(slot: Slot, after: Slot, reached: bool, current: bool, end: End) {
    && SlotInv(after, reached, current)
    && Initiated(after) == Initiated(slot) && Received(after) == Received(slot) + 1
    && (FailureReceived(after) <==> FailureReceived(slot) || end.Failed?)
    && Updating(after) == Updating(slot)
  }

  lemma ReceiveSlot(slot: Slot, reached: bool, current: bool)
    requires SlotInv(slot, reached, current)
    ensures slot.outer.Sending? ==>
              SameBooks(slot, slot.(outer := Sent(slot.outer.end)), reached, current, slot.outer.end)
    ensures slot.inner.Sending? ==>
              SameBooks(slot, slot.(inner := Sent(slot.inner.end)), reached, current, slot.inner.end)
  {
  }

  lemma StepKeeps(s: State, a: Action, t: State)
    requires Inv(s) && Step(s, a, t)
    ensures Inv(t)
  {
    match a
    case Controller => ControllerKeeps(s, t);
    case Outer(i) => OuterKeeps(s, i, t);
    case Inner(i) => InnerKeeps(s, i, t);
    case Check =>
    case ReceiveOuter(i) => ReceiveKeeps(s, a, i, t);
    case ReceiveInner(i) => ReceiveKeeps(s, a, i, t);
    case Timeout =>
  }

  /** The invariant holds at every point of every interleaving. */
  lemma {:induction false} RunKeeps(run: seq<State>, actions: seq<Action>, k: nat)
    requires IsRun(run, actions) && k < |run|
    ensures Inv(run[k])
  {
    if k == 0 {
      InitEstablishes(run[0]);
    } else {
      RunKeeps(run, actions, k - 1);
      StepKeeps(run[k - 1], actions[k - 1], run[k]);
    }
  }

  // -------------------------------------------------------------------------- what Wait promises

  /** No early return: in every interleaving, when `Wait` returns without a timeout no operation is in
      flight, not even an update started by a create, and it returns true exactly when none failed. */
  lemma NoEarlyReturn(run: seq<State>, actions: seq<Action>, k: nat)
    requires IsRun(run, actions) && k < |run| && run[k].wait == Returned
    ensures forall i :: 0 <= i < |run[k].slots| ==> Finished(run[k].slots[i])
    ensures run[k].ok <==> forall i :: 0 <= i < |run[k].slots| ==> !FailureReceived(run[k].slots[i])
  {
    RunKeeps(run, actions, k);
    AllFinished(run[k]);
  }

  /** After that nobody writes the status map any more, so `Wait` may rewrite it undisturbed. */
  lemma NobodyWrites(run: seq<State>, actions: seq<Action>, k: nat, a: Action, t: State)
    requires IsRun(run, actions) && k < |run| && run[k].wait == Returned
    ensures !Step(run[k], a, t)
  {
    NoEarlyReturn(run, actions, k);
    RunKeeps(run, actions, k);
    match a
    case Outer(i) => if i < |run[k].slots| { FinishedIsStuck(run[k].slots[i]); }
    case Inner(i) => if i < |run[k].slots| { FinishedIsStuck(run[k].slots[i]); }
    case _ =>
  }

  /** Nor does `Wait` hang: until it returns, the controller, a goroutine or `Wait` itself can always
      take a step other than timing out. */
  lemma NoDeadlock(run: seq<State>, actions: seq<Action>, k: nat) returns (a: Action, t: State)
    requires IsRun(run, actions) && k < |run| && run[k].wait != Returned && run[k].wait != TimedOutWaiting
    ensures a != Timeout && Step(run[k], a, t)
  {
    RunKeeps(run, actions, k);
    var s := run[k];
    match s.wait {
      case NotWaiting =>
        a := Controller;
        if s.next < |s.slots| {
          assert SlotInv(s.slots[s.next], false, true);
          var after := ControllerCanMove(s.slots[s.next]);
          t := s.(slots := s.slots[s.next := after],
          next := s.next + if after.main == Over then 1 else 0,
          operationsInitiated := s.operationsInitiated + if after.main == Counted then 1 else 0);
        } else {
          t := s.(wait := Checking);
        }
      case Checking =>
        a, t := Check, s.(wait := if s.received < s.operationsInitiated then Selecting else Returned);
      case Selecting =>
        var i := SomeoneOwes(s);
        assert SlotInv(s.slots[i], true, false);
        a, t := OwingCanMove(s, i);
    }
  }

  lemma ControllerCanMove(slot: Slot) returns (after: Slot)
    requires SlotInv(slot, false, true)
    ensures ControllerMove(slot, after)
  {
    after := match slot.decision
      case Ignore => slot.(main := Over)
      case Report(status) => slot.(main := Over, status := Some(status))
      case Dispatched(op) =>
        if slot.main == Before then slot.(main := Recorded, status := Some(TimedOut(op)))
        else if slot.main == Recorded then slot.(main := Counted)
        else slot.(main := Over, outer := Running);
  }

  /** While `Wait` is owed a report, so it is by some cluster. */
  lemma SomeoneOwes(s: State) returns (i: nat)
    requires Inv(s) && s.wait == Selecting
    ensures i < |s.slots| && Received(s.slots[i]) < Initiated(s.slots[i])
  {
    if forall j :: 0 <= j < |s.slots| ==> Initiated(s.slots[j]) <= Received(s.slots[j]) {
      SumAtMost(s.slots, Initiated, Received);
      assert false;
    }
    i :| 0 <= i < |s.slots| && Received(s.slots[i]) < Initiated(s.slots[i]);
  }

  lemma OwingCanMove(s: State, i: nat) returns (a: Action, t: State)
    requires s.wait == Selecting && i < |s.slots| && SlotInv(s.slots[i], true, false)
    requires Received(s.slots[i]) < Initiated(s.slots[i])
    ensures a != Timeout && Step(s, a, t)
  {
    var slot := s.slots[i];
    if slot.outer.Sending? {
      a := ReceiveOuter(i);
      t := s.(wait := Checking, received := s.received + 1, ok := s.ok && !slot.outer.end.Failed?,
      slots := s.slots[i := slot.(outer := Sent(slot.outer.end))]);
    } else if !slot.outer.Sent? {
      var after := OuterCanMove(slot, s.skipAdopting);
      a := Outer(i);
      t := s.(slots := s.slots[i := after],
      operationsInitiated := s.operationsInitiated + if slot.outer == AdoptCount then 1 else 0,
      resourcesUpdated := s.resourcesUpdated || slot.outer == Marking);
    } else if slot.inner.Sending? {
      a := ReceiveInner(i);
      t := s.(wait := Checking, received := s.received + 1, ok := s.ok && !slot.inner.end.Failed?,
      slots := s.slots[i := slot.(inner := Sent(slot.inner.end))]);
    } else {
      var after := InnerCanMove(slot, s.skipAdopting);
      a := Inner(i);
      t := s.(slots := s.slots[i := after], resourcesUpdated := s.resourcesUpdated || slot.inner == Marking);
    }
  }

  lemma OuterCanMove(slot: Slot, skipAdopting: bool) returns (after: Slot)
    requires SlotInv(slot, true, false) && slot.decision.Dispatched? && !Ended(slot.outer)
    ensures OuterMove(slot, skipAdopting, after)
  {
    after := match slot.outer
      case Failing(code) => slot.(outer := Sending(Failed(code)), status := Some(code))
      case Skipping => slot.(outer := Sending(Skipped), status := Some(AlreadyExists))
      case Marking => slot.(outer := Versioning(Updated))
      case Versioning(end) => slot.(outer := Sending(end), version := true)
      case AdoptRecord => slot.(outer := AdoptCount, status := Some(UpdateTimedOut))
      case AdoptCount => slot.(outer := AdoptSpawn)
      case AdoptSpawn => slot.(outer := Sending(HandedOver), inner := Running)
      case _ => slot.(outer := Failing(ClientRetrievalFailed));
  }

  lemma InnerCanMove(slot: Slot, skipAdopting: bool) returns (after: Slot)
    requires SlotInv(slot, true, false) && slot.inner != NotStarted && !Ended(slot.inner)
    ensures InnerMove(slot, skipAdopting, after)
  {
    after := match slot.inner
      case Failing(code) => slot.(inner := Sending(Failed(code)), status := Some(code))
      case Marking => slot.(inner := Versioning(Updated))
      case Versioning(end) => slot.(inner := Sending(end), version := true)
      case _ => slot.(inner := Failing(ClientRetrievalFailed));
  }

  // -------------------------------------------------------------------------- every run ends

  /** How many steps a goroutine may still cause. */
  function PcLeft(pc: Pc): nat {
    match pc
    case NotStarted => 0
    case Running => 11
    case AdoptRecord => 10
    case AdoptCount => 9
    case AdoptSpawn => 8
    case Marking => 4
    case Failing(_) => 3
    case Skipping => 3
    case Versioning(_) => 3
    case Sending(_) => 2
    case Sent(_) => 0
  }

  function InnerLeft(pc: Pc): nat {
    if pc == Running then 5 else PcLeft(pc)
  }

  function MainLeft(main: Progress): nat {
    match main
    case Before => 14
    case Recorded => 13
    case Counted => 12
    case Over => 0
  }

  function SlotLeft(slot: Slot): nat {
    MainLeft(slot.main) + PcLeft(slot.outer) + InnerLeft(slot.inner)
  }

  function WaitLeft(wait: WaitState): nat {
    match wait
    case NotWaiting => 3
    case Checking => 2
    case Selecting => 1
    case Returned => 0
    case TimedOutWaiting => 0
  }

  function Left(s: State): nat {
    Sum(s.slots, SlotLeft) + WaitLeft(s.wait)
  }

  lemma ControllerProgress(slot: Slot, after: Slot)
    requires ControllerMove(slot, after) && slot.main != Over
    ensures SlotLeft(after) < SlotLeft(slot)
  {
  }

  lemma OuterProgress(slot: Slot, skipAdopting: bool, after: Slot)
    requires OuterMove(slot, skipAdopting, after)
    ensures SlotLeft(after) < SlotLeft(slot)
  {
  }

  lemma InnerProgress(slot: Slot, skipAdopting: bool, after: Slot)
    requires InnerMove(slot, skipAdopting, after)
    ensures SlotLeft(after) < SlotLeft(slot)
  {
  }

  lemma ReceiveProgress(slot: Slot)
    ensures slot.outer.Sending? ==> SlotLeft(slot.(outer := Sent(slot.outer.end))) + 2 == SlotLeft(slot)
    ensures slot.inner.Sending? ==> SlotLeft(slot.(inner := Sent(slot.inner.end))) + 2 == SlotLeft(slot)
  {
  }

  /** Every step of anybody brings the end nearer. */
  lemma StepProgress(s: State, a: Action, t: State)
    requires Inv(s) && Step(s, a, t)
    ensures Left(t) < Left(s)
  {
    hide SlotLeft, ControllerMove, OuterMove, InnerMove, Sum;
    match a
    case Controller =>
      if s.next < |s.slots| {
        NotOverYet(s);
        ControllerProgress(s.slots[s.next], t.slots[s.next]);
        SumUpdate(s.slots, SlotLeft, s.next, t.slots[s.next]);
      }
    case Outer(i) =>
      OuterProgress(s.slots[i], s.skipAdopting, t.slots[i]);
      SumUpdate(s.slots, SlotLeft, i, t.slots[i]);
    case Inner(i) =>
      InnerProgress(s.slots[i], s.skipAdopting, t.slots[i]);
      SumUpdate(s.slots, SlotLeft, i, t.slots[i]);
    case ReceiveOuter(i) =>
      ReceiveProgress(s.slots[i]);
      SumUpdate(s.slots, SlotLeft, i, t.slots[i]);
    case ReceiveInner(i) =>
      ReceiveProgress(s.slots[i]);
      SumUpdate(s.slots, SlotLeft, i, t.slots[i]);
    case Check =>
    case Timeout =>
  }

  lemma NotOverYet(s: State)
    requires Inv(s) && s.next < |s.slots|
    ensures s.slots[s.next].main != Over
  {
    assert SlotInv(s.slots[s.next], false, true);
  }

  /** No run goes on for ever, under any scheduling: it has at most fourteen steps per cluster and three more. */
  lemma RunsAreShort(run: seq<State>, actions: seq<Action>)
    requires IsRun(run, actions)
    ensures |actions| <= 14 * |run[0].slots| + 3
  {
    StepsUsed(run, actions, |actions|);
    AllLeft(run[0].slots, run[0]);
  }

  lemma {:induction false} StepsUsed(run: seq<State>, actions: seq<Action>, k: nat)
    requires IsRun(run, actions) && k < |run|
    ensures Left(run[k]) + k <= Left(run[0])
  {
    hide Left, Step, Init, Inv;
    if k > 0 {
      StepsUsed(run, actions, k - 1);
      RunKeeps(run, actions, k - 1);
      StepProgress(run[k - 1], actions[k - 1], run[k]);
    }
  }

  lemma {:induction false} AllLeft(slots: seq<Slot>, s: State)
    requires Init(s) && forall slot :: slot in slots ==> slot in s.slots
    ensures Sum(slots, SlotLeft) == 14 * |slots|
  {
    if slots != [] {
      assert slots[0] in s.slots;
      AllLeft(slots[1..], s);
    }
  }

  /** So `Wait` always comes to an end: a run that cannot be extended has returned or timed out. */
  lemma WaitEnds(run: seq<State>, actions: seq<Action>)
    requires IsRun(run, actions) && forall a, t :: !Step(run[|actions|], a, t)
    ensures run[|actions|].wait == Returned || run[|actions|].wait == TimedOutWaiting
  {
    hide Step, Init;
    if run[|actions|].wait != Returned && run[|actions|].wait != TimedOutWaiting {
      var a, t := NoDeadlock(run, actions, |actions|);
    }
  }

  // -------------------------------------------------------------------------- the statuses after Wait

  /** What `Wait` turns the status of a cluster into: a status saying "timed out" was only a default. */
  function Settle(status: PropagationStatus): Option<PropagationStatus> {
    match status
    case CreationTimedOut | UpdateTimedOut => Some(ClusterPropagationOK)
    case DeletionTimedOut => Some(WaitingForRemoval)
    case LabelRemovalTimedOut => None
    case other => Some(other)
  }

  lemma SettleCases(value: PropagationStatus)
    ensures value == CreationTimedOut || value == UpdateTimedOut ==> Settle(value) == Some(ClusterPropagationOK)
    ensures value == DeletionTimedOut ==> Settle(value) == Some(WaitingForRemoval)
    ensures value == LabelRemovalTimedOut ==> Settle(value) == None
    ensures !IsTimeout(value) ==> Settle(value) == Some(value)
  {
  }

  /** The loop of the managed dispatcher's `Wait` over its status map. */
  method SettleStatuses(statusMap: map<string, PropagationStatus>) returns (settled: map<string, PropagationStatus>)
    ensures settled == map c | c in statusMap && Settle(statusMap[c]).Some? :: Settle(statusMap[c]).value
  {
    hide Settle;
    settled := statusMap;
    var keys := statusMap.Keys;
    while keys != {}
      invariant keys <= statusMap.Keys
      invariant forall c :: c in settled <==> c in statusMap && (c in keys || Settle(statusMap[c]).Some?)
      invariant forall c :: c in settled ==>
                  settled[c] == if c in keys then statusMap[c] else Settle(statusMap[c]).value
      decreases keys
    {
      var key :| key in keys;
      var value := settled[key];
      SettleCases(value);
      if value == CreationTimedOut || value == UpdateTimedOut {
        settled := settled[key := ClusterPropagationOK];
      } else if value == DeletionTimedOut {
        settled := settled[key := WaitingForRemoval];
      } else if value == LabelRemovalTimedOut {
        settled := settled - {key};
      }
      keys := keys - {key};
    }
  }

  /** The truth about a cluster, read off how its operations ended. */
  function Truth(slot: Slot): Option<PropagationStatus>
    requires Finished(slot)
  {
    match slot.decision
    case Ignore => None
    case Report(status) => Some(status)
    case Dispatched(_) =>
      match slot.outer.end
      case Failed(code) => Some(code)
      case Skipped => Some(AlreadyExists)
      case Created | UpToDate | Updated => Some(ClusterPropagationOK)
      case Deleted => Some(WaitingForRemoval)
      case LabelRemoved => None
      case HandedOver =>
        if slot.inner.Sent? && slot.inner.end.Failed? then Some(slot.inner.end.code) else Some(ClusterPropagationOK)
  }

  predicate IsTimeout(status: PropagationStatus) {
    status in {CreationTimedOut, UpdateTimedOut, DeletionTimedOut, LabelRemovalTimedOut}
  }

  /** After a `Wait` without timeout every cluster's status is the truth: no timeout is left over, a
      success reads as such, and a failure keeps its own code. A version is recorded exactly for
      clusters whose object was created or updated. */
  lemma StatusTruth(run: seq<State>, actions: seq<Action>, k: nat, i: nat)
    requires IsRun(run, actions) && k < |run| && run[k].wait == Returned && i < |run[k].slots|
    ensures var slot := run[k].slots[i];
            && Finished(slot)
            && (if slot.status.Some? then Settle(slot.status.value) else None) == Truth(slot)
            && (Truth(slot).Some? ==> !IsTimeout(Truth(slot).value))
            && (slot.version <==> (slot.outer.Sent? && (slot.outer.end == Created || slot.outer.end == Updated)) ||
                                  (slot.inner.Sent? && slot.inner.end == Updated))
  {
    RunKeeps(run, actions, k);
    NoEarlyReturn(run, actions, k);
    assert SlotInv(run[k].slots[i], true, false);
    SettledTruth(run[k].slots[i]);
  }

  lemma SettledTruth(slot: Slot)
    requires SlotInv(slot, true, false) && Finished(slot)
    ensures (if slot.status.Some? then Settle(slot.status.value) else None) == Truth(slot)
    ensures Truth(slot).Some? ==> !IsTimeout(Truth(slot).value)
    ensures slot.version <==> (slot.outer.Sent? && (slot.outer.end == Created || slot.outer.end == Updated)) ||
                              (slot.inner.Sent? && slot.inner.end == Updated)
  {
  }

  /** Changes are reported as propagated exactly when some existing object was updated. */
  lemma UpdatesNoticed(run: seq<State>, actions: seq<Action>, k: nat)
    requires IsRun(run, actions) && k < |run| && run[k].wait == Returned
    ensures run[k].resourcesUpdated <==>
            exists i :: 0 <= i < |run[k].slots| &&
              (run[k].slots[i].outer == Sent(Updated) || run[k].slots[i].inner == Sent(Updated))
  {
    RunKeeps(run, actions, k);
    NoEarlyReturn(run, actions, k);
    var s := run[k];
    if s.resourcesUpdated {
      var i :| 0 <= i < |s.slots| && Updating(s.slots[i]);
      assert Finished(s.slots[i]);
      assert SlotInv(s.slots[i], true, false);
    } else {
      forall i | 0 <= i < |s.slots| ensures s.slots[i].outer != Sent(Updated) && s.slots[i].inner != Sent(Updated) {
        assert !Updating(s.slots[i]);
      }
    }
  }

  // -------------------------------------------------------------------------- the statuses after a timeout

  predicate InFlight(pc: Pc) {
    pc != NotStarted && !Ended(pc)
  }

  /** At every point, and so also when `Wait` times out, a cluster whose operation is under way reads as timed
      out in just that operation; a create that has turned into an update, as an update. */
  lemma TimeoutNamesOperation(run: seq<State>, actions: seq<Action>, k: nat, i: nat)
    requires IsRun(run, actions) && k < |run| && i < |run[k].slots|
    ensures var slot := run[k].slots[i];
            && (slot.decision == Dispatched(Create) && InFlight(slot.outer) ==>
                  slot.status == Some(if slot.outer == AdoptCount || slot.outer == AdoptSpawn
                                      then UpdateTimedOut else CreationTimedOut))
            && (slot.decision == Dispatched(Update) && InFlight(slot.outer) ==> slot.status == Some(UpdateTimedOut))
            && (slot.decision == Dispatched(Delete) && InFlight(slot.outer) ==> slot.status == Some(DeletionTimedOut))
            && (slot.decision == Dispatched(RemoveManagedLabel) && InFlight(slot.outer) ==>
                  slot.status == Some(LabelRemovalTimedOut))
            && (InFlight(slot.inner) ==> slot.status == Some(UpdateTimedOut))
  {
    RunKeeps(run, actions, k);
    assert SlotInv(run[k].slots[i], i < run[k].next, i == run[k].next);
  }

  // -------------------------------------------------------------------------- every end comes about

  ghost predicate Reaches(start: State, s: State) {
    exists run, actions :: IsRun(run, actions) && run[0] == start && run[|actions|] == s
  }

  lemma ReachesItself(start: State)
    requires Init(start)
    ensures Reaches(start, start)
  {
    assert IsRun([start], []);
  }

  lemma Onward(start: State, s: State, a: Action, t: State)
    requires Reaches(start, s) && Step(s, a, t)
    ensures Reaches(start, t)
  {
    hide Step, Init;
    var run, actions :| IsRun(run, actions) && run[0] == start && run[|actions|] == s;
    var more, moreActions := run + [t], actions + [a];
    forall i | 0 <= i < |moreActions| ensures Step(more[i], moreActions[i], more[i + 1]) {
      if i < |actions| { assert Step(run[i], actions[i], run[i + 1]); }
    }
    assert IsRun(more, moreActions) && more[|moreActions|] == t;
  }

  /** What an update can come to. */
  predicate UpdateEnds(end: End) {
    || end == UpToDate || end == Updated
    || (end.Failed? && end.code in {ClientRetrievalFailed, ManagedLabelFalse, ComputeResourceFailed,
                                    FieldRetentionFailed, ApplyOverridesFailed, VersionRetrievalFailed, UpdateFailed})
  }

  /** What an operation can come to, other than a create that goes over to an update. */
  predicate Ends(op: Operation, skipAdopting: bool, end: End) {
    match op
    case Create =>
      || end == Created || (end == Skipped && skipAdopting)
      || (end.Failed? && end.code in {ClientRetrievalFailed, ComputeResourceFailed, ApplyOverridesFailed,
                                      CreationFailed, RetrievalFailed})
    case Update => UpdateEnds(end)
    case Delete => end == Deleted || end == Failed(ClientRetrievalFailed) || end == Failed(DeletionFailed)
    case RemoveManagedLabel =>
      end == LabelRemoved || end == Failed(ClientRetrievalFailed) || end == Failed(LabelRemovalFailed)
  }

  // A dispatch to a single cluster, before it begins.
  function Alone(op: Operation, skipAdopting: bool): State {
    State(skipAdopting, [Slot(Dispatched(op), Before, NotStarted, NotStarted, None, false)], 0, 0, false,
          NotWaiting, 0, true)
  }

  lemma Launches(op: Operation, skipAdopting: bool) returns (s: State)
    ensures Reaches(Alone(op, skipAdopting), s)
    ensures s == State(skipAdopting, [Slot(Dispatched(op), Over, Running, NotStarted, Some(TimedOut(op)), false)],
                       1, 1, false, Checking, 0, true)
  {
    var start := Alone(op, skipAdopting);
    ReachesItself(start);
    var s1 := start.(slots := [start.slots[0].(main := Recorded, status := Some(TimedOut(op)))]);
    assert s1.slots == start.slots[0 := s1.slots[0]];
    Onward(start, start, Controller, s1);
    var s2 := s1.(slots := [s1.slots[0].(main := Counted)], operationsInitiated := 1);
    assert s2.slots == s1.slots[0 := s2.slots[0]];
    Onward(start, s1, Controller, s2);
    var s3 := s2.(slots := [s2.slots[0].(main := Over, outer := Running)], next := 1);
    assert s3.slots == s2.slots[0 := s3.slots[0]];
    Onward(start, s2, Controller, s3);
    s := s3.(wait := Checking);
    Onward(start, s3, Controller, s);
  }

  lemma OuterGoes(start: State, s: State, pc: Pc, status: Option<PropagationStatus>, version: bool,
                  inner: Pc) returns (t: State)
    requires Reaches(start, s) && |s.slots| == 1
    requires var slot := s.slots[0];
             OuterMove(slot, s.skipAdopting, slot.(outer := pc, status := status, version := version, inner := inner))
    ensures Reaches(start, t)
    ensures t == s.(slots := [s.slots[0].(outer := pc, status := status, version := version, inner := inner)],
                    operationsInitiated := s.operationsInitiated + (if s.slots[0].outer == AdoptCount then 1 else 0),
                    resourcesUpdated := s.resourcesUpdated || s.slots[0].outer == Marking)
  {
    t := s.(slots := [s.slots[0].(outer := pc, status := status, version := version, inner := inner)],
            operationsInitiated := s.operationsInitiated + (if s.slots[0].outer == AdoptCount then 1 else 0),
            resourcesUpdated := s.resourcesUpdated || s.slots[0].outer == Marking);
    assert t.slots == s.slots[0 := t.slots[0]];
    Onward(start, s, Outer(0), t);
  }

  lemma InnerGoes(start: State, s: State, pc: Pc, status: Option<PropagationStatus>, version: bool) returns (t: State)
    requires Reaches(start, s) && |s.slots| == 1
    requires var slot := s.slots[0];
             InnerMove(slot, s.skipAdopting, slot.(inner := pc, status := status, version := version))
    ensures Reaches(start, t)
    ensures t == s.(slots := [s.slots[0].(inner := pc, status := status, version := version)],
                    resourcesUpdated := s.resourcesUpdated || s.slots[0].inner == Marking)
  {
    t := s.(slots := [s.slots[0].(inner := pc, status := status, version := version)],
            resourcesUpdated := s.resourcesUpdated || s.slots[0].inner == Marking);
    assert t.slots == s.slots[0 := t.slots[0]];
    Onward(start, s, Inner(0), t);
  }

  /** Everything an operation can come to in the source comes about in the model: there is a run in which it
      ends so, its report is received and `Wait` returns. */
  lemma EveryEndComesAbout(op: Operation, skipAdopting: bool, end: End) returns (t: State)
    requires Ends(op, skipAdopting, end)
    ensures Reaches(Alone(op, skipAdopting), t) && t.wait == Returned
    ensures |t.slots| == 1 && t.slots[0].outer == Sent(end)
    ensures t.ok == !end.Failed?
  {
    hide Reaches;
    var start := Alone(op, skipAdopting);
    var s := Launches(op, skipAdopting);
    var status := s.slots[0].status;
    match end {
      case Failed(code) =>
        s := OuterGoes(start, s, Failing(code), status, false, NotStarted);
        s := OuterGoes(start, s, Sending(end), Some(code), false, NotStarted);
      case Skipped =>
        s := OuterGoes(start, s, Skipping, status, false, NotStarted);
        s := OuterGoes(start, s, Sending(end), Some(AlreadyExists), false, NotStarted);
      case Created =>
        s := OuterGoes(start, s, Versioning(end), status, false, NotStarted);
        s := OuterGoes(start, s, Sending(end), status, true, NotStarted);
      case Updated =>
        s := OuterGoes(start, s, Marking, status, false, NotStarted);
        s := OuterGoes(start, s, Versioning(end), status, false, NotStarted);
        s := OuterGoes(start, s, Sending(end), status, true, NotStarted);
      case _ =>
        s := OuterGoes(start, s, Sending(end), status, false, NotStarted);
    }
    t := ReportReceived(start, s, end);
  }

  lemma ReportReceived(start: State, s: State, end: End) returns (t: State)
    requires Reaches(start, s) && |s.slots| == 1 && s.slots[0].outer == Sending(end) && s.wait == Checking && s.ok
    requires s.received == 0 && s.operationsInitiated == 1
    ensures Reaches(start, t) && t.wait == Returned && |t.slots| == 1 && t.slots[0].outer == Sent(end)
    ensures t.ok == !end.Failed?
  {
    hide Reaches;
    var s1 := s.(wait := Selecting);
    Onward(start, s, Check, s1);
    var s2 := s1.(wait := Checking, received := 1, ok := !end.Failed?,
                  slots := s1.slots[0 := s1.slots[0].(outer := Sent(end))]);
    Onward(start, s1, ReceiveOuter(0), s2);
    t := s2.(wait := Returned);
    Onward(start, s2, Check, t);
  }

  /** So does adoption: a create that finds an existing object goes over to an update, which comes to whatever
      an update can come to, and `Wait` returns only after both have reported. */
  lemma AdoptionComesAbout(skipAdopting: bool, end: End) returns (t: State)
    requires UpdateEnds(end)
    ensures Reaches(Alone(Create, skipAdopting), t) && t.wait == Returned && t.received == 2 && |t.slots| == 1
    ensures t.slots[0].outer == Sent(HandedOver) && t.slots[0].inner == Sent(end) && t.ok == !end.Failed?
  {
    hide Reaches;
    var start := Alone(Create, skipAdopting);
    var s := Launches(Create, skipAdopting);
    s := OuterGoes(start, s, AdoptRecord, s.slots[0].status, false, NotStarted);
    s := OuterGoes(start, s, AdoptCount, Some(UpdateTimedOut), false, NotStarted);
    s := OuterGoes(start, s, AdoptSpawn, Some(UpdateTimedOut), false, NotStarted);
    s := OuterGoes(start, s, Sending(HandedOver), Some(UpdateTimedOut), false, Running);
    match end {
      case Failed(code) =>
        s := InnerGoes(start, s, Failing(code), Some(UpdateTimedOut), false);
        s := InnerGoes(start, s, Sending(end), Some(code), false);
      case Updated =>
        s := InnerGoes(start, s, Marking, Some(UpdateTimedOut), false);
        s := InnerGoes(start, s, Versioning(end), Some(UpdateTimedOut), false);
        s := InnerGoes(start, s, Sending(end), Some(UpdateTimedOut), true);
      case _ =>
        s := InnerGoes(start, s, Sending(end), Some(UpdateTimedOut), false);
    }
    t := BothReceived(start, s, end);
  }

  lemma BothReceived(start: State, s: State, end: End) returns (t: State)
    requires Reaches(start, s) && |s.slots| == 1 && s.wait == Checking && s.ok
    requires s.slots[0].outer == Sending(HandedOver) && s.slots[0].inner == Sending(end)
    requires s.received == 0 && s.operationsInitiated == 2
    ensures Reaches(start, t) && t.wait == Returned && t.received == 2 && |t.slots| == 1
    ensures t.slots[0].outer == Sent(HandedOver) && t.slots[0].inner == Sent(end) && t.ok == !end.Failed?
  {
    hide Reaches;
    var s1 := s.(wait := Selecting);
    Onward(start, s, Check, s1);
    var s2 := s1.(wait := Checking, received := 1, slots := s1.slots[0 := s1.slots[0].(outer := Sent(HandedOver))]);
    Onward(start, s1, ReceiveOuter(0), s2);
    var s3 := s2.(wait := Selecting);
    Onward(start, s2, Check, s3);
    var s4 := s3.(wait := Checking, received := 2, ok := !end.Failed?,
                  slots := s3.slots[0 := s3.slots[0].(inner := Sent(end))]);
    Onward(start, s3, ReceiveInner(0), s4);
    t := s4.(wait := Returned);
    Onward(start, s4, Check, t);
  }
}
