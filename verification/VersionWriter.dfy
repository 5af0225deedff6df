/**
  Writing a version record to the API: a poll loop that creates the object or updates its status
  under optimistic concurrency, while any number of other processes create, write and delete it.

  The API server is a class whose every call is preceded by arbitrary steps of the other processes.
  Errors the source logs and retries appear as `OtherError`: the call may or may not have had its
  effect. The time limit of the poll
  becomes the number of polls there is time for.
 */
module VersionWriter {
  import opened Wrappers

  // A recorded status; nothing ever looks inside it.
  type Status = int

  datatype ApiObject = ApiObject(resourceVersion: nat, status: Status)

  datatype Outcome = Success(resourceVersion: nat) | AlreadyExists | NotFound | Conflict | Forbidden | OtherError

  /** A call to the API, with the object it found there and how it ended. */
  datatype Call =
    | GetCall(found: Option<ApiObject>, outcome: Outcome)
    | CreateCall(found: Option<ApiObject>, outcome: Outcome)
    | UpdateCall(used: nat, found: Option<ApiObject>, outcome: Outcome)

  class ApiServer {
    var obj: Option<ApiObject>
    var lastVersion: nat
    ghost var contents: map<nat, Status>  // what the object held at each resource version ever handed out

    ghost predicate Valid()
      reads this
    {
      && Recorded(obj, contents)
      && (forall rv :: rv in contents ==> rv <= lastVersion)
    }

    constructor ()
      ensures Valid()
    {
      obj, lastVersion, contents := None, 0, map[];
    }

    twostate predicate Moves()
      reads this
    {
      && Valid() && old(lastVersion) <= lastVersion
      && Extends(old(contents), contents)
    }

    /** The other processes do as they like: write, create or delete the object, or leave it alone. */
    method Others()
      requires Valid()
      modifies this
      ensures Moves()
    {
      var steps: nat := *;
      while steps > 0
        invariant Moves()
      {
        var deletes: bool := *;
        if deletes {
          obj := None;
        } else {
          var status: Status := *;
          Store(status);
        }
        steps := steps - 1;
      }
    }

    method Store(status: Status)
      requires Valid()
      modifies this
      ensures Moves() && obj == Some(ApiObject(lastVersion, status)) && lastVersion == old(lastVersion) + 1
      ensures contents == old(contents)[lastVersion := status]
    {
      lastVersion := lastVersion + 1;
      obj := Some(ApiObject(lastVersion, status));
      contents := contents[lastVersion := status];
    }

    method Get() returns (outcome: Outcome, ghost found: Option<ApiObject>)
      requires Valid()
      modifies this
      ensures Moves() && obj == found && AnswersGet(found, outcome) && Recorded(found, contents)
    {
      Others();
      found := obj;
      var fails: bool := *;
      outcome := if fails then OtherError else if obj.Some? then Success(obj.value.resourceVersion) else NotFound;
    }

    /** Creates the object; its status is not set by a create. */
    method Create() returns (outcome: Outcome, ghost found: Option<ApiObject>)
      requires Valid()
      modifies this
      ensures Moves() && AnswersCreate(found, outcome) && Recorded(found, contents)
      ensures outcome.Success? ==> obj.Some? && obj.value.resourceVersion == outcome.resourceVersion
      ensures !outcome.Success? && !outcome.OtherError? ==> obj == found
    {
      Others();
      found := obj;
      var forbidden: bool, unreachable: bool, fails: bool := *, *, *;
      if unreachable {
        outcome := OtherError;
      } else if obj.Some? {
        outcome := AlreadyExists;
      } else if forbidden {
        outcome := Forbidden;
      } else {
        var blank: Status := *;
        Store(blank);
        outcome := if fails then OtherError else Success(lastVersion);
      }
    }

    /** Replaces the status, provided the object still has the resource version `used`. */
    method UpdateStatus(used: nat, status: Status) returns (outcome: Outcome, ghost found: Option<ApiObject>)
      requires Valid()
      modifies this
      ensures Moves() && AnswersUpdate(used, found, outcome) && Recorded(found, contents)
      ensures outcome.Success? ==> obj == Some(ApiObject(outcome.resourceVersion, status))
      ensures !outcome.Success? && !outcome.OtherError? ==> obj == found
    {
      Others();
      found := obj;
      var forbidden: bool, unreachable: bool, fails: bool := *, *, *;
      if forbidden {
        outcome := Forbidden;
      } else if unreachable {
        outcome := OtherError;
      } else if obj.None? {
        outcome := NotFound;
      } else if obj.value.resourceVersion != used {
        outcome := Conflict;
      } else {
        Store(status);
        outcome := if fails then OtherError else Success(lastVersion);
      }
    }
  }

  predicate AnswersGet(found: Option<ApiObject>, outcome: Outcome) {
    match outcome
    case Success(rv) => found.Some? && found.value.resourceVersion == rv
    case NotFound => found.None?
    case OtherError => true
    case _ => false
  }

  predicate AnswersCreate(found: Option<ApiObject>, outcome: Outcome) {
    match outcome
    case Success(_) => found.None?
    case AlreadyExists => found.Some?
    case Forbidden => true
    case OtherError => true
    case _ => false
  }

  predicate AnswersUpdate(used: nat, found: Option<ApiObject>, outcome: Outcome) {
    match outcome
    case Success(_) => found.Some? && found.value.resourceVersion == used
    case Conflict => found.Some? && found.value.resourceVersion != used
    case NotFound => found.None?
    case Forbidden => true
    case OtherError => true
    case _ => false
  }

  /** What was found is what the object held at that resource version. */
  ghost predicate Recorded(found: Option<ApiObject>, contents: map<nat, Status>) {
    found.Some? ==>
      && found.value.resourceVersion in contents
      && contents[found.value.resourceVersion] == found.value.status
  }

  // -------------------------------------------------------------------------- the discipline of the writer

  /** The variables of the poll loop: the resource version to use, if any, and whether to refresh it. */
  datatype Writer = Writer(resourceVersion: Option<nat>, refresh: bool)

  /** How a call changes what the writer knows. */
  function Learn(w: Writer, call: Call): Writer {
    match call
    case GetCall(_, Success(rv)) => Writer(Some(rv), false)
    case CreateCall(_, Success(rv)) => Writer(Some(rv), w.refresh)
    case CreateCall(_, AlreadyExists) => w.(refresh := true)
    case UpdateCall(_, _, Conflict) => w.(refresh := true)
    case UpdateCall(_, _, NotFound) => w.(resourceVersion := None)
    case _ => w
  }

  /** The calls the writer makes, given what it knows: it refreshes when it has to, creates the object
      when it knows no version, and otherwise updates using the version it knows. */
  predicate MayCall(w: Writer, call: Call) {
    match call
    case GetCall(found, outcome) => w.refresh && AnswersGet(found, outcome)
    case CreateCall(found, outcome) => !w.refresh && w.resourceVersion.None? && AnswersCreate(found, outcome)
    case UpdateCall(used, found, outcome) =>
      !w.refresh && w.resourceVersion == Some(used) && AnswersUpdate(used, found, outcome)
  }

  /** What the writer knows after the first `n` calls. */
  function Knows(start: Writer, calls: seq<Call>, n: nat): Writer
    requires n <= |calls|
  {
    if n == 0 then start else Learn(Knows(start, calls, n - 1), calls[n - 1])
  }

  /** A status write that succeeds, and a refusal, end the loop. */
  predicate Stops(call: Call) {
    call.outcome.Forbidden? || (call.UpdateCall? && call.outcome.Success?)
  }

  ghost predicate Disciplined(start: Writer, calls: seq<Call>) {
    && (forall n {:trigger calls[n]} :: 0 <= n < |calls| ==> MayCall(Knows(start, calls, n), calls[n]))
    && (forall n {:trigger calls[n]} :: 0 <= n < |calls| - 1 ==> !Stops(calls[n]))
  }

  ghost predicate AllRecorded(calls: seq<Call>, contents: map<nat, Status>) {
    forall n :: 0 <= n < |calls| ==> Recorded(calls[n].found, contents)
  }

  lemma {:induction false} KnowsMore(start: Writer, calls: seq<Call>, call: Call, n: nat)
    requires n <= |calls|
    ensures Knows(start, calls + [call], n) == Knows(start, calls, n)
  {
    if n > 0 { KnowsMore(start, calls, call, n - 1); }
  }

  lemma OneMoreCall(start: Writer, calls: seq<Call>, call: Call)
    requires Disciplined(start, calls) && MayCall(Knows(start, calls, |calls|), call)
    requires |calls| > 0 ==> !Stops(calls[|calls| - 1])
    ensures Disciplined(start, calls + [call])
    ensures Knows(start, calls + [call], |calls| + 1) == Learn(Knows(start, calls, |calls|), call)
  {
    hide MayCall, Stops;
    var more := calls + [call];
    forall n | 0 <= n < |more| ensures MayCall(Knows(start, more, n), more[n]) {
      KnowsMore(start, calls, call, n);
    }
    KnowsMore(start, calls, call, |calls|);
    forall n | 0 <= n < |more| - 1 ensures !Stops(more[n]) {
      assert more[n] == calls[n];
    }
  }

  /** The calls so far follow the discipline, found only what the object has really held, leave the
      writer knowing `w`, and the last of them has not ended the loop. */
  ghost predicate Wrote(start: Writer, calls: seq<Call>, contents: map<nat, Status>, w: Writer) {
    && Disciplined(start, calls) && AllRecorded(calls, contents) && Knows(start, calls, |calls|) == w
    && (|calls| > 0 ==> !Stops(calls[|calls| - 1]))
  }

  ghost predicate Extends(before: map<nat, Status>, after: map<nat, Status>) {
    forall rv :: rv in before ==> rv in after && after[rv] == before[rv]
  }

  lemma OneMoreRecord(calls: seq<Call>, call: Call, before: map<nat, Status>, after: map<nat, Status>)
    requires AllRecorded(calls, before) && Extends(before, after) && Recorded(call.found, after)
    ensures AllRecorded(calls + [call], after)
  {
    forall n | 0 <= n < |calls| + 1 ensures Recorded((calls + [call])[n].found, after) {
      if n < |calls| { assert Recorded(calls[n].found, before); }
    }
  }

  lemma OneMore(start: Writer, calls: seq<Call>, call: Call, before: map<nat, Status>, after: map<nat, Status>,
                w: Writer)
    requires Wrote(start, calls, before, w) && MayCall(w, call)
    requires Extends(before, after) && Recorded(call.found, after)
    ensures !Stops(call) ==> Wrote(start, calls + [call], after, Learn(w, call))
    ensures Disciplined(start, calls + [call]) && AllRecorded(calls + [call], after)
  {
    hide Disciplined, AllRecorded, MayCall, Extends, Recorded;
    OneMoreCall(start, calls, call);
    OneMoreRecord(calls, call, before, after);
  }

  lemma NothingWritten(start: Writer, contents: map<nat, Status>)
    ensures Wrote(start, [], contents, start)
  {
  }

  datatype Verdict = Again | Done | Fail

  /** The last call wrote `status`, over an object that still had the resource version it used. */
  ghost predicate WrittenLast(calls: seq<Call>, resourceVersion: Option<nat>, obj: Option<ApiObject>, status: Status) {
    && |calls| > 0
    && var last := calls[|calls| - 1];
       && last.UpdateCall? && last.outcome.Success?
       && last.found.Some? && last.found.value.resourceVersion == last.used
       && resourceVersion == Some(last.outcome.resourceVersion)
       && obj == Some(ApiObject(resourceVersion.value, status))
  }

  method Refresh(api: ApiServer, w0: Writer, ghost start: Writer, ghost calls0: seq<Call>)
    returns (w: Writer, ok: bool, ghost calls: seq<Call>)
    requires api.Valid() && w0.refresh && Wrote(start, calls0, api.contents, w0)
    modifies api
    ensures api.Valid() && Wrote(start, calls, api.contents, w) && ok == !w.refresh && |calls| > |calls0|
  {
    hide Wrote;
    var outcome, found := api.Get();
    ghost var call := GetCall(found, outcome);
    OneMore(start, calls0, call, old(api.contents), api.contents, w0);
    calls := calls0 + [call];
    ok := outcome.Success?;
    w := if ok then Writer(Some(outcome.resourceVersion), false) else w0;
  }

  method EnsureExists(api: ApiServer, w0: Writer, ghost start: Writer, ghost calls0: seq<Call>)
    returns (w: Writer, verdict: Option<Verdict>, ghost calls: seq<Call>)
    requires api.Valid() && !w0.refresh && w0.resourceVersion.None? && Wrote(start, calls0, api.contents, w0)
    modifies api
    ensures api.Valid() && Disciplined(start, calls) && AllRecorded(calls, api.contents)
    ensures verdict != Some(Fail) ==> Wrote(start, calls, api.contents, w)
    ensures |calls| > |calls0| && calls[|calls| - 1].CreateCall?
    ensures var outcome := calls[|calls| - 1].outcome;
            && (outcome.Success? ==> verdict == None && w == Writer(Some(outcome.resourceVersion), false))
            && (!outcome.Success? ==> verdict == Some(if outcome.Forbidden? then Fail else Again))
  {
    hide Wrote;
    var outcome, found := api.Create();
    ghost var call := CreateCall(found, outcome);
    OneMore(start, calls0, call, old(api.contents), api.contents, w0);
    calls := calls0 + [call];
    match outcome {
      case AlreadyExists => w, verdict := w0.(refresh := true), Some(Again);
      case Forbidden => w, verdict := w0, Some(Fail);
      case Success(rv) => w, verdict := w0.(resourceVersion := Some(rv)), None;
      case _ => w, verdict := w0, Some(Again);
    }
  }

  method Write(api: ApiServer, status: Status, w0: Writer, ghost start: Writer, ghost calls0: seq<Call>)
    returns (w: Writer, verdict: Verdict, ghost calls: seq<Call>)
    requires api.Valid() && !w0.refresh && w0.resourceVersion.Some? && Wrote(start, calls0, api.contents, w0)
    modifies api
    ensures api.Valid() && Disciplined(start, calls) && AllRecorded(calls, api.contents)
    ensures verdict.Again? ==> Wrote(start, calls, api.contents, w)
    ensures |calls| > |calls0| && calls[|calls| - 1].UpdateCall?
    ensures var outcome := calls[|calls| - 1].outcome;
            && (outcome.Success? <==> verdict.Done?) && (outcome.Forbidden? <==> verdict.Fail?)
            && (verdict.Done? ==> WrittenLast(calls, w.resourceVersion, api.obj, status))
  {
    hide Disciplined, AllRecorded;
    var used := w0.resourceVersion.value;
    var outcome, found := api.UpdateStatus(used, status);
    ghost var call := UpdateCall(used, found, outcome);
    OneMore(start, calls0, call, old(api.contents), api.contents, w0);
    calls := calls0 + [call];
    match outcome {
      case Conflict => w, verdict := w0.(refresh := true), Again;
      case NotFound => w, verdict := w0.(resourceVersion := None), Again;
      case Forbidden => w, verdict := w0, Fail;
      case Success(rv) => w, verdict := w0.(resourceVersion := Some(rv)), Done;
      case _ => w, verdict := w0, Again;
    }
  }

  /** One run of the polled function. */
  method Poll(api: ApiServer, status: Status, w0: Writer, ghost start: Writer, ghost calls0: seq<Call>)
    returns (w: Writer, verdict: Verdict, ghost calls: seq<Call>)
    requires api.Valid() && Wrote(start, calls0, api.contents, w0)
    modifies api
    ensures api.Valid() && Disciplined(start, calls) && AllRecorded(calls, api.contents)
    ensures |calls| > |calls0| && (verdict.Again? ==> Wrote(start, calls, api.contents, w))
    ensures verdict.Done? ==> WrittenLast(calls, w.resourceVersion, api.obj, status)
    ensures verdict.Fail? ==> calls[|calls| - 1].outcome.Forbidden?
  {
    hide Disciplined, AllRecorded, Knows;
    w, calls := w0, calls0;
    if w.refresh {
      var ok;
      w, ok, calls := Refresh(api, w, start, calls);
      if !ok {
        return w, Again, calls;
      }
    }
    if w.resourceVersion.None? {
      var early;
      w, early, calls := EnsureExists(api, w, start, calls);
      if early.Some? {
        return w, early.value, calls;
      }
    }
    w, verdict, calls := Write(api, status, w, start, calls);
  }

  /** Writes `status`, starting from the resource version stored with the object. When it succeeds, the
      API object holds exactly that status, written over the version the writer knew, and the version to
      store is the one just written. It gives up only when it is refused or has run out of polls. */
  method WriteVersion(api: ApiServer, status: Status, stored: Option<nat>, polls: nat)
    returns (ok: bool, resourceVersion: Option<nat>, ghost calls: seq<Call>)
    requires api.Valid()
    modifies api
    ensures api.Valid() && Disciplined(Writer(stored, false), calls) && AllRecorded(calls, api.contents)
    ensures ok ==> WrittenLast(calls, resourceVersion, api.obj, status)
    ensures !ok ==>
              && resourceVersion == stored
              && (|calls| >= polls || (|calls| > 0 && calls[|calls| - 1].outcome.Forbidden?))
  {
    hide Disciplined, AllRecorded, Knows, WrittenLast;
    ghost var start := Writer(stored, false);
    var w := Writer(stored, false);
    calls := [];
    NothingWritten(start, api.contents);
    for poll := 0 to polls
      invariant api.Valid() && Wrote(start, calls, api.contents, w) && |calls| >= poll
    {
      var verdict;
      w, verdict, calls := Poll(api, status, w, start, calls);
      if verdict.Done? {
        return true, w.resourceVersion, calls;
      }
      if verdict.Fail? {
        return false, stored, calls;
      }
    }
    return false, stored, calls;
  }

  // -------------------------------------------------------------------------- what the discipline guarantees

  lemma Allowed(start: Writer, calls: seq<Call>, n: nat)
    requires Disciplined(start, calls) && n < |calls|
    ensures MayCall(Knows(start, calls, n), calls[n])
    ensures n < |calls| - 1 ==> !Stops(calls[n])
    ensures Knows(start, calls, n + 1) == Learn(Knows(start, calls, n), calls[n])
  {
  }

  /** Which call may come first: a stored version is used, and without one the object is created. */
  lemma FirstCall(stored: Option<nat>, calls: seq<Call>)
    requires Disciplined(Writer(stored, false), calls) && |calls| > 0
    ensures stored.None? ==> calls[0].CreateCall?
    ensures stored.Some? ==> calls[0].UpdateCall? && calls[0].used == stored.value
  {
    Allowed(Writer(stored, false), calls, 0);
  }

  /** `next` writes the status using version `rv`. */
  predicate Uses(next: Call, rv: nat) {
    next.UpdateCall? && next.used == rv
  }

  /** Which call may follow which. A version read or created is the one used next; an object that has gone
      is created again; one that exists or has changed is read; after any other error the same is tried
      again. */
  lemma NextCall(start: Writer, calls: seq<Call>, i: nat)
    requires Disciplined(start, calls) && i + 1 < |calls|
    ensures var call, next := calls[i], calls[i + 1];
            match call
            case GetCall(_, Success(rv)) => Uses(next, rv)
            case GetCall(_, _) => next.GetCall?
            case CreateCall(_, Success(rv)) => Uses(next, rv)
            case CreateCall(_, AlreadyExists) => next.GetCall?
            case CreateCall(_, outcome) => outcome.OtherError? && next.CreateCall?
            case UpdateCall(_, _, Conflict) => next.GetCall?
            case UpdateCall(_, _, NotFound) => next.CreateCall?
            case UpdateCall(used, _, outcome) => outcome.OtherError? && Uses(next, used)
  {
    hide Disciplined, Knows;
    Allowed(start, calls, i);
    Allowed(start, calls, i + 1);
  }

  /** The call tells the writer version `rv`. */
  predicate Tells(call: Call, rv: nat) {
    (call.GetCall? || call.CreateCall?) && call.outcome == Success(rv)
  }

  /** Every status write uses the version last read or created, or else the stored one; since then there
      have been only status writes with that version whose answer was lost. */
  lemma {:induction false} UsesLastVersion(stored: Option<nat>, calls: seq<Call>, j: nat) returns (i: int)
    requires Disciplined(Writer(stored, false), calls) && j < |calls| && calls[j].UpdateCall?
    ensures -1 <= i < j
    ensures i == -1 ==> stored == Some(calls[j].used)
    ensures i >= 0 ==> Tells(calls[i], calls[j].used)
    ensures forall m :: i < m < j ==> Uses(calls[m], calls[j].used) && calls[m].outcome.OtherError?
    decreases j
  {
    hide Disciplined;
    if j == 0 {
      FirstCall(stored, calls);
      i := -1;
    } else {
      NextCall(Writer(stored, false), calls, j - 1);
      if calls[j - 1].UpdateCall? {
        i := UsesLastVersion(stored, calls, j - 1);
      } else {
        i := j - 1;
      }
    }
  }

  /** A conflict is followed by a re-read that succeeds before the next status write. */
  lemma ConflictThenReread(start: Writer, calls: seq<Call>, i: nat, j: nat) returns (k: nat)
    requires Disciplined(start, calls) && i < j < |calls|
    requires calls[i].UpdateCall? && calls[i].outcome.Conflict? && calls[j].UpdateCall?
    ensures i < k < j && calls[k].GetCall? && calls[k].outcome.Success?
  {
    hide Disciplined, Knows;
    Allowed(start, calls, i);
    Allowed(start, calls, j);
    k := RefreshEnds(start, calls, i + 1, j);
  }

  lemma {:induction false} RefreshEnds(start: Writer, calls: seq<Call>, i: nat, j: nat) returns (k: nat)
    requires Disciplined(start, calls) && i <= j < |calls|
    requires Knows(start, calls, i).refresh && !Knows(start, calls, j).refresh
    ensures i <= k < j && calls[k].GetCall? && calls[k].outcome.Success?
  {
    hide Disciplined, Knows;
    Allowed(start, calls, j - 1);
    if Knows(start, calls, j - 1).refresh {
      k := j - 1;
    } else {
      k := RefreshEnds(start, calls, i, j - 1);
    }
  }

  /** No lost update: a status write that succeeds after a re-read found the object just as it was read. */
  lemma NoLostUpdate(start: Writer, calls: seq<Call>, contents: map<nat, Status>, k: nat, j: nat)
    requires Disciplined(start, calls) && AllRecorded(calls, contents) && k < j < |calls|
    requires calls[k].GetCall? && calls[k].outcome.Success? && calls[j].UpdateCall? && calls[j].outcome.Success?
    requires forall n :: k < n < j ==>
               calls[n].UpdateCall? && !calls[n].outcome.NotFound? && !calls[n].outcome.Conflict?
    ensures calls[j].found == calls[k].found
  {
    hide Disciplined, Knows;
    Allowed(start, calls, k);
    Allowed(start, calls, j);
    forall n | k < n < j ensures !calls[n].outcome.Success? { Allowed(start, calls, n); }
    VersionKept(start, calls, k + 1, j);
    assert Recorded(calls[k].found, contents) && Recorded(calls[j].found, contents);
  }

  lemma {:induction false} VersionKept(start: Writer, calls: seq<Call>, i: nat, j: nat)
    requires i <= j <= |calls|
    requires forall n :: i <= n < j ==>
               && calls[n].UpdateCall? && !calls[n].outcome.Success?
               && !calls[n].outcome.NotFound? && !calls[n].outcome.Conflict?
    ensures Knows(start, calls, j) == Knows(start, calls, i)
  {
    if i < j { VersionKept(start, calls, i, j - 1); }
  }

  /** After a conflict the writer does nothing but re-read, exactly as long as no re-read succeeds: if others
      delete the object, it neither creates nor writes it until somebody else has created it again. */
  lemma OnlyRereadsIff(start: Writer, calls: seq<Call>, i: nat, j: nat)
    requires Disciplined(start, calls) && i < j < |calls|
    requires calls[i].UpdateCall? && calls[i].outcome.Conflict?
    ensures (forall m :: i < m <= j ==> calls[m].GetCall?) <==> (forall m :: i < m < j ==> !calls[m].outcome.Success?)
  {
    hide Disciplined, Knows;
    if forall m :: i < m < j ==> !calls[m].outcome.Success? {
      forall m | i < m <= j ensures calls[m].GetCall? {
        MustRefresh(start, calls, i, m);
        Allowed(start, calls, m);
      }
    } else {
      var m :| i < m < j && calls[m].outcome.Success?;
      Allowed(start, calls, m);
      Allowed(start, calls, m + 1);
    }
  }

  lemma {:induction false} MustRefresh(start: Writer, calls: seq<Call>, i: nat, m: nat)
    requires Disciplined(start, calls) && i < m < |calls|
    requires calls[i].UpdateCall? && calls[i].outcome.Conflict?
    requires forall n :: i < n < m ==> !calls[n].outcome.Success?
    ensures Knows(start, calls, m).refresh
  {
    hide Disciplined, Knows;
    Allowed(start, calls, m - 1);
    if i + 1 < m { MustRefresh(start, calls, i, m - 1); }
  }

  /** What the writer sees of an object that was overwritten and then deleted for good. */
  function DeletedForGood(status: Status, rereads: nat): seq<Call> {
    [UpdateCall(1, Some(ApiObject(2, status)), Conflict)] + seq(rereads, _ => GetCall(None, NotFound))
  }

  /** It can get there, and stay there for any number of polls. */
  lemma DeletedAfterConflict(status: Status, rereads: nat)
    ensures var start, calls := Writer(Some(1), false), DeletedForGood(status, rereads);
            Disciplined(start, calls) && AllRecorded(calls, map[2 := status]) && Knows(start, calls, |calls|).refresh
  {
    var start, calls := Writer(Some(1), false), DeletedForGood(status, rereads);
    forall n | 0 <= n < |calls| ensures MayCall(Knows(start, calls, n), calls[n]) {
      DeletedKnows(status, rereads, n);
    }
    DeletedKnows(status, rereads, |calls|);
  }

  lemma {:induction false} DeletedKnows(status: Status, rereads: nat, n: nat)
    requires n <= rereads + 1
    ensures Knows(Writer(Some(1), false), DeletedForGood(status, rereads), n) == Writer(Some(1), n > 0)
  {
    if n > 0 { DeletedKnows(status, rereads, n - 1); }
  }
}
