/**
  The version manager: remembers, per federated resource, which version of the member object each
  cluster got, under the hashes of the template and overrides it was made from. `VersionManager`
  follows the source; `Replay` says what a history of calls amounts to.
 */
module Versions {
  import opened Wrappers
  import opened Sorting
  import opened StringOrder

  datatype ClusterObjectVersion = ClusterObjectVersion(clusterName: string, version: string)

  datatype PropagatedVersionStatus = PropagatedVersionStatus(
    templateVersion: string, overrideVersion: string, clusterVersions: seq<ClusterObjectVersion>)

  /** A federated resource: its name, and the hashes of its template and overrides or why there are none. */
  datatype Resource = Resource(
    name: string, templateVersion: Result<string, string>, overrideVersion: Result<string, string>)

  // -------------------------------------------------------------------------- cluster versions

  predicate ByName(a: ClusterObjectVersion, b: ClusterObjectVersion) {
    AtMost(a.clusterName, b.clusterName)
  }

  /** Sorted by name, every cluster at most once, no empty version. */
  ghost predicate WellFormed(versions: seq<ClusterObjectVersion>) {
    && SortedBy(ByName, versions)
    && (forall i, j :: 0 <= i < j < |versions| ==> versions[i].clusterName != versions[j].clusterName)
    && (forall i :: 0 <= i < |versions| ==> versions[i].version != "")
  }

  /** The versions by cluster. */
  function View(versions: seq<ClusterObjectVersion>): map<string, string> {
    if versions == [] then map[]
    else
      var last := versions[|versions| - 1];
      View(versions[..|versions| - 1])[last.clusterName := last.version]
  }

  lemma {:induction false} ViewEntries(versions: seq<ClusterObjectVersion>)
    requires forall i, j :: 0 <= i < j < |versions| ==> versions[i].clusterName != versions[j].clusterName
    ensures forall c, v :: (c in View(versions) && View(versions)[c] == v) <==> ClusterObjectVersion(c, v) in versions
  {
    if versions != [] {
      var front, last := versions[..|versions| - 1], versions[|versions| - 1];
      ViewEntries(front);
      assert versions == front + [last];
      forall c, v ensures (c in View(versions) && View(versions)[c] == v) <==> ClusterObjectVersion(c, v) in versions {
        if c == last.clusterName {
          assert forall i :: 0 <= i < |front| ==> front[i] == versions[i] && front[i].clusterName != c;
        }
      }
    }
  }

  lemma ByNameIsTotal()
    ensures TotalPreorder(ByName)
  {
    AtMostIsTotalOrder();
    forall a, b, c ensures Chains(ByName, a, b, c) {
      assert Chains(AtMost, a.clusterName, b.clusterName, c.clusterName);
    }
  }

  /** The non-empty entries of a version map. */
  function NonEmpty(versionMap: map<string, string>): map<string, string> {
    map c | c in versionMap && versionMap[c] != "" :: versionMap[c]
  }

  /** There is only one well-formed list of given versions. */
  lemma OneList(a: seq<ClusterObjectVersion>, b: seq<ClusterObjectVersion>)
    requires WellFormed(a) && WellFormed(b) && View(a) == View(b)
    ensures a == b
  {
    ViewEntries(a);
    ViewEntries(b);
    forall x ensures x in a <==> x in b {
      assert x in a <==> ClusterObjectVersion(x.clusterName, x.version) in a;
    }
    SameElements(a, b);
    AtMostIsTotalOrder();
    forall x, y | x in a && y in a && Tie(ByName, x, y) ensures x == y {
      assert Tie(AtMost, x.clusterName, y.clusterName);
    }
    SortedUnique(ByName, a, b);
  }

  lemma SameElements(a: seq<ClusterObjectVersion>, b: seq<ClusterObjectVersion>)
    requires forall i, j :: 0 <= i < j < |a| ==> a[i].clusterName != a[j].clusterName
    requires forall i, j :: 0 <= i < j < |b| ==> b[i].clusterName != b[j].clusterName
    requires forall x :: x in a <==> x in b
    ensures multiset(a) == multiset(b)
  {
    forall x ensures multiset(a)[x] == multiset(b)[x] {
      MultiplicityOne(a, x);
      MultiplicityOne(b, x);
      assert x in multiset(a) <==> x in a;
      assert x in multiset(b) <==> x in b;
    }
  }

  method VersionMapToClusterVersions(versionMap: map<string, string>) returns (versions: seq<ClusterObjectVersion>)
    ensures WellFormed(versions) && View(versions) == NonEmpty(versionMap)
  {
    var unsorted := [];
    var keys := versionMap.Keys;
    while keys != {}
      invariant keys <= versionMap.Keys
      invariant Lists(unsorted, versionMap, versionMap.Keys - keys)
      decreases keys
    {
      var c :| c in keys;
      keys := keys - {c};
      if versionMap[c] != "" {
        unsorted := unsorted + [ClusterObjectVersion(c, versionMap[c])];
      }
    }
    ByNameIsTotal();
    versions := SortBy(ByName, unsorted);
    ListsSorted(unsorted, versions, versionMap);
  }

  // `versions` holds each cluster of `done` that has a version once.
  ghost predicate Lists(versions: seq<ClusterObjectVersion>, versionMap: map<string, string>, done: set<string>) {
    && (forall i, j :: 0 <= i < j < |versions| ==> versions[i].clusterName != versions[j].clusterName)
    && (forall x :: x in versions <==>
          && x.clusterName in done && x.clusterName in versionMap
          && versionMap[x.clusterName] == x.version && x.version != "")
  }

  lemma ListsSorted(unsorted: seq<ClusterObjectVersion>, versions: seq<ClusterObjectVersion>,
                    versionMap: map<string, string>)
    requires Lists(unsorted, versionMap, versionMap.Keys) && SortOf(ByName, unsorted, versions)
    ensures WellFormed(versions) && View(versions) == NonEmpty(versionMap)
  {
    SameMembers(versions, unsorted);
    DistinctPreserved(unsorted, versions);
    forall i, j | 0 <= i < j < |versions| ensures versions[i].clusterName != versions[j].clusterName {
      assert versions[i] in unsorted && versions[j] in unsorted;
    }
    forall i | 0 <= i < |versions| ensures versions[i].version != "" {
      assert versions[i] in unsorted;
    }
    ViewEntries(versions);
    forall c ensures c in View(versions) <==> c in NonEmpty(versionMap) {
      if c in View(versions) { assert ClusterObjectVersion(c, View(versions)[c]) in versions; }
      if c in NonEmpty(versionMap) { assert ClusterObjectVersion(c, versionMap[c]) in versions; }
    }
    forall c | c in View(versions) ensures View(versions)[c] == NonEmpty(versionMap)[c] {
      assert ClusterObjectVersion(c, View(versions)[c]) in versions;
    }
  }

  function Members(names: seq<string>): set<string> {
    set c | c in names
  }

  /** The versions known after an update: the new ones, and of the old ones those of selected clusters
      that got no new one. An empty version erases. */
  function Merged(previous: map<string, string>, versionMap: map<string, string>,
                  selected: set<string>): map<string, string>
  {
    NonEmpty(Retained(previous, selected) + versionMap)
  }

  function Retained(previous: map<string, string>, selected: set<string>): map<string, string> {
    map c | c in previous && c in selected :: previous[c]
  }

  lemma RetainOne(previous: map<string, string>, selected: set<string>, versionMap: map<string, string>, c: string,
                  v: string)
    requires c !in previous
    ensures var now := Retained(previous, selected) + versionMap;
            Retained(previous[c := v], selected) + versionMap == if c in selected && c !in now then now[c := v] else now
  {
  }

  lemma FirstMerge(versionMap: map<string, string>, selected: set<string>)
    ensures Merged(map[], versionMap, selected) == NonEmpty(versionMap)
  {
    assert Retained(map[], selected) + versionMap == versionMap;
  }

  method UpdateClusterVersions(oldVersions: seq<ClusterObjectVersion>, newVersions0: map<string, string>,
                               selectedClusters: seq<string>)
    returns (versions: seq<ClusterObjectVersion>)
    requires WellFormed(oldVersions)
    ensures WellFormed(versions)
    ensures View(versions) == Merged(View(oldVersions), newVersions0, Members(selectedClusters))
  {
    var selected := Members(selectedClusters);
    var newVersions := newVersions0;
    for i := 0 to |oldVersions|
      invariant newVersions == Retained(View(oldVersions[..i]), selected) + newVersions0
    {
      var previous := oldVersions[i];
      assert oldVersions[..i + 1][..i] == oldVersions[..i];
      NotYetSeen(oldVersions, i);
      RetainOne(View(oldVersions[..i]), selected, newVersions0, previous.clusterName, previous.version);
      if previous.clusterName in selected {
        if previous.clusterName !in newVersions {
          newVersions := newVersions[previous.clusterName := previous.version];
        }
      }
    }
    assert oldVersions[..|oldVersions|] == oldVersions;
    versions := VersionMapToClusterVersions(newVersions);
  }

  lemma NotYetSeen(versions: seq<ClusterObjectVersion>, i: nat)
    requires WellFormed(versions) && i < |versions|
    ensures versions[i].clusterName !in View(versions[..i])
  {
    ViewNames(versions[..i]);
  }

  lemma {:induction false} ViewNames(versions: seq<ClusterObjectVersion>)
    ensures forall c :: c in View(versions) ==> exists i :: 0 <= i < |versions| && versions[i].clusterName == c
  {
    if versions != [] {
      var front := versions[..|versions| - 1];
      ViewNames(front);
      forall c | c in View(versions) ensures exists i :: 0 <= i < |versions| && versions[i].clusterName == c {
        if c in View(front) {
          var i :| 0 <= i < |front| && front[i].clusterName == c;
          assert versions[i].clusterName == c;
        } else {
          assert versions[|versions| - 1].clusterName == c;
        }
      }
    }
  }

  // -------------------------------------------------------------------------- what is remembered

  /** What is remembered for one resource. */
  datatype Record = Record(templateVersion: string, overrideVersion: string, versions: map<string, string>)

  type Store = map<string, Record>

  function RecordOf(status: PropagatedVersionStatus): Record {
    Record(status.templateVersion, status.overrideVersion, View(status.clusterVersions))
  }

  /** The versions `store` knows for a resource in its current state. */
  function Known(store: Store, name: string, template: string, overrides: string): map<string, string> {
    if name in store && store[name].templateVersion == template && store[name].overrideVersion == overrides
    then store[name].versions else map[]
  }

  function Recording(store: Store, name: string, template: string, overrides: string,
                     selected: set<string>, versionMap: map<string, string>): Store
  {
    store[name := Record(template, overrides, Merged(Known(store, name, template, overrides), versionMap, selected))]
  }

  function KnownIn(previous: Option<PropagatedVersionStatus>, template: string,
                   overrides: string): map<string, string>
  {
    match previous
    case Some(status) =>
      if status.templateVersion == template && status.overrideVersion == overrides
      then View(status.clusterVersions) else map[]
    case None => map[]
  }

  /** The status that replaces `previous`: what it says counts only under the same hashes. */
  method NextStatus(previous: Option<PropagatedVersionStatus>, template: string, overrides: string,
                    selectedClusters: seq<string>, versionMap: map<string, string>)
    returns (status: PropagatedVersionStatus)
    requires previous.Some? ==> WellFormed(previous.value.clusterVersions)
    ensures status.templateVersion == template && status.overrideVersion == overrides
    ensures WellFormed(status.clusterVersions)
    ensures View(status.clusterVersions) ==
            Merged(KnownIn(previous, template, overrides), versionMap, Members(selectedClusters))
  {
    var clusterVersions := [];
    if previous.Some? {
      var oldStatus := previous.value;
      if oldStatus.templateVersion == template && oldStatus.overrideVersion == overrides {
        clusterVersions := oldStatus.clusterVersions;
      }
      clusterVersions := UpdateClusterVersions(clusterVersions, versionMap, selectedClusters);
    } else {
      clusterVersions := VersionMapToClusterVersions(versionMap);
      FirstMerge(versionMap, Members(selectedClusters));
    }
    status := PropagatedVersionStatus(template, overrides, clusterVersions);
  }

  /** Different statuses are different records. */
  lemma SameRecord(previous: Option<PropagatedVersionStatus>, status: PropagatedVersionStatus)
    requires previous.Some? ==> WellFormed(previous.value.clusterVersions)
    requires WellFormed(status.clusterVersions) && previous != Some(status)
    ensures previous.Some? ==> RecordOf(previous.value) != RecordOf(status)
  {
    if previous.Some? && RecordOf(previous.value) == RecordOf(status) {
      OneList(previous.value.clusterVersions, status.clusterVersions);
    }
  }

  function RecordsOf(versions: map<string, PropagatedVersionStatus>): Store {
    map k | k in versions :: RecordOf(versions[k])
  }

  lemma KnownBefore(versions: map<string, PropagatedVersionStatus>, name: string, template: string, overrides: string)
    ensures Known(RecordsOf(versions), name, template, overrides) ==
            KnownIn(if name in versions then Some(versions[name]) else None, template, overrides)
  {
  }

  lemma NextRecord(status: PropagatedVersionStatus)
    ensures RecordOf(status) == Record(status.templateVersion, status.overrideVersion, View(status.clusterVersions))
  {
  }

  class VersionManager {
    var versions: map<string, PropagatedVersionStatus>

    ghost predicate Valid()
      reads this
    {
      forall k :: k in versions ==> WellFormed(versions[k].clusterVersions)
    }

    ghost function Contents(): Store
      reads this
    {
      RecordsOf(versions)
    }

    constructor ()
      ensures Valid() && Contents() == map[]
    {
      versions := map[];
    }

    /** The versions recorded for the resource as it is now. */
    method Get(resource: Resource) returns (r: Result<map<string, string>, string>)
      requires Valid()
      ensures resource.name !in versions ==> r == Ok(map[])
      ensures resource.name in versions && resource.templateVersion.Err? ==> r == Err(resource.templateVersion.error)
      ensures resource.name in versions && resource.templateVersion.Ok? && resource.overrideVersion.Err? ==>
                r == Err(resource.overrideVersion.error)
      ensures resource.templateVersion.Ok? && resource.overrideVersion.Ok? ==>
                r == Ok(Known(Contents(), resource.name, resource.templateVersion.value,
                              resource.overrideVersion.value))
    {
      if resource.name !in versions {
        return Ok(map[]);
      }
      var status := versions[resource.name];
      if resource.templateVersion.Err? {
        return Err(resource.templateVersion.error);
      }
      if resource.overrideVersion.Err? {
        return Err(resource.overrideVersion.error);
      }
      var versionMap := map[];
      var template, overrides := resource.templateVersion.value, resource.overrideVersion.value;
      if template == status.templateVersion && overrides == status.overrideVersion {
        for i := 0 to |status.clusterVersions|
          invariant versionMap == View(status.clusterVersions[..i])
        {
          assert status.clusterVersions[..i + 1][..i] == status.clusterVersions[..i];
          versionMap := versionMap[status.clusterVersions[i].clusterName := status.clusterVersions[i].version];
        }
        assert status.clusterVersions[..|status.clusterVersions|] == status.clusterVersions;
      }
      return Ok(versionMap);
    }

    /** Records versions; says whether the record changed and so has to be written to the API. */
    method Update(resource: Resource, selectedClusters: seq<string>, versionMap: map<string, string>)
      returns (r: Result<bool, string>)
      requires Valid()
      modifies this
      ensures Valid()
      ensures resource.templateVersion.Err? ==> r == Err(resource.templateVersion.error) && versions == old(versions)
      ensures resource.templateVersion.Ok? && resource.overrideVersion.Err? ==>
                r == Err(resource.overrideVersion.error) && versions == old(versions)
      ensures resource.templateVersion.Ok? && resource.overrideVersion.Ok? ==>
                && Contents() == Recording(old(Contents()), resource.name, resource.templateVersion.value,
                                           resource.overrideVersion.value, Members(selectedClusters), versionMap)
                && r == Ok(resource.name !in old(Contents()) ||
                           Contents()[resource.name] != old(Contents())[resource.name])
    {
      if resource.templateVersion.Err? {
        return Err(resource.templateVersion.error);
      }
      if resource.overrideVersion.Err? {
        return Err(resource.overrideVersion.error);
      }
      var template, overrides := resource.templateVersion.value, resource.overrideVersion.value;
      hide View, WellFormed, Merged, Members, Known, KnownIn, RecordOf;
      var previous := if resource.name in versions then Some(versions[resource.name]) else None;
      var status := NextStatus(previous, template, overrides, selectedClusters, versionMap);
      if previous == Some(status) {
        return Ok(false);
      }
      SameRecord(previous, status);
      ghost var before := Contents();
      KnownBefore(versions, resource.name, template, overrides);
      NextRecord(status);
      versions := versions[resource.name := status];
      assert Contents() == before[resource.name := RecordOf(status)];
      return Ok(true);
    }

    method Delete(name: string)
      requires Valid()
      modifies this
      ensures Valid() && Contents() == old(Contents()) - {name}
    {
      versions := versions - {name};
    }
  }

  // -------------------------------------------------------------------------- histories

  datatype Call =
    | UpdateCall(resource: Resource, selected: seq<string>, versionMap: map<string, string>)
    | DeleteCall(name: string)

  /** An update that gets as far as recording: both hashes can be determined. */
  predicate Records(call: Call, name: string) {
    && call.UpdateCall? && call.resource.name == name
    && call.resource.templateVersion.Ok? && call.resource.overrideVersion.Ok?
  }

  function AfterCall(store: Store, call: Call): Store {
    match call
    case UpdateCall(resource, selected, versionMap) =>
      if Records(call, resource.name)
      then Recording(store, resource.name, resource.templateVersion.value, resource.overrideVersion.value,
                     Members(selected), versionMap)
      else store
    case DeleteCall(name) => store - {name}
  }

  /** What is remembered after the first `n` calls. */
  function Replay(calls: seq<Call>, n: nat): Store
    requires n <= |calls|
  {
    if n == 0 then map[] else AfterCall(Replay(calls, n - 1), calls[n - 1])
  }

  /** A manager fed with `calls` remembers what `Replay` says. */
  method Feed(calls: seq<Call>) returns (m: VersionManager)
    ensures m.Valid() && m.Contents() == Replay(calls, |calls|)
  {
    m := new VersionManager();
    for n := 0 to |calls|
      invariant fresh(m) && m.Valid() && m.Contents() == Replay(calls, n)
    {
      match calls[n] {
        case UpdateCall(resource, selected, versionMap) => var _ := m.Update(resource, selected, versionMap);
        case DeleteCall(name) => m.Delete(name);
      }
    }
  }

  /** The resource as `Get` sees it: its name and current hashes. */
  datatype Query = Query(name: string, template: string, overrides: string)

  predicate RecordsFor(call: Call, q: Query) {
    && Records(call, q.name)
    && call.resource.templateVersion.value == q.template && call.resource.overrideVersion.value == q.overrides
  }

  /** The call records version `v` for cluster `c`. */
  predicate RecordsVersion(call: Call, q: Query, c: string, v: string) {
    RecordsFor(call, q) && v != "" && c in call.versionMap && call.versionMap[c] == v
  }

  /** The call leaves what is recorded for cluster `c` alone: it is about another resource, cannot
      record, or keeps the hashes and the cluster selected without a new version for it. */
  predicate Preserves(call: Call, q: Query, c: string) {
    match call
    case DeleteCall(name) => name != q.name
    case UpdateCall(_, selected, versionMap) =>
      Records(call, q.name) ==> RecordsFor(call, q) && c !in versionMap && c in selected
  }

  ghost predicate LastRecordedAt(calls: seq<Call>, n: nat, i: nat, q: Query, c: string, v: string) {
    && i < n <= |calls|
    && RecordsVersion(calls[i], q, c, v)
    && forall j :: i < j < n ==> Preserves(calls[j], q, c)
  }

  ghost predicate NothingEmpty(store: Store) {
    forall k, c :: k in store && c in store[k].versions ==> store[k].versions[c] != ""
  }

  /** An empty version is never remembered. */
  lemma {:induction false} ReplayNothingEmpty(calls: seq<Call>, n: nat)
    requires n <= |calls|
    ensures NothingEmpty(Replay(calls, n))
  {
    if n > 0 { ReplayNothingEmpty(calls, n - 1); }
  }

  /** Version `v` has been recorded for cluster `c` and not been invalidated since. */
  ghost predicate IsRecorded(calls: seq<Call>, n: nat, q: Query, c: string, v: string) {
    exists i: nat :: LastRecordedAt(calls, n, i, q, c, v)
  }

  lemma CallEffect(store: Store, call: Call, q: Query, c: string)
    requires NothingEmpty(store)
    ensures var known, after := Known(store, q.name, q.template, q.overrides),
                                Known(AfterCall(store, call), q.name, q.template, q.overrides);
            && (Preserves(call, q, c) ==> (c in after <==> c in known) && (c in known ==> after[c] == known[c]))
            && (!Preserves(call, q, c) ==>
                  (c in after <==> RecordsFor(call, q) && c in call.versionMap && call.versionMap[c] != ""))
            && (!Preserves(call, q, c) && c in after ==> after[c] == call.versionMap[c])
  {
  }

  /** What `Get` returns is exactly what the history says: version `v` for cluster `c` if and only if
      some update recorded `v` under the current hashes and every later call has preserved it. */
  lemma {:induction false} KnownIffRecorded(calls: seq<Call>, n: nat, q: Query, c: string, v: string)
    requires n <= |calls|
    ensures var known := Known(Replay(calls, n), q.name, q.template, q.overrides);
            (c in known && known[c] == v) <==> IsRecorded(calls, n, q, c, v)
  {
    if n > 0 {
      var call := calls[n - 1];
      ReplayNothingEmpty(calls, n - 1);
      CallEffect(Replay(calls, n - 1), call, q, c);
      KnownIffRecorded(calls, n - 1, q, c, v);
      RecordedLater(calls, n, q, c, v);
    }
  }

  lemma RecordedLater(calls: seq<Call>, n: nat, q: Query, c: string, v: string)
    requires 0 < n <= |calls|
    ensures IsRecorded(calls, n, q, c, v) <==>
            || RecordsVersion(calls[n - 1], q, c, v)
            || (Preserves(calls[n - 1], q, c) && IsRecorded(calls, n - 1, q, c, v))
  {
    hide RecordsVersion, Preserves;
    if IsRecorded(calls, n, q, c, v) {
      var i: nat :| LastRecordedAt(calls, n, i, q, c, v);
      if i < n - 1 { assert LastRecordedAt(calls, n - 1, i, q, c, v); }
    }
    if RecordsVersion(calls[n - 1], q, c, v) {
      assert LastRecordedAt(calls, n, n - 1, q, c, v);
    } else if Preserves(calls[n - 1], q, c) && IsRecorded(calls, n - 1, q, c, v) {
      var i: nat :| LastRecordedAt(calls, n - 1, i, q, c, v);
      assert LastRecordedAt(calls, n, i, q, c, v);
    }
  }

  // -------------------------------------------------------------------------- skipping an update

  function Digits(n: nat): (s: string)
    ensures |s| > 0
  {
    if n < 10 then [Digit(n)] else Digits(n / 10) + [Digit(n % 10)]
  }

  function Digit(n: nat): char
    requires n < 10
  {
    '0' + n as char
  }

  // Go's %d.
  function Decimal(n: int): string {
    if n < 0 then "-" + Digits(-n) else Digits(n)
  }

  /** The version of a member object: its generation if it has one, or else its resource version. */
  function ObjectVersion(generation: int, resourceVersion: string): (v: string)
    ensures |v| > 0 && (v[0] == 'g' <==> generation != 0)
  {
    if generation != 0 then "gen:" + Decimal(generation) else "rv:" + resourceVersion
  }

  predicate HasGenerationPrefix(version: string) {
    "gen:" <= version
  }

  /** `sameMetadata` says whether the metadata of desired and member object are equivalent. */
  predicate ObjectNeedsUpdate(sameMetadata: bool, generation: int, resourceVersion: string, recorded: string) {
    var target := ObjectVersion(generation, resourceVersion);
    recorded != target || (HasGenerationPrefix(target) && !sameMetadata)
  }

  /** The number a string of digits stands for. */
  function NumberOf(s: string): int {
    if s == [] then 0 else 10 * NumberOf(s[..|s| - 1]) + (s[|s| - 1] as int - '0' as int)
  }

  lemma {:induction false} DigitsStandFor(n: nat)
    ensures NumberOf(Digits(n)) == n
  {
    var s := Digits(n);
    if n >= 10 {
      DigitsStandFor(n / 10);
      assert s[..|s| - 1] == Digits(n / 10) && s[|s| - 1] == Digit(n % 10);
    }
  }

  /** A version shows the generation in decimal after "gen:", or without one the resource version after "rv:". */
  lemma VersionShows(generation: int, resourceVersion: string)
    ensures var v := ObjectVersion(generation, resourceVersion);
            && (generation == 0 ==> v == "rv:" + resourceVersion)
            && (generation > 0 ==> v[..4] == "gen:" && NumberOf(v[4..]) == generation)
            && (generation < 0 ==> v[..5] == "gen:-" && NumberOf(v[5..]) == -generation)
  {
    hide Digits, NumberOf;
    if generation > 0 {
      DigitsStandFor(generation);
      PrefixAndRest("gen:", Digits(generation));
    } else if generation < 0 {
      DigitsStandFor(-generation);
      PrefixAndRest("gen:-", Digits(-generation));
      assert "gen:" + ("-" + Digits(-generation)) == "gen:-" + Digits(-generation);
    }
  }

  lemma PrefixAndRest(prefix: string, rest: string)
    ensures (prefix + rest)[..|prefix|] == prefix && (prefix + rest)[|prefix|..] == rest
  {
  }

  lemma {:induction false} DigitsInjective(a: nat, b: nat)
    requires Digits(a) == Digits(b)
    ensures a == b
  {
    var x, y := Digits(a), Digits(b);
    assert x[|x| - 1] == Digit(a % 10) && y[|y| - 1] == Digit(b % 10);
    if a >= 10 && b >= 10 {
      assert x[..|x| - 1] == Digits(a / 10) && y[..|y| - 1] == Digits(b / 10);
      DigitsInjective(a / 10, b / 10);
    }
  }

  lemma {:induction false} DigitsAreDigits(n: nat)
    ensures Digits(n)[0] != '-'
  {
    if n >= 10 { DigitsAreDigits(n / 10); }
  }

  /** Versions tell objects apart by generation, or by resource version where there is no generation. */
  lemma VersionsDistinguish(g: int, rv: string, g': int, rv': string)
    ensures ObjectVersion(g, rv) == ObjectVersion(g', rv') <==> g == g' && (g == 0 ==> rv == rv')
  {
    var a, b := ObjectVersion(g, rv), ObjectVersion(g', rv');
    if a == b {
      if g != 0 && g' != 0 {
        assert a[4..] == Decimal(g) && b[4..] == Decimal(g');
        DecimalInjective(g, g');
      } else if g == 0 && g' == 0 {
        assert a[3..] == rv && b[3..] == rv';
      }
    }
  }

  lemma DecimalInjective(a: int, b: int)
    requires Decimal(a) == Decimal(b)
    ensures a == b
  {
    if a < 0 && b < 0 {
      assert Decimal(a)[1..] == Digits(-a) && Decimal(b)[1..] == Digits(-b);
      DigitsInjective(-a, -b);
    } else if a >= 0 && b >= 0 {
      DigitsInjective(a, b);
    } else if a >= 0 {
      DigitsAreDigits(a);
    } else {
      DigitsAreDigits(b);
    }
  }

  /** The version looked up for a cluster; a cluster that is not known reads as the empty version. */
  function VersionForCluster(known: map<string, string>, c: string): string {
    if c in known then known[c] else ""
  }

  /** An update of a member object is skipped exactly if the version of that very object is the last one
      recorded for the current template and overrides, nothing since has invalidated it, and the
      metadata agrees whenever the object has a generation. */
  lemma SkippedIffCurrent(calls: seq<Call>, q: Query, c: string, sameMetadata: bool, generation: int,
                          resourceVersion: string)
    ensures var recorded := VersionForCluster(Known(Replay(calls, |calls|), q.name, q.template, q.overrides), c);
            !ObjectNeedsUpdate(sameMetadata, generation, resourceVersion, recorded) <==>
            && IsRecorded(calls, |calls|, q, c, ObjectVersion(generation, resourceVersion))
            && (generation != 0 ==> sameMetadata)
  {
    var target := ObjectVersion(generation, resourceVersion);
    KnownIffRecorded(calls, |calls|, q, c, target);
    if generation == 0 {
      assert target[0] == 'r';
    } else {
      assert target[..4] == "gen:";
    }
  }
}
