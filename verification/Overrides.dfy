/**
  Writing a scheduling result back to a federated object: its list of clusters and, among each cluster's
  overrides, the one that sets the number of replicas.
 */
module Overrides {
  import opened Wrappers
  import opened Sorting
  import opened StringOrder

  const REPLICAS_PATH := "/spec/replicas"
  const INVALID_PATHS := {"/metadata/namespace", "/metadata/name", "/metadata/generateName", "/kind"}

  // A Go interface{}: a float64, an int64 or anything else.
  datatype Value = Float(x: real) | Int(n: int) | Other(json: string)

  datatype ClusterOverride = ClusterOverride(op: string, path: string, value: Value)

  datatype OverrideItem = OverrideItem(clusterName: string, clusterOverrides: seq<ClusterOverride>)

  type OverridesMap = map<string, seq<ClusterOverride>>

  /** The parts of a federated object that scheduling writes. A missing list of clusters is not an empty
      one. The object is an unstructured one: its fields may not have the types expected of them, so that
      they cannot be read, or the list of clusters cannot be put into what stands in its place. */
  datatype FedObject = FedObject(readable: bool, settable: bool, clusterNames: Option<seq<string>>,
                                 overrides: seq<OverrideItem>)

  // -------------------------------------------------------------------------- reading overrides

  // What a value becomes when it is marshalled to JSON and back: numbers are read as float64.
  function Json(v: Value): Value {
    if v.Int? then Float(v.n as real) else v
  }

  function JsonList(s: seq<ClusterOverride>): (r: seq<ClusterOverride>)
    ensures |r| == |s| && forall i :: 0 <= i < |s| ==> r[i] == s[i].(value := Json(s[i].value))
  {
    seq(|s|, i requires 0 <= i < |s| => s[i].(value := Json(s[i].value)))
  }

  predicate PathsDistinct(s: seq<ClusterOverride>) {
    forall i, j :: 0 <= i < j < |s| ==> s[i].path != s[j].path
  }

  predicate ValidList(s: seq<ClusterOverride>) {
    PathsDistinct(s) && forall i :: 0 <= i < |s| ==> s[i].path !in INVALID_PATHS
  }

  predicate ValidItems(items: seq<OverrideItem>) {
    && (forall i, j :: 0 <= i < j < |items| ==> items[i].clusterName != items[j].clusterName)
    && forall i :: 0 <= i < |items| ==> ValidList(items[i].clusterOverrides)
  }

  ghost predicate ValidMap(m: OverridesMap) {
    forall c :: c in m ==> ValidList(m[c])
  }

  function Decoded(items: seq<OverrideItem>): OverridesMap {
    if items == [] then map[]
    else
      var last := items[|items| - 1];
      Decoded(items[..|items| - 1])[last.clusterName := JsonList(last.clusterOverrides)]
  }

  datatype ReadError = DuplicateCluster(cluster: string) | InvalidPath(path: string) | DuplicatePath(path: string)

  /** Which error is reported for a list: a path that may not be overridden, or one given twice. */
  ghost predicate Explains(error: ReadError, s: seq<ClusterOverride>) {
    match error
    case InvalidPath(path) => path in INVALID_PATHS && exists i :: 0 <= i < |s| && s[i].path == path
    case DuplicatePath(path) => exists i, j :: 0 <= i < j < |s| && s[i].path == path && s[j].path == path
    case DuplicateCluster(_) => false
  }

  /** And for the whole: a cluster named twice, or what is wrong with one of the lists. */
  ghost predicate ExplainsItems(error: ReadError, items: seq<OverrideItem>) {
    || (error.DuplicateCluster? &&
        exists i, j :: 0 <= i < j < |items| && items[i].clusterName == items[j].clusterName == error.cluster)
    || exists i :: 0 <= i < |items| && Explains(error, items[i].clusterOverrides)
  }

  /** Neither the name, namespace or kind of an object can be overridden, nor one path twice. */
  lemma WhatIsForbidden(s: seq<ClusterOverride>)
    ensures ValidList(s) <==>
            && (forall i, j :: 0 <= i < j < |s| ==> s[i].path != s[j].path)
            && (forall i :: 0 <= i < |s| ==>
                  && s[i].path != "/metadata/namespace" && s[i].path != "/metadata/name"
                  && s[i].path != "/metadata/generateName" && s[i].path != "/kind")
  {
  }

  method CheckPaths(s: seq<ClusterOverride>) returns (error: Option<ReadError>)
    ensures error.None? <==> ValidList(s)
    ensures error.Some? ==> Explains(error.value, s)
  {
    var paths: set<string> := {};
    for i := 0 to |s|
      invariant ValidList(s[..i])
      invariant forall p :: p in paths <==> exists k :: 0 <= k < i && s[k].path == p
    {
      var path := s[i].path;
      if path in INVALID_PATHS {
        return Some(InvalidPath(path));
      }
      if path in paths {
        return Some(DuplicatePath(path));
      }
      paths := paths + {path};
    }
    assert s[..|s|] == s;
    return None;
  }

  /** Reads the overrides, unless a cluster is named twice, or a path is given twice for a cluster or may
      not be overridden. */
  method GetOverrides(items: seq<OverrideItem>) returns (r: Result<OverridesMap, ReadError>)
    ensures r.Ok? <==> ValidItems(items)
    ensures r.Ok? ==> r.value == Decoded(items) && ValidMap(r.value)
    ensures r.Err? ==> ExplainsItems(r.error, items)
  {
    var m: OverridesMap := map[];
    for i := 0 to |items|
      invariant ValidItems(items[..i]) && m == Decoded(items[..i]) && ValidMap(m)
    {
      assert items[..i + 1][..i] == items[..i];
      DecodedKeys(items[..i]);
      var item := items[i];
      if item.clusterName in m {
        return Err(DuplicateCluster(item.clusterName));
      }
      var error := CheckPaths(item.clusterOverrides);
      if error.Some? {
        return Err(error.value);
      }
      m := m[item.clusterName := JsonList(item.clusterOverrides)];
    }
    assert items[..|items|] == items;
    return Ok(m);
  }

  lemma {:induction false} DecodedKeys(items: seq<OverrideItem>)
    ensures forall c :: c in Decoded(items) <==> exists i :: 0 <= i < |items| && items[i].clusterName == c
  {
    if items != [] {
      var front, last := items[..|items| - 1], items[|items| - 1];
      DecodedKeys(front);
      forall c | exists i :: 0 <= i < |items| && items[i].clusterName == c ensures c in Decoded(items) {
        var i :| 0 <= i < |items| && items[i].clusterName == c;
        if i < |items| - 1 { assert front[i].clusterName == c; }
      }
    }
  }

  lemma {:induction false} DecodedAt(items: seq<OverrideItem>, i: nat)
    requires ValidItems(items) && i < |items|
    ensures items[i].clusterName in Decoded(items)
    ensures Decoded(items)[items[i].clusterName] == JsonList(items[i].clusterOverrides)
  {
    hide JsonList, ValidList;
    DecodedStep(items);
    var front := items[..|items| - 1];
    if i < |items| - 1 {
      assert ValidItems(front) && front[i] == items[i];
      DecodedAt(front, i);
    }
  }

  lemma DecodedStep(items: seq<OverrideItem>)
    requires ValidItems(items) && items != []
    ensures var front, last := items[..|items| - 1], items[|items| - 1];
            && Decoded(items) == Decoded(front)[last.clusterName := JsonList(last.clusterOverrides)]
            && last.clusterName !in Decoded(front)
  {
    hide JsonList, ValidList;
    DecodedKeys(items[..|items| - 1]);
  }

  // -------------------------------------------------------------------------- writing overrides

  /** The items list the map, in some order. */
  ghost predicate ListsMap(items: seq<OverrideItem>, m: OverridesMap) {
    && (forall i, j :: 0 <= i < j < |items| ==> items[i].clusterName != items[j].clusterName)
    && (forall i :: 0 <= i < |items| ==>
          items[i].clusterName in m && items[i].clusterOverrides == m[items[i].clusterName])
    && (forall c :: c in m ==> exists i :: 0 <= i < |items| && items[i].clusterName == c)
  }

  /** Goes through the map in an arbitrary order. */
  method ToUnstructuredSlice(m: OverridesMap) returns (items: seq<OverrideItem>)
    ensures ListsMap(items, m)
  {
    items := [];
    var todo := m.Keys;
    while todo != {}
      invariant todo <= m.Keys && ListsMap(items, map c | c in m && c !in todo :: m[c])
    {
      var c :| c in todo;
      ghost var was, before := items, todo;
      items := items + [OverrideItem(c, m[c])];
      todo := todo - {c};
      forall d | d in m && d !in todo ensures exists i :: 0 <= i < |items| && items[i].clusterName == d {
        if d == c {
          assert items[|was|].clusterName == d;
        } else {
          assert d in map e | e in m && e !in before :: m[e];
          var i :| 0 <= i < |was| && was[i].clusterName == d;
          assert items[i].clusterName == d;
        }
      }
    }
    assert (map c | c in m && c !in todo :: m[c]) == m;
  }

  /** What is written is what will be read, with all numbers turned into floats. */
  lemma RoundTrip(items: seq<OverrideItem>, m: OverridesMap)
    requires ListsMap(items, m) && ValidMap(m)
    ensures ValidItems(items) && Decoded(items) == map c | c in m :: JsonList(m[c])
  {
    hide ValidList, JsonList, Decoded;
    forall i | 0 <= i < |items| ensures ValidList(items[i].clusterOverrides) {
      assert items[i].clusterName in m;
    }
    DecodedKeys(items);
    forall c | c in m ensures c in Decoded(items) && Decoded(items)[c] == JsonList(m[c]) {
      var i :| 0 <= i < |items| && items[i].clusterName == c;
      DecodedAt(items, i);
    }
  }

  // -------------------------------------------------------------------------- the replicas override

  predicate HasReplicas(s: seq<ClusterOverride>) {
    exists i :: 0 <= i < |s| && s[i].path == REPLICAS_PATH
  }

  // Go's int64(x): truncation toward zero.
  function Trunc(x: real): int {
    if x >= 0.0 then x.Floor else -((-x).Floor)
  }

  predicate Sets(v: Value, n: int) {
    v.Float? && Trunc(v.x) == n
  }

  /** Every replicas override in the list sets `n`. */
  predicate AllSet(s: seq<ClusterOverride>, n: Option<int>) {
    forall i :: 0 <= i < |s| && s[i].path == REPLICAS_PATH ==> n.Some? && Sets(s[i].value, n.value)
  }

  function Planned(result: map<string, int>, c: string): Option<int> {
    if c in result then Some(result[c]) else None
  }

  /** The overrides that set replicas are exactly those of the scheduling result. */
  ghost predicate Agrees(m: OverridesMap, result: map<string, int>) {
    && (forall c :: c in m ==> AllSet(m[c], Planned(result, c)))
    && (forall c :: c in result ==> c in m && HasReplicas(m[c]))
  }

  ghost function WithReplicas(m: OverridesMap, within: set<string>): set<string> {
    set c | c in within && c in m && HasReplicas(m[c])
  }

  /** The replicas overrides of one cluster: how many there are, or that one of them differs. */
  method CheckCluster(s: seq<ClusterOverride>, n: Option<int>, count: int) returns (differs: bool, newCount: int)
    ensures differs <==> !AllSet(s, n)
    ensures !differs && PathsDistinct(s) ==> newCount == count + if HasReplicas(s) then 1 else 0
  {
    newCount := count;
    for i := 0 to |s|
      invariant AllSet(s[..i], n)
      invariant PathsDistinct(s) ==> newCount == count + if HasReplicas(s[..i]) then 1 else 0
    {
      assert HasReplicas(s[..i + 1]) <==> HasReplicas(s[..i]) || s[i].path == REPLICAS_PATH by {
        SetReplicasLast(s, i);
      }
      if s[i].path != REPLICAS_PATH {
        continue;
      }
      if !s[i].value.Float? {
        return true, newCount;
      }
      var value := Trunc(s[i].value.x);
      if n.None? || value != n.value {
        return true, newCount;
      }
      newCount := newCount + 1;
    }
    assert s[..|s|] == s;
    return false, newCount;
  }

  lemma SetReplicasLast(s: seq<ClusterOverride>, i: nat)
    requires i < |s|
    ensures HasReplicas(s[..i + 1]) <==> HasReplicas(s[..i]) || s[i].path == REPLICAS_PATH
  {
    if HasReplicas(s[..i]) {
      var k :| 0 <= k < i && s[..i][k].path == REPLICAS_PATH;
      assert s[..i + 1][k].path == REPLICAS_PATH;
    }
    if s[i].path == REPLICAS_PATH { assert s[..i + 1][i].path == REPLICAS_PATH; }
  }

  /** Counts the overrides that agree and compares the count with the size of the result. For lists
      without repeated paths that is an exact test. */
  method OverrideUpdateNeeded(m: OverridesMap, result: map<string, int>) returns (needed: bool)
    ensures ValidMap(m) ==> (needed <==> !Agrees(m, result))
    ensures !needed ==> forall c :: c in m ==> AllSet(m[c], Planned(result, c))
  {
    var checkLen := 0;
    var todo := m.Keys;
    while todo != {}
      invariant todo <= m.Keys
      invariant forall c :: c in m && c !in todo ==> AllSet(m[c], Planned(result, c))
      invariant ValidMap(m) ==> checkLen == |WithReplicas(m, m.Keys - todo)|
    {
      var c :| c in todo;
      var differs;
      differs, checkLen := CheckCluster(m[c], Planned(result, c), checkLen);
      if differs {
        return true;
      }
      OneMoreCluster(m, todo, c);
      todo := todo - {c};
    }
    assert m.Keys - {} == m.Keys;
    if forall c :: c in m ==> AllSet(m[c], Planned(result, c)) { Pigeonhole(m, result); }
    return checkLen != |result|;
  }

  lemma OneMoreCluster(m: OverridesMap, todo: set<string>, c: string)
    requires c in todo && todo <= m.Keys
    ensures |WithReplicas(m, m.Keys - (todo - {c}))| ==
            |WithReplicas(m, m.Keys - todo)| + if HasReplicas(m[c]) then 1 else 0
  {
    var before, after := WithReplicas(m, m.Keys - todo), WithReplicas(m, m.Keys - (todo - {c}));
    assert after == if HasReplicas(m[c]) then before + {c} else before;
  }

  /** As many agreeing clusters as scheduled ones means every scheduled one agrees. */
  lemma Pigeonhole(m: OverridesMap, result: map<string, int>)
    requires forall c :: c in m ==> AllSet(m[c], Planned(result, c))
    ensures |WithReplicas(m, m.Keys)| == |result| <==> Agrees(m, result)
  {
    var counted := WithReplicas(m, m.Keys);
    assert counted <= result.Keys;
    SubsetSize(counted, result.Keys);
    assert |result| == |result.Keys|;
    if Agrees(m, result) { assert counted == result.Keys; }
  }

  lemma SubsetSize(a: set<string>, b: set<string>)
    requires a <= b
    ensures |a| == |b| <==> a == b
  {
    assert b == a + (b - a);
  }

  /** The replicas a list sets: its replicas override, truncated, or nothing if that is not a float. */
  function ReplicasOf(s: seq<ClusterOverride>): Option<int> {
    if s == [] then None
    else if s[0].path == REPLICAS_PATH then (if s[0].value.Float? then Some(Trunc(s[0].value.x)) else None)
    else ReplicasOf(s[1..])
  }

  lemma {:induction false} ReplicasOfAt(s: seq<ClusterOverride>, i: nat)
    requires i < |s| && s[i].path == REPLICAS_PATH && PathsDistinct(s)
    ensures ReplicasOf(s) == if s[i].value.Float? then Some(Trunc(s[i].value.x)) else None
  {
    if i > 0 { ReplicasOfAt(s[1..], i - 1); }
  }

  function Projection(m: OverridesMap): map<string, Option<int>> {
    map c | c in m && HasReplicas(m[c]) :: ReplicasOf(m[c])
  }

  /** Agreement says that the map from clusters to the replicas they are set to is the scheduling result. */
  lemma AgreesIffProjection(m: OverridesMap, result: map<string, int>)
    requires ValidMap(m)
    ensures Agrees(m, result) <==> Projection(m) == map c | c in result :: Some(result[c])
  {
    hide ReplicasOf;
    var wanted := map c | c in result :: Some(result[c]);
    forall c | c in m && HasReplicas(m[c])
      ensures AllSet(m[c], Planned(result, c)) <==> ReplicasOf(m[c]) == Planned(result, c) && Planned(result, c).Some?
    {
      assert ValidList(m[c]);
      var i :| 0 <= i < |m[c]| && m[c][i].path == REPLICAS_PATH;
      ReplicasOfAt(m[c], i);
    }
    if Projection(m) == wanted {
      forall c | c in m ensures AllSet(m[c], Planned(result, c)) {
        if HasReplicas(m[c]) { assert c in Projection(m) && c in wanted; }
      }
      forall c | c in result ensures c in m && HasReplicas(m[c]) { assert c in wanted && c in Projection(m); }
    }
  }

  // -------------------------------------------------------------------------- updating the replicas overrides

  /** The overrides that do not set replicas, in order. */
  function Others(s: seq<ClusterOverride>): seq<ClusterOverride> {
    if s == [] then []
    else
      var last := s[|s| - 1];
      Others(s[..|s| - 1]) + if last.path == REPLICAS_PATH then [] else [last]
  }

  lemma {:induction false} OthersConcat(a: seq<ClusterOverride>, b: seq<ClusterOverride>)
    ensures Others(a + b) == Others(a) + Others(b)
  {
    if b == [] {
      assert a + b == a;
    } else {
      assert (a + b)[..|a + b| - 1] == a + b[..|b| - 1];
      OthersConcat(a, b[..|b| - 1]);
    }
  }

  predicate SetsReplicas(s: seq<ClusterOverride>, i: nat) {
    i < |s| && s[i].path == REPLICAS_PATH
  }

  /** What becomes of the list as a whole. An added override has no operation, which means "replace"; a
      changed one keeps its own. */
  ghost predicate Edited(s: seq<ClusterOverride>, n: Option<int>, r: seq<ClusterOverride>) {
    if !HasReplicas(s) then
      r == if n.Some? then s + [ClusterOverride("", REPLICAS_PATH, Int(n.value))] else s
    else
      exists i: nat :: SetsReplicas(s, i) &&
        r == if n.Some? then s[i := s[i].(value := Int(n.value))] else s[..i] + s[i + 1..]
  }

  /** A list with its replicas override removed, changed in place, or added at the end. */
  ghost predicate ListUpdated(s: seq<ClusterOverride>, n: Option<int>, r: seq<ClusterOverride>) {
    && Edited(s, n, r)
    && Others(r) == Others(s)
    && (ValidList(s) ==> ValidList(r))
    && (n.None? && PathsDistinct(s) ==> !HasReplicas(r))
    && (n.Some? ==> HasReplicas(r) && (PathsDistinct(s) ==> AllSet(JsonList(r), n)))
    && (n.Some? && HasReplicas(s) ==>
          |r| == |s| && forall i :: 0 <= i < |s| ==> r[i].op == s[i].op && r[i].path == s[i].path)
  }

  method RemoveReplicas(s: seq<ClusterOverride>) returns (r: seq<ClusterOverride>)
    ensures ListUpdated(s, None, r)
  {
    hide ListUpdated;
    for i := 0 to |s|
      invariant !HasReplicas(s[..i])
    {
      if s[i].path == REPLICAS_PATH {
        Removed(s, i);
        r := s[..i] + s[i + 1..];
        return;
      }
      SetReplicasLast(s, i);
    }
    NothingToRemove(s);
    return s;
  }

  lemma Removed(s: seq<ClusterOverride>, i: nat)
    requires i < |s| && s[i].path == REPLICAS_PATH
    ensures ListUpdated(s, None, s[..i] + s[i + 1..])
  {
    OthersWithout(s, i, []);
    hide Others, ValidList, PathsDistinct, AllSet, JsonList;
    assert SetsReplicas(s, i);
    assert s[..i] + [] + s[i + 1..] == s[..i] + s[i + 1..];
    WithoutOne(s, i);
  }

  lemma WithoutOne(s: seq<ClusterOverride>, i: nat)
    requires i < |s| && s[i].path == REPLICAS_PATH
    ensures var r := s[..i] + s[i + 1..];
            (ValidList(s) ==> ValidList(r)) && (PathsDistinct(s) ==> !HasReplicas(r))
  {
    var r := s[..i] + s[i + 1..];
    assert forall k :: 0 <= k < |r| ==> r[k] == s[if k < i then k else k + 1];
  }

  lemma NothingToRemove(s: seq<ClusterOverride>)
    requires !HasReplicas(s[..|s|])
    ensures ListUpdated(s, None, s)
  {
    assert s[..|s|] == s;
  }

  lemma OthersWithout(s: seq<ClusterOverride>, i: nat, middle: seq<ClusterOverride>)
    requires i < |s| && s[i].path == REPLICAS_PATH && Others(middle) == []
    ensures Others(s[..i] + middle + s[i + 1..]) == Others(s)
  {
    assert s == s[..i] + [s[i]] + s[i + 1..];
    OthersConcat(s[..i], [s[i]]);
    OthersConcat(s[..i] + [s[i]], s[i + 1..]);
    OthersConcat(s[..i], middle);
    OthersConcat(s[..i] + middle, s[i + 1..]);
  }

  method SetReplicas(s: seq<ClusterOverride>, n: int) returns (r: seq<ClusterOverride>)
    ensures ListUpdated(s, Some(n), r)
  {
    hide ListUpdated;
    for i := 0 to |s|
      invariant !HasReplicas(s[..i])
    {
      if s[i].path == REPLICAS_PATH {
        Changed(s, i, n);
        r := s[i := s[i].(value := Int(n))];
        return;
      }
      SetReplicasLast(s, i);
    }
    Added(s, n);
    r := s + [ClusterOverride("", REPLICAS_PATH, Int(n))];
  }

  /** Truncation drops the fraction, on either side of zero. */
  lemma TruncTowardZero(x: real)
    ensures x >= 0.0 ==> Trunc(x) as real <= x < Trunc(x) as real + 1.0
    ensures x < 0.0 ==> Trunc(x) as real - 1.0 < x <= Trunc(x) as real
  {
    var n := (-x).Floor;
    assert n as real <= -x < n as real + 1.0;
    assert (-n) as real == -(n as real);
  }

  lemma TruncExact(n: int)
    ensures Trunc(n as real) == n
  {
    assert (n as real).Floor == n;
    assert -(n as real) == (-n) as real;
  }

  lemma Changed(s: seq<ClusterOverride>, i: nat, n: int)
    requires i < |s| && s[i].path == REPLICAS_PATH
    ensures ListUpdated(s, Some(n), s[i := s[i].(value := Int(n))])
  {
    var changed := s[i].(value := Int(n));
    var r := s[i := changed];
    hide Others, Trunc;
    SingleReplicas(changed);
    assert SetsReplicas(s, i);
    OthersWithout(s, i, [changed]);
    assert r == s[..i] + [changed] + s[i + 1..];
    assert r[i].path == REPLICAS_PATH;
    TruncExact(n);
  }

  lemma SingleReplicas(o: ClusterOverride)
    requires o.path == REPLICAS_PATH
    ensures Others([o]) == []
  {
  }

  lemma Added(s: seq<ClusterOverride>, n: int)
    requires !HasReplicas(s[..|s|])
    ensures ListUpdated(s, Some(n), s + [ClusterOverride("", REPLICAS_PATH, Int(n))])
  {
    assert s[..|s|] == s;
    var added := ClusterOverride("", REPLICAS_PATH, Int(n));
    var r := s + [added];
    hide Others, Trunc;
    SingleReplicas(added);
    OthersConcat(s, [added]);
    assert r[|s|].path == REPLICAS_PATH;
    forall i | 0 <= i < |s| ensures r[i].path != REPLICAS_PATH { assert s[i].path != REPLICAS_PATH; }
    TruncExact(n);
  }

  function Lookup(m: OverridesMap, c: string): seq<ClusterOverride> {
    if c in m then m[c] else []
  }

  /** Every list has been brought in line with the result, and no list has appeared for other clusters. */
  ghost predicate MapUpdated(m: OverridesMap, result: map<string, int>, r: OverridesMap) {
    && r.Keys == m.Keys + result.Keys
    && forall c :: c in r ==> ListUpdated(Lookup(m, c), Planned(result, c), r[c])
  }

  method RemoveUnscheduled(m: OverridesMap, result: map<string, int>) returns (r: OverridesMap)
    ensures r.Keys == m.Keys
    ensures forall c :: c in m ==> if c in result then r[c] == m[c] else ListUpdated(m[c], None, r[c])
  {
    hide ListUpdated;
    r := m;
    var todo := m.Keys;
    while todo != {}
      invariant todo <= m.Keys && r.Keys == m.Keys
      invariant forall c :: c in m ==> if c in todo || c in result then r[c] == m[c] else ListUpdated(m[c], None, r[c])
    {
      var c :| c in todo;
      if c !in result {
        var list := RemoveReplicas(r[c]);
        r := r[c := list];
      }
      todo := todo - {c};
    }
  }

  method UpdateOverridesMap(m: OverridesMap, result: map<string, int>) returns (r: OverridesMap)
    ensures MapUpdated(m, result, r)
  {
    hide ListUpdated;
    r := RemoveUnscheduled(m, result);
    var todo := result.Keys;
    while todo != {}
      invariant todo <= result.Keys && r.Keys == m.Keys + (result.Keys - todo)
      invariant forall c :: c in todo ==> Lookup(r, c) == Lookup(m, c)
      invariant forall c :: c in r && c !in todo ==> ListUpdated(Lookup(m, c), Planned(result, c), r[c])
    {
      var c :| c in todo;
      var list := SetReplicas(Lookup(r, c), result[c]);
      r := r[c := list];
      todo := todo - {c};
    }
  }

  /** After the update and the round trip through JSON, the replicas overrides agree with the result. */
  lemma UpdateEstablishes(m: OverridesMap, result: map<string, int>, r: OverridesMap)
    requires ValidMap(m) && MapUpdated(m, result, r)
    ensures ValidMap(r) && Agrees(map c | c in r :: JsonList(r[c]), result)
  {
    hide ListUpdated, ValidList, AllSet, JsonList, HasReplicas;
    forall c | c in r
      ensures ValidList(r[c]) && AllSet(JsonList(r[c]), Planned(result, c))
      ensures c in result ==> HasReplicas(JsonList(r[c]))
    {
      assert ValidList(Lookup(m, c)) by { if c !in m { NoOverridesValid(); } }
      ListAgrees(Lookup(m, c), Planned(result, c), r[c]);
    }
  }

  lemma NoOverridesValid()
    ensures ValidList([])
  {
  }

  lemma ListAgrees(s: seq<ClusterOverride>, n: Option<int>, r: seq<ClusterOverride>)
    requires ListUpdated(s, n, r) && ValidList(s)
    ensures ValidList(r) && AllSet(JsonList(r), n) && (n.Some? ==> HasReplicas(JsonList(r)))
  {
    hide Others;
    if n.Some? {
      var i :| 0 <= i < |r| && r[i].path == REPLICAS_PATH;
      assert JsonList(r)[i].path == REPLICAS_PATH;
    } else {
      forall i | 0 <= i < |r| ensures JsonList(r)[i].path != REPLICAS_PATH { assert r[i].path != REPLICAS_PATH; }
    }
  }

  // -------------------------------------------------------------------------- placement

  /** Sorts both lists and compares them; a missing list differs from an empty one. */
  method PlacementUpdateNeeded(names: Option<seq<string>>, newNames: seq<string>)
    returns (needed: bool, sortedNames: seq<string>)
    ensures SortOf(AtMost, newNames, sortedNames)
    ensures needed <==> !SameClusters(names, newNames)
  {
    AtMostIsTotalOrder();
    sortedNames := SortBy(AtMost, newNames);
    if names.None? {
      return true, sortedNames;
    }
    var sorted := SortBy(AtMost, names.value);
    needed := sorted != sortedNames;
    if multiset(sorted) == multiset(sortedNames) { SortedUnique(AtMost, sorted, sortedNames); }
  }

  predicate SameClusters(names: Option<seq<string>>, newNames: seq<string>) {
    names.Some? && multiset(names.value) == multiset(newNames)
  }

  // -------------------------------------------------------------------------- reconciling

  /** The object says what the scheduling result says. */
  ghost predicate InSync(o: FedObject, result: map<string, int>) {
    && o.readable && o.clusterNames.Some? && multiset(o.clusterNames.value) == multiset(result.Keys)
    && ValidItems(o.overrides) && Agrees(Decoded(o.overrides), result)
  }

  /** Nothing about the object prevents writing the result. */
  ghost predicate Accepts(o: FedObject, result: map<string, int>) {
    && o.readable && ValidItems(o.overrides)
    && (o.settable || (o.clusterNames.Some? && multiset(o.clusterNames.value) == multiset(result.Keys)))
  }

  /** What the overrides say beside the numbers of replicas has not changed. */
  ghost predicate OthersKept(before: OverridesMap, after: OverridesMap) {
    forall c :: Others(Lookup(after, c)) == Others(Lookup(before, c))
  }

  datatype GetResult = Got(o: FedObject) | NotFound | Failed

  /** The federated resource in the host cluster; any call may fail. */
  class ResourceClient {
    var stored: Option<FedObject>
    var updates: nat
    var failures: nat

    method Get() returns (r: GetResult)
      modifies this`failures
      ensures match r
              case Got(o) => stored == Some(o) && failures == old(failures)
              case NotFound => stored == None && failures == old(failures)
              case Failed => failures == old(failures) + 1
    {
      var fails: bool := *;
      if fails {
        failures := failures + 1;
        return Failed;
      }
      r := if stored.None? then NotFound else Got(stored.value);
    }

    method Update(o: FedObject) returns (ok: bool)
      modifies this
      ensures updates == old(updates) + 1
      ensures failures == old(failures) + if ok then 0 else 1
      ensures stored == Some(o) || (!ok && stored == old(stored))
    {
      updates := updates + 1;
      var arrives: bool, answered: bool := *, *;
      if arrives {
        stored := Some(o);
      }
      ok := arrives && answered;
      failures := failures + if ok then 0 else 1;
    }
  }

  /** The keys of the map, in an arbitrary order. */
  method KeysOf(m: map<string, int>) returns (names: seq<string>)
    ensures multiset(names) == multiset(m.Keys)
  {
    names := [];
    var todo := m.Keys;
    while todo != {}
      invariant todo <= m.Keys && multiset(names) == multiset(m.Keys - todo)
    {
      var c :| c in todo;
      names := names + [c];
      assert m.Keys - (todo - {c}) == (m.Keys - todo) + {c};
      assert multiset((m.Keys - todo) + {c}) == multiset(m.Keys - todo) + multiset{c};
      todo := todo - {c};
    }
    assert m.Keys - {} == m.Keys;
  }

  /** `after` is what reads back once every list of `before` has been brought in line with the result. */
  ghost predicate BroughtInLine(before: OverridesMap, result: map<string, int>, after: OverridesMap) {
    exists r :: MapUpdated(before, result, r) && after == ReadBack(r)
  }

  function ReadBack(m: OverridesMap): OverridesMap {
    map c | c in m :: JsonList(m[c])
  }

  /** In particular, a scheduled cluster that had no replicas override gets one that replaces the value, after
      all it had; and a cluster with nothing to change keeps its list. */
  lemma AddedOverrideReplaces(before: OverridesMap, result: map<string, int>, after: OverridesMap, c: string)
    requires BroughtInLine(before, result, after) && !HasReplicas(Lookup(before, c))
    ensures c in result ==>
              && c in after
              && after[c] == JsonList(Lookup(before, c)) +
                             [ClusterOverride("", "/spec/replicas", Float(result[c] as real))]
    ensures c !in result && c in before ==> c in after && after[c] == JsonList(before[c])
  {
    hide Others, HasReplicas, ListUpdated, JsonList;
    var s := Lookup(before, c);
    var r :| MapUpdated(before, result, r) && after == ReadBack(r);
    if c in r {
      IsEdited(s, Planned(result, c), r[c]);
      if c in result { JsonAdded(s, ClusterOverride("", REPLICAS_PATH, Int(result[c]))); }
    }
  }

  lemma IsEdited(s: seq<ClusterOverride>, n: Option<int>, r: seq<ClusterOverride>)
    requires ListUpdated(s, n, r)
    ensures Edited(s, n, r)
  {
  }

  lemma JsonAdded(s: seq<ClusterOverride>, o: ClusterOverride)
    ensures JsonList(s + [o]) == JsonList(s) + [o.(value := Json(o.value))]
  {
  }

  /** And one that had an override keeps it in its place, with only the value changed. */
  lemma ChangedOverrideKeepsPlace(before: OverridesMap, result: map<string, int>, after: OverridesMap, c: string)
    returns (i: nat)
    requires BroughtInLine(before, result, after) && HasReplicas(Lookup(before, c)) && c in result
    ensures SetsReplicas(Lookup(before, c), i) && c in after
    ensures after[c] == JsonList(Lookup(before, c)[i := Lookup(before, c)[i].(value := Int(result[c]))])
  {
    hide Others;
    var s := Lookup(before, c);
    var r :| MapUpdated(before, result, r) && after == ReadBack(r);
    hide ListUpdated, JsonList;
    IsEdited(s, Planned(result, c), r[c]);
    i :| SetsReplicas(s, i) && r[c] == s[i := s[i].(value := Int(result[c]))];
  }

  /** Reads the overrides, brings them in line if they are not, and says what changed. */
  method ReconcileOverrides(items: seq<OverrideItem>, result: map<string, int>)
    returns (r: Result<seq<OverrideItem>, ReadError>, changed: bool)
    ensures r.Ok? <==> ValidItems(items)
    ensures r.Ok? ==> (changed <==> !Agrees(Decoded(items), result)) && (!changed ==> r.value == items)
    ensures r.Ok? ==>
              && ValidItems(r.value) && Agrees(Decoded(r.value), result)
              && OthersKept(Decoded(items), Decoded(r.value))
              && (changed ==> BroughtInLine(Decoded(items), result, Decoded(r.value)))
  {
    hide Agrees, ValidItems, Decoded, ListUpdated, JsonList, Others;
    var m := GetOverrides(items);
    if m.Err? {
      return Err(m.error), false;
    }
    changed := OverrideUpdateNeeded(m.value, result);
    if !changed {
      return Ok(items), false;
    }
    var updated := UpdateOverridesMap(m.value, result);
    UpdateEstablishes(m.value, result, updated);
    var written := ToUnstructuredSlice(updated);
    RoundTrip(written, updated);
    assert BroughtInLine(Decoded(items), result, Decoded(written)) by {
      assert Decoded(written) == ReadBack(updated);
    }
    UpdateKeepsOthers(items, result, updated, Decoded(written));
    return Ok(written), true;
  }

  lemma UpdateKeepsOthers(items: seq<OverrideItem>, result: map<string, int>, r: OverridesMap, read: OverridesMap)
    requires ValidItems(items) && MapUpdated(Decoded(items), result, r) && read == map c | c in r :: JsonList(r[c])
    ensures OthersKept(Decoded(items), read)
  {
    var m := Decoded(items);
    hide ListUpdated, JsonList, Others, Decoded, ValidItems;
    forall c ensures Others(Lookup(read, c)) == Others(Lookup(m, c)) {
      if c in r {
        ListKeepsOthers(items, Planned(result, c), r[c], c);
      }
    }
  }

  lemma ListKeepsOthers(items: seq<OverrideItem>, n: Option<int>, r: seq<ClusterOverride>, c: string)
    requires ValidItems(items) && ListUpdated(Lookup(Decoded(items), c), n, r)
    ensures Others(JsonList(r)) == Others(Lookup(Decoded(items), c))
  {
    var s := Lookup(Decoded(items), c);
    hide ListUpdated;
    assert Others(r) == Others(s) by { KeptOthers(s, n, r); }
    assert JsonList(s) == s by { DecodedIsJson(items); }
    OthersJson(r);
    OthersJson(s);
  }

  lemma KeptOthers(s: seq<ClusterOverride>, n: Option<int>, r: seq<ClusterOverride>)
    requires ListUpdated(s, n, r)
    ensures Others(r) == Others(s)
  {
  }

  lemma {:induction false} OthersJson(s: seq<ClusterOverride>)
    ensures Others(JsonList(s)) == JsonList(Others(s))
  {
    if s != [] {
      var front, last := s[..|s| - 1], s[|s| - 1];
      assert JsonList(s)[..|s| - 1] == JsonList(front);
      OthersJson(front);
      assert JsonList(s)[|s| - 1] == last.(value := Json(last.value));
    }
  }

  lemma {:induction false} DecodedIsJson(items: seq<OverrideItem>)
    ensures forall c :: c in Decoded(items) ==> JsonList(Decoded(items)[c]) == Decoded(items)[c]
  {
    if items != [] {
      DecodedIsJson(items[..|items| - 1]);
      var s := items[|items| - 1].clusterOverrides;
      assert JsonList(JsonList(s)) == JsonList(s);
    }
  }

  /** Writes the scheduling result back, unless a call fails or the object does not accept it. On
      success the stored object is in sync and keeps its other overrides; an object already in sync is
      left alone, so a second run writes nothing. */
  method Reconcile(client: ResourceClient, result: map<string, int>) returns (ok: bool)
    modifies client
    ensures client.updates <= old(client.updates) + 1
    ensures client.updates == old(client.updates) ==> client.stored == old(client.stored)
    ensures ok && old(client.stored).Some? ==>
              && client.stored.Some? && InSync(client.stored.value, result)
              && OthersKept(Decoded(old(client.stored).value.overrides), Decoded(client.stored.value.overrides))
              && (|| client.stored.value.overrides == old(client.stored).value.overrides
                  || BroughtInLine(Decoded(old(client.stored).value.overrides), result,
                                   Decoded(client.stored.value.overrides)))
    ensures old(client.stored).None? ==> client.updates == old(client.updates)
    ensures old(client.stored).Some? && InSync(old(client.stored).value, result) ==>
              client.updates == old(client.updates)
    ensures old(client.stored).Some? && !Accepts(old(client.stored).value, result) ==>
              !ok && client.updates == old(client.updates)
    ensures client.failures == old(client.failures) ==>
              (ok <==> old(client.stored).None? || Accepts(old(client.stored).value, result))
    ensures ok ==> client.failures == old(client.failures)
    ensures !ok ==> client.stored == old(client.stored) || (client.stored.Some? && InSync(client.stored.value, result))
  {
    hide Agrees, ValidItems, Decoded, Others;
    var got := client.Get();
    if got.NotFound? {
      return true;
    }
    if got.Failed? {
      return false;
    }
    var o := got.o;
    var isDirty := false;
    var newClusterNames := KeysOf(result);
    if !o.readable {
      return false;
    }
    var needed, sortedNames := PlacementUpdateNeeded(o.clusterNames, newClusterNames);
    if needed {
      if !o.settable {
        return false;
      }
      o := o.(clusterNames := Some(sortedNames));
      isDirty := true;
    }
    var overrides, changed := ReconcileOverrides(o.overrides, result);
    if overrides.Err? {
      return false;
    }
    if changed {
      o := o.(overrides := overrides.value);
      isDirty := true;
    }
    assert InSync(o, result);
    if isDirty {
      ok := client.Update(o);
      return ok;
    }
    return true;
  }
}
