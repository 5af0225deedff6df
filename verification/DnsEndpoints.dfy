/**
  Merging DNS endpoint records: sort by name, drop empty targets and endpoints without targets, then
  merge neighbours with the same name. The loops edit one list in place; what they produce is described
  without any order, as a grouping of the targets by name.
 */
module DnsEndpoints {
  import opened Sorting
  import opened StringOrder

  const RECORD_TYPE_A := "A"
  const RECORD_TYPE_CNAME := "CNAME"

  datatype Endpoint = Endpoint(dnsName: string, targets: seq<string>, recordType: string, recordTTL: int,
                               labels: map<string, string>)

  // -------------------------------------------------------------------------- what the result means

  /** Some endpoint lists the (non-empty) target under this name and record type. */
  ghost predicate Lists(endpoints: seq<Endpoint>, name: string, recordType: string, target: string) {
    target != "" && exists e :: e in endpoints && ListedBy(e, name, recordType, target)
  }

  predicate ListedBy(e: Endpoint, name: string, recordType: string, target: string) {
    e.dnsName == name && e.recordType == recordType && target in e.targets
  }

  /** The record has its name, type, TTL and labels from the endpoint. */
  predicate Describes(e: Endpoint, r: Endpoint) {
    e.dnsName == r.dnsName && e.recordType == r.recordType && e.recordTTL == r.recordTTL && e.labels == r.labels
  }

  /** Record `r` stands for a name and type of which some endpoint lists a target. */
  predicate StandsFor(r: Endpoint, name: string, recordType: string) {
    r.dnsName == name && (r.recordType == RECORD_TYPE_CNAME ==> recordType == RECORD_TYPE_CNAME)
  }

  ghost predicate HasOrigin(endpoints: seq<Endpoint>, r: Endpoint) {
    exists e :: e in endpoints && Describes(e, r)
  }

  ghost predicate IsStoodFor(result: seq<Endpoint>, name: string, recordType: string) {
    exists r :: r in result && StandsFor(r, name, recordType)
  }

  predicate NamesIncrease(result: seq<Endpoint>) {
    forall i, j :: 0 <= i < j < |result| ==> Less(result[i].dnsName, result[j].dnsName)
  }

  predicate HasRealTargets(r: Endpoint) {
    r.targets != [] && "" !in r.targets
  }

  /** Distinct increasing names, and only real targets. */
  predicate Normalized(result: seq<Endpoint>) {
    NamesIncrease(result) && forall r :: r in result ==> HasRealTargets(r)
  }

  ghost predicate TargetsAreListed(endpoints: seq<Endpoint>, r: Endpoint) {
    forall t :: t in r.targets <==> Lists(endpoints, r.dnsName, r.recordType, t)
  }

  /** The targets are sorted without repetition, or stand as an endpoint gave them. */
  ghost predicate TargetsAreTidy(endpoints: seq<Endpoint>, r: Endpoint) {
    StrictlySorted(r.targets) || IsCleaned(endpoints, r)
  }

  /** `result` has one record for each name with a real target. A record that is no CNAME takes the place
      of all CNAME endpoints of its name; the record holds all targets listed under its name and type. */
  ghost predicate GroupsByName(endpoints: seq<Endpoint>, result: seq<Endpoint>) {
    && Normalized(result)
    && (forall r :: r in result ==>
          HasOrigin(endpoints, r) && TargetsAreListed(endpoints, r) && TargetsAreTidy(endpoints, r))
    && (forall name, recordType, t :: Lists(endpoints, name, recordType, t) ==> IsStoodFor(result, name, recordType))
  }

  // -------------------------------------------------------------------------- targets

  predicate StrictlySorted(s: seq<string>) {
    forall i, j :: 0 <= i < j < |s| ==> Less(s[i], s[j])
  }

  method SortAndRemoveDuplicateTargets(targets: seq<string>) returns (r: seq<string>)
    ensures StrictlySorted(r) && forall t :: t in r <==> t in targets
  {
    AtMostIsTotalOrder();
    r := SortBy(AtMost, targets);
    SameMembers(targets, r);
    var i := 1;
    while i < |r|
      invariant 1 <= i && SortedBy(AtMost, r)
      invariant i <= |r| ==> StrictlySorted(r[..i])
      invariant |r| == 0 || i <= |r|
      invariant forall t :: t in r <==> t in targets
      decreases |r| - i
    {
      if r[i] == r[i - 1] {
        RemoveMember(r, i);
        r := r[..i] + r[i + 1..];
      } else {
        StrictlyMore(r, i);
        i := i + 1;
      }
    }
    assert |r| > 0 ==> r[..i] == r;
  }

  lemma RemoveMember(s: seq<string>, i: nat)
    requires 0 < i < |s| && s[i] == s[i - 1] && SortedBy(AtMost, s)
    ensures SortedBy(AtMost, s[..i] + s[i + 1..])
    ensures forall t :: t in s[..i] + s[i + 1..] <==> t in s
  {
    var r := s[..i] + s[i + 1..];
    forall t | t in s ensures t in r {
      var k :| 0 <= k < |s| && s[k] == t;
      assert r[if k < i then k else k - 1] == t;
    }
  }

  lemma StrictlyMore(s: seq<string>, i: nat)
    requires 0 < i < |s| && s[i] != s[i - 1] && SortedBy(AtMost, s) && StrictlySorted(s[..i])
    ensures StrictlySorted(s[..i + 1])
  {
    Trichotomy(s[i - 1], s[i]);
    forall j, k | 0 <= j < k < i + 1 ensures Less(s[j], s[k]) {
      if k < i {
        assert s[..i][j] == s[j] && s[..i][k] == s[k];
      } else if j < i - 1 {
        assert s[..i][j] == s[j] && s[..i][i - 1] == s[i - 1];
        Transitive(s[j], s[i - 1], s[i]);
      }
    }
  }

  // -------------------------------------------------------------------------- dropping what is empty

  function RealTargets(targets: seq<string>): seq<string> {
    if targets == [] then []
    else
      var last := targets[|targets| - 1];
      RealTargets(targets[..|targets| - 1]) + if last == "" then [] else [last]
  }

  function Clean(endpoints: seq<Endpoint>): seq<Endpoint> {
    if endpoints == [] then []
    else
      var last := endpoints[|endpoints| - 1];
      var targets := RealTargets(last.targets);
      Clean(endpoints[..|endpoints| - 1]) + if targets == [] then [] else [last.(targets := targets)]
  }

  method RemoveEmptyTargets(targets: seq<string>) returns (r: seq<string>)
    ensures r == RealTargets(targets)
  {
    r := targets;
    var j := 0;
    ghost var k := 0;
    while j < |r|
      invariant 0 <= k <= |targets| && j <= |r|
      invariant r[..j] == RealTargets(targets[..k]) && r[j..] == targets[k..]
      decreases |r| - j
    {
      assert targets[..k + 1][..k] == targets[..k];
      assert r[j] == r[j..][0] == targets[k];
      assert r[j + 1..] == r[j..][1..] == targets[k + 1..];
      if r[j] == "" {
        ghost var was := r;
        r := r[..j] + r[j + 1..];
        assert r[..j] == was[..j];
      } else {
        j := j + 1;
      }
      k := k + 1;
    }
    assert r[..j] == r && targets[..k] == targets;
  }

  method RemoveEmptyEndpoints(endpoints: seq<Endpoint>) returns (r: seq<Endpoint>)
    ensures r == Clean(endpoints)
  {
    r := endpoints;
    var i := 0;
    ghost var k := 0;
    while i < |r|
      invariant 0 <= k <= |endpoints| && i <= |r|
      invariant r[..i] == Clean(endpoints[..k])
      invariant r[i..] == endpoints[k..]
      decreases |r| - i
    {
      ghost var was := r;
      assert endpoints[..k + 1][..k] == endpoints[..k];
      assert r[i] == r[i..][0] == endpoints[k];
      assert r[i + 1..] == r[i..][1..] == endpoints[k + 1..];
      var targets := RemoveEmptyTargets(r[i].targets);
      r := r[i := r[i].(targets := targets)];
      if |r[i].targets| == 0 {
        r := r[..i] + r[i + 1..];
        assert r[..i] == was[..i];
      } else {
        i := i + 1;
      }
      k := k + 1;
    }
    assert r[..i] == r && endpoints[..k] == endpoints;
  }

  lemma {:induction false} RealTargetsAre(targets: seq<string>)
    ensures forall t :: t in RealTargets(targets) <==> t in targets && t != ""
    ensures "" !in targets ==> RealTargets(targets) == targets
  {
    if targets != [] {
      var front, last := targets[..|targets| - 1], targets[|targets| - 1];
      assert targets == front + [last];
      RealTargetsAre(front);
    }
  }

  /** Dropping what is empty neither adds nor loses a listed target. */
  lemma {:induction false} CleanLists(endpoints: seq<Endpoint>, name: string, recordType: string, t: string)
    ensures Lists(Clean(endpoints), name, recordType, t) <==> Lists(endpoints, name, recordType, t)
  {
    if endpoints != [] {
      var front, last := endpoints[..|endpoints| - 1], endpoints[|endpoints| - 1];
      assert endpoints == front + [last];
      CleanLists(front, name, recordType, t);
      RealTargetsAre(last.targets);
      var cleaned := last.(targets := RealTargets(last.targets));
      if cleaned.targets != [] { assert cleaned in Clean(endpoints); }
      assert t != "" ==> (ListedBy(cleaned, name, recordType, t) <==> ListedBy(last, name, recordType, t));
    }
  }

  ghost predicate IsCleaned(endpoints: seq<Endpoint>, r: Endpoint) {
    exists e :: e in endpoints && Describes(e, r) && r.targets == RealTargets(e.targets)
  }

  lemma {:induction false} CleanIsReal(endpoints: seq<Endpoint>)
    ensures forall e :: e in Clean(endpoints) ==> HasRealTargets(e) && IsCleaned(endpoints, e)
  {
    if endpoints != [] {
      var front, last := endpoints[..|endpoints| - 1], endpoints[|endpoints| - 1];
      assert endpoints == front + [last];
      CleanIsReal(front);
      RealTargetsAre(last.targets);
      forall e | e in Clean(endpoints) ensures IsCleaned(endpoints, e) {
        if e in Clean(front) {
          assert IsCleaned(front, e);
        } else {
          assert Describes(last, e);
        }
      }
    }
  }

  predicate NamesSorted(endpoints: seq<Endpoint>) {
    forall i, j :: 0 <= i < j < |endpoints| ==> AtMost(endpoints[i].dnsName, endpoints[j].dnsName)
  }

  lemma {:induction false} CleanStaysSorted(endpoints: seq<Endpoint>)
    requires NamesSorted(endpoints)
    ensures NamesSorted(Clean(endpoints))
  {
    if endpoints != [] {
      var front, last := endpoints[..|endpoints| - 1], endpoints[|endpoints| - 1];
      CleanStaysSorted(front);
      CleanIsReal(front);
      forall e | e in Clean(front) ensures AtMost(e.dnsName, last.dnsName) {
        assert IsCleaned(front, e);
      }
    }
  }

  lemma {:induction false} CleanKeepsReal(endpoints: seq<Endpoint>)
    requires forall e :: e in endpoints ==> HasRealTargets(e)
    ensures Clean(endpoints) == endpoints
  {
    if endpoints != [] {
      var front, last := endpoints[..|endpoints| - 1], endpoints[|endpoints| - 1];
      assert endpoints == front + [last];
      CleanKeepsReal(front);
      assert last in endpoints;
      RealTargetsAre(last.targets);
    }
  }

  // -------------------------------------------------------------------------- merging neighbours

  /** What two neighbours with the same name become. */
  ghost predicate Merges(prev: Endpoint, cur: Endpoint, r: Endpoint) {
    if prev.recordType != cur.recordType then
      r == if prev.recordType == RECORD_TYPE_CNAME then cur else prev
    else
      && Describes(prev, r) && StrictlySorted(r.targets)
      && forall t :: t in r.targets <==> t in prev.targets || t in cur.targets
  }

  method MergeInto(prev: Endpoint, cur: Endpoint) returns (r: Endpoint)
    ensures Merges(prev, cur, r)
    ensures prev.dnsName == cur.dnsName ==> r.dnsName == prev.dnsName
  {
    if prev.recordType != cur.recordType {
      r := if prev.recordType == RECORD_TYPE_CNAME then cur else prev;
    } else {
      r := prev.(targets := prev.targets + cur.targets);
      var targets := SortAndRemoveDuplicateTargets(r.targets);
      r := r.(targets := targets);
    }
  }

  ghost predicate AllReal(src: seq<Endpoint>) {
    forall e :: e in src ==> HasRealTargets(e)
  }

  lemma ListsMore(src: seq<Endpoint>, e: Endpoint, name: string, recordType: string, t: string)
    ensures Lists(src + [e], name, recordType, t) <==>
            Lists(src, name, recordType, t) || (t != "" && ListedBy(e, name, recordType, t))
  {
    if t != "" && ListedBy(e, name, recordType, t) { assert e in src + [e]; }
  }

  lemma MoreOrigins(src: seq<Endpoint>, e: Endpoint, r: Endpoint)
    ensures HasOrigin(src, r) ==> HasOrigin(src + [e], r)
    ensures TargetsAreTidy(src, r) ==> TargetsAreTidy(src + [e], r)
    ensures Describes(e, r) ==> HasOrigin(src + [e], r)
  {
    assert e in src + [e];
  }

  /** A record keeps its meaning when an endpoint of another name comes in, or a CNAME that gives way to it. */
  lemma RecordKept(src: seq<Endpoint>, e: Endpoint, r: Endpoint)
    requires HasOrigin(src, r) && TargetsAreListed(src, r) && TargetsAreTidy(src, r)
    requires e.dnsName != r.dnsName || e.recordType != r.recordType
    ensures HasOrigin(src + [e], r) && TargetsAreListed(src + [e], r) && TargetsAreTidy(src + [e], r)
  {
    hide HasOrigin, TargetsAreTidy, Lists;
    MoreOrigins(src, e, r);
    forall t ensures t in r.targets <==> Lists(src + [e], r.dnsName, r.recordType, t) {
      ListsMore(src, e, r.dnsName, r.recordType, t);
    }
  }

  ghost predicate Sound(src: seq<Endpoint>, r: Endpoint) {
    HasRealTargets(r) && HasOrigin(src, r) && TargetsAreListed(src, r) && TargetsAreTidy(src, r)
  }

  lemma SoundKept(src: seq<Endpoint>, e: Endpoint, out: seq<Endpoint>)
    requires forall r :: r in out ==> Sound(src, r) && (e.dnsName != r.dnsName || e.recordType != r.recordType)
    ensures forall r :: r in out ==> Sound(src + [e], r)
  {
    forall r | r in out ensures Sound(src + [e], r) { RecordKept(src, e, r); }
  }

  lemma OnlyLast(out: seq<Endpoint>, r: Endpoint)
    requires NamesIncrease(out) && |out| > 0 && r in out
    ensures r == out[|out| - 1] || r in out[..|out| - 1]
    ensures r in out[..|out| - 1] ==> Less(r.dnsName, out[|out| - 1].dnsName) && r.dnsName != out[|out| - 1].dnsName
  {
    assert out == out[..|out| - 1] + [out[|out| - 1]];
    Trichotomy(r.dnsName, out[|out| - 1].dnsName);
  }

  /** A new name: the endpoint becomes the last record. */
  lemma GroupAppend(src: seq<Endpoint>, out: seq<Endpoint>, e: Endpoint)
    requires GroupsByName(src, out) && HasRealTargets(e)
    requires |out| > 0 ==> Less(out[|out| - 1].dnsName, e.dnsName)
    ensures GroupsByName(src + [e], out + [e])
  {
    hide HasOrigin, TargetsAreTidy, Lists;
    forall r | r in out ensures Less(r.dnsName, e.dnsName) && r.dnsName != e.dnsName {
      OnlyLast(out, r);
      if r in out[..|out| - 1] { Transitive(r.dnsName, out[|out| - 1].dnsName, e.dnsName); }
      Trichotomy(r.dnsName, e.dnsName);
    }
    SoundKept(src, e, out);
    NewRecord(src, out, e, e);
    forall name, recordType, t | Lists(src + [e], name, recordType, t) ensures IsStoodFor(out + [e], name, recordType) {
      ListsMore(src, e, name, recordType, t);
      if Lists(src, name, recordType, t) {
        var r :| r in out && StandsFor(r, name, recordType);
        assert r in out + [e];
      } else {
        assert e in out + [e] && StandsFor(e, name, recordType);
      }
    }
  }

  /** The endpoint that brings in a name, or the first type of a name that is no CNAME, is a sound record. */
  lemma NewRecord(src: seq<Endpoint>, out: seq<Endpoint>, e: Endpoint, r: Endpoint)
    requires GroupsByName(src, out) && HasRealTargets(e) && r == e
    requires forall x :: x in out ==> !StandsFor(x, e.dnsName, e.recordType)
    ensures Sound(src + [e], r)
  {
    hide HasOrigin, TargetsAreTidy, Lists;
    MoreOrigins(src, e, e);
    forall t ensures t in e.targets <==> Lists(src + [e], e.dnsName, e.recordType, t) {
      ListsMore(src, e, e.dnsName, e.recordType, t);
      assert !Lists(src, e.dnsName, e.recordType, t);
    }
    EndpointIsTidy(src, e);
  }

  lemma EndpointIsTidy(src: seq<Endpoint>, e: Endpoint)
    requires HasRealTargets(e)
    ensures TargetsAreTidy(src + [e], e)
  {
    RealTargetsAre(e.targets);
    assert e in src + [e] && Describes(e, e);
  }

  /** A name seen before: the endpoint is merged into the last record. */
  lemma GroupMerge(src: seq<Endpoint>, out: seq<Endpoint>, e: Endpoint, m: Endpoint)
    requires GroupsByName(src, out) && HasRealTargets(e) && |out| > 0
    requires out[|out| - 1].dnsName == e.dnsName && Merges(out[|out| - 1], e, m)
    ensures GroupsByName(src + [e], out[|out| - 1 := m])
  {
    hide HasOrigin, TargetsAreTidy, Lists, TargetsAreListed;
    var last, front := out[|out| - 1], out[..|out| - 1];
    var out' := out[|out| - 1 := m];
    assert out' == front + [m];
    forall r | r in out ensures r == last || (r in front && r.dnsName != last.dnsName) { OnlyLast(out, r); }
    assert last in out && forall r :: r in front ==> r in out;
    forall r | r in front ensures r.dnsName != e.dnsName { OnlyLast(out, r); }
    SoundKept(src, e, front);
    MergedIsSound(src, out, e, m);
    forall name, recordType, t | Lists(src + [e], name, recordType, t) ensures IsStoodFor(out', name, recordType) {
      ListsMore(src, e, name, recordType, t);
      if Lists(src, name, recordType, t) {
        var r :| r in out && StandsFor(r, name, recordType);
        assert r in front || StandsFor(m, name, recordType);
      } else {
        assert StandsFor(m, name, recordType);
      }
    }
  }

  lemma MergedIsSound(src: seq<Endpoint>, out: seq<Endpoint>, e: Endpoint, m: Endpoint)
    requires GroupsByName(src, out) && HasRealTargets(e) && |out| > 0
    requires out[|out| - 1].dnsName == e.dnsName && Merges(out[|out| - 1], e, m)
    ensures Sound(src + [e], m)
  {
    hide HasOrigin, TargetsAreTidy, Lists;
    var last := out[|out| - 1];
    assert last in out;
    if last.recordType == e.recordType {
      SameTypeIsSound(src, last, e, m);
    } else if last.recordType == RECORD_TYPE_CNAME {
      forall x | x in out ensures !StandsFor(x, e.dnsName, e.recordType) { OnlyLast(out, x); }
      NewRecord(src, out, e, m);
    } else {
      RecordKept(src, e, last);
    }
  }

  lemma SameTypeIsSound(src: seq<Endpoint>, last: Endpoint, e: Endpoint, m: Endpoint)
    requires Sound(src, last) && HasRealTargets(e) && last.dnsName == e.dnsName && last.recordType == e.recordType
    requires Merges(last, e, m)
    ensures Sound(src + [e], m)
  {
    hide Lists;
    MoreOrigins(src, e, last);
    assert HasOrigin(src + [e], m) by {
      var x :| x in src + [e] && Describes(x, last);
      assert Describes(x, m);
    }
    assert last.targets[0] in m.targets;
    forall t ensures t in m.targets <==> Lists(src + [e], m.dnsName, m.recordType, t) {
      ListsMore(src, e, m.dnsName, m.recordType, t);
    }
  }

  lemma OneEndpoint(e: Endpoint)
    requires HasRealTargets(e)
    ensures GroupsByName([e], [e])
  {
    GroupAppend([], [], e);
    assert [] + [e] == [e];
  }

  lemma NextEndpoint(src: seq<Endpoint>, endpoints: seq<Endpoint>, i: nat, k: nat)
    requires 0 < i < |endpoints| && k <= |src| && endpoints[i..] == src[k..]
    ensures k < |src| && endpoints[i] == src[k] && endpoints[i + 1..] == src[k + 1..]
    ensures src[..k + 1] == src[..k] + [src[k]] && endpoints[..i + 1] == endpoints[..i] + [src[k]]
    ensures endpoints[..i][i - 1] == endpoints[i - 1]
  {
    assert endpoints[i] == endpoints[i..][0] == src[k..][0];
    assert endpoints[i + 1..] == endpoints[i..][1..] == src[k..][1..];
  }

  lemma EndpointRemoved(endpoints: seq<Endpoint>, i: nat, merged: Endpoint)
    requires 0 < i < |endpoints|
    ensures var put := endpoints[i - 1 := merged];
            var r := put[..i] + put[i + 1..];
            r[..i] == endpoints[..i][i - 1 := merged] && r[i..] == endpoints[i + 1..] && r[i - 1] == merged
  {
  }

  /** Merges neighbours in place. */
  method MergeNeighbours(src: seq<Endpoint>) returns (endpoints: seq<Endpoint>)
    requires NamesSorted(src) && AllReal(src)
    ensures GroupsByName(src, endpoints)
    ensures NamesIncrease(src) ==> endpoints == src
  {
    hide GroupsByName, Merges, HasRealTargets, Less;
    endpoints := src;
    var i := 1;
    ghost var k := 1;
    if |src| == 0 {
      NothingGrouped();
      return;
    }
    OneEndpoint(src[0]);
    assert src[..1] == [src[0]];
    while i < |endpoints|
      invariant 1 <= i <= |endpoints| && i <= k <= |src|
      invariant endpoints[i..] == src[k..]
      invariant GroupsByName(src[..k], endpoints[..i])
      invariant endpoints[i - 1].dnsName == src[k - 1].dnsName
      invariant NamesIncrease(src) ==> endpoints == src && i == k
      decreases |endpoints| - i
    {
      ghost var out := endpoints[..i];
      ghost var cur := src[k];
      NextEndpoint(src, endpoints, i, k);
      assert AtMost(src[k - 1].dnsName, cur.dnsName);
      Trichotomy(src[k - 1].dnsName, cur.dnsName);
      if endpoints[i].dnsName == endpoints[i - 1].dnsName {
        var merged := MergeInto(endpoints[i - 1], endpoints[i]);
        GroupMerge(src[..k], out, cur, merged);
        EndpointRemoved(endpoints, i, merged);
        endpoints := endpoints[i - 1 := merged];
        endpoints := endpoints[..i] + endpoints[i + 1..];
      } else {
        GroupAppend(src[..k], out, cur);
        i := i + 1;
      }
      k := k + 1;
    }
    assert endpoints[..i] == endpoints && src[..k] == src;
  }

  lemma NothingGrouped()
    ensures GroupsByName([], [])
  {
  }

  predicate ByName(a: Endpoint, b: Endpoint) {
    AtMost(a.dnsName, b.dnsName)
  }

  lemma ByNameIsTotal()
    ensures TotalPreorder(ByName)
  {
    AtMostIsTotalOrder();
    forall a, b, c ensures Chains(ByName, a, b, c) {
      assert Chains(AtMost, a.dnsName, b.dnsName, c.dnsName);
    }
  }

  /** Merges and removes duplicate endpoints. */
  method DedupeAndMergeEndpoints(endpoints: seq<Endpoint>) returns (result: seq<Endpoint>)
    ensures GroupsByName(endpoints, result)
    ensures Normalized(endpoints) ==> result == endpoints
  {
    ByNameIsTotal();
    result := SortBy(ByName, endpoints);
    ghost var sorted := result;
    SameMembers(endpoints, sorted);
    result := RemoveEmptyEndpoints(result);
    ghost var cleaned := result;
    CleanStaysSorted(sorted);
    CleanIsReal(sorted);
    result := MergeNeighbours(result);
    CleaningKeepsMeaning(endpoints, sorted, cleaned, result);
    if Normalized(endpoints) {
      NormalizedIsSorted(endpoints, sorted);
      CleanKeepsReal(endpoints);
    }
  }

  lemma NormalizedIsSorted(endpoints: seq<Endpoint>, sorted: seq<Endpoint>)
    requires NamesIncrease(endpoints) && SortOf(ByName, endpoints, sorted)
    ensures sorted == endpoints
  {
    forall a, b | a in endpoints && b in endpoints && Tie(ByName, a, b) ensures a == b {
      var i :| 0 <= i < |endpoints| && endpoints[i] == a;
      var j :| 0 <= j < |endpoints| && endpoints[j] == b;
    }
    forall i, j | 0 <= i < j < |endpoints| ensures ByName(endpoints[i], endpoints[j]) {
      Trichotomy(endpoints[i].dnsName, endpoints[j].dnsName);
    }
    SortedUnique(ByName, endpoints, sorted);
  }

  /** What holds of the sorted and cleaned list holds of the list given. */
  lemma CleaningKeepsMeaning(endpoints: seq<Endpoint>, sorted: seq<Endpoint>, cleaned: seq<Endpoint>,
                             result: seq<Endpoint>)
    requires (forall e :: e in endpoints <==> e in sorted) && cleaned == Clean(sorted) && GroupsByName(cleaned, result)
    ensures GroupsByName(endpoints, result)
  {
    hide NamesIncrease, HasRealTargets, RealTargets, Clean;
    CleanIsReal(sorted);
    forall name, recordType, t
      ensures Lists(endpoints, name, recordType, t) <==> Lists(cleaned, name, recordType, t)
    {
      CleanLists(sorted, name, recordType, t);
    }
    forall r | r in result
      ensures HasOrigin(endpoints, r) && TargetsAreTidy(endpoints, r) && TargetsAreListed(endpoints, r)
    {
      CleanedOrigin(endpoints, sorted, r);
    }
  }

  lemma CleanedOrigin(endpoints: seq<Endpoint>, sorted: seq<Endpoint>, r: Endpoint)
    requires forall e :: e in endpoints <==> e in sorted
    requires HasOrigin(Clean(sorted), r) && TargetsAreTidy(Clean(sorted), r)
    ensures HasOrigin(endpoints, r) && TargetsAreTidy(endpoints, r)
  {
    CleanIsReal(sorted);
    var c :| c in Clean(sorted) && Describes(c, r);
    assert IsCleaned(sorted, c);
    if !StrictlySorted(r.targets) {
      var d :| d in Clean(sorted) && Describes(d, r) && r.targets == RealTargets(d.targets);
      assert IsCleaned(sorted, d);
      RealTargetsAre(d.targets);
    }
  }

  // -------------------------------------------------------------------------- what follows

  /** The names are exactly those under which a real target is listed. */
  lemma NamesAreExact(endpoints: seq<Endpoint>, result: seq<Endpoint>, name: string)
    requires GroupsByName(endpoints, result)
    ensures (exists r :: r in result && r.dnsName == name) <==>
            (exists recordType, t :: Lists(endpoints, name, recordType, t))
  {
    if r :| r in result && r.dnsName == name {
      FirstTargetIsListed(endpoints, result, r);
    }
    if recordType, t :| Lists(endpoints, name, recordType, t) {
      assert IsStoodFor(result, name, recordType);
    }
  }

  lemma FirstTargetIsListed(endpoints: seq<Endpoint>, result: seq<Endpoint>, r: Endpoint)
    requires GroupsByName(endpoints, result) && r in result
    ensures r.targets != [] && Lists(endpoints, r.dnsName, r.recordType, r.targets[0])
  {
    assert HasRealTargets(r) && TargetsAreListed(endpoints, r);
    assert r.targets[0] in r.targets;
  }

  /** No name carries two records (section 3.6.2 of RFC 1034 forbids it beside a CNAME). */
  lemma OneRecordPerName(result: seq<Endpoint>, r: Endpoint, i: nat)
    requires NamesIncrease(result) && r in result && i < |result| && r.dnsName == result[i].dnsName
    ensures r == result[i]
  {
    var j :| 0 <= j < |result| && result[j] == r;
    Trichotomy(r.dnsName, result[i].dnsName);
  }

  ghost predicate ListsAny(endpoints: seq<Endpoint>, name: string, recordType: string) {
    exists t :: Lists(endpoints, name, recordType, t)
  }

  /** No name has real targets of two types other than CNAME, as when the only types are A and CNAME. */
  ghost predicate OneTypeBesideCname(endpoints: seq<Endpoint>) {
    forall name, a, b :: ListsAny(endpoints, name, a) && ListsAny(endpoints, name, b) ==>
      a == b || a == RECORD_TYPE_CNAME || b == RECORD_TYPE_CNAME
  }

  /** A record is a CNAME exactly if its name has real targets of no other type. */
  lemma AliasIffNothingElse(endpoints: seq<Endpoint>, result: seq<Endpoint>, r: Endpoint)
    requires GroupsByName(endpoints, result) && r in result
    ensures r.recordType == RECORD_TYPE_CNAME <==>
            forall recordType :: ListsAny(endpoints, r.dnsName, recordType) ==> recordType == RECORD_TYPE_CNAME
  {
    FirstTargetIsListed(endpoints, result, r);
    assert ListsAny(endpoints, r.dnsName, r.recordType);
    var i :| 0 <= i < |result| && result[i] == r;
    forall recordType | ListsAny(endpoints, r.dnsName, recordType)
      ensures r.recordType == RECORD_TYPE_CNAME ==> recordType == RECORD_TYPE_CNAME
    {
      var t :| Lists(endpoints, r.dnsName, recordType, t);
      var x :| x in result && StandsFor(x, r.dnsName, recordType);
      OneRecordPerName(result, x, i);
    }
  }

  function Names(result: seq<Endpoint>): (names: seq<string>)
    ensures |names| == |result| && forall i :: 0 <= i < |names| ==> names[i] == result[i].dnsName
  {
    seq(|result|, i requires 0 <= i < |result| => result[i].dnsName)
  }

  ghost predicate SameListing(a: seq<Endpoint>, b: seq<Endpoint>) {
    forall name, recordType, t :: Lists(a, name, recordType, t) <==> Lists(b, name, recordType, t)
  }

  /** The same name, the same type and the same set of targets. */
  ghost predicate SameRecord(a: Endpoint, b: Endpoint) {
    a.dnsName == b.dnsName && a.recordType == b.recordType && forall t :: t in a.targets <==> t in b.targets
  }

  /** The order of the endpoints does not matter, nor how targets are spread over them: the same listing
      gives the same records in the same order. */
  lemma OrderIndependent(a: seq<Endpoint>, b: seq<Endpoint>, resultA: seq<Endpoint>, resultB: seq<Endpoint>)
    requires GroupsByName(a, resultA) && GroupsByName(b, resultB)
    requires SameListing(a, b) && OneTypeBesideCname(a)
    ensures |resultA| == |resultB| && forall i :: 0 <= i < |resultA| ==> SameRecord(resultA[i], resultB[i])
  {
    hide Lists, HasOrigin, TargetsAreTidy, Normalized;
    NamesCarryOver(a, b, resultA, resultB);
    NamesCarryOver(b, a, resultB, resultA);
    assert NamesIncrease(resultA) && NamesIncrease(resultB) by { AreNormalized(a, resultA); AreNormalized(b, resultB); }
    SortedTheSame(Names(resultA), Names(resultB));
    forall i | 0 <= i < |resultA| ensures SameRecord(resultA[i], resultB[i]) {
      assert Names(resultA)[i] == Names(resultB)[i];
      TypeCarriesOver(a, b, resultA, resultB, i);
      TypeCarriesOver(b, a, resultB, resultA, i);
      FirstTargetIsListed(a, resultA, resultA[i]);
      FirstTargetIsListed(b, resultB, resultB[i]);
      assert ListsAny(a, resultA[i].dnsName, resultA[i].recordType);
      assert ListsAny(a, resultA[i].dnsName, resultB[i].recordType);
      assert TargetsAreListed(a, resultA[i]) && TargetsAreListed(b, resultB[i]);
    }
  }

  lemma AreNormalized(a: seq<Endpoint>, result: seq<Endpoint>)
    requires GroupsByName(a, result)
    ensures NamesIncrease(result)
  {
  }

  lemma NamesCarryOver(a: seq<Endpoint>, b: seq<Endpoint>, resultA: seq<Endpoint>, resultB: seq<Endpoint>)
    requires GroupsByName(a, resultA) && GroupsByName(b, resultB) && SameListing(a, b)
    ensures forall n :: n in Names(resultA) ==> n in Names(resultB)
  {
    hide Lists, HasOrigin, TargetsAreTidy;
    forall n | n in Names(resultA) ensures n in Names(resultB) {
      var i :| 0 <= i < |resultA| && Names(resultA)[i] == n;
      FirstTargetIsListed(a, resultA, resultA[i]);
      assert IsStoodFor(resultB, n, resultA[i].recordType);
      var r :| r in resultB && StandsFor(r, n, resultA[i].recordType);
      var j :| 0 <= j < |resultB| && resultB[j] == r;
      assert Names(resultB)[j] == n;
    }
  }

  lemma TypeCarriesOver(a: seq<Endpoint>, b: seq<Endpoint>, resultA: seq<Endpoint>, resultB: seq<Endpoint>, i: nat)
    requires GroupsByName(a, resultA) && GroupsByName(b, resultB) && SameListing(a, b)
    requires i < |resultA| && i < |resultB| && resultA[i].dnsName == resultB[i].dnsName
    ensures resultB[i].recordType == RECORD_TYPE_CNAME ==> resultA[i].recordType == RECORD_TYPE_CNAME
  {
    hide Lists, HasOrigin, TargetsAreTidy;
    FirstTargetIsListed(a, resultA, resultA[i]);
    assert IsStoodFor(resultB, resultA[i].dnsName, resultA[i].recordType);
    var r :| r in resultB && StandsFor(r, resultA[i].dnsName, resultA[i].recordType);
    OneRecordPerName(resultB, r, i);
  }

  /** A strictly sorted list is determined by its members. */
  lemma {:induction false} SortedTheSame(a: seq<string>, b: seq<string>)
    requires StrictlySorted(a) && StrictlySorted(b) && forall t :: t in a <==> t in b
    ensures a == b
  {
    assert |b| > 0 ==> b[0] in b;
    if a != [] {
      assert a[0] in b && b != [];
      assert b[0] in a;
      SameFirst(a, b);
      TailMembers(a);
      TailMembers(b);
      SortedTheSame(a[1..], b[1..]);
      assert a == [a[0]] + a[1..] && b == [b[0]] + b[1..];
    }
  }

  lemma TailMembers(a: seq<string>)
    requires StrictlySorted(a) && a != []
    ensures forall t :: t in a[1..] <==> t in a && t != a[0]
  {
    assert a == [a[0]] + a[1..];
    if a[0] in a[1..] {
      var i :| 0 <= i < |a| - 1 && a[1..][i] == a[0];
      assert Less(a[0], a[i + 1]);
      Trichotomy(a[0], a[0]);
    }
  }

  lemma SameFirst(a: seq<string>, b: seq<string>)
    requires StrictlySorted(a) && StrictlySorted(b) && a != [] && b != [] && a[0] in b && b[0] in a
    ensures a[0] == b[0]
  {
    var i :| 0 <= i < |b| && b[i] == a[0];
    var j :| 0 <= j < |a| && a[j] == b[0];
    Trichotomy(a[0], b[0]);
  }
}
