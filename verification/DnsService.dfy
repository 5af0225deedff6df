/**
  The DNS records of a federated service: for every cluster a ladder of zone, region and global names.
  A cluster with a load balancer puts its addresses on all three rungs, one without puts an alias to the
  next rung up. The network is a class whose lookups may answer differently every time.
 */
module DnsService {
  import opened Wrappers
  import opened DnsEndpoints

  const DEFAULT_DNS_TTL := 180

  // -------------------------------------------------------------------------- resolving targets

  class NetWrapper {
    const isIp: string -> bool                               // net.ParseIP accepts the string
    const answer: (nat, string) -> Option<seq<string>>       // what lookup number n of a host returns
    var lookups: nat

    constructor (isIp: string -> bool, answer: (nat, string) -> Option<seq<string>>)
      ensures this.isIp == isIp && this.answer == answer && lookups == 0
    {
      this.isIp, this.answer, lookups := isIp, answer, 0;
    }

    method LookupHost(host: string) returns (addresses: Option<seq<string>>)
      modifies this
      ensures addresses == answer(old(lookups), host) && lookups == old(lookups) + 1
    {
      addresses := answer(lookups, host);
      lookups := lookups + 1;
    }
  }

  /** How a resolution ends: whether all lookups succeeded, the addresses found, and the lookups made. */
  datatype Resolution = Resolution(ok: bool, addresses: set<string>, lookups: nat)

  function Resolve(net: NetWrapper, targets: seq<string>, n: nat, found: set<string>): Resolution {
    if targets == [] then Resolution(true, found, n)
    else if net.isIp(targets[0]) then Resolve(net, targets[1..], n, found + {targets[0]})
    else
      match net.answer(n, targets[0])
      case None => Resolution(false, found, n + 1)
      case Some(addresses) => Resolve(net, targets[1..], n + 1, found + SetOf(addresses))
  }

  function SetOf(s: seq<string>): set<string> {
    set x | x in s
  }

  method GetResolvedTargets(net: NetWrapper, targets: seq<string>) returns (resolved: seq<string>, ok: bool)
    modifies net
    ensures var r := Resolve(net, targets, old(net.lookups), {});
            ok == r.ok && SetOf(resolved) == r.addresses && net.lookups == r.lookups
    ensures StrictlySorted(resolved)
  {
    var found: seq<string> := [];
    assert targets[0..] == targets && SetOf(found) == {};
    for i := 0 to |targets|
      invariant Resolve(net, targets[i..], net.lookups, SetOf(found)) == Resolve(net, targets, old(net.lookups), {})
    {
      ghost var rest := targets[i..];
      assert rest[0] == targets[i] && rest[1..] == targets[i + 1..];
      if !net.isIp(targets[i]) {
        var addresses := net.LookupHost(targets[i]);
        if addresses.None? {
          resolved := SortAndRemoveDuplicateTargets(found);
          assert SetOf(resolved) == SetOf(found);
          return resolved, false;
        }
        assert SetOf(found + addresses.value) == SetOf(found) + SetOf(addresses.value);
        found := found + addresses.value;
      } else {
        assert SetOf(found + [targets[i]]) == SetOf(found) + {targets[i]};
        found := found + [targets[i]];
      }
    }
    resolved := SortAndRemoveDuplicateTargets(found);
    assert SetOf(resolved) == SetOf(found);
    return resolved, true;
  }

  /** How many of the first `i` targets are host names, each of which is looked up. */
  function HostsBefore(net: NetWrapper, targets: seq<string>, i: nat): nat
    requires i <= |targets|
  {
    if i == 0 then 0 else (if net.isIp(targets[0]) then 0 else 1) + HostsBefore(net, targets[1..], i - 1)
  }

  /** What the network answers for target `i` when the lookups of its list start with number `n`. */
  function AnswerFor(net: NetWrapper, targets: seq<string>, n: nat, i: nat): Option<seq<string>>
    requires i < |targets|
  {
    if net.isIp(targets[i]) then Some([targets[i]])
    else net.answer(n + HostsBefore(net, targets, i), targets[i])
  }

  predicate Gives(net: NetWrapper, targets: seq<string>, n: nat, i: nat, a: string)
    requires i < |targets|
  {
    AnswerFor(net, targets, n, i).Some? && a in AnswerFor(net, targets, n, i).value
  }

  lemma HostsAdd(net: NetWrapper, targets: seq<string>, i: nat)
    requires i < |targets|
    ensures HostsBefore(net, targets, i + 1) == HostsBefore(net, targets, 1) + HostsBefore(net, targets[1..], i)
  {
    assert HostsBefore(net, targets[1..], 0) == 0;
  }

  lemma LaterTarget(net: NetWrapper, targets: seq<string>, n: nat, i: nat)
    requires i + 1 < |targets|
    ensures AnswerFor(net, targets, n, i + 1) ==
            AnswerFor(net, targets[1..], n + HostsBefore(net, targets, 1), i)
  {
    HostsAdd(net, targets, i);
    assert targets[1..][i] == targets[i + 1];
    var k := n + HostsBefore(net, targets, i + 1);
    assert k == n + HostsBefore(net, targets, 1) + HostsBefore(net, targets[1..], i);
  }

  lemma FirstTarget(net: NetWrapper, targets: seq<string>, n: nat, found: set<string>)
    requires targets != []
    ensures var first, n' := AnswerFor(net, targets, n, 0), n + HostsBefore(net, targets, 1);
            && (first.None? ==> Resolve(net, targets, n, found) == Resolution(false, found, n + 1))
            && (first.Some? ==>
                  Resolve(net, targets, n, found) == Resolve(net, targets[1..], n', found + SetOf(first.value)))
  {
    assert HostsBefore(net, targets[1..], 0) == 0;
    assert n + HostsBefore(net, targets, 0) == n;
    if net.isIp(targets[0]) {
      assert SetOf([targets[0]]) == {targets[0]};
    }
  }

  /** One of the first `end` targets gives the address. */
  ghost predicate GivenBefore(net: NetWrapper, targets: seq<string>, n: nat, end: nat, a: string)
    requires end <= |targets|
  {
    exists i: nat :: i < end && Gives(net, targets, n, i, a)
  }

  predicate AllAnswered(net: NetWrapper, targets: seq<string>, n: nat, end: nat)
    requires end <= |targets|
  {
    forall i: nat :: i < end ==> AnswerFor(net, targets, n, i).Some?
  }

  lemma OneMoreTarget(net: NetWrapper, targets: seq<string>, n: nat, end: nat)
    requires end < |targets| && AnswerFor(net, targets, n, 0).Some?
    ensures var rest, n' := targets[1..], n + HostsBefore(net, targets, 1);
            && (AllAnswered(net, targets, n, end + 1) <==> AllAnswered(net, rest, n', end))
            && forall a :: GivenBefore(net, targets, n, end + 1, a) <==>
                 a in AnswerFor(net, targets, n, 0).value || GivenBefore(net, rest, n', end, a)
  {
    var rest, n' := targets[1..], n + HostsBefore(net, targets, 1);
    hide HostsBefore, AnswerFor;
    forall i: nat | 0 < i <= end ensures AnswerFor(net, targets, n, i) == AnswerFor(net, rest, n', i - 1) {
      LaterTarget(net, targets, n, i - 1);
    }
    forall i: nat | i < end ensures AnswerFor(net, targets, n, i + 1) == AnswerFor(net, rest, n', i) {
      LaterTarget(net, targets, n, i);
    }
    forall a ensures GivenBefore(net, targets, n, end + 1, a) <==>
                     a in AnswerFor(net, targets, n, 0).value || GivenBefore(net, rest, n', end, a)
    {
      if GivenBefore(net, rest, n', end, a) {
        var i: nat :| i < end && Gives(net, rest, n', i, a);
        assert Gives(net, targets, n, i + 1, a);
      }
      if a in AnswerFor(net, targets, n, 0).value { assert Gives(net, targets, n, 0, a); }
      if GivenBefore(net, targets, n, end + 1, a) {
        var i: nat :| i < end + 1 && Gives(net, targets, n, i, a);
        if i > 0 { assert Gives(net, rest, n', i - 1, a); }
      }
    }
  }

  /** A resolution takes in an address exactly if it is a target that is itself an address, or the answer
      to the lookup of a target contains it, up to the first target whose lookup fails. */
  lemma {:induction false} ResolvedIff(net: NetWrapper, targets: seq<string>, n: nat, found: set<string>)
    returns (end: nat)
    ensures end <= |targets| && AllAnswered(net, targets, n, end)
    ensures var r := Resolve(net, targets, n, found);
            && (r.ok <==> end == |targets|)
            && (!r.ok ==> AnswerFor(net, targets, n, end).None?)
            && r.lookups == n + HostsBefore(net, targets, end) + (if r.ok then 0 else 1)
            && forall a :: a in r.addresses <==> a in found || GivenBefore(net, targets, n, end, a)
    decreases |targets|, 1
  {
    if targets == [] {
      end := 0;
    } else {
      FirstTarget(net, targets, n, found);
      var first := AnswerFor(net, targets, n, 0);
      if first.None? {
        end := 0;
      } else {
        end := ResolvedLater(net, targets, n, found);
      }
    }
  }

  lemma {:induction false} ResolvedLater(net: NetWrapper, targets: seq<string>, n: nat, found: set<string>)
    returns (end: nat)
    requires targets != [] && AnswerFor(net, targets, n, 0).Some?
    ensures end <= |targets| && AllAnswered(net, targets, n, end)
    ensures var r := Resolve(net, targets, n, found);
            && (r.ok <==> end == |targets|)
            && (!r.ok ==> AnswerFor(net, targets, n, end).None?)
            && r.lookups == n + HostsBefore(net, targets, end) + (if r.ok then 0 else 1)
            && forall a :: a in r.addresses <==> a in found || GivenBefore(net, targets, n, end, a)
    decreases |targets|, 0
  {
    hide Resolve, HostsBefore, AnswerFor, GivenBefore, AllAnswered;
    var rest, n' := targets[1..], n + HostsBefore(net, targets, 1);
    var found' := found + SetOf(AnswerFor(net, targets, n, 0).value);
    FirstTarget(net, targets, n, found);
    var end' := ResolvedIff(net, rest, n', found');
    end := end' + 1;
    OneMoreTarget(net, targets, n, end');
    HostsAdd(net, targets, end');
    if end < |targets| { LaterTarget(net, targets, n, end'); }
  }

  /** Every lookup finds at least one address. (The empty string is no IP address.) */
  ghost predicate AlwaysAnswers(net: NetWrapper) {
    && !net.isIp("")
    && forall n: nat, host :: net.answer(n, host).Some? ==> FindsAddress(net.answer(n, host).value)
  }

  predicate FindsAddress(addresses: seq<string>) {
    exists a :: a in addresses && a != ""
  }

  lemma {:induction false} ResolveKeeps(net: NetWrapper, targets: seq<string>, n: nat, found: set<string>)
    ensures found <= Resolve(net, targets, n, found).addresses
  {
    if targets != [] {
      if net.isIp(targets[0]) {
        ResolveKeeps(net, targets[1..], n, found + {targets[0]});
      } else if net.answer(n, targets[0]).Some? {
        ResolveKeeps(net, targets[1..], n + 1, found + SetOf(net.answer(n, targets[0]).value));
      }
    }
  }

  lemma ResolveFinds(net: NetWrapper, targets: seq<string>, n: nat)
    requires AlwaysAnswers(net) && targets != [] && Resolve(net, targets, n, {}).ok
    ensures exists a :: a in Resolve(net, targets, n, {}).addresses && a != ""
  {
    if net.isIp(targets[0]) {
      ResolveKeeps(net, targets[1..], n, {} + {targets[0]});
      assert targets[0] in Resolve(net, targets, n, {}).addresses;
    } else {
      var addresses := net.answer(n, targets[0]).value;
      assert FindsAddress(addresses);
      var a :| a in addresses && a != "";
      ResolveKeeps(net, targets[1..], n + 1, {} + SetOf(addresses));
      assert a in Resolve(net, targets, n, {}).addresses;
    }
  }

  /** Addresses resolve to themselves, without any lookup and so without failing. */
  lemma {:induction false} AddressesNeedNoLookup(net: NetWrapper, targets: seq<string>, n: nat, found: set<string>)
    requires forall t :: t in targets ==> net.isIp(t)
    ensures Resolve(net, targets, n, found) == Resolution(true, found + SetOf(targets), n)
  {
    if targets == [] {
      assert found + SetOf(targets) == found;
    } else {
      AddressesNeedNoLookup(net, targets[1..], n, found + {targets[0]});
      assert targets == [targets[0]] + targets[1..];
      assert found + SetOf(targets) == found + {targets[0]} + SetOf(targets[1..]);
    }
  }

  // -------------------------------------------------------------------------- load balancers

  datatype Ingress = Ingress(ip: string, hostname: string)

  function IngressTargets(lb: Ingress): seq<string> {
    (if lb.ip != "" then [lb.ip] else []) + if lb.hostname != "" then [lb.hostname] else []
  }

  function LoadBalancerTargets(ingress: seq<Ingress>): seq<string> {
    if ingress == [] then []
    else LoadBalancerTargets(ingress[..|ingress| - 1]) + IngressTargets(ingress[|ingress| - 1])
  }

  method ExtractLoadBalancerTargets(ingress: seq<Ingress>) returns (targets: seq<string>)
    ensures targets == LoadBalancerTargets(ingress)
  {
    targets := [];
    for i := 0 to |ingress|
      invariant targets == LoadBalancerTargets(ingress[..i])
    {
      assert ingress[..i + 1][..i] == ingress[..i];
      if ingress[i].ip != "" {
        targets := targets + [ingress[i].ip];
      }
      if ingress[i].hostname != "" {
        targets := targets + [ingress[i].hostname];
      }
    }
    assert ingress[..|ingress|] == ingress;
  }

  /** The targets are exactly the addresses and host names that are set. */
  lemma {:induction false} TargetsAreSet(ingress: seq<Ingress>, t: string)
    ensures t in LoadBalancerTargets(ingress) <==>
            t != "" && exists lb :: lb in ingress && (lb.ip == t || lb.hostname == t)
  {
    if ingress != [] {
      var front, last := ingress[..|ingress| - 1], ingress[|ingress| - 1];
      assert ingress == front + [last];
      TargetsAreSet(front, t);
    }
  }

  // -------------------------------------------------------------------------- names

  datatype ClusterDns = ClusterDns(loadBalancer: seq<Ingress>, zones: seq<string>, region: string)

  datatype ServiceDnsRecord = ServiceDnsRecord(name: string, namespace: string, externalName: string, domainRef: string,
                                               dnsPrefix: string, recordTTL: int, domain: string, dns: seq<ClusterDns>)

  // strings.Join with separator ".".
  function Join(parts: seq<string>): string {
    if parts == [] then "" else if |parts| == 1 then parts[0] else parts[0] + "." + Join(parts[1..])
  }

  function CommonPrefix(r: ServiceDnsRecord): string {
    Join([if r.externalName != "" then r.externalName else r.name, r.namespace, r.domainRef, "svc"])
  }

  function Labels(r: ServiceDnsRecord): map<string, string> {
    if r.externalName != "" then map["serviceName" := r.name] else map[]
  }

  function Ttl(r: ServiceDnsRecord): int {
    if r.recordTTL == 0 then DEFAULT_DNS_TTL else r.recordTTL
  }

  function Zone(r: ServiceDnsRecord, c: ClusterDns, zone: string): string {
    Join([CommonPrefix(r), zone, c.region, r.domain])
  }

  function Region(r: ServiceDnsRecord, c: ClusterDns): string {
    Join([CommonPrefix(r), c.region, r.domain])
  }

  function Global(r: ServiceDnsRecord): string {
    Join([CommonPrefix(r), r.domain])
  }

  function PrefixName(r: ServiceDnsRecord): string {
    r.dnsPrefix + "." + r.domain
  }

  lemma CommonPrefixParts(r: ServiceDnsRecord)
    ensures var head := if r.externalName != "" then r.externalName else r.name;
            CommonPrefix(r) == head + "." + (r.namespace + "." + (r.domainRef + "." + "svc"))
  {
    hide Join;
    var head := if r.externalName != "" then r.externalName else r.name;
    JoinTwo(r.domainRef, "svc");
    JoinMore(r.namespace, [r.domainRef, "svc"]);
    assert [r.namespace] + [r.domainRef, "svc"] == [r.namespace, r.domainRef, "svc"];
    JoinMore(head, [r.namespace, r.domainRef, "svc"]);
    assert [head] + [r.namespace, r.domainRef, "svc"] == [head, r.namespace, r.domainRef, "svc"];
  }

  lemma JoinTwo(a: string, b: string)
    ensures Join([a, b]) == a + "." + b
  {
    assert [a, b][1..] == [b];
  }

  lemma JoinMore(a: string, rest: seq<string>)
    requires rest != []
    ensures Join([a] + rest) == a + "." + Join(rest)
  {
    assert ([a] + rest)[1..] == rest;
  }

  lemma GlobalParts(r: ServiceDnsRecord)
    ensures Global(r) == CommonPrefix(r) + "." + r.domain
  {
    hide CommonPrefix;
    JoinTwo(CommonPrefix(r), r.domain);
  }

  lemma RegionParts(r: ServiceDnsRecord, c: ClusterDns)
    ensures Region(r, c) == CommonPrefix(r) + "." + (c.region + "." + r.domain)
  {
    hide CommonPrefix, Join;
    JoinTwo(c.region, r.domain);
    JoinMore(CommonPrefix(r), [c.region, r.domain]);
    assert [CommonPrefix(r)] + [c.region, r.domain] == [CommonPrefix(r), c.region, r.domain];
  }

  lemma ZoneParts(r: ServiceDnsRecord, c: ClusterDns, zone: string)
    ensures Zone(r, c, zone) == CommonPrefix(r) + "." + (zone + "." + (c.region + "." + r.domain))
  {
    hide CommonPrefix, Join;
    JoinTwo(c.region, r.domain);
    JoinMore(zone, [c.region, r.domain]);
    assert [zone] + [c.region, r.domain] == [zone, c.region, r.domain];
    JoinMore(CommonPrefix(r), [zone, c.region, r.domain]);
    assert [CommonPrefix(r)] + [zone, c.region, r.domain] == [CommonPrefix(r), zone, c.region, r.domain];
  }

  // -------------------------------------------------------------------------- the endpoints of a record

  /** `targets` are the sorted addresses of some resolution of the load balancer's targets. */
  ghost predicate ResolvesTo(net: NetWrapper, lbTargets: seq<string>, targets: seq<string>) {
    StrictlySorted(targets) && exists n: nat :: ResolvedAt(net, lbTargets, targets, n)
  }

  ghost predicate ResolvedAt(net: NetWrapper, lbTargets: seq<string>, targets: seq<string>, n: nat) {
    Resolve(net, lbTargets, n, {}).ok && Resolve(net, lbTargets, n, {}).addresses == SetOf(targets)
  }

  /** The endpoint of one rung: addresses if there are load balancer targets, an alias if not. */
  ghost predicate IsRung(net: NetWrapper, e: Endpoint, name: string, lbTargets: seq<string>, uplevel: string, ttl: int,
                         labels: map<string, string>)
  {
    && e.dnsName == name && e.recordTTL == ttl && e.labels == labels
    && if lbTargets == [] then e.recordType == RECORD_TYPE_CNAME && e.targets == [uplevel]
       else e.recordType == RECORD_TYPE_A && ResolvesTo(net, lbTargets, e.targets)
  }

  /** Lookup number `n`, one of those from `first` on and before `end`, was for a host among the targets
      and failed. */
  predicate FailedAt(net: NetWrapper, lbTargets: seq<string>, first: nat, end: nat, n: nat, host: string) {
    first <= n < end && host in lbTargets && !net.isIp(host) && net.answer(n, host).None?
  }

  ghost predicate LookupFailed(net: NetWrapper, lbTargets: seq<string>, first: nat, end: nat) {
    exists n: nat, host :: FailedAt(net, lbTargets, first, end, n, host)
  }

  lemma FailsInside(net: NetWrapper, lbTargets: seq<string>, first: nat, end: nat, first': nat, end': nat)
    requires LookupFailed(net, lbTargets, first, end) && first' <= first && end <= end'
    ensures LookupFailed(net, lbTargets, first', end')
  {
    var n: nat, host :| FailedAt(net, lbTargets, first, end, n, host);
    assert FailedAt(net, lbTargets, first', end', n, host);
  }

  /** A resolution fails exactly because one of its own lookups does. */
  lemma {:induction false} ResolutionFails(net: NetWrapper, targets: seq<string>, n: nat, found: set<string>)
    ensures Resolve(net, targets, n, found).lookups >= n
    ensures !Resolve(net, targets, n, found).ok ==>
              LookupFailed(net, targets, n, Resolve(net, targets, n, found).lookups)
  {
    if targets != [] {
      var end := Resolve(net, targets, n, found).lookups;
      if net.isIp(targets[0]) {
        ResolutionFails(net, targets[1..], n, found + {targets[0]});
        FailsLonger(net, targets, n, n, end);
      } else if net.answer(n, targets[0]).None? {
        assert FailedAt(net, targets, n, n + 1, n, targets[0]);
      } else {
        ResolutionFails(net, targets[1..], n + 1, found + SetOf(net.answer(n, targets[0]).value));
        FailsLonger(net, targets, n, n + 1, end);
      }
    }
  }

  lemma FailsLonger(net: NetWrapper, targets: seq<string>, first: nat, first': nat, end: nat)
    requires targets != [] && first <= first'
    ensures LookupFailed(net, targets[1..], first', end) ==> LookupFailed(net, targets, first, end)
  {
    if LookupFailed(net, targets[1..], first', end) {
      var n: nat, host :| FailedAt(net, targets[1..], first', end, n, host);
      assert FailedAt(net, targets, first, end, n, host);
    }
  }

  method GenerateEndpoint(net: NetWrapper, name: string, lbTargets: seq<string>, uplevel: string, ttl: int,
                          labels: map<string, string>)
    returns (endpoint: Option<Endpoint>)
    modifies net
    ensures endpoint.Some? ==> IsRung(net, endpoint.value, name, lbTargets, uplevel, ttl, labels)
    ensures net.lookups >= old(net.lookups)
    ensures endpoint.None? ==> LookupFailed(net, lbTargets, old(net.lookups), net.lookups)
  {
    if |lbTargets| > 0 {
      ghost var n := net.lookups;
      var targets, ok := GetResolvedTargets(net, lbTargets);
      ResolutionFails(net, lbTargets, n, {});
      if !ok {
        return None;
      }
      assert ResolvedAt(net, lbTargets, targets, n);
      return Some(Endpoint(name, targets, RECORD_TYPE_A, ttl, labels));
    }
    return Some(Endpoint(name, [uplevel], RECORD_TYPE_CNAME, ttl, labels));
  }

  function Targets(c: ClusterDns): seq<string> {
    LoadBalancerTargets(c.loadBalancer)
  }

  ghost predicate IsZoneRung(net: NetWrapper, r: ServiceDnsRecord, c: ClusterDns, zone: string, e: Endpoint) {
    IsRung(net, e, Zone(r, c, zone), Targets(c), Region(r, c), Ttl(r), Labels(r))
  }

  ghost predicate IsRegionRung(net: NetWrapper, r: ServiceDnsRecord, c: ClusterDns, e: Endpoint) {
    IsRung(net, e, Region(r, c), Targets(c), Global(r), Ttl(r), Labels(r))
  }

  ghost predicate IsGlobalRung(net: NetWrapper, r: ServiceDnsRecord, c: ClusterDns, e: Endpoint) {
    IsRung(net, e, Global(r), Targets(c), "", Ttl(r), Labels(r))
  }

  ghost predicate FromCluster(net: NetWrapper, r: ServiceDnsRecord, c: ClusterDns, e: Endpoint) {
    || (exists zone :: zone in c.zones && IsZoneRung(net, r, c, zone, e))
    || IsRegionRung(net, r, c, e) || IsGlobalRung(net, r, c, e)
  }

  ghost predicate HasZoneRung(net: NetWrapper, r: ServiceDnsRecord, c: ClusterDns, zone: string, raw: seq<Endpoint>) {
    exists e :: e in raw && IsZoneRung(net, r, c, zone, e)
  }

  ghost predicate HasUpperRungs(net: NetWrapper, r: ServiceDnsRecord, c: ClusterDns, raw: seq<Endpoint>) {
    && (exists e :: e in raw && IsRegionRung(net, r, c, e))
    && (exists e :: e in raw && IsGlobalRung(net, r, c, e))
  }

  ghost predicate HasLadder(net: NetWrapper, r: ServiceDnsRecord, c: ClusterDns, raw: seq<Endpoint>) {
    (forall zone :: zone in c.zones ==> HasZoneRung(net, r, c, zone, raw)) && HasUpperRungs(net, r, c, raw)
  }

  ghost predicate IsFromSome(net: NetWrapper, r: ServiceDnsRecord, clusters: seq<ClusterDns>, e: Endpoint) {
    exists c :: c in clusters && FromCluster(net, r, c, e)
  }

  function PrefixEndpoint(r: ServiceDnsRecord): Endpoint {
    Endpoint(PrefixName(r), [Global(r)], RECORD_TYPE_CNAME, Ttl(r), map[])
  }

  /** The endpoints before merging: every cluster's ladder, the prefix alias if there is a prefix, and
      nothing else. */
  ghost predicate Emitted(net: NetWrapper, r: ServiceDnsRecord, raw: seq<Endpoint>) {
    && (forall e :: e in raw ==> IsFromSome(net, r, r.dns, e) || (r.dnsPrefix != "" && e == PrefixEndpoint(r)))
    && (forall c :: c in r.dns ==> HasLadder(net, r, c, raw))
    && (r.dnsPrefix != "" ==> PrefixEndpoint(r) in raw)
  }

  lemma MoreRungs(net: NetWrapper, r: ServiceDnsRecord, c: ClusterDns, raw: seq<Endpoint>, more: seq<Endpoint>)
    ensures forall zone :: HasZoneRung(net, r, c, zone, raw) ==> HasZoneRung(net, r, c, zone, raw + more)
    ensures HasUpperRungs(net, r, c, more) ==> HasUpperRungs(net, r, c, raw + more)
    ensures HasLadder(net, r, c, raw) ==> HasLadder(net, r, c, raw + more)
    ensures HasLadder(net, r, c, more) ==> HasLadder(net, r, c, raw + more)
  {
    hide IsZoneRung, IsRegionRung, IsGlobalRung;
  }

  ghost predicate AllFrom(net: NetWrapper, r: ServiceDnsRecord, c: ClusterDns, endpoints: seq<Endpoint>) {
    forall e :: e in endpoints ==> FromCluster(net, r, c, e)
  }

  lemma OneMoreRung(net: NetWrapper, r: ServiceDnsRecord, c: ClusterDns, zone: string, ladder: seq<Endpoint>,
                    e: Endpoint)
    requires AllFrom(net, r, c, ladder) && zone in c.zones && IsZoneRung(net, r, c, zone, e)
    ensures HasZoneRung(net, r, c, zone, ladder + [e]) && AllFrom(net, r, c, ladder + [e])
  {
    hide IsZoneRung, IsRegionRung, IsGlobalRung;
    assert e in ladder + [e];
  }

  method ZoneEndpoints(net: NetWrapper, r: ServiceDnsRecord, c: ClusterDns) returns (endpoints: Option<seq<Endpoint>>)
    modifies net
    ensures endpoints.Some? ==>
              && AllFrom(net, r, c, endpoints.value)
              && forall zone :: zone in c.zones ==> HasZoneRung(net, r, c, zone, endpoints.value)
    ensures net.lookups >= old(net.lookups)
    ensures endpoints.None? ==> LookupFailed(net, Targets(c), old(net.lookups), net.lookups)
  {
    hide IsRung, Zone, Region, Ttl, Labels, LookupFailed, FromCluster, HasZoneRung;
    var ladder: seq<Endpoint> := [];
    for i := 0 to |c.zones|
      invariant AllFrom(net, r, c, ladder) && net.lookups >= old(net.lookups)
      invariant forall k :: 0 <= k < i ==> HasZoneRung(net, r, c, c.zones[k], ladder)
    {
      var zone := c.zones[i];
      ghost var first := net.lookups;
      var targets := ExtractLoadBalancerTargets(c.loadBalancer);
      var endpoint := GenerateEndpoint(net, Zone(r, c, zone), targets, Region(r, c), Ttl(r), Labels(r));
      if endpoint.None? {
        FailsInside(net, targets, first, net.lookups, old(net.lookups), net.lookups);
        return None;
      }
      OneMoreRung(net, r, c, zone, ladder, endpoint.value);
      MoreRungs(net, r, c, ladder, [endpoint.value]);
      ladder := ladder + [endpoint.value];
    }
    return Some(ladder);
  }

  lemma UpperRungs(net: NetWrapper, r: ServiceDnsRecord, c: ClusterDns, region: Endpoint, global: Endpoint)
    requires IsRegionRung(net, r, c, region) && IsGlobalRung(net, r, c, global)
    ensures HasUpperRungs(net, r, c, [region, global]) && AllFrom(net, r, c, [region, global])
  {
    hide IsRegionRung, IsGlobalRung, IsZoneRung;
    assert region in [region, global] && global in [region, global];
  }

  /** The ladder of one cluster. */
  method ClusterEndpoints(net: NetWrapper, r: ServiceDnsRecord,
                          c: ClusterDns) returns (endpoints: Option<seq<Endpoint>>)
    modifies net
    ensures endpoints.Some? ==> HasLadder(net, r, c, endpoints.value) && AllFrom(net, r, c, endpoints.value)
    ensures net.lookups >= old(net.lookups)
    ensures endpoints.None? ==> LookupFailed(net, Targets(c), old(net.lookups), net.lookups)
  {
    hide IsRung, Zone, Region, Global, Ttl, Labels, LookupFailed, FromCluster, HasZoneRung, HasUpperRungs;
    var zones := ZoneEndpoints(net, r, c);
    if zones.None? {
      return None;
    }
    ghost var first := net.lookups;
    var targets := ExtractLoadBalancerTargets(c.loadBalancer);
    var region := GenerateEndpoint(net, Region(r, c), targets, Global(r), Ttl(r), Labels(r));
    if region.None? {
      FailsInside(net, targets, first, net.lookups, old(net.lookups), net.lookups);
      return None;
    }
    first := net.lookups;
    targets := ExtractLoadBalancerTargets(c.loadBalancer);
    var global := GenerateEndpoint(net, Global(r), targets, "", Ttl(r), Labels(r));
    if global.None? {
      FailsInside(net, targets, first, net.lookups, old(net.lookups), net.lookups);
      return None;
    }
    UpperRungs(net, r, c, region.value, global.value);
    MoreRungs(net, r, c, zones.value, [region.value, global.value]);
    return Some(zones.value + [region.value, global.value]);
  }

  /** The endpoints of a service record, or none if one of the lookups made fails. */
  method GetServiceDnsEndpoints(net: NetWrapper, r: ServiceDnsRecord)
    returns (result: Option<seq<Endpoint>>, ghost raw: seq<Endpoint>)
    modifies net
    ensures result.Some? ==> Emitted(net, r, raw) && GroupsByName(raw, result.value)
    ensures result.None? ==> exists c :: c in r.dns && LookupFailed(net, Targets(c), old(net.lookups), net.lookups)
  {
    hide FromCluster, HasLadder, LookupFailed, PrefixName, Global, GroupsByName, Ttl;
    var endpoints: seq<Endpoint> := [];
    for i := 0 to |r.dns|
      invariant net.lookups >= old(net.lookups)
      invariant forall e :: e in endpoints ==> IsFromSome(net, r, r.dns, e)
      invariant forall k :: 0 <= k < i ==> HasLadder(net, r, r.dns[k], endpoints)
    {
      ghost var first := net.lookups;
      var ladder := ClusterEndpoints(net, r, r.dns[i]);
      if ladder.None? {
        FailsInside(net, Targets(r.dns[i]), first, net.lookups, old(net.lookups), net.lookups);
        return None, [];
      }
      forall k | 0 <= k <= i ensures HasLadder(net, r, r.dns[k], endpoints + ladder.value) {
        MoreRungs(net, r, r.dns[k], endpoints, ladder.value);
      }
      endpoints := endpoints + ladder.value;
    }
    if r.dnsPrefix != "" {
      forall c | c in r.dns ensures HasLadder(net, r, c, endpoints + [PrefixEndpoint(r)]) {
        MoreRungs(net, r, c, endpoints, [PrefixEndpoint(r)]);
      }
      var endpoint := Endpoint(PrefixName(r), [Global(r)], RECORD_TYPE_CNAME, Ttl(r), map[]);
      assert endpoint == PrefixEndpoint(r);
      endpoints := endpoints + [endpoint];
    }
    raw := endpoints;
    var merged := DedupeAndMergeEndpoints(endpoints);
    result := Some(merged);
  }

  /** Every record carries the TTL of the service record, or 180 seconds if that has none; and no label but
      the name of the service, which it carries only if there is an external name. */
  lemma TtlAndLabels(net: NetWrapper, r: ServiceDnsRecord, raw: seq<Endpoint>, result: seq<Endpoint>, e: Endpoint)
    requires Emitted(net, r, raw) && GroupsByName(raw, result) && e in result
    ensures e.recordTTL == if r.recordTTL != 0 then r.recordTTL else 180
    ensures e.labels == map[] || (r.externalName != "" && e.labels == map["serviceName" := r.name])
  {
    hide Zone, Region, Global, PrefixName, ResolvesTo, Targets, HasLadder, TargetsAreListed, TargetsAreTidy;
    assert HasOrigin(raw, e);
    var origin :| origin in raw && Describes(origin, e);
    if IsFromSome(net, r, r.dns, origin) {
      var c :| c in r.dns && FromCluster(net, r, c, origin);
    }
  }
}
