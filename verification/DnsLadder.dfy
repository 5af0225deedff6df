/**
  What the records of a federated service resolve to. Names are the real strings, so a zone name of one
  cluster may well be a region name of another; the proofs use only how the names are joined.
 */
module DnsLadder {
  import opened Wrappers
  import opened DnsEndpoints
  import opened DnsService

  // -------------------------------------------------------------------------- walking along aliases

  ghost predicate HasRecord(result: seq<Endpoint>, name: string) {
    exists r :: r in result && r.dnsName == name
  }

  ghost predicate IsAddress(result: seq<Endpoint>, name: string) {
    exists r :: r in result && r.dnsName == name && r.recordType == RECORD_TYPE_A
  }

  ghost predicate IsAlias(result: seq<Endpoint>, name: string, target: string) {
    exists r :: r in result && r.dnsName == name && r.recordType == RECORD_TYPE_CNAME && target in r.targets
  }

  /** Some walk along aliases from `name` gets to an address record within `hops`. */
  ghost predicate Reaches(result: seq<Endpoint>, name: string, hops: nat)
    decreases hops
  {
    IsAddress(result, name) || (hops > 0 && exists t :: IsAlias(result, name, t) && Reaches(result, t, hops - 1))
  }

  /** Every walk from `name` is at an address record after at most `hops`, whichever targets it takes. */
  ghost predicate AlwaysReaches(result: seq<Endpoint>, name: string, hops: nat)
    decreases hops
  {
    || IsAddress(result, name)
    || (hops > 0 && (exists t :: IsAlias(result, name, t))
        && forall t :: IsAlias(result, name, t) ==> AlwaysReaches(result, t, hops - 1))
  }

  ghost predicate Walk(result: seq<Endpoint>, path: seq<string>) {
    forall i {:trigger path[i]} :: 0 <= i < |path| - 1 ==> IsAlias(result, path[i], path[i + 1])
  }

  ghost predicate Cycle(result: seq<Endpoint>, path: seq<string>) {
    |path| > 1 && path[0] == path[|path| - 1] && Walk(result, path)
  }

  // -------------------------------------------------------------------------- what is listed

  ghost predicate HasTargets(r: ServiceDnsRecord) {
    exists c :: c in r.dns && Targets(c) != []
  }

  /** The name is a rung of the ladder of some cluster with a load balancer. */
  ghost predicate Balanced(r: ServiceDnsRecord, name: string) {
    exists c :: c in r.dns && Targets(c) != [] && IsRungOf(r, c, name)
  }

  ghost predicate IsRungOf(r: ServiceDnsRecord, c: ClusterDns, name: string) {
    name == Global(r) || name == Region(r, c) || exists zone :: zone in c.zones && name == Zone(r, c, zone)
  }

  /** The names a record is meant to serve. */
  ghost predicate Served(r: ServiceDnsRecord, name: string) {
    || (exists c, zone :: c in r.dns && zone in c.zones && name == Zone(r, c, zone))
    || (exists c :: c in r.dns && name == Region(r, c))
    || (r.dns != [] && name == Global(r))
    || (r.dnsPrefix != "" && name == PrefixName(r))
  }

  /** An alias from a zone name to the region name of a cluster without load balancer. */
  ghost predicate UpToRegion(r: ServiceDnsRecord, name: string, t: string, c: ClusterDns, zone: string) {
    c in r.dns && Targets(c) == [] && zone in c.zones && name == Zone(r, c, zone) && t == Region(r, c)
  }

  /** An alias to the global name. */
  ghost predicate UpToGlobal(r: ServiceDnsRecord, name: string, t: string) {
    && t == Global(r)
    && (|| (r.dnsPrefix != "" && name == PrefixName(r))
        || exists c :: c in r.dns && Targets(c) == [] && name == Region(r, c))
  }

  lemma ListedIsEmitted(net: NetWrapper, r: ServiceDnsRecord, raw: seq<Endpoint>, name: string, recordType: string,
                        t: string)
    requires Emitted(net, r, raw) && Lists(raw, name, recordType, t)
    ensures Served(r, name) && (recordType == RECORD_TYPE_A || recordType == RECORD_TYPE_CNAME)
    ensures recordType == RECORD_TYPE_A ==> Balanced(r, name)
    ensures recordType == RECORD_TYPE_CNAME ==>
              UpToGlobal(r, name, t) || exists c, zone :: UpToRegion(r, name, t, c, zone)
  {
    hide Zone, Region, Global, PrefixName, ResolvesTo, Targets, Labels, Ttl, HasLadder;
    var e :| e in raw && ListedBy(e, name, recordType, t);
    if IsFromSome(net, r, r.dns, e) {
      var c :| c in r.dns && FromCluster(net, r, c, e);
      if zone :| zone in c.zones && IsZoneRung(net, r, c, zone, e) {
        assert recordType == RECORD_TYPE_CNAME ==> UpToRegion(r, name, t, c, zone);
      }
      assert IsRungOf(r, c, name);
    }
  }

  lemma GlobalIsReal(r: ServiceDnsRecord)
    ensures Global(r) != "" && PrefixName(r) != ""
    ensures forall c :: |Region(r, c)| > |Global(r)|
    ensures forall c, zone :: |Zone(r, c, zone)| > |Region(r, c)|
  {
    GlobalParts(r);
    forall c ensures |Region(r, c)| > |Global(r)| { RegionParts(r, c); }
    forall c, zone ensures |Zone(r, c, zone)| > |Region(r, c)| {
      RegionParts(r, c);
      ZoneParts(r, c, zone);
    }
  }

  lemma ListsTarget(raw: seq<Endpoint>, e: Endpoint, t: string)
    requires e in raw && t in e.targets && t != ""
    ensures Lists(raw, e.dnsName, e.recordType, t)
  {
    assert ListedBy(e, e.dnsName, e.recordType, t);
  }

  /** A rung of a cluster with a load balancer lists an address. */
  lemma RungListsAddress(net: NetWrapper, raw: seq<Endpoint>, e: Endpoint, name: string, lbTargets: seq<string>,
                         uplevel: string,
                         ttl: int, labels: map<string, string>)
    requires AlwaysAnswers(net) && e in raw && lbTargets != [] && IsRung(net, e, name, lbTargets, uplevel, ttl, labels)
    ensures ListsAny(raw, name, RECORD_TYPE_A)
  {
    hide Lists, AlwaysAnswers;
    var n: nat :| ResolvedAt(net, lbTargets, e.targets, n);
    ResolveFinds(net, lbTargets, n);
    var a :| a in Resolve(net, lbTargets, n, {}).addresses && a != "";
    assert a in SetOf(e.targets);
    ListsTarget(raw, e, a);
  }

  lemma GlobalListsAddress(net: NetWrapper, r: ServiceDnsRecord, raw: seq<Endpoint>)
    requires Emitted(net, r, raw) && AlwaysAnswers(net) && HasTargets(r)
    ensures ListsAny(raw, Global(r), RECORD_TYPE_A)
  {
    hide AlwaysAnswers, IsRung, Global, Targets, ListsAny, Region, HasZoneRung;
    var c :| c in r.dns && Targets(c) != [];
    assert HasLadder(net, r, c, raw);
    var e :| e in raw && IsGlobalRung(net, r, c, e);
    RungListsAddress(net, raw, e, Global(r), Targets(c), "", Ttl(r), Labels(r));
  }

  /** A region name lists an address, or the global name as its alias. */
  lemma RegionLists(net: NetWrapper, r: ServiceDnsRecord, raw: seq<Endpoint>, c: ClusterDns)
    requires Emitted(net, r, raw) && AlwaysAnswers(net) && c in r.dns
    ensures Targets(c) != [] ==> ListsAny(raw, Region(r, c), RECORD_TYPE_A)
    ensures Targets(c) == [] ==> Lists(raw, Region(r, c), RECORD_TYPE_CNAME, Global(r))
  {
    hide AlwaysAnswers, Global, Region, Targets, ListsAny, Lists, ResolvesTo, HasZoneRung;
    GlobalIsReal(r);
    assert HasLadder(net, r, c, raw);
    var e :| e in raw && IsRegionRung(net, r, c, e);
    if Targets(c) != [] {
      RungListsAddress(net, raw, e, Region(r, c), Targets(c), Global(r), Ttl(r), Labels(r));
    } else {
      ListsTarget(raw, e, Global(r));
    }
  }

  /** So does a zone name, with its region name as the alias. */
  lemma ZoneLists(net: NetWrapper, r: ServiceDnsRecord, raw: seq<Endpoint>, c: ClusterDns, zone: string)
    requires Emitted(net, r, raw) && AlwaysAnswers(net) && c in r.dns && zone in c.zones
    ensures Targets(c) != [] ==> ListsAny(raw, Zone(r, c, zone), RECORD_TYPE_A)
    ensures Targets(c) == [] ==> Lists(raw, Zone(r, c, zone), RECORD_TYPE_CNAME, Region(r, c))
  {
    hide AlwaysAnswers, Global, Region, Zone, Targets, ListsAny, Lists, ResolvesTo, HasUpperRungs;
    GlobalIsReal(r);
    assert HasLadder(net, r, c, raw) && HasZoneRung(net, r, c, zone, raw);
    var e :| e in raw && IsZoneRung(net, r, c, zone, e);
    if Targets(c) != [] {
      RungListsAddress(net, raw, e, Zone(r, c, zone), Targets(c), Region(r, c), Ttl(r), Labels(r));
    } else {
      ListsTarget(raw, e, Region(r, c));
    }
  }

  // -------------------------------------------------------------------------- from listings to records

  lemma AliasIsListed(raw: seq<Endpoint>, result: seq<Endpoint>, name: string, t: string)
    requires GroupsByName(raw, result) && IsAlias(result, name, t)
    ensures Lists(raw, name, RECORD_TYPE_CNAME, t)
  {
    hide Lists;
    var e :| e in result && e.dnsName == name && e.recordType == RECORD_TYPE_CNAME && t in e.targets;
    assert TargetsAreListed(raw, e);
  }

  /** A name that lists an address has an address record. */
  lemma AddressWins(net: NetWrapper, r: ServiceDnsRecord, raw: seq<Endpoint>, result: seq<Endpoint>, name: string)
    requires Emitted(net, r, raw) && GroupsByName(raw, result) && ListsAny(raw, name, RECORD_TYPE_A)
    ensures IsAddress(result, name)
  {
    hide Emitted, Served;
    var t :| Lists(raw, name, RECORD_TYPE_A, t);
    assert IsStoodFor(result, name, RECORD_TYPE_A);
    var e :| e in result && StandsFor(e, name, RECORD_TYPE_A);
    FirstTargetIsListed(raw, result, e);
    ListedIsEmitted(net, r, raw, name, e.recordType, e.targets[0]);
  }

  /** A name that lists an alias has an address record or is that alias. */
  lemma AliasOrAddress(net: NetWrapper, r: ServiceDnsRecord, raw: seq<Endpoint>, result: seq<Endpoint>, name: string,
                       t: string)
    requires Emitted(net, r, raw) && GroupsByName(raw, result) && Lists(raw, name, RECORD_TYPE_CNAME, t)
    ensures IsAddress(result, name) || IsAlias(result, name, t)
  {
    hide Emitted, Served;
    assert IsStoodFor(result, name, RECORD_TYPE_CNAME);
    var e :| e in result && StandsFor(e, name, RECORD_TYPE_CNAME);
    FirstTargetIsListed(raw, result, e);
    ListedIsEmitted(net, r, raw, name, e.recordType, e.targets[0]);
    assert TargetsAreListed(raw, e);
  }

  lemma RecordIsEither(net: NetWrapper, r: ServiceDnsRecord, raw: seq<Endpoint>, result: seq<Endpoint>, name: string)
    requires Emitted(net, r, raw) && GroupsByName(raw, result) && HasRecord(result, name)
    ensures IsAddress(result, name) || exists t :: IsAlias(result, name, t)
  {
    hide Emitted, Served;
    var e :| e in result && e.dnsName == name;
    FirstTargetIsListed(raw, result, e);
    ListedIsEmitted(net, r, raw, name, e.recordType, e.targets[0]);
    if e.recordType == RECORD_TYPE_CNAME { assert IsAlias(result, name, e.targets[0]); }
  }

  /** The standing assumptions: the records of a service some cluster of which has a load balancer, where
      no lookup comes back empty. */
  ghost predicate Live(net: NetWrapper, r: ServiceDnsRecord, raw: seq<Endpoint>, result: seq<Endpoint>) {
    Emitted(net, r, raw) && GroupsByName(raw, result) && AlwaysAnswers(net) && HasTargets(r)
  }

  lemma GlobalIsAddress(net: NetWrapper, r: ServiceDnsRecord, raw: seq<Endpoint>, result: seq<Endpoint>)
    requires Live(net, r, raw, result)
    ensures IsAddress(result, Global(r))
  {
    hide Emitted, GroupsByName, AlwaysAnswers, HasTargets, IsAddress, ListsAny;
    GlobalListsAddress(net, r, raw);
    AddressWins(net, r, raw, result, Global(r));
  }

  /** A region name has an address or is an alias of the global name. */
  lemma RegionRecord(net: NetWrapper, r: ServiceDnsRecord, raw: seq<Endpoint>, result: seq<Endpoint>, c: ClusterDns)
    requires Live(net, r, raw, result) && c in r.dns
    ensures IsAddress(result, Region(r, c)) || IsAlias(result, Region(r, c), Global(r))
  {
    hide Emitted, GroupsByName, AlwaysAnswers, HasTargets, IsAddress, IsAlias, ListsAny, Lists, Region, Global;
    RegionLists(net, r, raw, c);
    if Targets(c) != [] {
      AddressWins(net, r, raw, result, Region(r, c));
    } else {
      AliasOrAddress(net, r, raw, result, Region(r, c), Global(r));
    }
  }

  /** Where an alias can lead: to the global name, which has an address, or from a zone to its region. */
  lemma AliasLeads(net: NetWrapper, r: ServiceDnsRecord, raw: seq<Endpoint>, result: seq<Endpoint>, name: string,
                   t: string)
    requires Emitted(net, r, raw) && GroupsByName(raw, result) && IsAlias(result, name, t)
    ensures UpToGlobal(r, name, t) || exists c, zone :: UpToRegion(r, name, t, c, zone)
  {
    hide Emitted, GroupsByName, IsAlias, Lists;
    AliasIsListed(raw, result, name, t);
    ListedIsEmitted(net, r, raw, name, RECORD_TYPE_CNAME, t);
  }

  // -------------------------------------------------------------------------- the ladder theorems

  /** Exactly the zone, region, global and prefix names have records. */
  lemma ServesItsNames(net: NetWrapper, r: ServiceDnsRecord, raw: seq<Endpoint>, result: seq<Endpoint>, name: string)
    requires Live(net, r, raw, result)
    ensures HasRecord(result, name) <==> Served(r, name)
  {
    hide Emitted, GroupsByName, AlwaysAnswers, HasTargets, ListsAny, Lists, Zone, Region, Global, PrefixName;
    if HasRecord(result, name) {
      var e :| e in result && e.dnsName == name;
      FirstTargetIsListed(raw, result, e);
      ListedIsEmitted(net, r, raw, name, e.recordType, e.targets[0]);
    }
    if Served(r, name) {
      if c, zone :| c in r.dns && zone in c.zones && name == Zone(r, c, zone) {
        ZoneLists(net, r, raw, c, zone);
        if Targets(c) != [] {
          AddressWins(net, r, raw, result, name);
        } else {
          AliasOrAddress(net, r, raw, result, name, Region(r, c));
        }
      } else if c :| c in r.dns && name == Region(r, c) {
        RegionRecord(net, r, raw, result, c);
      } else if r.dns != [] && name == Global(r) {
        GlobalIsAddress(net, r, raw, result);
      } else {
        PrefixLists(net, r, raw);
        AliasOrAddress(net, r, raw, result, name, Global(r));
      }
    }
  }

  lemma PrefixLists(net: NetWrapper, r: ServiceDnsRecord, raw: seq<Endpoint>)
    requires Emitted(net, r, raw) && r.dnsPrefix != ""
    ensures Lists(raw, PrefixName(r), RECORD_TYPE_CNAME, Global(r))
  {
    GlobalIsReal(r);
    ListsTarget(raw, PrefixEndpoint(r), Global(r));
  }

  /** Exactly the rungs of clusters with a load balancer have address records. */
  lemma AddressIffBalanced(net: NetWrapper, r: ServiceDnsRecord, raw: seq<Endpoint>, result: seq<Endpoint>,
                           name: string)
    requires Emitted(net, r, raw) && GroupsByName(raw, result) && AlwaysAnswers(net)
    ensures IsAddress(result, name) <==> Balanced(r, name)
  {
    hide Emitted, Served, GroupsByName, AlwaysAnswers, Zone, Region, Global, Lists, ListsAny;
    if IsAddress(result, name) {
      var e :| e in result && e.dnsName == name && e.recordType == RECORD_TYPE_A;
      FirstTargetIsListed(raw, result, e);
      ListedIsEmitted(net, r, raw, name, e.recordType, e.targets[0]);
    }
    if Balanced(r, name) {
      var c :| c in r.dns && Targets(c) != [] && IsRungOf(r, c, name);
      if name == Global(r) {
        GlobalListsAddress(net, r, raw);
      } else if name == Region(r, c) {
        RegionLists(net, r, raw, c);
      } else {
        var zone :| zone in c.zones && name == Zone(r, c, zone);
        ZoneLists(net, r, raw, c, zone);
      }
      AddressWins(net, r, raw, result, name);
    }
  }

  /** From every name some walk reaches an address within two hops. */
  lemma TwoHops(net: NetWrapper, r: ServiceDnsRecord, raw: seq<Endpoint>, result: seq<Endpoint>, name: string)
    requires Live(net, r, raw, result) && HasRecord(result, name)
    ensures Reaches(result, name, 2)
  {
    hide Emitted, GroupsByName, AlwaysAnswers, HasTargets, HasRecord, IsAddress, IsAlias;
    RecordIsEither(net, r, raw, result, name);
    if !IsAddress(result, name) {
      GlobalIsAddress(net, r, raw, result);
      var t :| IsAlias(result, name, t);
      AliasLeads(net, r, raw, result, name, t);
      if c, zone :| UpToRegion(r, name, t, c, zone) {
        RegionRecord(net, r, raw, result, c);
        assert Reaches(result, Global(r), 0);
        assert Reaches(result, Region(r, c), 1);
      } else {
        assert Reaches(result, Global(r), 1);
      }
    }
  }

  /** Every walk ends at an address record, after no more hops than the name has characters. */
  lemma {:induction false} EveryWalkEnds(net: NetWrapper, r: ServiceDnsRecord, raw: seq<Endpoint>,
                                         result: seq<Endpoint>,
                                         name: string, hops: nat)
    requires Live(net, r, raw, result) && HasRecord(result, name) && hops >= |name|
    ensures AlwaysReaches(result, name, hops)
    decreases hops
  {
    hide Live, IsAddress, IsAlias, HasRecord;
    LiveIsEmitted(net, r, raw, result);
    RecordIsEither(net, r, raw, result, name);
    if !IsAddress(result, name) {
      forall t | IsAlias(result, name, t) ensures hops > 0 && AlwaysReaches(result, t, hops - 1) {
        AliasLeads(net, r, raw, result, name, t);
        AliasShortens(net, r, raw, result, name, t);
        if t == Global(r) {
          GlobalIsAddress(net, r, raw, result);
        } else {
          EveryWalkEnds(net, r, raw, result, t, hops - 1);
        }
      }
    }
  }

  lemma LiveIsEmitted(net: NetWrapper, r: ServiceDnsRecord, raw: seq<Endpoint>, result: seq<Endpoint>)
    requires Live(net, r, raw, result)
    ensures Emitted(net, r, raw) && GroupsByName(raw, result)
  {
  }

  /** An alias that does not lead to the global name leads to a shorter one, which has a record. */
  lemma AliasShortens(net: NetWrapper, r: ServiceDnsRecord, raw: seq<Endpoint>, result: seq<Endpoint>, name: string,
                      t: string)
    requires Live(net, r, raw, result)
    requires UpToGlobal(r, name, t) || exists c, zone :: UpToRegion(r, name, t, c, zone)
    ensures |name| > 0 && (t != Global(r) ==> |t| < |name| && HasRecord(result, t))
  {
    hide Live, Region, Zone, Global;
    GlobalIsReal(r);
    if c, zone :| UpToRegion(r, name, t, c, zone) {
      RegionRecord(net, r, raw, result, c);
    }
  }

  /** The region name of `c` is also the zone name `zone'` of `c'`, and neither of these two nor the zone
      `zone` of `c` nor the region of `c'` has an address. */
  ghost predicate Stacked(r: ServiceDnsRecord, c: ClusterDns, zone: string, c': ClusterDns, zone': string) {
    && c in r.dns && c' in r.dns && zone in c.zones && zone' in c'.zones && Region(r, c) == Zone(r, c', zone')
    && !Balanced(r, Zone(r, c, zone)) && !Balanced(r, Region(r, c)) && !Balanced(r, Region(r, c'))
  }

  /** No walk takes more than two hops, exactly if no ladder stands on top of another. */
  lemma TwoHopsIff(net: NetWrapper, r: ServiceDnsRecord, raw: seq<Endpoint>, result: seq<Endpoint>)
    requires Live(net, r, raw, result)
    ensures (forall name :: HasRecord(result, name) ==> AlwaysReaches(result, name, 2)) <==>
            (forall c, zone, c', zone' :: !Stacked(r, c, zone, c', zone'))
  {
    hide Live, HasRecord, AlwaysReaches, Stacked;
    if c, zone, c', zone' :| Stacked(r, c, zone, c', zone') {
      StackedTakesLonger(net, r, raw, result, c, zone, c', zone');
    } else {
      forall name | HasRecord(result, name) ensures AlwaysReaches(result, name, 2) {
        NotStackedTwoHops(net, r, raw, result, name);
      }
    }
  }

  lemma NoAddressWithout(r: ServiceDnsRecord, c: ClusterDns, zone: string)
    requires c in r.dns && ((zone in c.zones && !Balanced(r, Zone(r, c, zone))) || !Balanced(r, Region(r, c)))
    ensures Targets(c) == []
  {
    assert zone in c.zones ==> IsRungOf(r, c, Zone(r, c, zone));
    assert IsRungOf(r, c, Region(r, c));
  }

  lemma StackedTakesLonger(net: NetWrapper, r: ServiceDnsRecord, raw: seq<Endpoint>, result: seq<Endpoint>,
                           c: ClusterDns, zone: string, c': ClusterDns, zone': string)
    requires Live(net, r, raw, result) && Stacked(r, c, zone, c', zone')
    ensures HasRecord(result, Zone(r, c, zone)) && !AlwaysReaches(result, Zone(r, c, zone), 2)
  {
    hide Emitted, GroupsByName, AlwaysAnswers, HasTargets, IsAddress, IsAlias, Lists, ListsAny;
    hide Balanced, Zone, Region, Global;
    var bottom, middle, top := Zone(r, c, zone), Region(r, c), Region(r, c');
    NoAddressWithout(r, c, zone);
    NoAddressWithout(r, c', zone');
    AddressIffBalanced(net, r, raw, result, bottom);
    AddressIffBalanced(net, r, raw, result, middle);
    AddressIffBalanced(net, r, raw, result, top);
    ZoneLists(net, r, raw, c, zone);
    AliasOrAddress(net, r, raw, result, bottom, middle);
    ZoneLists(net, r, raw, c', zone');
    AliasOrAddress(net, r, raw, result, middle, top);
    assert !AlwaysReaches(result, top, 0);
    assert !AlwaysReaches(result, middle, 1);
    assert HasRecord(result, bottom) by { AliasHasRecord(result, bottom, middle); }
  }

  lemma AliasHasRecord(result: seq<Endpoint>, name: string, t: string)
    requires IsAlias(result, name, t)
    ensures HasRecord(result, name)
  {
  }

  lemma NotStackedTwoHops(net: NetWrapper, r: ServiceDnsRecord, raw: seq<Endpoint>, result: seq<Endpoint>, name: string)
    requires Live(net, r, raw, result) && HasRecord(result, name)
    requires forall c, zone, c', zone' :: !Stacked(r, c, zone, c', zone')
    ensures AlwaysReaches(result, name, 2)
  {
    hide Emitted, GroupsByName, AlwaysAnswers, HasTargets, IsAddress, IsAlias, HasRecord, Stacked;
    hide Balanced, Zone, Region, Global;
    RecordIsEither(net, r, raw, result, name);
    GlobalIsAddress(net, r, raw, result);
    forall t | !IsAddress(result, name) && IsAlias(result, name, t) ensures AlwaysReaches(result, t, 1) {
      AliasLeads(net, r, raw, result, name, t);
      if c, zone :| UpToRegion(r, name, t, c, zone) {
        RegionRecord(net, r, raw, result, c);
        forall t' | !IsAddress(result, t) && IsAlias(result, t, t') ensures IsAddress(result, t') {
          AliasLeads(net, r, raw, result, t, t');
          if c', zone' :| UpToRegion(r, t, t', c', zone') {
            AddressIffBalanced(net, r, raw, result, name);
            AddressIffBalanced(net, r, raw, result, t);
            AddressIffBalanced(net, r, raw, result, t');
            assert !Stacked(r, c, zone, c', zone');
            UnstackedHasAddress(r, c, zone, c', zone');
          }
        }
      }
    }
  }

  lemma UnstackedHasAddress(r: ServiceDnsRecord, c: ClusterDns, zone: string, c': ClusterDns, zone': string)
    requires !Stacked(r, c, zone, c', zone')
    requires c in r.dns && c' in r.dns && zone in c.zones && zone' in c'.zones && Region(r, c) == Zone(r, c', zone')
    requires !Balanced(r, Zone(r, c, zone)) && !Balanced(r, Region(r, c))
    ensures Balanced(r, Region(r, c'))
  {
  }

  /** In particular, if no region name contains a dot, no walk takes more than two hops. */
  lemma PlainRegionsTwoHops(net: NetWrapper, r: ServiceDnsRecord, raw: seq<Endpoint>, result: seq<Endpoint>,
                            name: string)
    requires Live(net, r, raw, result) && HasRecord(result, name)
    requires forall c :: c in r.dns ==> '.' !in c.region
    ensures AlwaysReaches(result, name, 2)
  {
    hide Live, HasRecord, Balanced, Zone, Region;
    forall c, zone, c', zone' ensures !Stacked(r, c, zone, c', zone') {
      if c in r.dns { RegionIsNoZone(r, c, c', zone'); }
    }
    NotStackedTwoHops(net, r, raw, result, name);
  }

  lemma RegionIsNoZone(r: ServiceDnsRecord, c: ClusterDns, c': ClusterDns, zone: string)
    requires '.' !in c.region
    ensures Region(r, c) != Zone(r, c', zone)
  {
    hide Region, Zone, CommonPrefix;
    RegionParts(r, c);
    ZoneParts(r, c', zone);
    assert (zone + "." + c'.region)[|zone|] == '.';
    if Region(r, c) == Zone(r, c', zone) {
      var p := CommonPrefix(r) + ".";
      var a, b := c.region + "." + r.domain, zone + "." + (c'.region + "." + r.domain);
      SamePrefix(p, a, b);
      assert a == c.region + ("." + r.domain) && b == (zone + "." + c'.region) + ("." + r.domain);
      SameSuffix(c.region, zone + "." + c'.region, "." + r.domain);
    }
  }

  lemma SamePrefix(p: string, a: string, b: string)
    requires p + a == p + b
    ensures a == b
  {
    assert (p + a)[|p|..] == a && (p + b)[|p|..] == b;
  }

  lemma SameSuffix(a: string, b: string, s: string)
    requires a + s == b + s
    ensures a == b
  {
    assert |a| == |b|;
    assert (a + s)[..|a|] == a && (b + s)[..|a|] == b;
  }

  /** Without any load balancer there is no address record at all. */
  lemma NothingResolves(net: NetWrapper, r: ServiceDnsRecord, raw: seq<Endpoint>, result: seq<Endpoint>, name: string)
    requires Emitted(net, r, raw) && GroupsByName(raw, result) && !HasTargets(r)
    ensures !IsAddress(result, name)
  {
    hide Emitted, Served, Targets, IsRungOf;
    if e :| e in result && e.dnsName == name && e.recordType == RECORD_TYPE_A {
      FirstTargetIsListed(raw, result, e);
      ListedIsEmitted(net, r, raw, name, e.recordType, e.targets[0]);
    }
  }

  /** Nothing leaves the global name, unless it is its own prefix name and there is no load balancer. */
  lemma GlobalLeadsNowhere(net: NetWrapper, r: ServiceDnsRecord, raw: seq<Endpoint>, result: seq<Endpoint>, t: string)
    requires Emitted(net, r, raw) && GroupsByName(raw, result) && AlwaysAnswers(net) && IsAlias(result, Global(r), t)
    ensures !HasTargets(r) && r.dnsPrefix != "" && r.dnsPrefix == CommonPrefix(r)
  {
    hide Emitted, HasTargets, AlwaysAnswers, Lists, Region, Zone, CommonPrefix;
    if HasTargets(r) {
      GlobalIsAddress(net, r, raw, result);
      NotBoth(raw, result, Global(r), t);
    }
    AliasLeads(net, r, raw, result, Global(r), t);
    GlobalIsReal(r);
    GlobalParts(r);
    assert PrefixName(r) == Global(r);
    assert r.dnsPrefix + ("." + r.domain) == PrefixName(r);
    assert CommonPrefix(r) + ("." + r.domain) == Global(r);
    SameSuffix(r.dnsPrefix, CommonPrefix(r), "." + r.domain);
  }

  lemma NotBoth(raw: seq<Endpoint>, result: seq<Endpoint>, name: string, t: string)
    requires GroupsByName(raw, result) && IsAlias(result, name, t)
    ensures !IsAddress(result, name)
  {
    var e :| e in result && e.dnsName == name && e.recordType == RECORD_TYPE_CNAME && t in e.targets;
    var i :| 0 <= i < |result| && result[i] == e;
    if x :| x in result && x.dnsName == name && x.recordType == RECORD_TYPE_A {
      OneRecordPerName(result, x, i);
    }
  }

  /** Aliases form a cycle exactly if no cluster has a load balancer and the chosen prefix makes the prefix
      name the global name itself. */
  lemma CycleIff(net: NetWrapper, r: ServiceDnsRecord, raw: seq<Endpoint>, result: seq<Endpoint>)
    requires Emitted(net, r, raw) && GroupsByName(raw, result) && AlwaysAnswers(net)
    ensures (exists path :: Cycle(result, path)) <==>
            !HasTargets(r) && r.dnsPrefix != "" && r.dnsPrefix == CommonPrefix(r)
  {
    hide Emitted, GroupsByName, AlwaysAnswers, HasTargets, IsAlias, CommonPrefix;
    if !HasTargets(r) && r.dnsPrefix != "" && r.dnsPrefix == CommonPrefix(r) {
      GlobalParts(r);
      assert PrefixName(r) == Global(r);
      PrefixLists(net, r, raw);
      AliasOrAddress(net, r, raw, result, Global(r), Global(r));
      NothingResolves(net, r, raw, result, Global(r));
      assert Cycle(result, [Global(r), Global(r)]);
    } else {
      forall path ensures !Cycle(result, path) {
        forall t ensures !IsAlias(result, Global(r), t) {
          if IsAlias(result, Global(r), t) { GlobalLeadsNowhere(net, r, raw, result, t); }
        }
        CyclesPassGlobal(net, r, raw, result, path);
      }
    }
  }

  /** A cycle would have to pass through the global name. */
  lemma CyclesPassGlobal(net: NetWrapper, r: ServiceDnsRecord, raw: seq<Endpoint>, result: seq<Endpoint>,
                         path: seq<string>)
    requires Emitted(net, r, raw) && GroupsByName(raw, result)
    requires forall t :: !IsAlias(result, Global(r), t)
    ensures !Cycle(result, path)
  {
    hide Emitted, GroupsByName, IsAlias, Global;
    if |path| > 1 && Walk(result, path) {
      assert IsAlias(result, path[0], path[1]);
      WalkShortens(net, r, raw, result, path, |path| - 1);
    }
  }

  lemma {:induction false} WalkShortens(net: NetWrapper, r: ServiceDnsRecord, raw: seq<Endpoint>, result: seq<Endpoint>,
                                        path: seq<string>, i: nat)
    requires Emitted(net, r, raw) && GroupsByName(raw, result) && Walk(result, path) && 0 < i < |path|
    requires forall t :: !IsAlias(result, Global(r), t)
    ensures |path[i]| < |path[0]| || path[i] == Global(r)
  {
    hide Emitted, GroupsByName, IsAlias, Global, Region, Zone;
    GlobalIsReal(r);
    assert IsAlias(result, path[i - 1], path[i]);
    AliasLeads(net, r, raw, result, path[i - 1], path[i]);
    if i > 1 { WalkShortens(net, r, raw, result, path, i - 1); }
  }

  // -------------------------------------------------------------------------- such records exist

  /** Any record can be published over a network in which all targets are addresses. */
  method PublishAddresses(r: ServiceDnsRecord)
    returns (net: NetWrapper, result: seq<Endpoint>, ghost raw: seq<Endpoint>)
    ensures Emitted(net, r, raw) && GroupsByName(raw, result) && AlwaysAnswers(net)
  {
    hide Emitted, GroupsByName;
    net := new NetWrapper(s => s != "", (n, host) => None);
    var published;
    published, raw := GetServiceDnsEndpoints(net, r);
    forall c | c in r.dns ensures !LookupFailed(net, Targets(c), 0, net.lookups) {
      forall t ensures t in Targets(c) ==> t != "" { TargetsAreSet(c.loadBalancer, t); }
    }
    result := published.value;
  }

  const LOWER := ClusterDns([], ["a"], "z.r")
  const UPPER := ClusterDns([], ["z"], "r")
  const BALANCED := ClusterDns([Ingress("10.0.0.1", "")], [], "q")

  /** Two clusters without load balancer, one in region `z.r` and one in zone `z` of region `r`, beside a
      third with a load balancer. */
  function StackedRecord(domain: string): ServiceDnsRecord {
    ServiceDnsRecord("n", "ns", "", "d", "", 0, domain, [LOWER, UPPER, BALANCED])
  }

  lemma StackedExample(domain: string)
    ensures HasTargets(StackedRecord(domain)) && Stacked(StackedRecord(domain), LOWER, "a", UPPER, "z")
  {
    hide Zone, Region, Global, CommonPrefix;
    var r := StackedRecord(domain);
    assert BALANCED.loadBalancer[..0] == [];
    assert Targets(BALANCED) == ["10.0.0.1"];
    assert r.dns[2] == BALANCED;
    RegionParts(r, LOWER);
    ZoneParts(r, UPPER, "z");
    assert "z" + "." + ("r" + "." + domain) == "z.r" + "." + domain;
    NotBalanced(r, "a" + "." + ("z.r" + "." + domain));
    ZoneParts(r, LOWER, "a");
    NotBalanced(r, "z.r" + "." + domain);
    RegionParts(r, UPPER);
    NotBalanced(r, "r" + "." + domain);
  }

  // The only addresses are those of the global name and of region q.
  lemma NotBalanced(r: ServiceDnsRecord, rest: string)
    requires r.dns == [LOWER, UPPER, BALANCED] && |rest| > |r.domain| && rest[0] != 'q'
    ensures !Balanced(r, CommonPrefix(r) + "." + rest)
  {
    hide Zone, Region, Global, CommonPrefix;
    var name := CommonPrefix(r) + "." + rest;
    GlobalParts(r);
    RegionParts(r, BALANCED);
    var at := |CommonPrefix(r)| + 1;
    assert name[at] == rest[0] && Region(r, BALANCED)[at] == 'q';
    assert |name| > |Global(r)|;
    forall c | c in r.dns && Targets(c) != [] ensures c == BALANCED {
      assert c in [LOWER, UPPER, BALANCED];
    }
  }

  /** So there are records published in which a walk takes more than two hops. */
  method PublishStacked(domain: string)
    returns (net: NetWrapper, result: seq<Endpoint>, ghost raw: seq<Endpoint>, ghost name: string)
    ensures Live(net, StackedRecord(domain), raw, result)
    ensures HasRecord(result, name) && !AlwaysReaches(result, name, 2)
  {
    hide Emitted, GroupsByName, AlwaysAnswers, HasTargets, HasRecord, AlwaysReaches, Stacked;
    var r := StackedRecord(domain);
    net, result, raw := PublishAddresses(r);
    StackedExample(domain);
    StackedTakesLonger(net, r, raw, result, LOWER, "a", UPPER, "z");
    name := Zone(r, LOWER, "a");
  }

  /** And records in which the global name is an alias of itself: any record without a load balancer, once
      its prefix is the common prefix. */
  method PublishSelfAlias(r0: ServiceDnsRecord)
    returns (net: NetWrapper, result: seq<Endpoint>, ghost raw: seq<Endpoint>, ghost path: seq<string>)
    requires !HasTargets(r0)
    ensures var r := r0.(dnsPrefix := CommonPrefix(r0));
            Emitted(net, r, raw) && GroupsByName(raw, result) && Cycle(result, path)
  {
    hide Emitted, GroupsByName, AlwaysAnswers, Cycle, Join;
    var r := r0.(dnsPrefix := CommonPrefix(r0));
    net, result, raw := PublishAddresses(r);
    CommonPrefixIsReal(r);
    assert !HasTargets(r);
    CycleIff(net, r, raw, result);
    path :| Cycle(result, path);
  }

  lemma CommonPrefixIsReal(r: ServiceDnsRecord)
    ensures CommonPrefix(r) != ""
  {
  }
}
