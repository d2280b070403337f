/** The analysis driver (analysis/analysis.py): the generic pass that looks
    every node up and counts it under its provider and its country, the
    Flow pass that counts every node under its role, and the dispatch
    between them. The scraper's JSON document and the lookup databases are
    parameters. */
module Analysis {
  import opened Wrappers
  import opened Records
  import opened Sums
  import opened OrderedDicts
  import opened InitialValues
  import opened Providers
  import opened Countries
  import opened Chains
  import opened AnalysisUtils

  /** The lookup tables and databases of the configuration: the ASN of an
      IP, the geo record of an IP, country names by code, and providers by
      ASN. */
  datatype Globals = Globals(
    asnOf: string -> Option<string>,
    geoOf: string -> Option<GeoRecord>,
    countryNames: map<string, string>,
    providerAsnLookup: map<string, string>)

  /** Why an analysis stops: a key missing from the document or from a
      node, a role with no counters, or a zero denominator. */
  datatype Failure = MissingKey(key: string) | UnknownRole(role: Value) | ZeroDivision

  // ------------------------------------------------ per-node counters

  function ValidatorEntry(e: (string, NodeRecord)): nat { if e.1.isValidator then 1 else 0 }
  function NonValidatorEntry(e: (string, NodeRecord)): nat { if e.1.isValidator then 0 else 1 }
  function StakeEntry(e: (string, NodeRecord)): nat { if e.1.isValidator then CoerceStake(e.1.stake) else 0 }

  /** A bucket after one more node: validators add their coerced stake. */
  function Counted(b: Bucket, node: NodeRecord): Bucket {
    if node.isValidator
    then b.(validators := b.validators + 1, stake := b.stake + CoerceStake(node.stake), nodes := b.nodes + 1)
    else b.(nonValidators := b.nonValidators + 1, nodes := b.nodes + 1)
  }

  /** Counting a node adds it to the bucket's sums exactly as to the
      root's, and keeps the bucket's nodes split into validators and
      non-validators. */
  lemma {:induction false} CountedSums(m: map<string, Bucket>, k: string, node: NodeRecord)
    requires k in m
    ensures var m' := m[k := Counted(m[k], node)];
      && SumBy(m', NodesOf) == SumBy(m, NodesOf) + 1
      && SumBy(m', ValidatorsOf) == SumBy(m, ValidatorsOf) + (if node.isValidator then 1 else 0)
      && SumBy(m', NonValidatorsOf) == SumBy(m, NonValidatorsOf) + (if node.isValidator then 0 else 1)
      && SumBy(m', StakeOf) == SumBy(m, StakeOf) + (if node.isValidator then CoerceStake(node.stake) else 0)
  {
    var v := Counted(m[k], node);
    SumByUpdate(m, NodesOf, k, v);
    SumByUpdate(m, ValidatorsOf, k, v);
    SumByUpdate(m, NonValidatorsOf, k, v);
    SumByUpdate(m, StakeOf, k, v);
  }

  /** Creating a zeroed bucket for a missing key leaves every sum as it
      was. */
  lemma {:induction false} ZeroBucketKeepsSums(m: map<string, Bucket>, k: string)
    ensures var m' := WithKey(m, k, ZeroBucket());
      && SumBy(m', NodesOf) == SumBy(m, NodesOf)
      && SumBy(m', ValidatorsOf) == SumBy(m, ValidatorsOf)
      && SumBy(m', NonValidatorsOf) == SumBy(m, NonValidatorsOf)
      && SumBy(m', StakeOf) == SumBy(m, StakeOf)
  {
    if k !in m {
      SumByUpdate(m, NodesOf, k, ZeroBucket());
      SumByUpdate(m, ValidatorsOf, k, ZeroBucket());
      SumByUpdate(m, NonValidatorsOf, k, ZeroBucket());
      SumByUpdate(m, StakeOf, k, ZeroBucket());
    }
  }

  /** The dictionary with `k` added, holding the zeroed bucket `zero`, when
      it was absent. */
  function WithKey<V>(m: map<string, V>, k: string, zero: V): (r: map<string, V>)
    ensures k in r && r.Keys == m.Keys + {k}
    ensures forall j :: j in m ==> r[j] == m[j]
    ensures k !in m ==> r[k] == zero
    ensures k in m ==> r == m
  {
    if k in m then m else m[k := zero]
  }

  /** The root totals after one more node. */
  function CountInto(t: ChainTotals, node: NodeRecord): ChainTotals {
    ChainTotals(t.stake + StakeEntry(("", node)), t.nonValidators + NonValidatorEntry(("", node)),
                t.validators + ValidatorEntry(("", node)), t.nodes + 1)
  }

  /** The root totals after counting every node of `s`, in order. */
  function CountAllInto(t: ChainTotals, s: seq<(string, NodeRecord)>): ChainTotals {
    if |s| == 0 then t else CountInto(CountAllInto(t, s[..|s| - 1]), s[|s| - 1].1)
  }

  /** Counting the nodes one by one adds, to each root total, the sum of
      the nodes' entries for it. */
  lemma {:induction false} CountAllSums(t: ChainTotals, s: seq<(string, NodeRecord)>)
    ensures CountAllInto(t, s) == ChainTotals(t.stake + SumSeq(s, StakeEntry), t.nonValidators + SumSeq(s, NonValidatorEntry),
                                              t.validators + SumSeq(s, ValidatorEntry), t.nodes + |s|)
  {
    if |s| > 0 {
      var init := s[..|s| - 1];
      CountAllSums(t, init);
      assert s == init + [s[|s| - 1]];
      SumSeqAppend(init, s[|s| - 1], StakeEntry);
      SumSeqAppend(init, s[|s| - 1], NonValidatorEntry);
      SumSeqAppend(init, s[|s| - 1], ValidatorEntry);
    }
  }

  /** The two lookups whose failures are recorded on the report. */
  datatype Lookup = AsnLookup | GeoLookup

  /** Whether a lookup of an IP fails: no ASN, or no geo record with a
      known country code. */
  predicate Fails(g: Globals, lookup: Lookup, ip: string) {
    match lookup
    case AsnLookup => g.asnOf(ip).None?
    case GeoLookup => ResolveLocation(g.geoOf(ip), g.countryNames).None?
  }

  /** The unidentified-IP dictionary after the nodes of `s`, in order: each
      node whose lookup fails is stored under its IP. */
  function RecordMissing(m: map<string, NodeRecord>, s: seq<(string, NodeRecord)>, g: Globals, lookup: Lookup)
    : map<string, NodeRecord>
  {
    if |s| == 0 then m
    else
      var m' := RecordMissing(m, s[..|s| - 1], g, lookup);
      if Fails(g, lookup, s[|s| - 1].0) then m'[s[|s| - 1].0 := s[|s| - 1].1] else m'
  }

  /** An IP is recorded exactly when it was already, or some node of `s`
      has it and its lookup fails; with distinct IPs its record is that
      node. */
  lemma {:induction false} RecordMissingKeys(m: map<string, NodeRecord>, s: seq<(string, NodeRecord)>,
                                             g: Globals, lookup: Lookup, ip: string)
    ensures ip in RecordMissing(m, s, g, lookup) <==>
      ip in m || exists i :: 0 <= i < |s| && s[i].0 == ip && Fails(g, lookup, ip)
    ensures DistinctKeys(s) ==> forall i :: 0 <= i < |s| && s[i].0 == ip && Fails(g, lookup, ip) ==>
      RecordMissing(m, s, g, lookup)[ip] == s[i].1
  {
    if |s| > 0 {
      var init := s[..|s| - 1];
      RecordMissingKeys(m, init, g, lookup, ip);
      if exists i :: 0 <= i < |s| && s[i].0 == ip && Fails(g, lookup, ip) {
        var i :| 0 <= i < |s| && s[i].0 == ip && Fails(g, lookup, ip);
        if i < |s| - 1 {
          assert init[i] == s[i];
        }
      }
      if DistinctKeys(s) {
        assert DistinctKeys(init) by {
          forall a, b | 0 <= a < b < |init| ensures init[a].0 != init[b].0 {
            assert init[a] == s[a] && init[b] == s[b];
          }
        }
        forall i | 0 <= i < |s| && s[i].0 == ip && Fails(g, lookup, ip)
          ensures RecordMissing(m, s, g, lookup)[ip] == s[i].1
        {
          if i < |s| - 1 {
            assert init[i] == s[i];
          }
        }
      }
    }
  }

  /** Counting a node under its provider and its country, creating either
      bucket zeroed when it is missing, keeps the report tallied. */
  lemma {:induction false} CountKeepsTallies(t: ChainTotals, providers: map<string, Bucket>, countries: map<string, Bucket>,
                                             name: string, country: string, node: NodeRecord)
    requires Tallies(t, providers, countries)
    ensures var p := WithKey(providers, name, ZeroBucket());
      var c := WithKey(countries, country, ZeroBucket());
      Tallies(CountInto(t, node), p[name := Counted(p[name], node)], c[country := Counted(c[country], node)])
  {
    ZeroBucketKeepsSums(providers, name);
    ZeroBucketKeepsSums(countries, country);
    CountedSums(WithKey(providers, name, ZeroBucket()), name, node);
    CountedSums(WithKey(countries, country, ZeroBucket()), country, node);
  }

  /** The counting part of the generic loop: the node goes to its
      provider's bucket, its country's bucket and the root totals. */
  method CountNode(chain: Blockchain, providerName: string, country: string, node: NodeRecord)
    requires providerName in chain.providersData && country in chain.countriesData
    modifies chain`providersData, chain`countriesData, chain`totalStake, chain`totalValidators
    modifies chain`totalNonValidatorNodes, chain`totalNodes
    ensures chain.Totals() == CountInto(old(chain.Totals()), node)
    ensures chain.providersData == old(chain.providersData)[providerName := Counted(old(chain.providersData)[providerName], node)]
    ensures chain.countriesData == old(chain.countriesData)[country := Counted(old(chain.countriesData)[country], node)]
  {
    chain.providersData := chain.providersData[providerName := Counted(chain.providersData[providerName], node)];
    chain.countriesData := chain.countriesData[country := Counted(chain.countriesData[country], node)];
    if node.isValidator {
      chain.totalStake := chain.totalStake + CoerceStake(node.stake);
      chain.totalValidators := chain.totalValidators + 1;
    } else {
      chain.totalNonValidatorNodes := chain.totalNonValidatorNodes + 1;
    }
    chain.totalNodes := chain.totalNodes + 1;
  }

  // ------------------------------------------------ generic pass

  /** The tracked objects of the generic pass are usable: tracked
      providers own nothing outside `footprint`, and neither the report nor
      a tracked country is in it. */
  ghost predicate Tracking(providersToTrack: seq<(string, string)>, countriesToTrack: map<string, string>,
                           providerObjects: map<string, Provider>, countryObjects: map<string, Country>,
                           footprint: set<object>, chain: Blockchain)
    reads providerObjects.Values, footprint, countryObjects.Values
  {
    ShortsHaveObjects(providersToTrack, providerObjects)
    && (forall c :: c in countriesToTrack ==> c in countryObjects)
    && ProvidersReady(providerObjects, footprint, false) && chain !in footprint
    && (forall c :: c in countryObjects.Values ==> c !in footprint)
    && CountriesReady(countryObjects)
  }

  /** The first half of an iteration: both lookups and the provider
      step. */
  method LookupAndProvider(providersToTrack: seq<(string, string)>, countriesToTrack: map<string, string>,
                           providerObjects: map<string, Provider>, countryObjects: map<string, Country>,
                           ghost footprint: set<object>, ip: string, node: NodeRecord, chain: Blockchain, g: Globals)
    returns (name: string, loc: Location, ghost footprint': set<object>)
    requires "Other" in chain.providersData && "Unidentified" in chain.providersData
    requires Tracking(providersToTrack, countriesToTrack, providerObjects, countryObjects, footprint, chain)
    modifies chain`unidentifiedASNs, chain`unidentifiedLocations, chain`providersData, footprint
    ensures Tracking(providersToTrack, countriesToTrack, providerObjects, countryObjects, footprint', chain)
    ensures footprint <= footprint' && fresh(footprint' - footprint)
    ensures name == ResolveProvider(g.asnOf(ip), if g.asnOf(ip).Some? then "Other" else "Unidentified", g.providerAsnLookup)
    ensures loc == if ResolveLocation(g.geoOf(ip), g.countryNames).Some?
                   then ResolveLocation(g.geoOf(ip), g.countryNames).value else UnidentifiedLocation()
    ensures chain.providersData == WithKey(old(chain.providersData), name, ZeroBucket())
    ensures chain.unidentifiedASNs ==
      if g.asnOf(ip).None? then old(chain.unidentifiedASNs)[ip := node] else old(chain.unidentifiedASNs)
    ensures chain.unidentifiedLocations ==
      if ResolveLocation(g.geoOf(ip), g.countryNames).None? then old(chain.unidentifiedLocations)[ip := node]
      else old(chain.unidentifiedLocations)
  {
    var asn, providerName := IpAsnLookup(ip, node, chain, g.asnOf);
    loc := IpGeoLookup(ip, node, chain, g.geoOf, g.countryNames);
    var updated;
    name, updated, footprint' := ProviderAnalysis(providersToTrack, asn, ip, node, providerObjects, loc, providerName,
                                                  chain, g.providerAsnLookup, footprint);
    forall c | c in countryObjects.Values
      ensures c.Valid() && c !in footprint'
    {
      assert old(c.Valid()) && unchanged(c);
    }
  }

  /** The country step under the tracking invariant: it touches only the
      report's country buckets and the tracked countries. */
  method CountryStep(providersToTrack: seq<(string, string)>, countriesToTrack: map<string, string>,
                     providerObjects: map<string, Provider>, countryObjects: map<string, Country>,
                     ghost footprint: set<object>, loc: Location, ip: string, node: NodeRecord, chain: Blockchain)
    requires Tracking(providersToTrack, countriesToTrack, providerObjects, countryObjects, footprint, chain)
    modifies chain`countriesData, countryObjects.Values
    ensures Tracking(providersToTrack, countriesToTrack, providerObjects, countryObjects, footprint, chain)
    ensures chain.countriesData == WithKey(old(chain.countriesData), loc.country, ZeroBucket())
  {
    CountryAnalysis(countriesToTrack, loc, ip, node, countryObjects, chain);
    assert unchanged(footprint);
  }

  /** The second half of an iteration: the country step and the count. */
  method CountryAndCount(providersToTrack: seq<(string, string)>, countriesToTrack: map<string, string>,
                         providerObjects: map<string, Provider>, countryObjects: map<string, Country>,
                         ghost footprint: set<object>, loc: Location, ip: string, node: NodeRecord, name: string,
                         chain: Blockchain)
    requires name in chain.providersData
    requires Tracking(providersToTrack, countriesToTrack, providerObjects, countryObjects, footprint, chain)
    modifies chain`countriesData, chain`providersData, chain`totalStake, chain`totalValidators
    modifies chain`totalNonValidatorNodes, chain`totalNodes, countryObjects.Values
    ensures Tracking(providersToTrack, countriesToTrack, providerObjects, countryObjects, footprint, chain)
    ensures chain.Totals() == CountInto(old(chain.Totals()), node)
    ensures chain.providersData == old(chain.providersData)[name := Counted(old(chain.providersData)[name], node)]
    ensures chain.countriesData ==
      WithKey(old(chain.countriesData), loc.country, ZeroBucket())[loc.country := Counted(WithKey(old(chain.countriesData), loc.country, ZeroBucket())[loc.country], node)]
  {
    CountryStep(providersToTrack, countriesToTrack, providerObjects, countryObjects, footprint, loc, ip, node, chain);
    CountNode(chain, name, loc.country, node);
  }

  /** One iteration of the generic loop: both lookups, the provider and
      country steps, and the count. */
  method AnalyzeNode(providersToTrack: seq<(string, string)>, countriesToTrack: map<string, string>,
                     providerObjects: map<string, Provider>, countryObjects: map<string, Country>,
                     ghost footprint: set<object>, ip: string, node: NodeRecord, chain: Blockchain, g: Globals)
    returns (name: string, country: string, ghost footprint': set<object>)
    requires "Other" in chain.providersData && "Unidentified" in chain.providersData
    requires Tracking(providersToTrack, countriesToTrack, providerObjects, countryObjects, footprint, chain)
    modifies chain, footprint, countryObjects.Values
    ensures Tracking(providersToTrack, countriesToTrack, providerObjects, countryObjects, footprint', chain)
    ensures footprint <= footprint' && fresh(footprint' - footprint)
    ensures chain.analysisDate == old(chain.analysisDate)
    ensures chain.continentData == old(chain.continentData)
    ensures name == ResolveProvider(g.asnOf(ip), if g.asnOf(ip).Some? then "Other" else "Unidentified", g.providerAsnLookup)
    ensures country == (if ResolveLocation(g.geoOf(ip), g.countryNames).Some?
                        then ResolveLocation(g.geoOf(ip), g.countryNames).value else UnidentifiedLocation()).country
    ensures chain.Totals() == CountInto(old(chain.Totals()), node)
    ensures chain.providersData ==
      WithKey(old(chain.providersData), name, ZeroBucket())[name := Counted(WithKey(old(chain.providersData), name, ZeroBucket())[name], node)]
    ensures chain.countriesData ==
      WithKey(old(chain.countriesData), country, ZeroBucket())[country := Counted(WithKey(old(chain.countriesData), country, ZeroBucket())[country], node)]
    ensures chain.unidentifiedASNs ==
      if g.asnOf(ip).None? then old(chain.unidentifiedASNs)[ip := node] else old(chain.unidentifiedASNs)
    ensures chain.unidentifiedLocations ==
      if ResolveLocation(g.geoOf(ip), g.countryNames).None? then old(chain.unidentifiedLocations)[ip := node]
      else old(chain.unidentifiedLocations)
  {
    var loc;
    name, loc, footprint' := LookupAndProvider(providersToTrack, countriesToTrack, providerObjects, countryObjects,
                                               footprint, ip, node, chain, g);
    CountryAndCount(providersToTrack, countriesToTrack, providerObjects, countryObjects, footprint', loc, ip, node,
                    name, chain);
    country := loc.country;
  }

  // ------------------------------------------------ the generic pass

  /** One node of the generic loop, under the report's invariants: the
      report stays tallied and only the root totals and the unidentified
      dictionaries of the root change, by that node. */
  method CountNext(providersToTrack: seq<(string, string)>, countriesToTrack: map<string, string>,
                   providerObjects: map<string, Provider>, countryObjects: map<string, Country>,
                   ghost footprint: set<object>, ip: string, node: NodeRecord, chain: Blockchain, g: Globals)
    returns (ghost footprint': set<object>)
    requires chain.Tallied()
    requires Tracking(providersToTrack, countriesToTrack, providerObjects, countryObjects, footprint, chain)
    modifies chain, footprint, countryObjects.Values
    ensures Tracking(providersToTrack, countriesToTrack, providerObjects, countryObjects, footprint', chain)
    ensures footprint <= footprint' && fresh(footprint' - footprint)
    ensures chain.Tallied()
    ensures chain.Totals() == CountInto(old(chain.Totals()), node)
    ensures chain.analysisDate == old(chain.analysisDate) && chain.continentData == old(chain.continentData)
    ensures chain.unidentifiedASNs ==
      if Fails(g, AsnLookup, ip) then old(chain.unidentifiedASNs)[ip := node] else old(chain.unidentifiedASNs)
    ensures chain.unidentifiedLocations ==
      if Fails(g, GeoLookup, ip) then old(chain.unidentifiedLocations)[ip := node] else old(chain.unidentifiedLocations)
  {
    ghost var t, providers, countries := chain.Totals(), chain.providersData, chain.countriesData;
    var name, country;
    name, country, footprint' := AnalyzeNode(providersToTrack, countriesToTrack, providerObjects, countryObjects,
                                             footprint, ip, node, chain, g);
    CountKeepsTallies(t, providers, countries, name, country, node);
  }

  /** The loop of `GetGeneralNetworkProviderDistribution`: every node of
      the document, in order, is looked up and counted once. The report
      stays tallied, its root totals are the fold of the nodes, and the
      IPs whose lookups fail are recorded. */
  method CountAll(providersToTrack: seq<(string, string)>, countriesToTrack: map<string, string>,
                  providerObjects: map<string, Provider>, countryObjects: map<string, Country>,
                  ghost footprint: set<object>, targetIps: seq<(string, NodeRecord)>, chain: Blockchain, g: Globals)
    returns (ghost footprint': set<object>)
    requires chain.Tallied()
    requires Tracking(providersToTrack, countriesToTrack, providerObjects, countryObjects, footprint, chain)
    modifies chain, footprint, countryObjects.Values
    ensures Tracking(providersToTrack, countriesToTrack, providerObjects, countryObjects, footprint', chain)
    ensures footprint <= footprint' && fresh(footprint' - footprint)
    ensures chain.Tallied()
    ensures chain.Totals() == CountAllInto(old(chain.Totals()), targetIps)
    ensures chain.analysisDate == old(chain.analysisDate) && chain.continentData == old(chain.continentData)
    ensures chain.unidentifiedASNs == RecordMissing(old(chain.unidentifiedASNs), targetIps, g, AsnLookup)
    ensures chain.unidentifiedLocations == RecordMissing(old(chain.unidentifiedLocations), targetIps, g, GeoLookup)
  {
    footprint' := footprint;
    ghost var t0 := chain.Totals();
    var i := 0;
    while i < |targetIps|
      invariant i <= |targetIps|
      invariant Tracking(providersToTrack, countriesToTrack, providerObjects, countryObjects, footprint', chain)
      invariant footprint <= footprint' && fresh(footprint' - footprint)
      invariant chain.Tallied()
      invariant chain.Totals() == CountAllInto(t0, targetIps[..i])
      invariant chain.analysisDate == old(chain.analysisDate) && chain.continentData == old(chain.continentData)
      invariant chain.unidentifiedASNs == RecordMissing(old(chain.unidentifiedASNs), targetIps[..i], g, AsnLookup)
      invariant chain.unidentifiedLocations ==
        RecordMissing(old(chain.unidentifiedLocations), targetIps[..i], g, GeoLookup)
    {
      footprint' := CountNext(providersToTrack, countriesToTrack, providerObjects, countryObjects, footprint',
                              targetIps[i].0, targetIps[i].1, chain, g);
      assert targetIps[..i + 1][..i] == targetIps[..i];
      i := i + 1;
    }
    assert targetIps[..i] == targetIps;
  }

  /** A bucket's percentages are its counts over the chain's totals. */
  ghost predicate Shared(b: Bucket, t: ChainTotals)
    requires Divisible(t)
  {
    && b.shares.Some?
    && b.shares.value.stake * t.stake as real == (b.stake * 100) as real
    && b.shares.value.validators * t.validators as real == (b.validators * 100) as real
    && b.shares.value.nodes * t.nodes as real == (b.nodes * 100) as real
  }

  /** The percentage pass leaves a bucket with its shares. */
  lemma WithSharesShared(b: Bucket, t: ChainTotals)
    requires Divisible(t)
    ensures Shared(WithShares(b, t), t)
  {
    var r := WithShares(b, t);
    assert r.stake == b.stake && r.validators == b.validators && r.nodes == b.nodes;
  }

  /** `GetGeneralNetworkProviderDistribution`: the loop, then the
      percentage pass, which needs non-zero stake, validator and node
      totals. The report stays tallied either way, its totals add up the
      document's nodes, and on success every provider bucket carries its
      shares. */
  method GetGeneralNetworkProviderDistribution(providersToTrack: seq<(string, string)>,
                                               countriesToTrack: map<string, string>,
                                               providerObjects: map<string, Provider>,
                                               countryObjects: map<string, Country>, ghost footprint: set<object>,
                                               targetIps: seq<(string, NodeRecord)>, chain: Blockchain, g: Globals)
    returns (outcome: Option<Failure>, ghost footprint': set<object>)
    requires chain.Tallied()
    requires Tracking(providersToTrack, countriesToTrack, providerObjects, countryObjects, footprint, chain)
    modifies chain, footprint, countryObjects.Values
    ensures Tracking(providersToTrack, countriesToTrack, providerObjects, countryObjects, footprint', chain)
    ensures footprint <= footprint' && fresh(footprint' - footprint)
    ensures chain.Tallied() && chain.analysisDate == old(chain.analysisDate)
    ensures chain.totalNodes == old(chain.totalNodes) + |targetIps|
    ensures chain.totalValidators == old(chain.totalValidators) + SumSeq(targetIps, ValidatorEntry)
    ensures chain.totalNonValidatorNodes == old(chain.totalNonValidatorNodes) + SumSeq(targetIps, NonValidatorEntry)
    ensures chain.totalStake == old(chain.totalStake) + SumSeq(targetIps, StakeEntry)
    ensures chain.unidentifiedASNs == RecordMissing(old(chain.unidentifiedASNs), targetIps, g, AsnLookup)
    ensures chain.unidentifiedLocations == RecordMissing(old(chain.unidentifiedLocations), targetIps, g, GeoLookup)
    ensures outcome.None? <==> Divisible(chain.Totals())
    ensures outcome.Some? ==> outcome.value == ZeroDivision
    ensures outcome.None? ==> forall p :: p in chain.providersData ==> Shared(chain.providersData[p], chain.Totals())
    ensures outcome.None? ==> ContinentsShared(old(chain.continentData), chain.continentData, chain.Totals())
  {
    ghost var t0 := chain.Totals();
    footprint' := CountAll(providersToTrack, countriesToTrack, providerObjects, countryObjects, footprint, targetIps,
                           chain, g);
    CountAllSums(t0, targetIps);
    outcome := SharePass(providersToTrack, countriesToTrack, providerObjects, countryObjects, footprint', chain);
  }

  /** The percentage pass of the generic report, or the division by zero
      that stops it. Only percentage keys change, so the report stays
      tallied. */
  method SharePass(providersToTrack: seq<(string, string)>, countriesToTrack: map<string, string>,
                   providerObjects: map<string, Provider>, countryObjects: map<string, Country>,
                   ghost footprint: set<object>, chain: Blockchain)
    returns (outcome: Option<Failure>)
    requires chain.Tallied()
    requires Tracking(providersToTrack, countriesToTrack, providerObjects, countryObjects, footprint, chain)
    modifies chain`providersData, chain`continentData
    ensures Tracking(providersToTrack, countriesToTrack, providerObjects, countryObjects, footprint, chain)
    ensures chain.Tallied()
    ensures outcome.None? <==> Divisible(chain.Totals())
    ensures outcome.Some? ==> outcome.value == ZeroDivision && unchanged(chain)
    ensures outcome.None? ==> forall p :: p in chain.providersData ==> Shared(chain.providersData[p], chain.Totals())
    ensures outcome.None? ==> ContinentsShared(old(chain.continentData), chain.continentData, chain.Totals())
  {
    if Divisible(chain.Totals()) {
      ghost var providers := chain.providersData;
      chain.CalculatePercentages();
      SharesKeepSums(providers, chain.Totals(), NodesOf, chain.providersData);
      SharesKeepSums(providers, chain.Totals(), ValidatorsOf, chain.providersData);
      SharesKeepSums(providers, chain.Totals(), NonValidatorsOf, chain.providersData);
      SharesKeepSums(providers, chain.Totals(), StakeOf, chain.providersData);
      forall p | p in chain.providersData
        ensures Shared(chain.providersData[p], chain.Totals())
      {
        WithSharesShared(providers[p], chain.Totals());
      }
      outcome := None;
    } else {
      outcome := Some(ZeroDivision);
    }
  }

  // ------------------------------------------------ the Flow pass

  /** The role of a Flow node and whether it is active, as the pass reads
      them from `extra_info`: a missing "role", a role with no counters or
      a missing "is_active" stops the pass, in that order. */
  function FlowRole(node: NodeRecord): (r: Result<(Role, bool), Failure>)
    ensures r.Ok? ==> "role" in node.extraInfo && node.extraInfo["role"] == VStr(RoleName(r.value.0)) && IsActive(node) == Some(r.value.1)
  {
    if "role" !in node.extraInfo then Err(MissingKey("role"))
    else
      var v := node.extraInfo["role"];
      if !v.VStr? || ParseRole(v.s).None? then Err(UnknownRole(v))
      else if IsActive(node).None? then Err(MissingKey("is_active"))
      else Ok((ParseRole(v.s).value, IsActive(node).value))
  }

  /** The first failure among the nodes of `s`, in order. */
  function FirstFlowFailure(s: seq<(string, NodeRecord)>): (r: Option<Failure>)
    ensures r.None? <==> forall i :: 0 <= i < |s| ==> FlowRole(s[i].1).Ok?
    ensures r.Some? ==> exists i :: 0 <= i < |s| && FlowRole(s[i].1) == Err(r.value)
                                    && forall j :: 0 <= j < i ==> FlowRole(s[j].1).Ok?
  {
    if |s| == 0 then None
    else
      var init := s[..|s| - 1];
      var r := FirstFlowFailure(init);
      assert forall i :: 0 <= i < |init| ==> init[i] == s[i];
      if r.Some? then r
      else if FlowRole(s[|s| - 1].1).Err? then Some(FlowRole(s[|s| - 1].1).error)
      else None
  }

  /** A Flow bucket after one more node of role `role`: the role's pair and
      stake pair gain the node and its stake, the active parts only when it
      is active. */
  function FlowCounted(b: FlowBucket, role: Role, active: bool, stake: nat): FlowBucket {
    b.(roles := Bump(b.roles, role, if active then 1 else 0, 1),
       stake := Bump(b.stake, role, if active then stake else 0, stake),
       nodes := b.nodes + 1,
       inactive := if active then b.inactive else b.inactive + 1)
  }

  /** The Flow root counters after one more node, counted as a bucket is. */
  function FlowCountInto(t: FlowTotals, role: Role, active: bool, stake: nat): FlowTotals {
    FlowTotals(Bump(t.nodeTypes, role, if active then 1 else 0, 1), Bump(t.stake, role, if active then stake else 0, stake),
               t.nodes + 1, if active then t.inactive else t.inactive + 1)
  }

  /** The Flow root counters after every node of `s` whose role reads. */
  function FlowCountAllInto(t: FlowTotals, s: seq<(string, NodeRecord)>): FlowTotals {
    if |s| == 0 then t
    else
      var prev := FlowCountAllInto(t, s[..|s| - 1]);
      match FlowRole(s[|s| - 1].1)
      case Ok((role, active)) => FlowCountInto(prev, role, active, CoerceStake(s[|s| - 1].1.stake))
      case Err(_) => prev
  }

  /** The number of nodes of `s` of role `role`. */
  function CountRole(s: seq<(string, NodeRecord)>, role: Role): nat {
    if |s| == 0 then 0
    else CountRole(s[..|s| - 1], role) + if FlowRole(s[|s| - 1].1).Ok? && FlowRole(s[|s| - 1].1).value.0 == role then 1 else 0
  }

  /** When every role reads, the Flow root counts one more node per node. */
  lemma {:induction false} FlowCountAllNodes(t: FlowTotals, s: seq<(string, NodeRecord)>)
    requires forall i :: 0 <= i < |s| ==> FlowRole(s[i].1).Ok?
    ensures FlowCountAllInto(t, s).nodes == t.nodes + |s|
  {
    if |s| > 0 {
      var init := s[..|s| - 1];
      assert forall i :: 0 <= i < |init| ==> init[i] == s[i];
      FlowCountAllNodes(t, init);
    }
  }

  /** Each role's node total grows by the number of nodes of that role. */
  lemma {:induction false} FlowCountAllRoles(t: FlowTotals, s: seq<(string, NodeRecord)>, role: Role)
    ensures FlowCountAllInto(t, s).nodeTypes.Get(role).total == t.nodeTypes.Get(role).total + CountRole(s, role)
  {
    if |s| > 0 {
      var init := s[..|s| - 1];
      FlowCountAllRoles(t, init, role);
    }
  }

  /** Counting a Flow node adds it to the bucket's sums exactly as to the
      root's, and keeps the bucket tallied. */
  lemma {:induction false} FlowCountedSums(m: map<string, FlowBucket>, k: string, role: Role, active: bool, stake: nat)
    requires k in m && FlowBucketTallied(m[k])
    ensures FlowBucketTallied(FlowCounted(m[k], role, active, stake))
    ensures var m' := m[k := FlowCounted(m[k], role, active, stake)];
      && SumBy(m', FlowNodes) == SumBy(m, FlowNodes) + 1
      && SumBy(m', FlowInactive) == SumBy(m, FlowInactive) + (if active then 0 else 1)
      && SumBy(m', FlowStakeActive) == SumBy(m, FlowStakeActive) + (if active then stake else 0)
      && SumBy(m', FlowStakeTotal) == SumBy(m, FlowStakeTotal) + stake
  {
    var v := FlowCounted(m[k], role, active, stake);
    assert forall r :: v.roles.Get(r).active <= v.roles.Get(r).total by {
      forall r ensures v.roles.Get(r).active <= v.roles.Get(r).total {
        if r != role {
          assert v.roles.Get(r) == m[k].roles.Get(r);
        }
      }
    }
    SumByUpdate(m, FlowNodes, k, v);
    SumByUpdate(m, FlowInactive, k, v);
    SumByUpdate(m, FlowStakeActive, k, v);
    SumByUpdate(m, FlowStakeTotal, k, v);
  }

  /** Counting a Flow node under its provider, creating the bucket zeroed
      when it is missing, keeps the report tallied. */
  lemma {:induction false} FlowCountKeepsTallies(t: FlowTotals, providers: map<string, FlowBucket>, name: string,
                                                 role: Role, active: bool, stake: nat)
    requires FlowTallies(t, providers)
    ensures var p := WithKey(providers, name, ZeroFlowBucket());
      FlowTallies(FlowCountInto(t, role, active, stake), p[name := FlowCounted(p[name], role, active, stake)])
  {
    FlowZeroKeepsTallies(t, providers, name);
    FlowCountInBucket(t, WithKey(providers, name, ZeroFlowBucket()), name, role, active, stake);
  }

  /** Creating a zeroed Flow bucket keeps the report tallied. */
  lemma {:induction false} FlowZeroKeepsTallies(t: FlowTotals, providers: map<string, FlowBucket>, name: string)
    requires FlowTallies(t, providers)
    ensures FlowTallies(t, WithKey(providers, name, ZeroFlowBucket()))
  {
    if name !in providers {
      SumByUpdate(providers, FlowNodes, name, ZeroFlowBucket());
      SumByUpdate(providers, FlowInactive, name, ZeroFlowBucket());
      SumByUpdate(providers, FlowStakeActive, name, ZeroFlowBucket());
      SumByUpdate(providers, FlowStakeTotal, name, ZeroFlowBucket());
    }
  }

  /** Counting a Flow node in an existing bucket keeps the report tallied. */
  lemma {:induction false} FlowCountInBucket(t: FlowTotals, p: map<string, FlowBucket>, name: string,
                                             role: Role, active: bool, stake: nat)
    requires name in p && FlowTallies(t, p)
    ensures FlowTallies(FlowCountInto(t, role, active, stake), p[name := FlowCounted(p[name], role, active, stake)])
  {
    FlowCountedSums(p, name, role, active, stake);
    var t' := FlowCountInto(t, role, active, stake);
    forall r ensures t'.nodeTypes.Get(r).active <= t'.nodeTypes.Get(r).total {
      if r != role {
        assert t'.nodeTypes.Get(r) == t.nodeTypes.Get(r);
      }
    }
  }

  /** The tracked provider objects of the Flow pass are usable. */
  ghost predicate FlowTracking(providersToTrack: seq<(string, string)>, providerObjects: map<string, Provider>,
                               footprint: set<object>, chain: FlowChain)
    reads providerObjects.Values, footprint
  {
    ShortsHaveObjects(providersToTrack, providerObjects)
    && ProvidersReady(providerObjects, footprint, true) && chain !in footprint
  }

  /** The lookups of the Flow pass: a failed ASN lookup records the node as
      unidentified and names the provider "Unidentified", a successful one
      "Other" unless the registry names it; then the provider step. */
  method FlowLookupAndProvider(providersToTrack: seq<(string, string)>, providerObjects: map<string, Provider>,
                               ghost footprint: set<object>, ip: string, node: NodeRecord, role: Role, chain: FlowChain,
                               g: Globals)
    returns (name: string)
    requires FlowTracking(providersToTrack, providerObjects, footprint, chain)
    requires IsActive(node).Some?
    requires "Other" in chain.providersData && "Unidentified" in chain.providersData
    modifies chain`unidentifiedASNs, chain`providersData, footprint
    ensures FlowTracking(providersToTrack, providerObjects, footprint, chain)
    ensures name == ResolveProvider(g.asnOf(ip), if g.asnOf(ip).Some? then "Other" else "Unidentified", g.providerAsnLookup)
    ensures chain.providersData == WithKey(old(chain.providersData), name, ZeroFlowBucket())
    ensures chain.unidentifiedASNs ==
      if Fails(g, AsnLookup, ip) then old(chain.unidentifiedASNs)[ip := node] else old(chain.unidentifiedASNs)
  {
    var asn := g.asnOf(ip);
    var providerName := "Other";
    if asn.None? {
      chain.unidentifiedASNs := chain.unidentifiedASNs[ip := node];
      providerName := "Unidentified";
    }
    var updated;
    name, updated := FlowProviderStep(providersToTrack, providerObjects, footprint, asn, ip, node, role, providerName,
                                      chain, g.providerAsnLookup);
  }

  /** The provider step of the Flow pass: a registered ASN names the
      provider, creates its bucket zeroed when absent, and has a tracked
      provider count the node under its role; no other tracked provider
      changes. */
  method FlowProviderStep(providersToTrack: seq<(string, string)>, providerObjects: map<string, Provider>,
                          ghost footprint: set<object>, asn: Option<string>, ip: string, node: NodeRecord, role: Role,
                          providerName: string, chain: FlowChain, registry: map<string, string>)
    returns (name: string, updated: Option<Provider>)
    requires FlowTracking(providersToTrack, providerObjects, footprint, chain)
    requires IsActive(node).Some?
    requires providerName in chain.providersData
    modifies chain`providersData, footprint
    ensures FlowTracking(providersToTrack, providerObjects, footprint, chain)
    ensures name == ResolveProvider(asn, providerName, registry)
    ensures chain.providersData == WithKey(old(chain.providersData), name, ZeroFlowBucket())
    ensures updated == if asn.Some? && asn.value in registry
      then TrackedProvider(providersToTrack, providerObjects, name) else None
    ensures updated.Some? ==>
      updated.value.Counts() == UpdatedCounts(old(updated.value.Counts()), ip, node, Some(role))
      && updated.value.datacenters == old(updated.value.datacenters) && updated.value.Held == old(updated.value.Held)
    ensures forall p :: p in providerObjects.Values && Some(p) != updated ==> unchanged(p)
  {
    name := providerName;
    updated := None;
    if asn.Some? && asn.value in registry {
      name := registry[asn.value];
      if name !in chain.providersData {
        chain.providersData := chain.providersData[name := ZeroFlowBucket()];
      }
      updated := TrackedProvider(providersToTrack, providerObjects, name);
      if updated.Some? {
        assert updated.value in updated.value.Repr;
        UpdateTrackedAmong(providerObjects, footprint, updated.value, ip, node, role);
      }
    }
  }

  /** A tracked Flow provider counts the node under its role; the other
      tracked providers stay as they were. */
  method UpdateTrackedAmong(objs: map<string, Provider>, ghost footprint: set<object>, p: Provider,
                            ip: string, node: NodeRecord, role: Role)
    requires ProvidersReady(objs, footprint, true) && p in objs.Values
    requires IsActive(node).Some?
    modifies p
    ensures ProvidersReady(objs, footprint, true)
    ensures forall q :: q in objs.Values && q != p ==> unchanged(q)
    ensures p.Counts() == UpdatedCounts(old(p.Counts()), ip, node, Some(role))
    ensures p.datacenters == old(p.datacenters) && p.Held == old(p.Held)
  {
    p.UpdateTotals(ip, node, Some(role));
    forall q | q in objs.Values && q != p
      ensures q.Valid() && q.Repr !! p.Repr
    {
      assert old(q.Valid()) && unchanged(q.Repr);
    }
  }

  /** The counting part of the Flow loop. */
  method CountFlowNode(providersToTrack: seq<(string, string)>, providerObjects: map<string, Provider>,
                       ghost footprint: set<object>, chain: FlowChain, providerName: string, role: Role, active: bool,
                       stake: nat)
    requires providerName in chain.providersData
    requires FlowTracking(providersToTrack, providerObjects, footprint, chain)
    modifies chain`providersData, chain`nodeTypes, chain`totalStake, chain`totalNodes, chain`totalInactiveNodes
    ensures FlowTracking(providersToTrack, providerObjects, footprint, chain)
    ensures chain.Totals() == FlowCountInto(old(chain.Totals()), role, active, stake)
    ensures chain.providersData ==
      old(chain.providersData)[providerName := FlowCounted(old(chain.providersData)[providerName], role, active, stake)]
  {
    var b := chain.providersData[providerName];
    var t := FlowCountInto(chain.Totals(), role, active, stake);
    chain.nodeTypes, chain.totalStake, chain.totalNodes, chain.totalInactiveNodes := t.nodeTypes, t.stake, t.nodes, t.inactive;
    chain.providersData := chain.providersData[providerName := FlowCounted(b, role, active, stake)];
  }

  /** One node of the Flow loop whose role reads, as `GetFlowNetworkProviderDistribution`
      handles it: the ASN lookup, the provider step and the counting. */
  method FlowAnalyzeNode(providersToTrack: seq<(string, string)>, providerObjects: map<string, Provider>,
                         ghost footprint: set<object>, ip: string, node: NodeRecord, role: Role, active: bool,
                         chain: FlowChain, g: Globals)
    returns (name: string)
    requires FlowRole(node) == Ok((role, active))
    requires "Other" in chain.providersData && "Unidentified" in chain.providersData
    requires FlowTracking(providersToTrack, providerObjects, footprint, chain)
    modifies chain`unidentifiedASNs, chain`providersData, chain`nodeTypes, chain`totalStake, chain`totalNodes
    modifies chain`totalInactiveNodes, footprint
    ensures FlowTracking(providersToTrack, providerObjects, footprint, chain)
    ensures chain.Totals() == FlowCountInto(old(chain.Totals()), role, active, CoerceStake(node.stake))
    ensures var p := WithKey(old(chain.providersData), name, ZeroFlowBucket());
      chain.providersData == p[name := FlowCounted(p[name], role, active, CoerceStake(node.stake))]
    ensures chain.unidentifiedASNs ==
      if Fails(g, AsnLookup, ip) then old(chain.unidentifiedASNs)[ip := node] else old(chain.unidentifiedASNs)
  {
    name := FlowLookupAndProvider(providersToTrack, providerObjects, footprint, ip, node, role, chain, g);
    CountFlowNode(providersToTrack, providerObjects, footprint, chain, name, role, active, CoerceStake(node.stake));
  }

  /** One node of the Flow loop whose role reads: the report stays tallied
      and its root counters gain the node. */
  method FlowCountNext(providersToTrack: seq<(string, string)>, providerObjects: map<string, Provider>,
                       ghost footprint: set<object>, ip: string, node: NodeRecord, role: Role, active: bool,
                       chain: FlowChain, g: Globals)
    requires FlowRole(node) == Ok((role, active))
    requires chain.Tallied()
    requires FlowTracking(providersToTrack, providerObjects, footprint, chain)
    modifies chain`unidentifiedASNs, chain`providersData, chain`nodeTypes, chain`totalStake, chain`totalNodes
    modifies chain`totalInactiveNodes, footprint
    ensures FlowTracking(providersToTrack, providerObjects, footprint, chain)
    ensures chain.Tallied()
    ensures chain.Totals() == FlowCountInto(old(chain.Totals()), role, active, CoerceStake(node.stake))
    ensures chain.unidentifiedASNs ==
      if Fails(g, AsnLookup, ip) then old(chain.unidentifiedASNs)[ip := node] else old(chain.unidentifiedASNs)
  {
    ghost var t, providers := chain.Totals(), chain.providersData;
    var name := FlowAnalyzeNode(providersToTrack, providerObjects, footprint, ip, node, role, active, chain, g);
    FlowCountKeepsTallies(t, providers, name, role, active, CoerceStake(node.stake));
  }

  /** The loop of `GetFlowNetworkProviderDistribution`: every node is
      counted in order, until the first whose role does not read. */
  method FlowCountAll(providersToTrack: seq<(string, string)>, providerObjects: map<string, Provider>,
                      ghost footprint: set<object>, targetIps: seq<(string, NodeRecord)>, chain: FlowChain, g: Globals)
    returns (failure: Option<Failure>)
    requires chain.Tallied()
    requires FlowTracking(providersToTrack, providerObjects, footprint, chain)
    modifies chain`unidentifiedASNs, chain`providersData, chain`nodeTypes, chain`totalStake, chain`totalNodes
    modifies chain`totalInactiveNodes, footprint
    ensures FlowTracking(providersToTrack, providerObjects, footprint, chain)
    ensures chain.Tallied()
    ensures failure == FirstFlowFailure(targetIps)
    ensures failure.None? ==> chain.Totals() == FlowCountAllInto(old(chain.Totals()), targetIps)
    ensures failure.None? ==>
      chain.unidentifiedASNs == RecordMissing(old(chain.unidentifiedASNs), targetIps, g, AsnLookup)
  {
    ghost var t0, u0 := chain.Totals(), chain.unidentifiedASNs;
    var i := 0;
    while i < |targetIps|
      invariant i <= |targetIps|
      invariant FlowTracking(providersToTrack, providerObjects, footprint, chain)
      invariant chain.Tallied()
      invariant FirstFlowFailure(targetIps[..i]).None?
      invariant chain.Totals() == FlowCountAllInto(t0, targetIps[..i])
      invariant chain.unidentifiedASNs == RecordMissing(u0, targetIps[..i], g, AsnLookup)
    {
      assert targetIps[..i + 1][..i] == targetIps[..i];
      var read := FlowRole(targetIps[i].1);
      if read.Err? {
        assert forall j :: 0 <= j < i ==> targetIps[..i][j] == targetIps[j];
        FirstFlowFailureAt(targetIps, i);
        return Some(read.error);
      }
      FlowCountNext(providersToTrack, providerObjects, footprint, targetIps[i].0, targetIps[i].1, read.value.0,
                    read.value.1, chain, g);
      assert targetIps[..i + 1][i] == targetIps[i];
      i := i + 1;
    }
    assert targetIps[..i] == targetIps;
    failure := None;
  }

  /** The first node whose role does not read gives the pass's failure. */
  lemma FirstFlowFailureAt(s: seq<(string, NodeRecord)>, i: nat)
    requires i < |s| && FlowRole(s[i].1).Err?
    requires forall j :: 0 <= j < i ==> FlowRole(s[j].1).Ok?
    ensures FirstFlowFailure(s) == Some(FlowRole(s[i].1).error)
  {
    var r := FirstFlowFailure(s);
    assert r.Some?;
    var k :| 0 <= k < |s| && FlowRole(s[k].1) == Err(r.value) && forall j :: 0 <= j < k ==> FlowRole(s[j].1).Ok?;
    assert k == i;
  }

  /** A Flow bucket holds its shares of the root's nodes, active nodes and
      role totals. */
  ghost predicate FlowShared(b: FlowBucket, t: FlowTotals)
    requires FlowDivisible(t)
  {
    b.shares.Some?
    && b.shares.value.totalNodes == Pct(b.nodes, t.nodes)
    && b.shares.value.activeNodes == Pct(b.nodes - b.inactive, t.nodes - t.inactive)
    && forall q :: b.shares.value.totalRoles.Get(q) == Pct(b.roles.Get(q).total, t.nodeTypes.Get(q).total)
  }

  lemma FlowWithSharesShared(b: FlowBucket, t: FlowTotals)
    requires FlowDivisible(t)
    ensures FlowShared(FlowWithShares(b, t), t)
  {
    var r := FlowWithShares(b, t);
    assert r.nodes == b.nodes && r.inactive == b.inactive && r.roles == b.roles;
  }

  /** A Flow report that counted `targetIps` from a new report whose
      continent table was `continents`, then got its shares: its counters
      are tallied and are those of the nodes, the nodes whose ASN did not
      resolve are recorded, every provider holds its shares, and every
      continent and nested country holds its shares
      (`FlowContinentsSharedIff`). */
  ghost predicate FlowReported(chain: FlowChain, targetIps: seq<(string, NodeRecord)>, g: Globals,
                               continents: map<string, FlowContinent>)
    reads chain
  {
    && chain.Tallied()
    && chain.Totals() == FlowCountAllInto(FlowStart(), targetIps)
    && chain.unidentifiedASNs == RecordMissing(map[], targetIps, g, AsnLookup)
    && FlowDivisible(chain.Totals())
    && (forall p :: p in chain.providersData ==> FlowShared(chain.providersData[p], chain.Totals()))
    && chain.continentData == ShareFlowContinents(continents, chain.Totals())
  }

  /** The root counters of a new Flow report. */
  function FlowStart(): (t: FlowTotals)
    ensures t.nodes == 0 && forall r :: t.nodeTypes.Get(r).total == 0
  {
    FlowTotals(Uniform(ActiveTotal(0, 0)), FlowTotalStake(), 0, 0)
  }

  /** `GetFlowNetworkProviderDistribution`: a new Flow report counts every
      node in order under its provider and role, then gets its shares. The
      first node whose role does not read stops the pass with that failure,
      and a zero denominator stops it before the shares. */
  method GetFlowNetworkProviderDistribution(providersToTrack: seq<(string, string)>,
                                            providerObjects: map<string, Provider>, ghost footprint: set<object>,
                                            target: string, targetIps: seq<(string, NodeRecord)>,
                                            analysisDate: string, g: Globals)
    returns (result: Result<FlowChain, Failure>)
    requires ShortsHaveObjects(providersToTrack, providerObjects) && ProvidersReady(providerObjects, footprint, true)
    modifies footprint
    ensures ProvidersReady(providerObjects, footprint, true)
    ensures FirstFlowFailure(targetIps).Some? ==> result == Err(FirstFlowFailure(targetIps).value)
    ensures FirstFlowFailure(targetIps).None? ==>
      (result.Ok? <==> FlowDivisible(FlowCountAllInto(FlowStart(), targetIps)))
    ensures result.Err? && FirstFlowFailure(targetIps).None? ==> result.error == ZeroDivision
    ensures result.Ok? ==> var chain := result.value;
      && fresh(chain) && chain.target == target && chain.analysisDate == analysisDate
      && FlowReported(chain, targetIps, g, LocationInitFlow())
  {
    var chain := new FlowChain(target, analysisDate);
    assert chain.Totals() == FlowStart();
    assert FlowTracking(providersToTrack, providerObjects, footprint, chain);
    var failure := FlowCountAndShare(providersToTrack, providerObjects, footprint, targetIps, chain, g);
    result := if failure.Some? then Err(failure.value) else Ok(chain);
  }

  /** The loop and the percentage pass of a new Flow report. */
  method FlowCountAndShare(providersToTrack: seq<(string, string)>, providerObjects: map<string, Provider>,
                           ghost footprint: set<object>, targetIps: seq<(string, NodeRecord)>, chain: FlowChain,
                           g: Globals)
    returns (failure: Option<Failure>)
    requires chain.Tallied() && chain.Totals() == FlowStart() && chain.unidentifiedASNs == map[]
    requires FlowTracking(providersToTrack, providerObjects, footprint, chain)
    modifies chain`unidentifiedASNs, chain`providersData, chain`nodeTypes, chain`totalStake, chain`totalNodes
    modifies chain`totalInactiveNodes, chain`continentData, footprint
    ensures ProvidersReady(providerObjects, footprint, true)
    ensures FirstFlowFailure(targetIps).Some? ==> failure == FirstFlowFailure(targetIps)
    ensures FirstFlowFailure(targetIps).None? ==>
      (failure.None? <==> FlowDivisible(FlowCountAllInto(FlowStart(), targetIps)))
    ensures failure.Some? && FirstFlowFailure(targetIps).None? ==> failure.value == ZeroDivision
    ensures failure.None? ==>
      && chain.Tallied()
      && chain.Totals() == FlowCountAllInto(FlowStart(), targetIps)
      && chain.unidentifiedASNs == RecordMissing(map[], targetIps, g, AsnLookup)
      && (forall p :: p in chain.providersData ==> FlowShared(chain.providersData[p], chain.Totals()))
      && chain.continentData == ShareFlowContinents(old(chain.continentData), chain.Totals())
  {
    failure := FlowCountAll(providersToTrack, providerObjects, footprint, targetIps, chain, g);
    if failure.None? {
      failure := FlowSharePass(providersToTrack, providerObjects, footprint, chain);
    }
  }

  /** The percentage pass of a counted Flow report, stopping on a zero
      denominator before anything is written. */
  method FlowSharePass(providersToTrack: seq<(string, string)>, providerObjects: map<string, Provider>,
                       ghost footprint: set<object>, chain: FlowChain)
    returns (failure: Option<Failure>)
    requires chain.Tallied()
    requires FlowTracking(providersToTrack, providerObjects, footprint, chain)
    modifies chain`providersData, chain`continentData
    ensures FlowTracking(providersToTrack, providerObjects, footprint, chain)
    ensures chain.Tallied()
    ensures failure.None? <==> FlowDivisible(chain.Totals())
    ensures failure.Some? ==> failure.value == ZeroDivision && unchanged(chain)
    ensures failure.None? ==> forall p :: p in chain.providersData ==> FlowShared(chain.providersData[p], chain.Totals())
    ensures failure.None? ==> FlowContinentsShared(old(chain.continentData), chain.continentData, chain.Totals())
    ensures failure.None? ==> chain.continentData == ShareFlowContinents(old(chain.continentData), chain.Totals())
  {
    if !FlowDivisible(chain.Totals()) {
      return Some(ZeroDivision);
    }
    ghost var providers, continents := chain.providersData, chain.continentData;
    ghost var t := chain.Totals();
    chain.CalculatePercentages();
    assert chain.Totals() == t;
    FlowSharesKeepTallies(t, providers, chain.providersData);
    forall p | p in chain.providersData
      ensures FlowShared(chain.providersData[p], t)
    {
      FlowWithSharesShared(providers[p], t);
    }
    FlowContinentsSharedIff(continents, chain.continentData, t);
    failure := None;
  }

  // ------------------------------------------------ the entry point

  /** The scraper's output file for one chain: its timestamp and its nodes
      keyed by address, each possibly missing. */
  datatype ScrapeDocument = ScrapeDocument(timestamp: Option<string>, nodes: Option<seq<(string, NodeRecord)>>)

  /** What the analysis hands back: the report it was given, or a new Flow
      report. */
  datatype Report = GenericReport(chain: Blockchain) | FlowReport(flow: FlowChain)

  /** `GetNetworkProviderDistribution`: the timestamp becomes the report's
      analysis date, then Flow gets a new report of its own and every other
      chain is counted into the report it came with. A missing timestamp or
      node table stops the analysis. */
  method GetNetworkProviderDistribution(providersToTrack: seq<(string, string)>, countriesToTrack: map<string, string>,
                                        providerObjects: map<string, Provider>, countryObjects: map<string, Country>,
                                        ghost footprint: set<object>, chain: Blockchain, doc: ScrapeDocument, g: Globals)
    returns (result: Result<Report, Failure>, ghost footprint': set<object>)
    requires chain.target == "flow" ==>
      ShortsHaveObjects(providersToTrack, providerObjects) && ProvidersReady(providerObjects, footprint, true)
      && chain !in footprint
    requires chain.target != "flow" ==>
      chain.Tallied() && Tracking(providersToTrack, countriesToTrack, providerObjects, countryObjects, footprint, chain)
    modifies chain, footprint, countryObjects.Values
    ensures footprint <= footprint'
    ensures doc.timestamp.None? ==> result == Err(MissingKey("timestamp")) && unchanged(chain)
    ensures doc.timestamp.Some? ==> chain.analysisDate == doc.timestamp.value
    ensures doc.timestamp.Some? && doc.nodes.None? ==> result == Err(MissingKey("nodes"))
    ensures doc.timestamp.Some? && doc.nodes.Some? && chain.target == "flow" ==>
      var nodes := doc.nodes.value;
      && (FirstFlowFailure(nodes).Some? ==> result == Err(FirstFlowFailure(nodes).value))
      && (FirstFlowFailure(nodes).None? ==> (result.Ok? <==> FlowDivisible(FlowCountAllInto(FlowStart(), nodes))))
      && (result.Err? && FirstFlowFailure(nodes).None? ==> result.error == ZeroDivision)
      && (result.Ok? ==> result.value.FlowReport? && fresh(result.value.flow)
                         && result.value.flow.target == "flow" && result.value.flow.analysisDate == doc.timestamp.value
                         && FlowReported(result.value.flow, nodes, g, LocationInitFlow()))
    ensures doc.timestamp.Some? && doc.nodes.Some? && chain.target != "flow" ==>
      var nodes := doc.nodes.value;
      && (result.Ok? <==> Divisible(chain.Totals()))
      && (result.Err? ==> result.error == ZeroDivision)
      && (result.Ok? ==> result.value == GenericReport(chain))
      && chain.Tallied()
      && chain.totalNodes == old(chain.totalNodes) + |nodes|
      && chain.totalValidators == old(chain.totalValidators) + SumSeq(nodes, ValidatorEntry)
      && chain.totalNonValidatorNodes == old(chain.totalNonValidatorNodes) + SumSeq(nodes, NonValidatorEntry)
      && chain.totalStake == old(chain.totalStake) + SumSeq(nodes, StakeEntry)
      && chain.unidentifiedASNs == RecordMissing(old(chain.unidentifiedASNs), nodes, g, AsnLookup)
      && chain.unidentifiedLocations == RecordMissing(old(chain.unidentifiedLocations), nodes, g, GeoLookup)
      && (result.Ok? ==> forall p :: p in chain.providersData ==> Shared(chain.providersData[p], chain.Totals()))
      && (result.Ok? ==> ContinentsShared(old(chain.continentData), chain.continentData, chain.Totals()))
  {
    footprint' := footprint;
    if doc.timestamp.None? {
      return Err(MissingKey("timestamp")), footprint';
    }
    chain.analysisDate := doc.timestamp.value;
    if doc.nodes.None? {
      return Err(MissingKey("nodes")), footprint';
    }
    var targetIps := doc.nodes.value;
    if chain.target == "flow" {
      var flow := GetFlowNetworkProviderDistribution(providersToTrack, providerObjects, footprint, chain.target,
                                                     targetIps, chain.analysisDate, g);
      result := if flow.Ok? then Ok(FlowReport(flow.value)) else Err(flow.error);
    } else {
      var outcome;
      outcome, footprint' := GetGeneralNetworkProviderDistribution(providersToTrack, countriesToTrack, providerObjects,
                                                                   countryObjects, footprint, targetIps, chain, g);
      result := if outcome.Some? then Err(outcome.value) else Ok(GenericReport(chain));
    }
  }
}
