/** The per-node steps of the generic analysis: the two lookups with their
    fallbacks, the provider step (bucket creation, datacenter
    deduplication, tracked provider update) and the country step
    (analysis/utils.py). The ASN and geo databases are parameters. */
module AnalysisUtils {
  import opened Wrappers
  import opened Records
  import opened OrderedDicts
  import opened InitialValues
  import opened Datacenters
  import opened Providers
  import opened Countries
  import opened Chains

  /** What the geo database returns for an IP. */
  datatype GeoRecord = GeoRecord(countryShort: string, city: string, region: string, latitude: real, longitude: real)

  /** The six values `IpGeoLookup` returns. */
  datatype Location = Location(country: string, countryCode: string, city: string, region: string, latitude: real, longitude: real)

  /** The location reported when the lookup fails. */
  function UnidentifiedLocation(): Location {
    Location("Unidentified", "Unidentified", "Unidentified", "Unidentified", 0.0, 0.0)
  }

  /** The location of a geo record, or None when the lookup failed or its
      country code has no name in the registry. */
  function ResolveLocation(geo: Option<GeoRecord>, countryNames: map<string, string>): (r: Option<Location>)
    ensures r.Some? <==> geo.Some? && geo.value.countryShort in countryNames
    ensures r.Some? ==> r.value == Location(countryNames[geo.value.countryShort], geo.value.countryShort,
                                            geo.value.city, geo.value.region, geo.value.latitude, geo.value.longitude)
  {
    match geo
    case None => None
    case Some(g) =>
      if g.countryShort in countryNames
      then Some(Location(countryNames[g.countryShort], g.countryShort, g.city, g.region, g.latitude, g.longitude))
      else None
  }

  /** The provider a node is counted under: the registry's provider when
      the ASN is registered, else the name the ASN lookup gave. */
  function ResolveProvider(asn: Option<string>, incoming: string, registry: map<string, string>): (r: string)
    ensures asn.Some? && asn.value in registry ==> r == registry[asn.value]
    ensures !(asn.Some? && asn.value in registry) ==> r == incoming
  {
    if asn.Some? && asn.value in registry then registry[asn.value] else incoming
  }

  /** The datacenter a node at `loc` would belong to. */
  function DatacenterFor(loc: Location, providerName: string): DatacenterInfo {
    DatacenterInfo(loc.country, loc.countryCode, loc.city, loc.region, loc.latitude, loc.longitude, providerName)
  }

  /** The index of the first place equal to `info` (`in` and
      `list.index` over the datacenters), or None. */
  function FirstSame(places: seq<DatacenterInfo>, info: DatacenterInfo): (r: Option<nat>)
    ensures r.Some? ==> r.value < |places| && SameDatacenter(places[r.value], info)
    ensures r.Some? ==> forall j :: 0 <= j < r.value ==> !SameDatacenter(places[j], info)
    ensures r.None? ==> forall j :: 0 <= j < |places| ==> !SameDatacenter(places[j], info)
  {
    if |places| == 0 then None
    else if SameDatacenter(places[0], info) then Some(0)
    else match FirstSame(places[1..], info)
      case None => None
      case Some(i) => Some(i + 1)
  }


  /** Where each held datacenter is. */
  function Places(h: seq<Holding>): (r: seq<DatacenterInfo>)
    ensures |r| == |h| && forall i :: 0 <= i < |h| ==> r[i] == h[i].info
  {
    seq(|h|, i requires 0 <= i < |h| => h[i].info)
  }

  /** Where each of a provider's datacenters is, read off the objects:
      the places of the datacenters it holds. */
  function Infos(p: Provider): (r: seq<DatacenterInfo>)
    requires p.Valid()
    reads p, p.Repr
    ensures r == Places(p.Held)
  {
    var dcs := p.datacenters;
    seq(|dcs|, i requires 0 <= i < |dcs| => dcs[i].info)
  }

  /** The datacenter step of a tracked provider on values: the node is
      saved to the first datacenter equal to `info`, or to a new one at
      `info` appended to the list. */
  function AddNode(h: seq<Holding>, info: DatacenterInfo, ip: string, node: NodeRecord): seq<Holding> {
    match FirstSame(Places(h), info)
    case Some(k) => SavedAt(h, k, ip, node)
    case None => h + [Holding(info, map[ip := StoreRecord(node)])]
  }

  /** `AddNode` keeps every datacenter where it was and everything stored
      in it, adds at most one datacenter, and leaves the node stored where
      a later lookup of `info` finds it. */
  lemma AddNodeStores(h: seq<Holding>, info: DatacenterInfo, ip: string, node: NodeRecord)
    ensures var r := AddNode(h, info, ip, node);
      && |h| <= |r| <= |h| + 1 && Places(r)[..|h|] == Places(h)
      && (forall j :: 0 <= j < |h| ==> h[j].nodes.Keys <= r[j].nodes.Keys)
      && (forall j, k :: 0 <= j < |h| && k in h[j].nodes ==> r[j].nodes[k] == h[j].nodes[k])
      && FirstSame(Places(r), info).Some? && ip in r[FirstSame(Places(r), info).value].nodes
  {
    var r := AddNode(h, info, ip, node);
    match FirstSame(Places(h), info)
    case Some(k) =>
      assert Places(r) == Places(h);
    case None =>
      SameDatacenterReflexive(info);
      assert Places(r) == Places(h) + [info];
      FirstSameAppend(Places(h), info);
  }

  /** Looking up a place after appending `info` when no earlier place
      matches finds the appended one. */
  lemma {:induction false} FirstSameAppend(places: seq<DatacenterInfo>, info: DatacenterInfo)
    requires FirstSame(places, info).None?
    ensures FirstSame(places + [info], info) == Some(|places|)
  {
    SameDatacenterReflexive(info);
    if |places| > 0 {
      assert (places + [info])[1..] == places[1..] + [info];
      FirstSameAppend(places[1..], info);
    }
  }

  /** Holdings `h` after saving the node to the datacenter at index `i`. */
  function SavedAt(h: seq<Holding>, i: nat, ip: string, node: NodeRecord): (r: seq<Holding>)
    requires i < |h|
    ensures |r| == |h| && r[i].info == h[i].info && r[i].nodes == SavedNodes(h[i].nodes, ip, node)
    ensures forall j :: 0 <= j < |h| && j != i ==> r[j] == h[j]
  {
    h[i := Holding(h[i].info, SavedNodes(h[i].nodes, ip, node))]
  }

  /** The two cases of `AddNode`: an equal datacenter exists, or not. */
  lemma AddNodeCases(h: seq<Holding>, info: DatacenterInfo, ip: string, node: NodeRecord)
    ensures FirstSame(Places(h), info).Some? ==> AddNode(h, info, ip, node) == SavedAt(h, FirstSame(Places(h), info).value, ip, node)
    ensures FirstSame(Places(h), info).None? ==> AddNode(h, info, ip, node) == h + [Holding(info, map[ip := StoreRecord(node)])]
  {
  }

  /** Adding a node twice at the same place keeps the first record and
      creates no second datacenter. */
  lemma AddNodeIdempotent(h: seq<Holding>, info: DatacenterInfo, ip: string, node: NodeRecord, again: NodeRecord)
    ensures AddNode(AddNode(h, info, ip, node), info, ip, again) == AddNode(h, info, ip, node)
  {
    var r := AddNode(h, info, ip, node);
    AddNodeStores(h, info, ip, node);
    var k := FirstSame(Places(r), info).value;
    assert SavedNodes(r[k].nodes, ip, again) == r[k].nodes;
    assert SavedAt(r, k, ip, again) == r;
  }

  // ------------------------------------------------ tracked objects

  /** Tracked providers are valid, of the chain's kind, own disjoint
      objects, and own nothing outside `footprint`. */
  ghost predicate ProvidersReady(objs: map<string, Provider>, footprint: set<object>, flow: bool)
    reads objs.Values, footprint
  {
    (forall p :: p in objs.Values ==> p.Repr <= footprint && p.Valid() && p.isFlow == flow)
    && (forall p, q :: p in objs.Values && q in objs.Values && p != q ==> p.Repr !! q.Repr)
  }

  ghost predicate CountriesReady(objs: map<string, Country>)
    reads objs.Values
  {
    forall c :: c in objs.Values ==> c.Valid()
  }

  /** Every tracked short name has its provider object. */
  predicate ShortsHaveObjects(providersToTrack: seq<(string, string)>, objs: map<string, Provider>) {
    forall i :: 0 <= i < |providersToTrack| ==> providersToTrack[i].0 in objs
  }

  /** The tracked provider object a node of provider `name` goes to. */
  function TrackedProvider(providersToTrack: seq<(string, string)>, objs: map<string, Provider>, name: string): (r: Option<Provider>)
    requires ShortsHaveObjects(providersToTrack, objs)
    ensures r.Some? ==> r.value in objs.Values
  {
    match FirstKeyWithValue(providersToTrack, name)
    case None => None
    case Some(short) => Some(objs[short])
  }

  // ------------------------------------------------ lookups

  /** `IpAsnLookup`: a failed lookup gives no ASN and "Unidentified" and
      records the IP with its node in `unidentifiedASNs`; a successful one
      gives the ASN and "Other". */
  method IpAsnLookup(ip: string, node: NodeRecord, chain: Blockchain, asnOf: string -> Option<string>)
    returns (asn: Option<string>, providerName: string)
    modifies chain`unidentifiedASNs
    ensures asn == asnOf(ip)
    ensures asn.None? ==> providerName == "Unidentified" && chain.unidentifiedASNs == old(chain.unidentifiedASNs)[ip := node]
    ensures asn.Some? ==> providerName == "Other" && chain.unidentifiedASNs == old(chain.unidentifiedASNs)
  {
    asn := asnOf(ip);
    if asn.Some? {
      providerName := "Other";
    } else {
      chain.unidentifiedASNs := chain.unidentifiedASNs[ip := node];
      providerName := "Unidentified";
    }
  }

  /** `IpGeoLookup`: a failed lookup, including a country code missing from
      the registry, gives the "Unidentified" location at 0, 0 and records
      the IP in `unidentifiedLocations`. */
  method IpGeoLookup(ip: string, node: NodeRecord, chain: Blockchain,
                     geoOf: string -> Option<GeoRecord>, countryNames: map<string, string>)
    returns (loc: Location)
    modifies chain`unidentifiedLocations
    ensures ResolveLocation(geoOf(ip), countryNames).Some? ==>
      loc == ResolveLocation(geoOf(ip), countryNames).value
      && chain.unidentifiedLocations == old(chain.unidentifiedLocations)
    ensures ResolveLocation(geoOf(ip), countryNames).None? ==>
      loc == UnidentifiedLocation()
      && chain.unidentifiedLocations == old(chain.unidentifiedLocations)[ip := node]
  {
    var resolved := ResolveLocation(geoOf(ip), countryNames);
    if resolved.Some? {
      loc := resolved.value;
    } else {
      chain.unidentifiedLocations := chain.unidentifiedLocations[ip := node];
      loc := UnidentifiedLocation();
    }
  }

  // ------------------------------------------------ provider step

  /** Saves a node to datacenter `i` of a tracked provider; the other
      datacenters and the counters do not change. */
  method SaveToDatacenter(p: Provider, i: nat, ip: string, node: NodeRecord)
    requires p.Valid() && i < |p.datacenters|
    modifies p.Repr
    ensures p.Valid() && p.Repr == old(p.Repr) && p.datacenters == old(p.datacenters)
    ensures p.Counts() == old(p.Counts())
    ensures p.Held == SavedAt(old(p.Held), i, ip, node)
  {
    var d := p.datacenters[i];
    assert forall j :: 0 <= j < |p.datacenters| && j != i ==> p.datacenters[j] != d;
    d.SaveDatacenterNode(ip, node);
    p.Held := SavedAt(p.Held, i, ip, node);
  }

  /** Appends a new datacenter at `info` holding only the node. */
  method SaveToNewDatacenter(p: Provider, info: DatacenterInfo, ip: string, node: NodeRecord)
    requires p.Valid() && info.providerName == p.provider
    modifies p.Repr
    ensures p.Valid() && fresh(p.Repr - old(p.Repr))
    ensures p.Counts() == old(p.Counts())
    ensures p.Held == old(p.Held) + [Holding(info, map[ip := StoreRecord(node)])]
  {
    var d := new Datacenter(info);
    p.AddDatacenter(d);
    SaveToDatacenter(p, |p.datacenters| - 1, ip, node);
  }

  /** Saves the node to the first datacenter equal to `info`, or to a new
      one appended to the list. */
  method SaveToFirstSame(p: Provider, info: DatacenterInfo, ip: string, node: NodeRecord)
    requires p.Valid() && info.providerName == p.provider
    modifies p.Repr
    ensures p.Valid() && fresh(p.Repr - old(p.Repr))
    ensures p.Counts() == old(p.Counts())
    ensures p.Held == AddNode(old(p.Held), info, ip, node)
  {
    AddNodeCases(p.Held, info, ip, node);
    var found := FirstSame(Infos(p), info);
    if found.Some? {
      SaveToDatacenter(p, found.value, ip, node);
    } else {
      SaveToNewDatacenter(p, info, ip, node);
    }
  }

  /** The tracked-provider part of `ProviderAnalysis`: the datacenters
      change as `AddNode` says and the counters as `UpdatedCounts` says. */
  method AddToTrackedProvider(p: Provider, ip: string, node: NodeRecord, loc: Location)
    requires p.Valid() && !p.isFlow
    modifies p.Repr
    ensures p.Valid() && fresh(p.Repr - old(p.Repr))
    ensures p.Held == AddNode(old(p.Held), DatacenterFor(loc, p.provider), ip, node)
    ensures p.Counts() == UpdatedCounts(old(p.Counts()), ip, node, None)
  {
    SaveToFirstSame(p, DatacenterFor(loc, p.provider), ip, node);
    p.UpdateTotals(ip, node, None);
  }

  /** Creates a zeroed provider bucket when the provider has none. */
  method EnsureProviderBucket(chain: Blockchain, name: string)
    modifies chain`providersData
    ensures chain.providersData ==
      if name in old(chain.providersData) then old(chain.providersData)
      else old(chain.providersData)[name := ZeroBucket()]
  {
    if name !in chain.providersData {
      chain.providersData := chain.providersData[name := ZeroBucket()];
    }
  }

  /** Adds a node to one tracked provider; the other tracked providers are
      unchanged, and the footprint grows by new objects only. */
  method AddToTrackedAmong(objs: map<string, Provider>, ghost footprint: set<object>, p: Provider,
                           ip: string, node: NodeRecord, loc: Location)
    returns (ghost footprint': set<object>)
    requires ProvidersReady(objs, footprint, false) && p in objs.Values
    modifies p.Repr
    ensures ProvidersReady(objs, footprint', false)
    ensures footprint <= footprint' && fresh(footprint' - footprint)
    ensures forall q :: q in objs.Values && q != p ==> unchanged(q) && q.Repr == old(q.Repr)
    ensures p.Held == AddNode(old(p.Held), DatacenterFor(loc, p.provider), ip, node)
    ensures p.Counts() == UpdatedCounts(old(p.Counts()), ip, node, None)
  {
    AddToTrackedProvider(p, ip, node, loc);
    footprint' := footprint + p.Repr;
    forall q | q in objs.Values && q != p
      ensures q.Valid() && q.Repr !! p.Repr
    {
      assert old(q.Valid()) && unchanged(q.Repr);
    }
  }

  /** `ProviderAnalysis`. A registered ASN replaces the provider name by
      the registry's provider and creates its bucket, zeroed, only when it
      is absent; a node of a tracked provider is added to that provider as
      `AddToTrackedProvider` states, and no other tracked provider
      changes. */
  method ProviderAnalysis(providersToTrack: seq<(string, string)>, asn: Option<string>, ip: string, node: NodeRecord,
                          providerObjects: map<string, Provider>, loc: Location, providerName: string,
                          chain: Blockchain, registry: map<string, string>, ghost footprint: set<object>)
    returns (name: string, updated: Option<Provider>, ghost footprint': set<object>)
    requires ShortsHaveObjects(providersToTrack, providerObjects)
    requires ProvidersReady(providerObjects, footprint, false) && chain !in footprint
    modifies chain`providersData, footprint
    ensures ProvidersReady(providerObjects, footprint', false)
    ensures footprint <= footprint' && fresh(footprint' - footprint)
    ensures name == ResolveProvider(asn, providerName, registry)
    ensures chain.providersData ==
      if asn.Some? && asn.value in registry && name !in old(chain.providersData)
      then old(chain.providersData)[name := ZeroBucket()]
      else old(chain.providersData)
    ensures updated == if asn.Some? && asn.value in registry
      then TrackedProvider(providersToTrack, providerObjects, name) else None
    ensures updated.Some? ==>
      updated.value.Held
        == AddNode(old(updated.value.Held), DatacenterFor(loc, updated.value.provider), ip, node)
    ensures updated.Some? ==> updated.value.Counts() == UpdatedCounts(old(updated.value.Counts()), ip, node, None)
    ensures forall p :: p in providerObjects.Values && Some(p) != updated ==> unchanged(p) && p.Repr == old(p.Repr)
  {
    name := providerName;
    updated := None;
    footprint' := footprint;
    if asn.Some? && asn.value in registry {
      name := registry[asn.value];
      EnsureProviderBucket(chain, name);
      updated := TrackedProvider(providersToTrack, providerObjects, name);
      if updated.Some? {
        footprint' := AddToTrackedAmong(providerObjects, footprint, updated.value, ip, node, loc);
      }
    }
  }

  // ------------------------------------------------ country step

  /** `CountryAnalysis`: the country bucket is created zeroed when absent;
      for a tracked country code the city is added to the country's cities
      and the node saved to it; otherwise no tracked object changes. */
  method CountryAnalysis(countriesToTrack: map<string, string>, loc: Location, ip: string, node: NodeRecord,
                         countryObjects: map<string, Country>, chain: Blockchain)
    requires forall c :: c in countriesToTrack ==> c in countryObjects
    requires CountriesReady(countryObjects)
    modifies chain`countriesData, countryObjects.Values
    ensures CountriesReady(countryObjects)
    ensures chain.countriesData ==
      if loc.country in old(chain.countriesData) then old(chain.countriesData)
      else old(chain.countriesData)[loc.country := ZeroBucket()]
    ensures loc.countryCode !in countriesToTrack ==> unchanged(countryObjects.Values)
    ensures loc.countryCode in countriesToTrack ==>
      var c := countryObjects[loc.countryCode];
      && c.cities == old(c.cities) + {loc.city}
      && (ip in old(c.nodeDict) ==> c.nodeDict == old(c.nodeDict))
      && (ip !in old(c.nodeDict) ==> c.nodeDict == old(c.nodeDict)[ip := StoreRecord(node)])
    ensures loc.countryCode in countriesToTrack ==>
      forall o :: o in countryObjects.Values && o != countryObjects[loc.countryCode] ==> unchanged(o)
  {
    EnsureCountryBucket(chain, loc.country);
    if loc.countryCode in countriesToTrack {
      var c := countryObjects[loc.countryCode];
      c.AddCity(loc.city);
      c.SaveCountryNode(ip, node);
      forall o | o in countryObjects.Values && o != c
        ensures o.Valid()
      {
        assert old(o.Valid()) && unchanged(o);
      }
    }
  }

  /** Creates a zeroed country bucket when the country has none. */
  method EnsureCountryBucket(chain: Blockchain, country: string)
    modifies chain`countriesData
    ensures chain.countriesData ==
      if country in old(chain.countriesData) then old(chain.countriesData)
      else old(chain.countriesData)[country := ZeroBucket()]
  {
    if country !in chain.countriesData {
      chain.countriesData := chain.countriesData[country := ZeroBucket()];
    }
  }
}
