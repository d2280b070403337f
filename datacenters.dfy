/** A provider's datacenter: the nodes seen at one place, with fuzzy
    equality on location (classes/Datacenter.py). */
module Datacenters {
  import opened Wrappers
  import opened Records
  import opened Sums

  /** Where a datacenter is and whose it is. Only the provider's name is
      kept: it is all that the equality test reads of the provider. */
  datatype DatacenterInfo = DatacenterInfo(
    countryName: string,
    countryCode: string,
    city: string,
    region: string,
    latitude: real,
    longitude: real,
    providerName: string)

  /** One entry of a `nodeDict`: "Address", "Is Validator", "Stake" (null
      for a non-validator) and "Validator Info". */
  datatype StoredNode = StoredNode(address: string, isValidator: bool, stake: Option<nat>, validatorInfo: map<string, Value>)

  function Abs(x: real): real { if x < 0.0 then -x else x }

  /** `Datacenter.__eq__`: same city, provider and country, and less than
      0.2 degrees apart in both latitude and longitude. */
  predicate SameDatacenter(a: DatacenterInfo, b: DatacenterInfo) {
    a.city == b.city && a.providerName == b.providerName && a.countryName == b.countryName
    && Abs(a.latitude - b.latitude) < 0.2 && Abs(a.longitude - b.longitude) < 0.2
  }

  lemma SameDatacenterReflexive(a: DatacenterInfo)
    ensures SameDatacenter(a, a)
  {
  }

  lemma SameDatacenterSymmetric(a: DatacenterInfo, b: DatacenterInfo)
    ensures SameDatacenter(a, b) <==> SameDatacenter(b, a)
  {
  }

  /** The threshold makes the equality non-transitive: three datacenters
      0.15 degrees apart in a row. */
  lemma SameDatacenterNotTransitive()
    ensures exists a, b, c :: SameDatacenter(a, b) && SameDatacenter(b, c) && !SameDatacenter(a, c)
  {
    var a := DatacenterInfo("Germany", "DE", "Berlin", "Berlin", 0.0, 0.0, "Hetzner");
    var b := a.(latitude := 0.15);
    var c := a.(latitude := 0.3);
    assert SameDatacenter(a, b) && SameDatacenter(b, c) && !SameDatacenter(a, c);
  }

  /** The record stored for a node: validators keep their coerced stake,
      non-validators a null stake. */
  function StoreRecord(node: NodeRecord): (s: StoredNode)
    ensures s.address == node.address && s.isValidator == node.isValidator
    ensures s.validatorInfo == node.extraInfo
    ensures s.stake.Some? <==> node.isValidator
    ensures node.isValidator ==> s.stake.value == CoerceStake(node.stake)
  {
    StoredNode(node.address, node.isValidator, if node.isValidator then Some(CoerceStake(node.stake)) else None, node.extraInfo)
  }

  /** The stored records after saving `node` under `ip`: everything
      stored stays as it was, and `ip` holds its first record. */
  function SavedNodes(d: map<string, StoredNode>, ip: string, node: NodeRecord): (r: map<string, StoredNode>)
    ensures r.Keys == d.Keys + {ip}
    ensures forall k :: k in d ==> r[k] == d[k]
    ensures ip !in d ==> r[ip] == StoreRecord(node)
  {
    if ip in d then d else d[ip := StoreRecord(node)]
  }

  /** A datacenter as a value: where it is and what it stores. */
  datatype Holding = Holding(info: DatacenterInfo, nodes: map<string, StoredNode>)

  function StoredStake(s: StoredNode): nat { match s.stake case None => 0 case Some(n) => n }
  function ValidatorOne(s: StoredNode): nat { if s.isValidator then 1 else 0 }

  /** What `GetDatacenterData` reports. */
  datatype DatacenterReport = DatacenterReport(
    country: string,
    city: string,
    region: string,
    coordinates: (real, real),
    totalNodes: nat,
    validatorNodes: nat,
    nonValidatorNodes: nat,
    cumulativeStake: nat,
    providerStakeShare: real,
    nodes: map<string, StoredNode>)

  class Datacenter {
    const info: DatacenterInfo
    var validatorCount: nat
    var nonValidatorNodeCount: nat
    var cumulativeStake: nat
    var nodeDict: map<string, StoredNode>

    /** The counters agree with the stored records. */
    ghost predicate Valid()
      reads this
    {
      validatorCount + nonValidatorNodeCount == |nodeDict|
      && validatorCount == SumBy(nodeDict, ValidatorOne)
      && cumulativeStake == SumBy(nodeDict, StoredStake)
      && forall ip :: ip in nodeDict ==> (nodeDict[ip].stake.Some? <==> nodeDict[ip].isValidator)
    }

    constructor (info: DatacenterInfo)
      ensures Valid() && this.info == info
      ensures validatorCount == 0 && nonValidatorNodeCount == 0 && cumulativeStake == 0 && nodeDict == map[]
    {
      this.info := info;
      validatorCount := 0;
      nonValidatorNodeCount := 0;
      cumulativeStake := 0;
      nodeDict := map[];
      new;
      SumByZero(nodeDict, ValidatorOne);
      SumByZero(nodeDict, StoredStake);
    }

    /** `SaveDatacenterNode`: a node whose IP is already stored changes
        nothing; a new one is stored and counted. */
    method SaveDatacenterNode(ip: string, node: NodeRecord)
      requires Valid()
      modifies this
      ensures Valid() && nodeDict == SavedNodes(old(nodeDict), ip, node)
      ensures ip in old(nodeDict) ==> unchanged(this)
      ensures ip !in old(nodeDict) ==>
        && nodeDict == old(nodeDict)[ip := StoreRecord(node)]
        && validatorCount == old(validatorCount) + (if node.isValidator then 1 else 0)
        && nonValidatorNodeCount == old(nonValidatorNodeCount) + (if node.isValidator then 0 else 1)
        && cumulativeStake == old(cumulativeStake) + (if node.isValidator then CoerceStake(node.stake) else 0)
    {
      if ip !in nodeDict {
        var stored := StoreRecord(node);
        if node.isValidator {
          validatorCount := validatorCount + 1;
          cumulativeStake := cumulativeStake + CoerceStake(node.stake);
        } else {
          nonValidatorNodeCount := nonValidatorNodeCount + 1;
        }
        SumByUpdate(nodeDict, ValidatorOne, ip, stored);
        SumByUpdate(nodeDict, StoredStake, ip, stored);
        nodeDict := nodeDict[ip := stored];
      }
    }

    /** `GetDatacenterData`: the stake share divides by the provider's
        total with no zero guard. */
    function GetDatacenterData(parentTotalStake: nat): (r: DatacenterReport)
      requires parentTotalStake != 0
      reads this
      ensures r.totalNodes == |nodeDict| && r.nodes == nodeDict
      ensures Valid() ==> r.totalNodes == r.validatorNodes + r.nonValidatorNodes
      ensures r.providerStakeShare * parentTotalStake as real == (cumulativeStake * 100) as real
      ensures r.country == info.countryName && r.city == info.city && r.region == info.region
      ensures r.coordinates == (info.latitude, info.longitude)
    {
      DatacenterReport(info.countryName, info.city, info.region, (info.latitude, info.longitude),
        |nodeDict|, validatorCount, nonValidatorNodeCount, cumulativeStake,
        (cumulativeStake * 100) as real / parentTotalStake as real, nodeDict)
    }
  }
}
