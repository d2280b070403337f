/** A tracked country: the cities and nodes seen in it
    (classes/Country.py). */
module Countries {
  import opened Wrappers
  import opened Records
  import opened Sums
  import opened Datacenters

  /** What `OutputJSONInfo` reports about a country. */
  datatype CountryReport = CountryReport(
    totalNodes: nat,
    validatorNodes: nat,
    nonValidatorNodes: nat,
    cumulativeStake: nat,
    stakeShare: real,
    nodes: map<string, StoredNode>)

  class Country {
    const country: string
    const code: string
    var cities: set<string>
    var validatorCount: nat
    var nonValidatorNodeCount: nat
    var cumulativeStake: nat
    var nodeDict: map<string, StoredNode>

    /** The counters agree with the stored records. */
    ghost predicate Valid()
      reads this
    {
      validatorCount + nonValidatorNodeCount == |nodeDict|
      && validatorCount == SumBy(nodeDict, ValidatorOne)
      && cumulativeStake == SumBy(nodeDict, StoredStake)
      && forall ip :: ip in nodeDict ==> (nodeDict[ip].stake.Some? <==> nodeDict[ip].isValidator)
    }

    constructor (countryName: string, code: string)
      ensures Valid() && country == countryName && this.code == code
      ensures cities == {} && nodeDict == map[]
      ensures validatorCount == 0 && nonValidatorNodeCount == 0 && cumulativeStake == 0
    {
      country := countryName;
      this.code := code;
      cities := {};
      validatorCount := 0;
      nonValidatorNodeCount := 0;
      cumulativeStake := 0;
      nodeDict := map[];
      new;
      SumByZero(nodeDict, ValidatorOne);
      SumByZero(nodeDict, StoredStake);
    }

    /** `cities.add`: a set, so a city already present changes nothing. */
    method AddCity(city: string)
      modifies this`cities
      ensures cities == old(cities) + {city}
      ensures city in old(cities) ==> cities == old(cities)
    {
      cities := cities + {city};
    }

    /** `SaveCountryNode`: a node whose IP is already stored changes
        nothing; a new one is stored and counted. */
    method SaveCountryNode(ip: string, node: NodeRecord)
      requires Valid()
      modifies this
      ensures Valid() && cities == old(cities)
      ensures ip in old(nodeDict) ==> unchanged(this)
      ensures ip !in old(nodeDict) ==>
        && nodeDict == old(nodeDict)[ip := StoreRecord(node)]
        && validatorCount == old(validatorCount) + (if node.isValidator then 1 else 0)
        && nonValidatorNodeCount == old(nonValidatorNodeCount) + (if node.isValidator then 0 else 1)
        && cumulativeStake == old(cumulativeStake) + (if node.isValidator then CoerceStake(node.stake) else 0)
    {
      if ip !in nodeDict {
        var stored := StoreRecord(node);
        if node.isValidator {
          validatorCount := validatorCount + 1;
          cumulativeStake := cumulativeStake + CoerceStake(node.stake);
        } else {
          nonValidatorNodeCount := nonValidatorNodeCount + 1;
        }
        SumByUpdate(nodeDict, ValidatorOne, ip, stored);
        SumByUpdate(nodeDict, StoredStake, ip, stored);
        nodeDict := nodeDict[ip := stored];
      }
    }

    /** The figures of `OutputJSONInfo`. `chainStake` is the chain's total
        stake (its "total" part on Flow), divided by with no zero guard. */
    function Report(chainStake: nat): (r: CountryReport)
      requires chainStake != 0
      reads this
      ensures r.totalNodes == |nodeDict| && r.nodes == nodeDict
      ensures Valid() ==> r.totalNodes == r.validatorNodes + r.nonValidatorNodes
      ensures Valid() ==> r.cumulativeStake == SumBy(r.nodes, StoredStake)
      ensures r.stakeShare * chainStake as real == (r.cumulativeStake * 100) as real
    {
      CountryReport(|nodeDict|, validatorCount, nonValidatorNodeCount, cumulativeStake,
        (cumulativeStake * 100) as real / chainStake as real, nodeDict)
    }
  }
}
