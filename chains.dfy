/** The network report of one chain: root totals, the provider and
    location buckets, and the percentage passes (classes/Blockchain.py).
    `Blockchain` is the generic report, `FlowChain` the role-partitioned
    report of Flow. */
module Chains {
  import opened Wrappers
  import opened Records
  import opened Sums
  import opened InitialValues

  function NodesOf(b: Bucket): nat { b.nodes }
  function ValidatorsOf(b: Bucket): nat { b.validators }
  function NonValidatorsOf(b: Bucket): nat { b.nonValidators }
  function StakeOf(b: Bucket): nat { b.stake }

  /** `count * 100 / total`, Python's true division. */
  function Pct(part: int, total: int): (r: real)
    requires total != 0
    ensures r * total as real == (part * 100) as real
  {
    (part * 100) as real / total as real
  }

  /** The root totals a generic percentage pass divides by. */
  datatype ChainTotals = ChainTotals(stake: nat, nonValidators: nat, validators: nat, nodes: nat)

  /** The three unguarded divisions of the generic pass have non-zero
      denominators. */
  predicate Divisible(t: ChainTotals) {
    t.stake != 0 && t.validators != 0 && t.nodes != 0
  }

  /** One bucket after the generic pass: every share is the bucket's count
      of a kind over the chain's total of that kind; the non-validator share
      is only written when the chain has non-validator nodes. */
  function WithShares(b: Bucket, t: ChainTotals): (r: Bucket)
    requires Divisible(t)
    ensures r.(shares := b.shares) == b
    ensures r.shares.Some?
    ensures r.shares.value.stake * t.stake as real == (b.stake * 100) as real
    ensures r.shares.value.validators * t.validators as real == (b.validators * 100) as real
    ensures r.shares.value.nodes * t.nodes as real == (b.nodes * 100) as real
    ensures t.nonValidators != 0 ==>
      (r.shares.value.nonValidators.Some?
       && r.shares.value.nonValidators.value * t.nonValidators as real == (b.nonValidators * 100) as real)
    ensures t.nonValidators == 0 ==>
      r.shares.value.nonValidators == if b.shares.Some? then b.shares.value.nonValidators else None
  {
    var previous := if b.shares.Some? then b.shares.value.nonValidators else None;
    var nonValidators := if t.nonValidators != 0 then Some(Pct(b.nonValidators, t.nonValidators)) else previous;
    b.(shares := Some(Shares(Pct(b.stake, t.stake), nonValidators, Pct(b.validators, t.validators), Pct(b.nodes, t.nodes))))
  }

  /** The generic pass over one dictionary of buckets; only the percentage
      keys change. */
  method ShareAll(m: map<string, Bucket>, t: ChainTotals) returns (r: map<string, Bucket>)
    requires Divisible(t)
    ensures r.Keys == m.Keys
    ensures forall k :: k in m ==> r[k] == WithShares(m[k], t)
  {
    r := m;
    var todo := m.Keys;
    while todo != {}
      invariant todo <= m.Keys && r.Keys == m.Keys
      invariant forall k :: k in m && k !in todo ==> r[k] == WithShares(m[k], t)
      invariant forall k :: k in todo ==> r[k] == m[k]
      decreases todo
    {
      var k :| k in todo;
      r := r[k := WithShares(r[k], t)];
      todo := todo - {k};
    }
  }

  /** The generic pass over the continents and their nested countries. */
  /** Every continent of `now`, and every country nested in it, is the
      one of `was` with its shares written; no continent or country is
      added or dropped. */
  predicate ContinentsShared(was: map<string, ContinentBucket>, now: map<string, ContinentBucket>, t: ChainTotals)
    requires Divisible(t)
  {
    now.Keys == was.Keys
    && forall k :: k in was ==>
      now[k].own == WithShares(was[k].own, t)
      && now[k].countries.Keys == was[k].countries.Keys
      && forall c :: c in was[k].countries ==> now[k].countries[c] == WithShares(was[k].countries[c], t)
  }

  method ShareContinents(m: map<string, ContinentBucket>, t: ChainTotals) returns (r: map<string, ContinentBucket>)
    requires Divisible(t)
    ensures ContinentsShared(m, r, t)
  {
    r := m;
    var todo := m.Keys;
    while todo != {}
      invariant todo <= m.Keys && r.Keys == m.Keys
      invariant forall k :: k in m && k !in todo ==>
        r[k].own == WithShares(m[k].own, t)
        && r[k].countries.Keys == m[k].countries.Keys
        && forall c :: c in m[k].countries ==> r[k].countries[c] == WithShares(m[k].countries[c], t)
      invariant forall k :: k in todo ==> r[k] == m[k]
      decreases todo
    {
      var k :| k in todo;
      var countries := ShareAll(r[k].countries, t);
      r := r[k := ContinentBucket(WithShares(r[k].own, t), countries)];
      todo := todo - {k};
    }
  }

  /** Every bucket's nodes are its validators plus its non-validators, and
      each axis (providers, countries) sums to the root totals, which split
      the same way. */
  ghost predicate Tallies(t: ChainTotals, providers: map<string, Bucket>, countries: map<string, Bucket>) {
    t.nodes == t.validators + t.nonValidators
    && "Other" in providers && "Unidentified" in providers
    && (forall p :: p in providers ==> providers[p].nodes == providers[p].validators + providers[p].nonValidators)
    && (forall c :: c in countries ==> countries[c].nodes == countries[c].validators + countries[c].nonValidators)
    && SumBy(providers, NodesOf) == t.nodes
    && SumBy(providers, ValidatorsOf) == t.validators
    && SumBy(providers, NonValidatorsOf) == t.nonValidators
    && SumBy(providers, StakeOf) == t.stake
    && SumBy(countries, NodesOf) == t.nodes
    && SumBy(countries, ValidatorsOf) == t.validators
    && SumBy(countries, NonValidatorsOf) == t.nonValidators
    && SumBy(countries, StakeOf) == t.stake
  }

  /** The generic report. */
  class Blockchain {
    const target: string
    var analysisDate: string
    var totalStake: nat
    var totalNodes: nat
    var totalNonValidatorNodes: nat
    var totalValidators: nat
    var unidentifiedASNs: map<string, NodeRecord>
    var unidentifiedLocations: map<string, NodeRecord>
    var providersData: map<string, Bucket>
    var continentData: map<string, ContinentBucket>
    var countriesData: map<string, Bucket>

    /** The report's counters are tallied (see `Tallies`). */
    ghost predicate Tallied()
      reads this
    {
      Tallies(Totals(), providersData, countriesData)
    }

    function Totals(): (t: ChainTotals)
      reads this
    {
      ChainTotals(totalStake, totalNonValidatorNodes, totalValidators, totalNodes)
    }

    /** A fresh report: all totals zero, no unidentified IPs, the seeded
        provider and location buckets, and no country buckets. */
    constructor (target: string, analysisDate: string)
      ensures this.target == target && this.analysisDate == analysisDate
      ensures totalStake == 0 && totalNodes == 0 && totalNonValidatorNodes == 0 && totalValidators == 0
      ensures unidentifiedASNs == map[] && unidentifiedLocations == map[]
      ensures providersData == ProvidersInit() && continentData == LocationInit() && countriesData == map[]
      ensures Tallied()
    {
      this.target := target;
      this.analysisDate := analysisDate;
      totalStake := 0;
      totalNodes := 0;
      totalNonValidatorNodes := 0;
      totalValidators := 0;
      unidentifiedASNs := map[];
      unidentifiedLocations := map[];
      providersData := ProvidersInit();
      continentData := LocationInit();
      countriesData := map[];
      new;
      SumByZero(providersData, NodesOf);
      SumByZero(providersData, ValidatorsOf);
      SumByZero(providersData, NonValidatorsOf);
      SumByZero(providersData, StakeOf);
      SumByZero(countriesData, NodesOf);
      SumByZero(countriesData, ValidatorsOf);
      SumByZero(countriesData, NonValidatorsOf);
      SumByZero(countriesData, StakeOf);
    }

    /** `CalculatePercentages`: writes the percentage keys of every provider
        and continent bucket and of every nested country; no counter
        changes. */
    method CalculatePercentages()
      requires Divisible(Totals())
      modifies this`providersData, this`continentData
      ensures providersData.Keys == old(providersData).Keys
      ensures forall p :: p in providersData ==> providersData[p] == WithShares(old(providersData)[p], Totals())
      ensures ContinentsShared(old(continentData), continentData, Totals())
    {
      var t := Totals();
      providersData := ShareAll(providersData, t);
      continentData := ShareContinents(continentData, t);
    }
  }

  /** The percentage pass leaves every counter of every bucket as it was,
      so the report stays tallied. */
  lemma {:induction false} SharesKeepSums(m: map<string, Bucket>, t: ChainTotals, f: Bucket -> nat, r: map<string, Bucket>)
    requires Divisible(t)
    requires f == NodesOf || f == ValidatorsOf || f == NonValidatorsOf || f == StakeOf
    requires r.Keys == m.Keys && forall k :: k in m ==> r[k] == WithShares(m[k], t)
    ensures SumBy(r, f) == SumBy(m, f)
  {
    forall k | k in m.Keys ensures f(r[k]) == f(m[k]) {
      assert r[k].(shares := m[k].shares) == m[k];
    }
    SumOverSame(m.Keys, r, m, f);
  }

  // ---------------------------------------------------------------- Flow

  function FlowNodes(b: FlowBucket): nat { b.nodes }
  function FlowInactive(b: FlowBucket): nat { b.inactive }
  function FlowStakeActive(b: FlowBucket): nat { SumRoles(b.stake, Active) }
  function FlowStakeTotal(b: FlowBucket): nat { SumRoles(b.stake, Total) }

  /** A bucket's node counts are consistent: its total is the sum of its
      role totals, its active nodes plus its inactive nodes are its total,
      and no role has more active nodes than nodes. */
  predicate FlowBucketTallied(b: FlowBucket) {
    b.nodes == SumRoles(b.roles, Total)
    && SumRoles(b.roles, Active) + b.inactive == b.nodes
    && forall r :: b.roles.Get(r).active <= b.roles.Get(r).total
  }

  /** The root figures the Flow passes divide by. */
  datatype FlowTotals = FlowTotals(nodeTypes: PerRole<ActiveTotal>, stake: PerRole<ActiveTotal>, nodes: nat, inactive: nat)

  /** The Flow passes divide unguarded by every role's active and total
      node counts, every role's active stake, the number of active nodes and
      the number of nodes. */
  predicate FlowDivisible(t: FlowTotals) {
    (forall r :: t.nodeTypes.Get(r).active != 0 && t.nodeTypes.Get(r).total != 0 && t.stake.Get(r).active != 0)
    && t.nodes != t.inactive && t.nodes != 0
  }

  /** Per-role shares: `partOf(parts[r]) * 100 / totalOf(totals[r])`. */
  function RoleShares(parts: PerRole<ActiveTotal>, partOf: ActiveTotal -> nat,
                      totals: PerRole<ActiveTotal>, totalOf: ActiveTotal -> nat): (p: PerRole<real>)
    requires forall r :: totalOf(totals.Get(r)) != 0
    ensures forall r :: p.Get(r) == Pct(partOf(parts.Get(r)), totalOf(totals.Get(r)))
  {
    assert totalOf(totals.Get(Execution)) != 0 && totalOf(totals.Get(Consensus)) != 0;
    assert totalOf(totals.Get(Collection)) != 0 && totalOf(totals.Get(Verification)) != 0;
    assert totalOf(totals.Get(Access)) != 0;
    PerRole(
      Pct(partOf(parts.execution), totalOf(totals.execution)),
      Pct(partOf(parts.consensus), totalOf(totals.consensus)),
      Pct(partOf(parts.collection), totalOf(totals.collection)),
      Pct(partOf(parts.verification), totalOf(totals.verification)),
      Pct(partOf(parts.access), totalOf(totals.access)))
  }

  /** One bucket after a Flow pass: active and total role shares over the
      chain's role counters, each role's "total" stake over the chain's
      role "active" stake, active nodes over the chain's active nodes, and
      nodes over the chain's nodes. */
  function FlowWithShares(b: FlowBucket, t: FlowTotals): (r: FlowBucket)
    requires FlowDivisible(t)
    ensures r.(shares := b.shares) == b && r.shares.Some?
    ensures forall q :: r.shares.value.activeRoles.Get(q) == Pct(b.roles.Get(q).active, t.nodeTypes.Get(q).active)
    ensures forall q :: r.shares.value.totalRoles.Get(q) == Pct(b.roles.Get(q).total, t.nodeTypes.Get(q).total)
    ensures forall q :: r.shares.value.stakeRoles.Get(q) == Pct(b.stake.Get(q).total, t.stake.Get(q).active)
    ensures r.shares.value.activeNodes == Pct(b.nodes - b.inactive, t.nodes - t.inactive)
    ensures r.shares.value.totalNodes == Pct(b.nodes, t.nodes)
  {
    var activeRoles := RoleShares(b.roles, Active, t.nodeTypes, Active);
    var totalRoles := RoleShares(b.roles, Total, t.nodeTypes, Total);
    var stakeRoles := RoleShares(b.stake, Total, t.stake, Active);
    var activeNodes := Pct(b.nodes - b.inactive, t.nodes - t.inactive);
    var totalNodes := Pct(b.nodes, t.nodes);
    b.(shares := Some(FlowShares(activeRoles, totalRoles, stakeRoles, activeNodes, totalNodes)))
  }

  /** A continent after a Flow pass: its own bucket and each nested
      country got their shares, and nothing else changed. */
  predicate ContinentShared(was: FlowContinent, now: FlowContinent, t: FlowTotals)
    requires FlowDivisible(t)
  {
    now.own == FlowWithShares(was.own, t)
    && now.countries.Keys == was.countries.Keys
    && forall c :: c in was.countries ==> now.countries[c] == FlowWithShares(was.countries[c], t)
  }

  /** Every continent of a Flow report got its shares, as
      `ContinentShared` says; no continent is added or dropped. */
  predicate FlowContinentsShared(was: map<string, FlowContinent>, now: map<string, FlowContinent>, t: FlowTotals)
    requires FlowDivisible(t)
  {
    now.Keys == was.Keys && forall k :: k in was ==> ContinentShared(was[k], now[k], t)
  }

  /** A Flow continent table after the location pass, as a value. */
  function ShareFlowContinents(m: map<string, FlowContinent>, t: FlowTotals): map<string, FlowContinent>
    requires FlowDivisible(t)
  {
    map k | k in m :: FlowContinent(FlowWithShares(m[k].own, t),
                                    map c | c in m[k].countries :: FlowWithShares(m[k].countries[c], t))
  }

  /** `ShareFlowContinents` is the one table that holds every continent's
      shares. */
  lemma FlowContinentsSharedIff(was: map<string, FlowContinent>, now: map<string, FlowContinent>, t: FlowTotals)
    requires FlowDivisible(t)
    ensures FlowContinentsShared(was, now, t) <==> now == ShareFlowContinents(was, t)
  {
    var r := ShareFlowContinents(was, t);
    if FlowContinentsShared(was, now, t) {
      forall k | k in was
        ensures now[k] == r[k]
      {
        assert now[k].countries == r[k].countries;
      }
      assert now == r;
    }
  }

  /** The buckets of `now` outside `todo` got their Flow shares, those
      inside are as they were. */
  predicate SharedExcept(was: map<string, FlowBucket>, now: map<string, FlowBucket>, todo: set<string>, t: FlowTotals)
    requires FlowDivisible(t)
  {
    && now.Keys == was.Keys && todo <= was.Keys
    && (forall c :: c in was && c !in todo ==> now[c] == FlowWithShares(was[c], t))
    && (forall c :: c in todo ==> now[c] == was[c])
  }

  /** Sharing one more bucket moves it out of `todo`. */
  lemma SharedExceptStep(was: map<string, FlowBucket>, now: map<string, FlowBucket>, todo: set<string>,
                         c: string, t: FlowTotals)
    requires FlowDivisible(t) && SharedExcept(was, now, todo, t) && c in todo
    ensures SharedExcept(was, now[c := FlowWithShares(now[c], t)], todo - {c}, t)
  {
  }

  /** Role totals add up to the node count, active plus inactive nodes
      make up the node count, and the provider buckets sum to the root
      counters. */
  ghost predicate FlowTallies(t: FlowTotals, providers: map<string, FlowBucket>) {
    SumRoles(t.nodeTypes, Total) == t.nodes
    && SumRoles(t.nodeTypes, Active) + t.inactive == t.nodes
    && (forall r :: t.nodeTypes.Get(r).active <= t.nodeTypes.Get(r).total)
    && "Other" in providers && "Unidentified" in providers
    && (forall p :: p in providers ==> FlowBucketTallied(providers[p]))
    && SumBy(providers, FlowNodes) == t.nodes
    && SumBy(providers, FlowInactive) == t.inactive
    && SumBy(providers, FlowStakeActive) == SumRoles(t.stake, Active)
    && SumBy(providers, FlowStakeTotal) == SumRoles(t.stake, Total)
  }

  /** The Flow percentage pass leaves every counter of every bucket as it
      was, so the report stays tallied. */
  lemma {:induction false} FlowSharesKeepTallies(t: FlowTotals, m: map<string, FlowBucket>, r: map<string, FlowBucket>)
    requires FlowDivisible(t) && FlowTallies(t, m)
    requires r.Keys == m.Keys && forall k :: k in m ==> r[k] == FlowWithShares(m[k], t)
    ensures FlowTallies(t, r)
  {
    forall k | k in m.Keys
      ensures FlowNodes(r[k]) == FlowNodes(m[k]) && FlowInactive(r[k]) == FlowInactive(m[k])
      ensures FlowStakeActive(r[k]) == FlowStakeActive(m[k]) && FlowStakeTotal(r[k]) == FlowStakeTotal(m[k])
      ensures FlowBucketTallied(r[k])
    {
      assert r[k].(shares := m[k].shares) == m[k];
    }
    SumOverSame(m.Keys, r, m, FlowNodes);
    SumOverSame(m.Keys, r, m, FlowInactive);
    SumOverSame(m.Keys, r, m, FlowStakeActive);
    SumOverSame(m.Keys, r, m, FlowStakeTotal);
  }

  /** The role-partitioned report of Flow. */
  class FlowChain {
    const target: string
    var analysisDate: string
    var totalStake: PerRole<ActiveTotal>
    var nodeTypes: PerRole<ActiveTotal>
    var totalNodes: nat
    var totalInactiveNodes: nat
    var unidentifiedASNs: map<string, NodeRecord>
    var providersData: map<string, FlowBucket>
    var continentData: map<string, FlowContinent>

    /** The report's counters are tallied (see `FlowTallies`). */
    ghost predicate Tallied()
      reads this
    {
      FlowTallies(Totals(), providersData)
    }

    function Totals(): FlowTotals
      reads this
    {
      FlowTotals(nodeTypes, totalStake, totalNodes, totalInactiveNodes)
    }

    /** `Flow(target, analysis_date)`: zero counters, the per-role zero stake
        table and the seeded Flow buckets. */
    constructor (target: string, analysisDate: string)
      ensures this.target == target && this.analysisDate == analysisDate
      ensures totalStake == FlowTotalStake() && nodeTypes == Uniform(ActiveTotal(0, 0))
      ensures totalNodes == 0 && totalInactiveNodes == 0 && unidentifiedASNs == map[]
      ensures providersData == ProvidersInitFlow() && continentData == LocationInitFlow()
      ensures Tallied()
    {
      this.target := target;
      this.analysisDate := analysisDate;
      totalStake := FlowTotalStake();
      nodeTypes := Uniform(ActiveTotal(0, 0));
      totalNodes := 0;
      totalInactiveNodes := 0;
      unidentifiedASNs := map[];
      providersData := ProvidersInitFlow();
      continentData := LocationInitFlow();
      new;
      SumByZero(providersData, FlowNodes);
      SumByZero(providersData, FlowInactive);
      SumByZero(providersData, FlowStakeActive);
      SumByZero(providersData, FlowStakeTotal);
    }

    /** `ReturnNodeTypeQuantities`: the counter pair of a role name; any
        other name is a KeyError. */
    function ReturnNodeTypeQuantities(role: string): (r: Option<ActiveTotal>)
      reads this
      ensures r.Some? <==> role in {"execution", "consensus", "collection", "verification", "access"}
      ensures forall q :: role == RoleName(q) ==> r == Some(nodeTypes.Get(q))
    {
      match ParseRole(role)
      case Some(q) => Some(nodeTypes.Get(q))
      case None => None
    }

    /** `CalculateProviderPercentages`. */
    method CalculateProviderPercentages()
      requires FlowDivisible(Totals())
      modifies this`providersData
      ensures providersData.Keys == old(providersData).Keys
      ensures forall p :: p in providersData ==> providersData[p] == FlowWithShares(old(providersData)[p], Totals())
    {
      var t := Totals();
      var todo := providersData.Keys;
      ghost var before := providersData;
      while todo != {}
        invariant Totals() == t && SharedExcept(before, providersData, todo, t)
        decreases todo
      {
        var k :| k in todo;
        SharedExceptStep(before, providersData, todo, k, t);
        providersData := providersData[k := FlowWithShares(providersData[k], t)];
        todo := todo - {k};
      }
    }

    /** `CalculateCountryPercentages`: one nested country. */
    method CalculateCountryPercentages(country: string, continent: string)
      requires continent in continentData && country in continentData[continent].countries
      requires FlowDivisible(Totals())
      modifies this`continentData
      ensures continentData == old(continentData)[continent := old(continentData)[continent].(
        countries := old(continentData)[continent].countries[country :=
          FlowWithShares(old(continentData)[continent].countries[country], Totals())])]
    {
      var c := continentData[continent];
      continentData := continentData[continent := c.(countries := c.countries[country := FlowWithShares(c.countries[country], Totals())])];
    }

    /** The continent's own bucket and each of its countries, in turn. */
    method CalculateContinentPercentages(k: string)
      requires k in continentData && FlowDivisible(Totals())
      modifies this`continentData
      ensures continentData.Keys == old(continentData).Keys
      ensures forall j :: j in continentData && j != k ==> continentData[j] == old(continentData)[j]
      ensures ContinentShared(old(continentData)[k], continentData[k], Totals())
    {
      var t := Totals();
      ghost var before := continentData;
      continentData := continentData[k := continentData[k].(own := FlowWithShares(continentData[k].own, t))];
      var countries := continentData[k].countries.Keys;
      while countries != {}
        invariant Totals() == t && continentData.Keys == before.Keys
        invariant forall j :: j in before && j != k ==> continentData[j] == before[j]
        invariant continentData[k].own == FlowWithShares(before[k].own, t)
        invariant SharedExcept(before[k].countries, continentData[k].countries, countries, t)
        decreases countries
      {
        var c :| c in countries;
        ghost var prev := continentData[k].countries;
        CalculateCountryPercentages(c, k);
        SharedExceptStep(before[k].countries, prev, countries, c, t);
        countries := countries - {c};
      }
    }

    /** `CalculateLocationPercentages`: every continent, then each of its
        countries. */
    method CalculateLocationPercentages()
      requires FlowDivisible(Totals())
      modifies this`continentData
      ensures FlowContinentsShared(old(continentData), continentData, Totals())
    {
      var t := Totals();
      ghost var before := continentData;
      var todo := continentData.Keys;
      while todo != {}
        invariant todo <= before.Keys && continentData.Keys == before.Keys && Totals() == t
        invariant forall k :: k in before && k !in todo ==> ContinentShared(before[k], continentData[k], t)
        invariant forall k :: k in todo ==> continentData[k] == before[k]
        decreases todo
      {
        var k :| k in todo;
        CalculateContinentPercentages(k);
        todo := todo - {k};
      }
    }

    /** `Flow.CalculatePercentages`: the provider pass, then the location
        pass. */
    method CalculatePercentages()
      requires FlowDivisible(Totals())
      modifies this`providersData, this`continentData
      ensures providersData.Keys == old(providersData).Keys
      ensures forall p :: p in providersData ==> providersData[p] == FlowWithShares(old(providersData)[p], Totals())
      ensures FlowContinentsShared(old(continentData), continentData, Totals())
    {
      CalculateProviderPercentages();
      CalculateLocationPercentages();
    }
  }
}
