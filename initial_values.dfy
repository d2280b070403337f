/** The report buckets and the zeroed dictionaries a report starts from
    (classes/dict_initial_values.py). Buckets are values: every bucket a
    report creates is a fresh zeroed copy. */
module InitialValues {
  import opened Wrappers
  import opened Records

  /** The four "Percentage of ..." keys the generic percentage pass writes.
      The non-validator share is only written when the chain has
      non-validator nodes. */
  datatype Shares = Shares(stake: real, nonValidators: Option<real>, validators: real, nodes: real)

  /** A generic provider, continent or country bucket: "Total Non-Validator
      Nodes", "Total Validators", "Total Nodes", "Total Stake", and the
      percentages once computed. */
  datatype Bucket = Bucket(nonValidators: nat, validators: nat, nodes: nat, stake: nat, shares: Option<Shares>)

  /** A continent bucket and its nested "Countries". */
  datatype ContinentBucket = ContinentBucket(own: Bucket, countries: map<string, Bucket>)

  /** The seventeen "Percentage of ..." keys of the Flow passes: active and
      total nodes and stake per role, active nodes and total nodes. */
  datatype FlowShares = FlowShares(
    activeRoles: PerRole<real>,
    totalRoles: PerRole<real>,
    stakeRoles: PerRole<real>,
    activeNodes: real,
    totalNodes: real)

  /** A Flow provider, continent or country bucket: "<Role> Nodes" pairs,
      "Total Stake" kept per role, "Total Nodes", "Total Inactive Nodes". */
  datatype FlowBucket = FlowBucket(
    roles: PerRole<ActiveTotal>,
    stake: PerRole<ActiveTotal>,
    nodes: nat,
    inactive: nat,
    shares: Option<FlowShares>)

  datatype FlowContinent = FlowContinent(own: FlowBucket, countries: map<string, FlowBucket>)

  /** A bucket with every counter at zero and no percentage written. */
  predicate IsZero(b: Bucket) {
    b.nonValidators == 0 && b.validators == 0 && b.nodes == 0 && b.stake == 0 && b.shares.None?
  }

  predicate IsZeroFlow(b: FlowBucket) {
    b.nodes == 0 && b.inactive == 0 && b.shares.None?
    && forall r :: b.roles.Get(r) == ActiveTotal(0, 0) && b.stake.Get(r) == ActiveTotal(0, 0)
  }

  function ZeroBucket(): (b: Bucket)
    ensures IsZero(b)
  {
    Bucket(0, 0, 0, 0, None)
  }

  /** The per-role zero table Flow starts its stake totals from. */
  function FlowTotalStake(): (p: PerRole<ActiveTotal>)
    ensures forall r :: p.Get(r) == ActiveTotal(0, 0)
  {
    Uniform(ActiveTotal(0, 0))
  }

  function ZeroFlowBucket(): (b: FlowBucket)
    ensures IsZeroFlow(b)
  {
    FlowBucket(FlowTotalStake(), FlowTotalStake(), 0, 0, None)
  }

  /** `providers_init`: exactly "Other" and "Unidentified", both zero. */
  function ProvidersInit(): (m: map<string, Bucket>)
    ensures m.Keys == {"Other", "Unidentified"}
    ensures forall p :: p in m ==> IsZero(m[p])
  {
    map["Other" := ZeroBucket(), "Unidentified" := ZeroBucket()]
  }

  /** `location_init`: one "Unidentified" continent holding one
      "Unidentified" country, everything zero. */
  function LocationInit(): (m: map<string, ContinentBucket>)
    ensures m.Keys == {"Unidentified"}
    ensures IsZero(m["Unidentified"].own)
    ensures m["Unidentified"].countries.Keys == {"Unidentified"}
    ensures IsZero(m["Unidentified"].countries["Unidentified"])
  {
    map["Unidentified" := ContinentBucket(ZeroBucket(), map["Unidentified" := ZeroBucket()])]
  }

  /** `providers_init_flow`: "Other" and "Unidentified" with every role pair,
      the stake pairs, "Total Nodes" and "Total Inactive Nodes" at zero. */
  function ProvidersInitFlow(): (m: map<string, FlowBucket>)
    ensures m.Keys == {"Other", "Unidentified"}
    ensures forall p :: p in m ==> IsZeroFlow(m[p])
  {
    map["Other" := ZeroFlowBucket(), "Unidentified" := ZeroFlowBucket()]
  }

  /** `location_init_flow`: the same zero shape, with a nested
      "Unidentified" country. */
  function LocationInitFlow(): (m: map<string, FlowContinent>)
    ensures m.Keys == {"Unidentified"}
    ensures IsZeroFlow(m["Unidentified"].own)
    ensures m["Unidentified"].countries.Keys == {"Unidentified"}
    ensures IsZeroFlow(m["Unidentified"].countries["Unidentified"])
  {
    map["Unidentified" := FlowContinent(ZeroFlowBucket(), map["Unidentified" := ZeroFlowBucket()])]
  }
}
