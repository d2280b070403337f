/** A tracked hosting provider: its datacenters, the IPs it has counted
    and its stake (classes/Provider.py). */
module Providers {
  import opened Wrappers
  import opened Records
  import opened InitialValues
  import opened Datacenters

  /** `cumulativeStake`: a number on a generic chain, a per-role table of
      active and total stake on Flow. */
  datatype StakeTally = Scalar(amount: nat) | ByRole(roles: PerRole<ActiveTotal>)

  /** Whether a Flow node record says it is active; None when its
      `extra_info` has no "is_active" key. */
  function IsActive(node: NodeRecord): Option<bool> {
    if "is_active" in node.extraInfo then Some(Truthy(node.extraInfo["is_active"])) else None
  }

  /** The stake update of `UpdateTotals` for a validator: a generic chain
      adds to the scalar; on Flow an active node's stake goes only to its
      role's active part and an inactive node's only to its role's total. */
  function AddStake(t: StakeTally, stake: nat, role: Option<Role>, active: bool): (r: StakeTally)
    requires role.None? <==> t.Scalar?
    ensures r.Scalar? == t.Scalar?
    ensures t.Scalar? ==> r.amount == t.amount + stake
    ensures t.ByRole? && active ==>
      r.roles.Get(role.value).active == t.roles.Get(role.value).active + stake
      && r.roles.Get(role.value).total == t.roles.Get(role.value).total
    ensures t.ByRole? && !active ==>
      r.roles.Get(role.value).active == t.roles.Get(role.value).active
      && r.roles.Get(role.value).total == t.roles.Get(role.value).total + stake
    ensures t.ByRole? ==> forall o :: o != role.value ==> r.roles.Get(o) == t.roles.Get(o)
  {
    match t
    case Scalar(n) => Scalar(n + stake)
    case ByRole(p) =>
      if active then ByRole(Bump(p, role.value, stake, 0)) else ByRole(Bump(p, role.value, 0, stake))
  }

  /** The counters of a provider, as one value: validators, non-validators,
      stake and the IPs already counted. */
  datatype ProviderCounts = ProviderCounts(validators: nat, nonValidators: nat, stake: StakeTally, seen: set<string>)

  /** What `UpdateTotals` does to the counters. An IP already counted
      changes nothing, whatever record comes with it; a new IP is counted
      once, as a validator (with its coerced stake, per role on Flow) or as a
      non-validator, so the two counts keep adding up to the counted IPs. */
  function UpdatedCounts(c: ProviderCounts, ip: string, node: NodeRecord, role: Option<Role>): (r: ProviderCounts)
    requires role.None? <==> c.stake.Scalar?
    requires role.Some? && node.isValidator && ip !in c.seen ==> IsActive(node).Some?
    ensures ip in c.seen ==> r == c
    ensures r.seen == c.seen + {ip}
    ensures ip !in c.seen ==>
      && r.validators == c.validators + (if node.isValidator then 1 else 0)
      && r.nonValidators == c.nonValidators + (if node.isValidator then 0 else 1)
      && r.stake == if node.isValidator
           then AddStake(c.stake, CoerceStake(node.stake), role, role.Some? && IsActive(node).value)
           else c.stake
    ensures c.validators + c.nonValidators == |c.seen| ==> r.validators + r.nonValidators == |r.seen|
  {
    if ip in c.seen then c
    else if node.isValidator then
      var stake := AddStake(c.stake, CoerceStake(node.stake), role, role.Some? && IsActive(node).value);
      ProviderCounts(c.validators + 1, c.nonValidators, stake, c.seen + {ip})
    else ProviderCounts(c.validators, c.nonValidators + 1, c.stake, c.seen + {ip})
  }

  /** Counting the same IP twice counts it once. */
  lemma UpdatedCountsIdempotent(c: ProviderCounts, ip: string, node: NodeRecord, again: NodeRecord, role: Option<Role>)
    requires role.None? <==> c.stake.Scalar?
    requires role.Some? && node.isValidator && ip !in c.seen ==> IsActive(node).Some?
    ensures UpdatedCounts(c, ip, node, role).stake.Scalar? == c.stake.Scalar?
    ensures UpdatedCounts(UpdatedCounts(c, ip, node, role), ip, again, role) == UpdatedCounts(c, ip, node, role)
  {
  }

  /** A share of a total, 0 when the total is 0 (the guard of
      `OutputJSONInfo`). */
  function GuardedShare(part: nat, total: nat): (r: real)
    ensures total == 0 ==> r == 0.0
    ensures total != 0 ==> r * total as real == (part * 100) as real
  {
    if total == 0 then 0.0 else (part * 100) as real / total as real
  }

  /** "Percentage of total stake" of a provider report. */
  datatype StakePercentage = ScalarShare(share: real) | RoleShares(shares: PerRole<real>)

  /** The sum over datacenters of the number of stored nodes. */
  ghost function StoredNodes(dcs: seq<Datacenter>): nat
    reads set i | 0 <= i < |dcs| :: dcs[i]
  {
    if |dcs| == 0 then 0 else StoredNodes(dcs[..|dcs| - 1]) + |dcs[|dcs| - 1].nodeDict|
  }

  class Provider {
    const short: string
    const provider: string
    const isFlow: bool
    var validatorCount: nat
    var nonValidatorNodeCount: nat
    var cumulativeStake: StakeTally
    var seenIPs: set<string>
    var datacenters: seq<Datacenter>
    /** The datacenters as values: where each is and what it stores. */
    ghost var Held: seq<Holding>
    ghost var Repr: set<object>

    /** The counters and the counted IPs, as one value. */
    function Counts(): ProviderCounts
      reads this
    {
      ProviderCounts(validatorCount, nonValidatorNodeCount, cumulativeStake, seenIPs)
    }

    /** The provider owns its datacenters, all distinct, all of which carry its name;
        every counted IP is counted once; the stake has the chain's shape. */
    ghost predicate Valid()
      reads this, Repr
    {
      this in Repr
      && (forall i :: 0 <= i < |datacenters| ==> datacenters[i] in Repr)
      && (forall i :: 0 <= i < |datacenters| ==> datacenters[i].Valid() && datacenters[i].info.providerName == provider)
      && (forall i, j :: 0 <= i < j < |datacenters| ==> datacenters[i] != datacenters[j])
      && |Held| == |datacenters|
      && (forall i :: 0 <= i < |datacenters| ==> Held[i] == Holding(datacenters[i].info, datacenters[i].nodeDict))
      && validatorCount + nonValidatorNodeCount == |seenIPs|
      && (isFlow <==> cumulativeStake.ByRole?)
    }

    /** A new provider object; on Flow its stake starts from the per-role
        zero table. */
    constructor (short: string, provider: string, target: string)
      ensures Valid() && fresh(Repr)
      ensures this.short == short && this.provider == provider && isFlow == (target == "flow")
      ensures validatorCount == 0 && nonValidatorNodeCount == 0 && seenIPs == {} && datacenters == [] && Held == []
      ensures cumulativeStake == if target == "flow" then ByRole(FlowTotalStake()) else Scalar(0)
    {
      this.short := short;
      this.provider := provider;
      isFlow := target == "flow";
      validatorCount := 0;
      nonValidatorNodeCount := 0;
      cumulativeStake := if target == "flow" then ByRole(FlowTotalStake()) else Scalar(0);
      seenIPs := {};
      datacenters := [];
      Held := [];
      Repr := {this};
    }

    /** `UpdateTotals`: the counters change as `UpdatedCounts` says; the
        datacenters do not change. */
    method UpdateTotals(ip: string, node: NodeRecord, role: Option<Role>)
      requires Valid()
      requires role.None? <==> !isFlow
      requires role.Some? && node.isValidator && ip !in seenIPs ==> IsActive(node).Some?
      modifies this
      ensures Valid() && Repr == old(Repr) && datacenters == old(datacenters)
      ensures Held == old(Held)
      ensures Counts() == UpdatedCounts(old(Counts()), ip, node, role)
    {
      if ip !in seenIPs {
        if node.isValidator {
          validatorCount := validatorCount + 1;
          var stake := CoerceStake(node.stake);
          cumulativeStake := AddStake(cumulativeStake, stake, role, role.Some? && IsActive(node).value);
        } else {
          nonValidatorNodeCount := nonValidatorNodeCount + 1;
        }
        seenIPs := seenIPs + {ip};
      }
    }

    /** Appends a datacenter created for this provider. */
    method AddDatacenter(d: Datacenter)
      requires Valid() && d.Valid() && d.info.providerName == provider && d !in Repr
      modifies this
      ensures Valid() && Repr == old(Repr) + {d}
      ensures datacenters == old(datacenters) + [d] && Held == old(Held) + [Holding(d.info, d.nodeDict)]
      ensures validatorCount == old(validatorCount) && nonValidatorNodeCount == old(nonValidatorNodeCount)
      ensures seenIPs == old(seenIPs) && cumulativeStake == old(cumulativeStake)
    {
      datacenters := datacenters + [d];
      Held := Held + [Holding(d.info, d.nodeDict)];
      Repr := Repr + {d};
    }

    /** `GetTotalNodes`: the number of nodes stored over all datacenters. */
    method GetTotalNodes() returns (total: nat)
      requires Valid()
      ensures total == StoredNodes(datacenters)
    {
      total := 0;
      var i := 0;
      while i < |datacenters|
        invariant 0 <= i <= |datacenters|
        invariant total == StoredNodes(datacenters[..i])
      {
        assert datacenters[..i + 1][..i] == datacenters[..i];
        total := total + |datacenters[i].nodeDict|;
        i := i + 1;
      }
      assert datacenters[..i] == datacenters;
    }

    /** `GetDataCenterNodes`: one report per datacenter, in list order. Flow
        datacenters have no report function, so on Flow the list must be
        empty. */
    method GetDataCenterNodes(providerTotalStake: nat) returns (results: seq<DatacenterReport>)
      requires Valid()
      requires isFlow ==> |datacenters| == 0
      requires |datacenters| > 0 ==> providerTotalStake != 0
      ensures |results| == |datacenters|
      ensures forall i :: 0 <= i < |datacenters| ==> results[i] == datacenters[i].GetDatacenterData(providerTotalStake)
    {
      results := [];
      var i := 0;
      while i < |datacenters|
        invariant 0 <= i <= |datacenters|
        invariant |results| == i
        invariant forall j :: 0 <= j < i ==> results[j] == datacenters[j].GetDatacenterData(providerTotalStake)
      {
        results := results + [datacenters[i].GetDatacenterData(providerTotalStake)];
        i := i + 1;
      }
    }

    /** "Percentage of total stake": each share is 0 when the chain's total
        of that kind is 0 (on Flow, each role's "total" part). */
    function StakeShare(chainStake: StakeTally): (r: StakePercentage)
      requires chainStake.Scalar? == cumulativeStake.Scalar?
      reads this
      ensures cumulativeStake.Scalar? ==> r == ScalarShare(GuardedShare(cumulativeStake.amount, chainStake.amount))
      ensures cumulativeStake.ByRole? ==> r.RoleShares?
      ensures cumulativeStake.ByRole? ==> forall q ::
        r.shares.Get(q) == GuardedShare(cumulativeStake.roles.Get(q).total, chainStake.roles.Get(q).total)
    {
      match cumulativeStake
      case Scalar(n) => ScalarShare(GuardedShare(n, chainStake.amount))
      case ByRole(p) =>
        var c := chainStake.roles;
        RoleShares(PerRole(
          GuardedShare(p.execution.total, c.execution.total),
          GuardedShare(p.consensus.total, c.consensus.total),
          GuardedShare(p.collection.total, c.collection.total),
          GuardedShare(p.verification.total, c.verification.total),
          GuardedShare(p.access.total, c.access.total)))
    }
  }
}
