/** The Solana scraper: the gossip nodes, the validators and the validator
    info are re-indexed into lookups, and one record per gossip IP is built
    from them. The RPC request and the CLI subprocesses are left out: their
    JSON output, and each account's balance, are inputs. */
module Solana {
  import opened Wrappers
  import opened Strings
  import opened Records
  import opened Indexes

  /** A JSON object. */
  type JsonObject = map<string, Value>

  /** A Python dictionary key: lists and objects are unhashable. */
  predicate Hashable(v: Value) {
    !v.VList? && !v.VObj?
  }

  // ------------------------------------------------ re-indexing

  /** A gossip node whose `gossip` field can be popped and split. */
  predicate HasGossip(node: JsonObject) {
    "gossip" in node && node["gossip"].VStr?
  }

  /** The IP a gossip node is filed under: its gossip address before the
      first ':'. */
  function GossipIP(node: JsonObject): (ip: string)
    ensures HasGossip(node) ==> ip == BeforeFirst(node["gossip"].s, ':')
  {
    if HasGossip(node) then
      SplitFirstIsBeforeFirst(node["gossip"].s, ':');
      Split(node["gossip"].s, ":")[0]
    else ""
  }

  function WithoutGossip(node: JsonObject): JsonObject {
    node - {"gossip"}
  }

  /** A validator whose `identityPubkey` can be popped and used as a key. */
  predicate HasIdentity(val: JsonObject) {
    "identityPubkey" in val && Hashable(val["identityPubkey"])
  }

  function Identity(val: JsonObject): Value {
    if "identityPubkey" in val then val["identityPubkey"] else VNull
  }

  function WithoutIdentity(val: JsonObject): JsonObject {
    val - {"identityPubkey"}
  }

  /** A validator-info entry with both fields the index reads. */
  predicate HasInfo(val: JsonObject) {
    HasIdentity(val) && "info" in val
  }

  function InfoOf(val: JsonObject): Value {
    if "info" in val then val["info"] else VNull
  }

  /** The fields `GetValidatorInfo` copies from a validator. */
  const ValidatorFields: set<string> :=
    {"activatedStake", "voteAccountPubkey", "commission", "version", "delinquent", "skipRate"}

  /** The scraper's lookups: gossip nodes by IP, validators by identity key
      and validator info by identity key. */
  class SolanaCli {
    var gossipLookup: map<string, JsonObject>
    var validatorsLookup: map<Value, JsonObject>
    var validatorInfoLookup: map<Value, Value>

    constructor ()
      ensures gossipLookup == map[] && validatorsLookup == map[] && validatorInfoLookup == map[]
    {
      gossipLookup := map[];
      validatorsLookup := map[];
      validatorInfoLookup := map[];
    }

    /** `GetGossip`: each cluster node is stored under its IP without its
        gossip field, a later node overwriting an earlier one; a node
        without a gossip address raises, leaving the nodes before it
        stored. */
    method GetGossip(clusterNodes: seq<JsonObject>) returns (ok: bool)
      modifies this
      ensures var n := FirstFailing(clusterNodes, HasGossip);
        && (ok <==> n == |clusterNodes|)
        && gossipLookup == IndexBy(old(gossipLookup), clusterNodes[..n], GossipIP, WithoutGossip)
      ensures validatorsLookup == old(validatorsLookup) && validatorInfoLookup == old(validatorInfoLookup)
    {
      gossipLookup, ok := IndexUntilBad(gossipLookup, clusterNodes, HasGossip, GossipIP, WithoutGossip);
    }

    /** `RunValidators`: each validator is stored under its identity key
        without that field, a later one overwriting an earlier one; a
        validator without a usable key raises. */
    method RunValidators(validators: seq<JsonObject>) returns (ok: bool)
      modifies this
      ensures var n := FirstFailing(validators, HasIdentity);
        && (ok <==> n == |validators|)
        && validatorsLookup == IndexBy(old(validatorsLookup), validators[..n], Identity, WithoutIdentity)
      ensures gossipLookup == old(gossipLookup) && validatorInfoLookup == old(validatorInfoLookup)
    {
      validatorsLookup, ok := IndexUntilBad(validatorsLookup, validators, HasIdentity, Identity, WithoutIdentity);
    }

    /** `RunValidatorInfo`: each entry's info is stored under its identity
        key, a later one overwriting an earlier one. */
    method RunValidatorInfo(infos: seq<JsonObject>) returns (ok: bool)
      modifies this
      ensures var n := FirstFailing(infos, HasInfo);
        && (ok <==> n == |infos|)
        && validatorInfoLookup == IndexBy(old(validatorInfoLookup), infos[..n], Identity, InfoOf)
      ensures gossipLookup == old(gossipLookup) && validatorsLookup == old(validatorsLookup)
    {
      validatorInfoLookup, ok := IndexUntilBad(validatorInfoLookup, infos, HasInfo, Identity, InfoOf);
    }

    /** `GetValidatorInfo`: the validator's stake, vote account, commission,
        version, delinquency and skip rate, plus its published details
        when it has any; None when a field is missing (a KeyError). */
    function ValidatorInfo(pubkey: Value): (r: Option<JsonObject>)
      reads this
      requires pubkey in validatorsLookup
      ensures r.Some? <==> ValidatorFields <= validatorsLookup[pubkey].Keys
      ensures r.Some? ==> (r.value.Keys - {"details"} ==
        {"stake", "voteAccountPubkey", "commission", "version", "isDelinquent", "skipRate"})
      ensures r.Some? ==> ("details" in r.value <==> pubkey in validatorInfoLookup)
      ensures r.Some? && pubkey in validatorInfoLookup ==> r.value["details"] == validatorInfoLookup[pubkey]
      ensures r.Some? ==> (r.value["stake"] == validatorsLookup[pubkey]["activatedStake"]
        && r.value["isDelinquent"] == validatorsLookup[pubkey]["delinquent"])
    {
      var v := validatorsLookup[pubkey];
      if !(ValidatorFields <= v.Keys) then None
      else
        var base := map["stake" := v["activatedStake"], "voteAccountPubkey" := v["voteAccountPubkey"],
                         "commission" := v["commission"], "version" := v["version"],
                         "isDelinquent" := v["delinquent"], "skipRate" := v["skipRate"]];
        Some(if pubkey in validatorInfoLookup then base["details" := validatorInfoLookup[pubkey]] else base)
    }
  }

  // ------------------------------------------------ lookups

  /** The gossip lookup built from empty: an IP is present exactly when
      some node has it, the stored record is a node with that IP without
      its gossip field, and it is the last such node. */
  lemma GossipLookupSpec(nodes: seq<JsonObject>, ip: string)
    ensures var l := IndexBy(map[], nodes, GossipIP, WithoutGossip);
      && (ip in l <==> exists i :: 0 <= i < |nodes| && GossipIP(nodes[i]) == ip)
      && (ip in l ==> ("gossip" !in l[ip]
            && exists i :: 0 <= i < |nodes| && GossipIP(nodes[i]) == ip && l[ip] == WithoutGossip(nodes[i])))
      && (forall i :: (0 <= i < |nodes| && GossipIP(nodes[i]) == ip
            && (forall j :: i < j < |nodes| ==> GossipIP(nodes[j]) != ip)) ==> ip in l && l[ip] == WithoutGossip(nodes[i]))
  {
    var l := IndexBy(map[], nodes, GossipIP, WithoutGossip);
    IndexByKeys(map[], nodes, GossipIP, WithoutGossip, ip);
    if ip in l {
      IndexByFrom(map[], nodes, GossipIP, WithoutGossip, ip);
    }
    forall i | 0 <= i < |nodes| && GossipIP(nodes[i]) == ip && (forall j :: i < j < |nodes| ==> GossipIP(nodes[j]) != ip)
      ensures ip in l && l[ip] == WithoutGossip(nodes[i])
    {
      IndexByLastWins(map[], nodes, GossipIP, WithoutGossip, i);
    }
  }

  /** The validator lookup built from empty: a key is present exactly when
      some validator has it, and the stored record is such a validator
      without its identity key. */
  lemma ValidatorsLookupSpec(validators: seq<JsonObject>, pubkey: Value)
    ensures var l := IndexBy(map[], validators, Identity, WithoutIdentity);
      && (pubkey in l <==> exists i :: 0 <= i < |validators| && Identity(validators[i]) == pubkey)
      && (pubkey in l ==> ("identityPubkey" !in l[pubkey]
            && exists i :: 0 <= i < |validators| && Identity(validators[i]) == pubkey
                 && l[pubkey] == WithoutIdentity(validators[i])))
  {
    var l := IndexBy(map[], validators, Identity, WithoutIdentity);
    IndexByKeys(map[], validators, Identity, WithoutIdentity, pubkey);
    if pubkey in l {
      IndexByFrom(map[], validators, Identity, WithoutIdentity, pubkey);
    }
  }

  // ------------------------------------------------ records

  /** One entry of the output: `stake` and `address` are the JSON values
      the scraper copies (the stake's lamport scaling is left out). */
  datatype SolanaNode = SolanaNode(isValidator: bool, stake: Value, address: Value, extraInfo: JsonObject)

  /** The exception that ends `GetIPs`: a gossip node without a usable
      pubkey, or a validator missing a field `GetValidatorInfo` reads. */
  datatype ScrapeError = MissingField

  /** The record built for the gossip node at `ip`, or None when building
      it raises. A validator gets its `GetValidatorInfo` data and stake; any
      other node gets stake 0 and only its balance. */
  function NodeFor(cli: SolanaCli, ip: string, balance: Value -> Value): (r: Option<SolanaNode>)
    reads cli
    requires ip in cli.gossipLookup
    ensures r.Some? ==> "pubkey" in cli.gossipLookup[ip] && r.value.address == cli.gossipLookup[ip]["pubkey"]
    ensures r.Some? ==> (r.value.isValidator <==> r.value.address in cli.validatorsLookup)
    ensures r.Some? && !r.value.isValidator ==>
      r.value.stake == VInt(0) && r.value.extraInfo == map["Sol Balance" := balance(r.value.address)]
    ensures r.Some? && r.value.isValidator ==>
      var info := cli.ValidatorInfo(r.value.address);
      && info.Some? && r.value.stake == info.value["stake"]
      && r.value.extraInfo == info.value["Sol Balance" := balance(r.value.address)]
  {
    var node := cli.gossipLookup[ip];
    if "pubkey" !in node || !Hashable(node["pubkey"]) then None
    else
      var pubkey := node["pubkey"];
      if pubkey !in cli.validatorsLookup then
        Some(SolanaNode(false, VInt(0), pubkey, map["Sol Balance" := balance(pubkey)]))
      else
        match cli.ValidatorInfo(pubkey)
        case None => None
        case Some(info) => Some(SolanaNode(true, info["stake"], pubkey, info["Sol Balance" := balance(pubkey)]))
  }

  /** `GetIPs`: one record per gossip IP, or the exception of a node whose
      record cannot be built. */
  method GetIPs(cli: SolanaCli, balance: Value -> Value) returns (r: Result<map<string, SolanaNode>, ScrapeError>)
    ensures r.Ok? <==> forall ip :: ip in cli.gossipLookup ==> NodeFor(cli, ip, balance).Some?
    ensures r.Ok? ==> r.value.Keys == cli.gossipLookup.Keys
    ensures r.Ok? ==> forall ip :: ip in r.value ==> NodeFor(cli, ip, balance) == Some(r.value[ip])
  {
    var nodes: map<string, SolanaNode> := map[];
    var todo := cli.gossipLookup.Keys;
    while todo != {}
      invariant todo <= cli.gossipLookup.Keys
      invariant nodes.Keys == cli.gossipLookup.Keys - todo
      invariant forall ip :: ip in nodes ==> NodeFor(cli, ip, balance) == Some(nodes[ip])
      decreases |todo|
    {
      var ip :| ip in todo;
      var node := cli.gossipLookup[ip];
      if "pubkey" !in node || !Hashable(node["pubkey"]) {
        return Err(MissingField);
      }
      var pubkey := node["pubkey"];
      var isValidator := pubkey in cli.validatorsLookup;
      var extraInfo: JsonObject := map[];
      var stake := VInt(0);
      if isValidator {
        var info := cli.ValidatorInfo(pubkey);
        if info.None? {
          return Err(MissingField);
        }
        extraInfo := info.value;
        stake := extraInfo["stake"];
      }
      extraInfo := extraInfo["Sol Balance" := balance(pubkey)];
      nodes := nodes[ip := SolanaNode(isValidator, stake, pubkey, extraInfo)];
      todo := todo - {ip};
    }
    r := Ok(nodes);
  }
}
