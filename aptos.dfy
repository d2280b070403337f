/** The Aptos scraper: each active validator's first network address, a
    multiaddress such as `/ip4/A/tcp/6180/...` or `/dns/H/tcp/6180/...`,
    is turned into an IP (resolving host names), and the validators are
    filed by that IP. The CLI call is left out: the validator set is an
    input, and host-name resolution is a parameter. */
module Aptos {
  import opened Wrappers
  import opened Strings
  import opened Records

  /** What `treatIP` returns when it does not fail: the `(ip, domain)`
      tuple, or None when the protocol is neither `ip4` nor `dns`. */
  datatype Treated =
    | Address(ip: string, domain: Option<string>)
    | NoMatch

  /** The ways the run ends without output: the two `exit(0)` calls (no
      validator address; a host name that does not resolve) and the two
      exceptions (a multiaddress with too few parts; unpacking the None of
      an unrecognised protocol). */
  datatype AptosError = NoValidatorAddress | ResolveFailed | IndexError | UnpackNone

  /** `treatIP`. */
  function TreatIP(addr: string, resolve: string -> Option<string>): (r: Result<Treated, AptosError>)
    ensures r == Ok(NoMatch) <==>
      |Split(addr, "/")| >= 2 && Split(addr, "/")[1] != "ip4" && Split(addr, "/")[1] != "dns"
    ensures r.Ok? && r.value.Address? && r.value.domain.Some? ==> resolve(r.value.domain.value) == Some(r.value.ip)
  {
    var parts := Split(addr, "/");
    if |parts| < 2 then Err(IndexError)
    else if parts[1] == "ip4" then
      if |parts| < 3 then Err(IndexError) else Ok(Address(parts[2], None))
    else if parts[1] == "dns" then
      if |parts| < 3 then Err(IndexError)
      else
        match resolve(parts[2])
        case None => Err(ResolveFailed)
        case Some(a) => Ok(Address(a, Some(parts[2])))
    else Ok(NoMatch)
  }

  /** A multiaddress: its protocol, its host and further segments, joined
      behind a leading '/'. */
  function Multiaddr(protocol: string, host: string, more: seq<string>): string {
    Join(["", protocol, host] + more, "/")
  }

  predicate NoSlash(parts: seq<string>) {
    forall k :: 0 <= k < |parts| ==> '/' !in parts[k]
  }

  /** An `ip4` multiaddress yields its address and no domain. */
  lemma {:induction false} TreatIPv4(host: string, more: seq<string>, resolve: string -> Option<string>)
    requires NoSlash(["ip4", host] + more)
    ensures TreatIP(Multiaddr("ip4", host, more), resolve) == Ok(Address(host, None))
  {
    var parts := ["", "ip4", host] + more;
    assert forall k :: 0 <= k < |parts| ==> parts[k] == "" || parts[k] == (["ip4", host] + more)[k - 1];
    SplitJoinChar(parts, '/');
  }

  /** A `dns` multiaddress yields the resolved address and the host name,
      or ends the run when the name does not resolve. */
  lemma {:induction false} TreatDns(host: string, more: seq<string>, resolve: string -> Option<string>)
    requires NoSlash(["dns", host] + more)
    ensures TreatIP(Multiaddr("dns", host, more), resolve) ==
      if resolve(host).Some? then Ok(Address(resolve(host).value, Some(host))) else Err(ResolveFailed)
  {
    var parts := ["", "dns", host] + more;
    assert forall k :: 0 <= k < |parts| ==> parts[k] == "" || parts[k] == (["dns", host] + more)[k - 1];
    SplitJoinChar(parts, '/');
  }

  /** Any other protocol falls through and returns nothing. */
  lemma {:induction false} TreatOther(protocol: string, more: seq<string>, resolve: string -> Option<string>)
    requires protocol != "ip4" && protocol != "dns"
    requires NoSlash([protocol] + more)
    ensures TreatIP(Join(["", protocol] + more, "/"), resolve) == Ok(NoMatch)
  {
    var parts := ["", protocol] + more;
    assert forall k :: 0 <= k < |parts| ==> parts[k] == "" || parts[k] == ([protocol] + more)[k - 1];
    SplitJoinChar(parts, '/');
  }

  /** A text without '/' has no protocol segment: an IndexError. */
  lemma TreatNoSlash(addr: string, resolve: string -> Option<string>)
    requires '/' !in addr
    ensures TreatIP(addr, resolve) == Err(IndexError)
  {
    ContainsChar(addr, '/');
    SplitSingleton(addr, "/");
  }

  // ------------------------------------------------ validators

  /** An active validator as the CLI reports it; the voting power is kept
      unscaled. */
  datatype AptosValidator = AptosValidator(
    accountAddress: string,
    votingPower: nat,
    validatorIndex: nat,
    networkAddresses: seq<string>,
    fullnodeAddresses: seq<string>,
    consensusPubkey: string)

  /** A Python None or string as JSON. */
  function OptionalText(d: Option<string>): Value {
    match d
    case None => VNull
    case Some(h) => VStr(h)
  }

  /** The `fullnode_address` field: "" without fullnode addresses, else
      what `treatIP` returns for the first one, a tuple written as a JSON
      list or None written as null. */
  function FullnodeField(v: AptosValidator, resolve: string -> Option<string>): (r: Result<Value, AptosError>)
    ensures |v.fullnodeAddresses| == 0 ==> r == Ok(VStr(""))
    ensures |v.fullnodeAddresses| > 0 ==> (r.Ok? <==> TreatIP(v.fullnodeAddresses[0], resolve).Ok?)
  {
    if |v.fullnodeAddresses| == 0 then Ok(VStr(""))
    else
      match TreatIP(v.fullnodeAddresses[0], resolve)
      case Err(e) => Err(e)
      case Ok(NoMatch) => Ok(VNull)
      case Ok(Address(ip, domain)) => Ok(VList([VStr(ip), OptionalText(domain)]))
  }

  /** The entry one validator gives: its IP and record, or the way the
      run ends at it. */
  function ValidatorEntry(v: AptosValidator, resolve: string -> Option<string>): (r: Result<(string, NodeRecord), AptosError>)
    ensures |v.networkAddresses| == 0 ==> r == Err(NoValidatorAddress)
    ensures r.Ok? <==>
      && |v.networkAddresses| > 0 && FullnodeField(v, resolve).Ok?
      && TreatIP(v.networkAddresses[0], resolve).Ok? && TreatIP(v.networkAddresses[0], resolve).value.Address?
    ensures |v.networkAddresses| > 0 && FullnodeField(v, resolve).Err? ==> r == Err(FullnodeField(v, resolve).error)
    ensures |v.networkAddresses| > 0 && FullnodeField(v, resolve).Ok? && TreatIP(v.networkAddresses[0], resolve).Err? ==>
      r == Err(TreatIP(v.networkAddresses[0], resolve).error)
    ensures |v.networkAddresses| > 0 && FullnodeField(v, resolve).Ok? && TreatIP(v.networkAddresses[0], resolve) == Ok(NoMatch) ==>
      r == Err(UnpackNone)
    ensures r.Ok? ==> var t := TreatIP(v.networkAddresses[0], resolve).value; var rec := r.value.1;
      && r.value.0 == t.ip
      && rec.isValidator && rec.stake == Some(v.votingPower) && rec.address == v.accountAddress
      && rec.extraInfo.Keys == {"domain name", "validator_index", "fullnode_address", "consensus_pubkey"}
      && rec.extraInfo["domain name"] == OptionalText(t.domain)
      && rec.extraInfo["validator_index"] == VInt(v.validatorIndex)
      && rec.extraInfo["fullnode_address"] == FullnodeField(v, resolve).value
      && rec.extraInfo["consensus_pubkey"] == VStr(v.consensusPubkey)
  {
    if |v.networkAddresses| == 0 then Err(NoValidatorAddress)
    else
      match FullnodeField(v, resolve)
      case Err(e) => Err(e)
      case Ok(fullnode) =>
        match TreatIP(v.networkAddresses[0], resolve)
        case Err(e) => Err(e)
        case Ok(NoMatch) => Err(UnpackNone)
        case Ok(Address(ip, domain)) =>
          Ok((ip, NodeRecord(true, Some(v.votingPower), v.accountAddress,
                             map["domain name" := OptionalText(domain), "validator_index" := VInt(v.validatorIndex),
                                 "fullnode_address" := fullnode, "consensus_pubkey" := VStr(v.consensusPubkey)])))
  }

  /** The entry of each validator. */
  function Entries(resolve: string -> Option<string>): AptosValidator -> Result<(string, NodeRecord), AptosError> {
    v => ValidatorEntry(v, resolve)
  }

  /** The loop of `main` over the validators, in order, given the entry
      each one gives: each entry is written under its IP, and the first
      validator that fails ends the run. */
  function ProcessAll(vs: seq<AptosValidator>, entry: AptosValidator -> Result<(string, NodeRecord), AptosError>)
    : (r: Result<map<string, NodeRecord>, AptosError>)
    ensures r.Ok? ==> forall i :: 0 <= i < |vs| ==> entry(vs[i]).Ok? && entry(vs[i]).value.0 in r.value
    decreases |vs|
  {
    if |vs| == 0 then Ok(map[])
    else
      match ProcessAll(vs[..|vs| - 1], entry)
      case Err(e) => Err(e)
      case Ok(m) =>
        assert forall i :: 0 <= i < |vs| - 1 ==> vs[..|vs| - 1][i] == vs[i];
        match entry(vs[|vs| - 1])
        case Err(e) => Err(e)
        case Ok((ip, rec)) => Ok(m[ip := rec])
  }

  /** A run that failed on a prefix fails the same way. */
  lemma {:induction false} ProcessAllErrStays(vs: seq<AptosValidator>, k: nat,
                                              entry: AptosValidator -> Result<(string, NodeRecord), AptosError>)
    requires k <= |vs| && ProcessAll(vs[..k], entry).Err?
    ensures ProcessAll(vs, entry) == ProcessAll(vs[..k], entry)
    decreases |vs|
  {
    if k < |vs| {
      var init := vs[..|vs| - 1];
      assert init[..k] == vs[..k];
      ProcessAllErrStays(init, k, entry);
    } else {
      assert vs[..k] == vs;
    }
  }

  /** The run succeeds exactly when every validator gives an entry, and
      otherwise ends with the error of the first one that does not. */
  lemma {:induction false} ProcessAllOutcome(vs: seq<AptosValidator>,
                                             entry: AptosValidator -> Result<(string, NodeRecord), AptosError>)
    ensures ProcessAll(vs, entry).Ok? <==> forall i :: 0 <= i < |vs| ==> entry(vs[i]).Ok?
    ensures ProcessAll(vs, entry).Err? ==> exists i :: (0 <= i < |vs|
      && (forall j :: 0 <= j < i ==> entry(vs[j]).Ok?)
      && entry(vs[i]) == Err(ProcessAll(vs, entry).error))
    decreases |vs|
  {
    if |vs| > 0 {
      var init := vs[..|vs| - 1];
      ProcessAllOutcome(init, entry);
      assert forall i :: 0 <= i < |init| ==> init[i] == vs[i];
      if ProcessAll(init, entry).Err? {
        var i :| 0 <= i < |init| && (forall j :: 0 <= j < i ==> entry(init[j]).Ok?)
          && entry(init[i]) == Err(ProcessAll(init, entry).error);
        assert entry(vs[i]) == Err(ProcessAll(vs, entry).error);
      } else if entry(vs[|vs| - 1]).Err? {
        assert entry(vs[|vs| - 1]) == Err(ProcessAll(vs, entry).error);
      }
    }
  }

  /** On success there is an entry exactly for each validator's IP, and it
      is the record of the last validator with that IP. */
  lemma {:induction false} ProcessAllEntries(vs: seq<AptosValidator>,
                                             entry: AptosValidator -> Result<(string, NodeRecord), AptosError>, ip: string)
    requires ProcessAll(vs, entry).Ok?
    ensures forall i :: 0 <= i < |vs| ==> entry(vs[i]).Ok?
    ensures ip in ProcessAll(vs, entry).value <==> exists i :: 0 <= i < |vs| && entry(vs[i]).value.0 == ip
    ensures forall i :: (0 <= i < |vs| && entry(vs[i]).value.0 == ip
      && (forall j :: i < j < |vs| ==> entry(vs[j]).value.0 != ip)
      ==> ip in ProcessAll(vs, entry).value && ProcessAll(vs, entry).value[ip] == entry(vs[i]).value.1)
    decreases |vs|
  {
    ProcessAllOutcome(vs, entry);
    if |vs| > 0 {
      var init := vs[..|vs| - 1];
      ProcessAllEntries(init, entry, ip);
      assert forall i :: 0 <= i < |init| ==> init[i] == vs[i];
    }
  }

  /** One pass of `main`'s loop: the checks and parsing for one
      validator, in the order `main` does them. */
  method ProcessValidator(v: AptosValidator, resolve: string -> Option<string>)
    returns (e: Result<(string, NodeRecord), AptosError>)
    ensures e == ValidatorEntry(v, resolve)
  {
    if |v.networkAddresses| == 0 {
      return Err(NoValidatorAddress);
    }
    var ip := v.networkAddresses[0];
    var fullnode := VStr("");
    if |v.fullnodeAddresses| > 0 {
      var treated := TreatIP(v.fullnodeAddresses[0], resolve);
      if treated.Err? {
        return Err(treated.error);
      }
      fullnode := if treated.value.NoMatch? then VNull
                  else VList([VStr(treated.value.ip), OptionalText(treated.value.domain)]);
    }
    var t := TreatIP(ip, resolve);
    if t.Err? {
      return Err(t.error);
    }
    if t.value.NoMatch? {
      return Err(UnpackNone);
    }
    e := Ok((t.value.ip, NodeRecord(true, Some(v.votingPower), v.accountAddress,
               map["domain name" := OptionalText(t.value.domain), "validator_index" := VInt(v.validatorIndex),
                   "fullnode_address" := fullnode, "consensus_pubkey" := VStr(v.consensusPubkey)])));
  }

  /** `main`'s loop: `ip_dict` after every validator, or the way the run
      ended. */
  method CollectValidators(validators: seq<AptosValidator>, resolve: string -> Option<string>)
    returns (r: Result<map<string, NodeRecord>, AptosError>)
    ensures r == ProcessAll(validators, Entries(resolve))
  {
    var ipDict: map<string, NodeRecord> := map[];
    var i := 0;
    while i < |validators|
      invariant i <= |validators|
      invariant ProcessAll(validators[..i], Entries(resolve)) == Ok(ipDict)
    {
      assert validators[..i + 1][..i] == validators[..i];
      var e := ProcessValidator(validators[i], resolve);
      assert Entries(resolve)(validators[i]) == e;
      if e.Err? {
        ProcessAllErrStays(validators, i + 1, Entries(resolve));
        return Err(e.error);
      }
      ipDict := ipDict[e.value.0 := e.value.1];
      i := i + 1;
    }
    assert validators[..i] == validators;
    r := Ok(ipDict);
  }
}
