/** The NEAR scraper: validators are filed under the IP of their peer,
    stakes of validators that share an IP are added up, and the other peer
    ids of such an IP are listed; peers and producers met during discovery
    are recorded the first time they are seen. The RPC calls are left out:
    the validator list, the producers' peer ids and the peers' addresses
    are inputs. */
module Near {
  import opened Wrappers
  import opened Strings
  import opened Indexes
  import opened Sums

  // ------------------------------------------------ addresses

  /** `a.substring(0, a.indexOf(":"))`: the text before the first ':', or
      "" when there is none (a substring to index -1 is empty). */
  function CutAtColon(a: string): (r: string)
    ensures ':' in a ==> |r| < |a| && a[..|r|] == r && a[|r|] == ':' && ':' !in r
    ensures ':' !in a ==> r == ""
  {
    if ':' in a then BeforeFirst(a, ':') else ""
  }

  /** The RPC port guessed for every peer. */
  const RpcPort: string := ":3030"

  /** The RPC address of a peer: its host, cut at the first ':', with the
      default RPC port. */
  function NodeUrl(nodeAddr: string): (url: string)
    ensures |url| >= |RpcPort| && url[|url| - |RpcPort|..] == RpcPort
    ensures ':' in nodeAddr ==> var host := url[..|url| - |RpcPort|];
      && |host| < |nodeAddr| && host == nodeAddr[..|host|] && nodeAddr[|host|] == ':' && ':' !in host
    ensures ':' !in nodeAddr ==> url == RpcPort
  {
    var host := CutAtColon(nodeAddr);
    assert (host + RpcPort)[..|host|] == host;
    host + RpcPort
  }

  // ------------------------------------------------ discovery

  function EntryKey<K, V>(e: (K, V)): K { e.0 }
  function EntryValue<K, V>(e: (K, V)): V { e.1 }

  /** The recording of the peers (id, address) or producers (account,
      peer id) a node reports: an entry is written only when its key has
      not been seen before, so the first value seen is kept. */
  method RecordFirstSeen<K, V>(known: map<K, V>, entries: seq<(K, V)>) returns (updated: map<K, V>)
    ensures updated == IndexFirst(known, entries, EntryKey, EntryValue)
  {
    updated := known;
    var i := 0;
    while i < |entries|
      invariant i <= |entries|
      invariant updated == IndexFirst(known, entries[..i], EntryKey, EntryValue)
    {
      assert entries[..i + 1][..i] == entries[..i];
      var (id, addr) := entries[i];
      if id !in updated {
        updated := updated[id := addr];
      }
      i := i + 1;
    }
    assert entries[..i] == entries;
  }

  // ------------------------------------------------ merge by IP

  /** A current validator: its account id and its stake. */
  datatype NearValidator = NearValidator(accountId: string, stake: nat)

  /** An output entry: the stake at an IP, the peer id of the first
      validator there (None for `undefined`, which the JSON output drops),
      and the peer ids of the later ones, once there are any. */
  datatype NearEntry = NearEntry(stake: nat, address: Option<string>, otherAddresses: Option<seq<Option<string>>>)

  /** The peer id a validator's account is known under. */
  function PeerOf(v: NearValidator, producers: map<string, string>): Option<string> {
    if v.accountId in producers then Some(producers[v.accountId]) else None
  }

  /** The property key a validator is filed under: JavaScript turns a
      `null` IP into "null" and an `undefined` one into "undefined". */
  function IPKey(v: NearValidator, producers: map<string, string>, nodeList: map<string, string>): string {
    match PeerOf(v, producers)
    case None => "null"
    case Some(peer) => if peer in nodeList then CutAtColon(nodeList[peer]) else "undefined"
  }

  /** One pass of the merge loop. */
  function MergeStep(nodes: map<string, NearEntry>, v: NearValidator, producers: map<string, string>,
                     nodeList: map<string, string>): map<string, NearEntry> {
    var k := IPKey(v, producers, nodeList);
    var peer := PeerOf(v, producers);
    if k in nodes then
      var e := nodes[k];
      nodes[k := e.(stake := e.stake + v.stake, otherAddresses := Some(e.otherAddresses.GetOr([]) + [peer]))]
    else nodes[k := NearEntry(v.stake, peer, None)]
  }

  /** The merge of the validators, in order. */
  function MergeFold(vs: seq<NearValidator>, producers: map<string, string>, nodeList: map<string, string>)
    : (r: map<string, NearEntry>)
    ensures |r| <= |vs|
    decreases |vs|
  {
    if |vs| == 0 then map[]
    else MergeStep(MergeFold(vs[..|vs| - 1], producers, nodeList), vs[|vs| - 1], producers, nodeList)
  }

  function StakeOf(v: NearValidator): nat { v.stake }
  function EntryStake(e: NearEntry): nat { e.stake }

  /** The validators filed under key `k`, in order. */
  function KeyedAt(vs: seq<NearValidator>, producers: map<string, string>, nodeList: map<string, string>,
                   k: string): seq<NearValidator>
    decreases |vs|
  {
    if |vs| == 0 then []
    else
      KeyedAt(vs[..|vs| - 1], producers, nodeList, k)
        + (if IPKey(vs[|vs| - 1], producers, nodeList) == k then [vs[|vs| - 1]] else [])
  }

  /** The peer ids of a list of validators. */
  function PeersOf(ws: seq<NearValidator>, producers: map<string, string>): (ps: seq<Option<string>>)
    ensures |ps| == |ws|
  {
    seq(|ws|, i requires 0 <= i < |ws| => PeerOf(ws[i], producers))
  }

  /** The validators filed under `k` are exactly those whose key is `k`. */
  lemma {:induction false} KeyedAtMembers(vs: seq<NearValidator>, producers: map<string, string>,
                                          nodeList: map<string, string>, k: string, v: NearValidator)
    ensures v in KeyedAt(vs, producers, nodeList, k) <==> v in vs && IPKey(v, producers, nodeList) == k
    decreases |vs|
  {
    if |vs| > 0 {
      var init := vs[..|vs| - 1];
      KeyedAtMembers(init, producers, nodeList, k, v);
      assert vs == init + [vs[|vs| - 1]];
    }
  }

  /** A key has an entry exactly when some validator is filed under it. */
  lemma {:induction false} MergeFoldHasKey(vs: seq<NearValidator>, producers: map<string, string>,
                                           nodeList: map<string, string>, k: string)
    ensures k in MergeFold(vs, producers, nodeList) <==> |KeyedAt(vs, producers, nodeList, k)| > 0
    decreases |vs|
  {
    if |vs| > 0 {
      MergeFoldHasKey(vs[..|vs| - 1], producers, nodeList, k);
    }
  }

  /** The output has an entry exactly for the keys of the validators: one
      "null" entry gathers every validator without a known peer id, and one
      "undefined" entry every validator whose peer has no address. */
  lemma MergeFoldKeys(vs: seq<NearValidator>, producers: map<string, string>,
                      nodeList: map<string, string>, k: string)
    ensures k in MergeFold(vs, producers, nodeList) <==> exists i :: 0 <= i < |vs| && IPKey(vs[i], producers, nodeList) == k
  {
    MergeFoldHasKey(vs, producers, nodeList, k);
    var ws := KeyedAt(vs, producers, nodeList, k);
    if |ws| > 0 {
      KeyedAtMembers(vs, producers, nodeList, k, ws[0]);
    }
    if exists i :: 0 <= i < |vs| && IPKey(vs[i], producers, nodeList) == k {
      var i :| 0 <= i < |vs| && IPKey(vs[i], producers, nodeList) == k;
      KeyedAtMembers(vs, producers, nodeList, k, vs[i]);
    }
  }

  /** The entry the validators `ws` filed under one key merge into: the
      sum of their stakes, the first one's peer id as the address, and,
      when there are several, the later ones' peer ids in order. */
  function Merged(ws: seq<NearValidator>, producers: map<string, string>): NearEntry
    requires |ws| > 0
  {
    NearEntry(SumSeq(ws, StakeOf), PeerOf(ws[0], producers),
              if |ws| == 1 then None else Some(PeersOf(ws[1..], producers)))
  }

  /** A further validator at a key adds its stake and its peer id. */
  lemma MergedSnoc(ws: seq<NearValidator>, v: NearValidator, producers: map<string, string>)
    requires |ws| > 0
    ensures var e := Merged(ws, producers);
      Merged(ws + [v], producers)
        == e.(stake := e.stake + v.stake, otherAddresses := Some(e.otherAddresses.GetOr([]) + [PeerOf(v, producers)]))
  {
    var ws' := ws + [v];
    SumSeqAppend(ws, v, StakeOf);
    assert ws'[0] == ws[0];
    assert ws'[1..] == ws[1..] + [v];
    assert PeersOf(ws'[1..], producers) == PeersOf(ws[1..], producers) + [PeerOf(v, producers)];
  }

  /** Each entry is the merge of the validators filed under its key. */
  lemma {:induction false} MergeFoldEntry(vs: seq<NearValidator>, producers: map<string, string>,
                                          nodeList: map<string, string>, k: string)
    requires k in MergeFold(vs, producers, nodeList)
    ensures |KeyedAt(vs, producers, nodeList, k)| > 0
    ensures MergeFold(vs, producers, nodeList)[k] == Merged(KeyedAt(vs, producers, nodeList, k), producers)
    decreases |vs|
  {
    var init := vs[..|vs| - 1];
    var v := vs[|vs| - 1];
    var m := MergeFold(init, producers, nodeList);
    var wsInit := KeyedAt(init, producers, nodeList, k);
    assert MergeFold(vs, producers, nodeList) == MergeStep(m, v, producers, nodeList);
    MergeFoldHasKey(init, producers, nodeList, k);
    if IPKey(v, producers, nodeList) != k {
      assert KeyedAt(vs, producers, nodeList, k) == wsInit;
      MergeFoldEntry(init, producers, nodeList, k);
    } else if k !in m {
      assert KeyedAt(vs, producers, nodeList, k) == [v];
      assert SumSeq([v], StakeOf) == v.stake + SumSeq([v][1..], StakeOf);
    } else {
      assert KeyedAt(vs, producers, nodeList, k) == wsInit + [v];
      MergeFoldEntry(init, producers, nodeList, k);
      MergedSnoc(wsInit, v, producers);
    }
  }

  /** Every stake lands in exactly one entry: the entries' stakes add up to
      the validators' stakes. */
  lemma {:induction false} MergeFoldTotal(vs: seq<NearValidator>, producers: map<string, string>,
                                          nodeList: map<string, string>)
    ensures SumBy(MergeFold(vs, producers, nodeList), EntryStake) == SumSeq(vs, StakeOf)
    decreases |vs|
  {
    if |vs| == 0 {
      var empty: map<string, NearEntry> := map[];
      assert MergeFold(vs, producers, nodeList) == empty;
      SumByZero(empty, EntryStake);
    } else {
      var init := vs[..|vs| - 1];
      var v := vs[|vs| - 1];
      var m := MergeFold(init, producers, nodeList);
      var k := IPKey(v, producers, nodeList);
      MergeFoldTotal(init, producers, nodeList);
      assert vs == init + [v];
      SumSeqAppend(init, v, StakeOf);
      SumByUpdate(m, EntryStake, k, MergeFold(vs, producers, nodeList)[k]);
    }
  }

  /** One pass of the merge loop: the validator's IP is looked up through
      its peer id, and its stake is added to the entry of that IP, which
      the first validator there creates. */
  method MergeOne(nodes: map<string, NearEntry>, v: NearValidator, producers: map<string, string>,
                  nodeList: map<string, string>) returns (merged: map<string, NearEntry>)
    ensures merged == MergeStep(nodes, v, producers, nodeList)
  {
    var peerId := PeerOf(v, producers);
    var validatorIP := "null";
    if v.accountId in producers {
      var peer := producers[v.accountId];
      if peer in nodeList {
        validatorIP := CutAtColon(nodeList[peer]);
      } else {
        validatorIP := "undefined";
      }
    }
    assert validatorIP == IPKey(v, producers, nodeList);
    if validatorIP in nodes {
      var e := nodes[validatorIP];
      var others := if e.otherAddresses.None? then [] else e.otherAddresses.value;
      merged := nodes[validatorIP := e.(stake := e.stake + v.stake, otherAddresses := Some(others + [peerId]))];
    } else {
      merged := nodes[validatorIP := NearEntry(v.stake, peerId, None)];
    }
  }

  /** The merge loop of `runProcess`: each validator's IP is looked up
      through its peer id, its stake is added to the total and to the entry
      of its IP, created by the first validator there. */
  method MergeValidators(validators: seq<NearValidator>, producers: map<string, string>, nodeList: map<string, string>)
    returns (nodes: map<string, NearEntry>, totalStaked: nat)
    ensures nodes == MergeFold(validators, producers, nodeList)
    ensures totalStaked == SumSeq(validators, StakeOf)
    ensures SumBy(nodes, EntryStake) == totalStaked
  {
    nodes := map[];
    totalStaked := 0;
    var i := 0;
    while i < |validators|
      invariant i <= |validators|
      invariant nodes == MergeFold(validators[..i], producers, nodeList)
      invariant totalStaked == SumSeq(validators[..i], StakeOf)
    {
      var v := validators[i];
      totalStaked := totalStaked + v.stake;
      nodes := MergeOne(nodes, v, producers, nodeList);
      assert validators[..i + 1] == validators[..i] + [v];
      SumSeqAppend(validators[..i], v, StakeOf);
      i := i + 1;
    }
    assert validators[..i] == validators;
    MergeFoldTotal(validators, producers, nodeList);
  }
}
