/** The Cosmos analysis scripts: the seed list taken from a node's address
    book, and the cleaning of a crawl result and its join with the
    validator set by consensus public key. JSON files become sequences of
    records. */
module CosmosAnalysis {
  import opened Wrappers
  import opened Strings
  import opened OrderedDicts
  import opened Indexes

  // ------------------------------------------------ address book

  /** One address-book entry: the peer's id and IP, and its last success. */
  datatype BookEntry = BookEntry(id: string, ip: string, lastSuccess: string)

  /** The timestamp of a peer that never answered. */
  const ZeroTime: string := "0001-01-01T00:00:00Z"

  /** An entry may seed: its IP has no ':' part and it has answered once. */
  predicate Eligible(e: BookEntry) {
    |Split(e.ip, ":")| == 1 && e.lastSuccess != ZeroTime
  }

  /** An IP has no ':' part exactly when it holds no ':'. */
  lemma EligibleNoColon(e: BookEntry)
    ensures Eligible(e) <==> !(':' in e.ip) && e.lastSuccess != ZeroTime
  {
    SplitSingleton(e.ip, ":");
    ContainsChar(e.ip, ':');
  }

  /** Entry `i` is the first eligible entry with its IP. */
  predicate FirstAt(s: seq<BookEntry>, i: nat)
    requires i < |s|
  {
    Eligible(s[i]) && forall j :: 0 <= j < i ==> !(Eligible(s[j]) && s[j].ip == s[i].ip)
  }

  /** The seed written for an entry: `id@ip`. */
  function SeedString(e: BookEntry): string {
    e.id + "@" + e.ip
  }

  /** The seeds of the first eligible entry of each IP, in book order. */
  function SeedsOf(s: seq<BookEntry>): (r: seq<string>)
    ensures |r| <= |s|
    ensures forall x :: x in r ==> exists i :: 0 <= i < |s| && Eligible(s[i]) && x == SeedString(s[i])
    decreases |s|
  {
    if |s| == 0 then []
    else
      var init := s[..|s| - 1];
      assert forall i :: 0 <= i < |init| ==> init[i] == s[i];
      SeedsOf(init) + (if FirstAt(s, |s| - 1) then [SeedString(s[|s| - 1])] else [])
  }

  /** The IPs of the eligible entries. */
  function EligibleIPs(s: seq<BookEntry>): set<string> {
    set i | 0 <= i < |s| && Eligible(s[i]) :: s[i].ip
  }

  /** The seed-list loop: an entry is kept when it is eligible and its IP
      has not been kept before. */
  method ParseAddressbook(addrs: seq<BookEntry>) returns (finalList: seq<string>)
    ensures finalList == SeedsOf(addrs)
  {
    finalList := [];
    var seen: set<string> := {};
    var i := 0;
    while i < |addrs|
      invariant i <= |addrs|
      invariant finalList == SeedsOf(addrs[..i]) && seen == EligibleIPs(addrs[..i])
    {
      var addy := addrs[i];
      KeptIffUnseen(addrs, i);
      assert addrs[..i + 1][..i] == addrs[..i];
      if |Split(addy.ip, ":")| == 1 {
        if addy.ip !in seen && addy.lastSuccess != ZeroTime {
          finalList := finalList + [SeedString(addy)];
          seen := seen + {addy.ip};
        }
      }
      i := i + 1;
    }
    assert addrs[..i] == addrs;
  }

  /** The loop's test on entry `i` is `FirstAt`, and the IPs seen grow by
      the IPs of eligible entries only. */
  lemma KeptIffUnseen(s: seq<BookEntry>, i: nat)
    requires i < |s|
    ensures FirstAt(s[..i + 1], i) <==> Eligible(s[i]) && s[i].ip !in EligibleIPs(s[..i])
    ensures EligibleIPs(s[..i + 1]) == EligibleIPs(s[..i]) + (if Eligible(s[i]) then {s[i].ip} else {})
  {
    var p := s[..i + 1];
    assert forall j :: 0 <= j <= i ==> p[j] == s[j];
    if Eligible(s[i]) && s[i].ip in EligibleIPs(s[..i]) {
      var j :| 0 <= j < i && Eligible(s[..i][j]) && s[..i][j].ip == s[i].ip;
      assert p[j] == s[j];
    }
  }

  /** Every seed is `id@ip` of the first eligible entry of its IP. */
  lemma {:induction false} SeedsFromFirsts(s: seq<BookEntry>, x: string)
    requires x in SeedsOf(s)
    ensures exists i :: 0 <= i < |s| && FirstAt(s, i) && x == SeedString(s[i])
    decreases |s|
  {
    var init := s[..|s| - 1];
    if x in SeedsOf(init) {
      SeedsFromFirsts(init, x);
      var i :| 0 <= i < |init| && FirstAt(init, i) && x == SeedString(init[i]);
      assert forall j :: 0 <= j <= i ==> init[j] == s[j];
    }
  }

  /** Every eligible entry's IP is seeded, by an entry no later than it:
      the first eligible entry with that IP. */
  lemma {:induction false} EligibleSeeded(s: seq<BookEntry>, i: nat)
    requires i < |s| && Eligible(s[i])
    ensures exists k :: 0 <= k <= i && FirstAt(s, k) && s[k].ip == s[i].ip
    decreases i
  {
    if !FirstAt(s, i) {
      var j :| 0 <= j < i && Eligible(s[j]) && s[j].ip == s[i].ip;
      EligibleSeeded(s, j);
    }
  }

  /** The seed of each first eligible entry is in the list. */
  lemma {:induction false} FirstsSeeded(s: seq<BookEntry>, i: nat)
    requires i < |s| && FirstAt(s, i)
    ensures SeedString(s[i]) in SeedsOf(s)
    decreases |s|
  {
    if i < |s| - 1 {
      var init := s[..|s| - 1];
      assert forall j :: 0 <= j <= i ==> init[j] == s[j];
      FirstsSeeded(init, i);
    }
  }

  // ------------------------------------------------ crawl result

  /** One node of the crawl result. `pubkey` is the consensus public key
      bytes, None when the crawler stored null. */
  datatype CrawledNode = CrawledNode(
    ip: string,
    validatorAddress: string,
    id: string,
    votingPower: int,
    pubkey: Option<string>,
    pubkeyAddress: string,
    latestBlock: string)

  /** The operator data joined into an identified node. */
  datatype OperatorInfo = OperatorInfo(operatorAddress: string, tokens: string, delegatorShares: string, description: string)

  /** An entry of the seen-by-IP map. */
  datatype SeenInfo = SeenInfo(
    ip: string,
    id: string,
    address: string,
    latestBlock: string,
    pubKeyBytes: Option<string>,
    pubKeyAddress: string,
    votingPower: int,
    operator: Option<OperatorInfo>)

  function InfoOf(n: CrawledNode): SeenInfo {
    SeenInfo(n.ip, n.id, n.validatorAddress, n.latestBlock, n.pubkey, n.pubkeyAddress, n.votingPower, None)
  }

  predicate HasIP(n: CrawledNode) { n.ip != "" }
  predicate HasAddress(n: CrawledNode) { n.validatorAddress != "" }
  predicate HasId(n: CrawledNode) { n.id != "" }
  predicate HasPubkey(n: CrawledNode) { n.pubkey.Some? }
  predicate HasVotingPower(n: CrawledNode) { n.votingPower > 0 }

  /** The elements of `s` that satisfy `p`, in order. */
  function Filter<T>(s: seq<T>, p: T -> bool): (r: seq<T>)
    ensures |r| <= |s|
    ensures forall i :: 0 <= i < |r| ==> p(r[i])
    decreases |s|
  {
    if |s| == 0 then []
    else Filter(s[..|s| - 1], p) + (if p(s[|s| - 1]) then [s[|s| - 1]] else [])
  }

  /** An element is kept exactly when it satisfies the predicate. */
  lemma {:induction false} FilterMembers<T>(s: seq<T>, p: T -> bool, x: T)
    ensures x in Filter(s, p) <==> x in s && p(x)
    decreases |s|
  {
    if |s| > 0 {
      var init := s[..|s| - 1];
      FilterMembers(init, p, x);
      assert s == init + [s[|s| - 1]];
    }
  }

  /** The seen-by-IP dictionary of the crawl's nodes with an IP: keyed by
      IP in order of first appearance, holding the last node's info. */
  function SeenOf(nodes: seq<CrawledNode>): seq<(string, SeenInfo)>
    decreases |nodes|
  {
    if |nodes| == 0 then []
    else
      var n := nodes[|nodes| - 1];
      var m := SeenOf(nodes[..|nodes| - 1]);
      if HasIP(n) then Put(m, n.ip, InfoOf(n)) else m
  }

  /** The seen dictionary's keys are the IPs of the nodes that have one. */
  lemma {:induction false} SeenOfKeys(nodes: seq<CrawledNode>)
    ensures KeySet(SeenOf(nodes)) == set i | 0 <= i < |nodes| && HasIP(nodes[i]) :: nodes[i].ip
    decreases |nodes|
  {
    if |nodes| > 0 {
      var init := nodes[..|nodes| - 1];
      SeenOfKeys(init);
      assert forall i :: 0 <= i < |init| ==> init[i] == nodes[i];
    }
  }

  /** Each IP is a key of the seen dictionary once. */
  lemma {:induction false} SeenOfDistinct(nodes: seq<CrawledNode>)
    ensures DistinctKeys(SeenOf(nodes))
    decreases |nodes|
  {
    if |nodes| > 0 {
      var init := nodes[..|nodes| - 1];
      var n := nodes[|nodes| - 1];
      SeenOfDistinct(init);
      if HasIP(n) {
        PutGet(SeenOf(init), n.ip, InfoOf(n), n.ip);
      }
    }
  }

  /** Every entry of the seen dictionary carries its own IP. */
  lemma {:induction false} SeenOfOwnIP(nodes: seq<CrawledNode>)
    ensures forall i :: 0 <= i < |SeenOf(nodes)| ==> SeenOf(nodes)[i].1.ip == SeenOf(nodes)[i].0
    decreases |nodes|
  {
    if |nodes| > 0 {
      var n := nodes[|nodes| - 1];
      var m := SeenOf(nodes[..|nodes| - 1]);
      SeenOfOwnIP(nodes[..|nodes| - 1]);
      if HasIP(n) {
        var r := Put(m, n.ip, InfoOf(n));
        forall i | 0 <= i < |r|
          ensures r[i].1.ip == r[i].0
        {
          if i >= |m| {
            assert r == m + [(n.ip, InfoOf(n))];
          }
        }
      }
    }
  }

  /** Appending one element appends it to the filtered sequence when it
      satisfies the predicate. */
  lemma FilterSnoc<T>(s: seq<T>, x: T, p: T -> bool)
    ensures Filter(s + [x], p) == Filter(s, p) + (if p(x) then [x] else [])
  {
    assert (s + [x])[..|s|] == s;
  }

  /** The lists the cleaning pass writes. */
  datatype Cleaned = Cleaned(
    seen: seq<(string, SeenInfo)>,
    clean: seq<CrawledNode>,
    withId: seq<CrawledNode>,
    withAddress: seq<CrawledNode>,
    withPubkey: seq<CrawledNode>,
    withVotingPower: seq<CrawledNode>)

  /** The cleaning pass: nodes without an IP are skipped; each other node
      is entered in the seen dictionary, appended to the clean list and to
      each list whose field it has. */
  method CleanNodes(nodes: seq<CrawledNode>) returns (c: Cleaned)
    ensures c.seen == SeenOf(nodes)
    ensures c.clean == Filter(nodes, HasIP)
    ensures c.withAddress == Filter(c.clean, HasAddress) && c.withId == Filter(c.clean, HasId)
    ensures c.withPubkey == Filter(c.clean, HasPubkey) && c.withVotingPower == Filter(c.clean, HasVotingPower)
  {
    var seen: seq<(string, SeenInfo)> := [];
    var clean, withId, withAddress, withPubkey, withVotingPower := [], [], [], [], [];
    var i := 0;
    while i < |nodes|
      invariant i <= |nodes|
      invariant seen == SeenOf(nodes[..i]) && clean == Filter(nodes[..i], HasIP)
      invariant withAddress == Filter(clean, HasAddress) && withId == Filter(clean, HasId)
      invariant withPubkey == Filter(clean, HasPubkey) && withVotingPower == Filter(clean, HasVotingPower)
    {
      var node := nodes[i];
      assert nodes[..i + 1][..i] == nodes[..i];
      if node.ip == "" {
        i := i + 1;
        continue;
      }
      seen := Put(seen, node.ip, InfoOf(node));
      FilterSnoc(clean, node, HasAddress);
      FilterSnoc(clean, node, HasId);
      FilterSnoc(clean, node, HasPubkey);
      FilterSnoc(clean, node, HasVotingPower);
      if node.validatorAddress != "" {
        withAddress := withAddress + [node];
      }
      if node.id != "" {
        withId := withId + [node];
      }
      if node.pubkey.Some? {
        withPubkey := withPubkey + [node];
      }
      if node.votingPower > 0 {
        withVotingPower := withVotingPower + [node];
      }
      clean := clean + [node];
      i := i + 1;
    }
    assert nodes[..i] == nodes;
    c := Cleaned(seen, clean, withId, withAddress, withPubkey, withVotingPower);
  }

  // ------------------------------------------------ join with validators

  /** A validator of the staking module: its operator address, consensus
      public key and delegation data. */
  datatype Operator = Operator(operatorAddress: string, consensusPubkey: string, tokens: string,
                               delegatorShares: string, description: string)

  function PubKeyOf(e: (string, SeenInfo)): string
    requires e.1.pubKeyBytes.Some?
  {
    e.1.pubKeyBytes.value
  }

  function InfoOfEntry(e: (string, SeenInfo)): SeenInfo {
    e.1
  }

  predicate EntryHasPubkey(e: (string, SeenInfo)) {
    e.1.pubKeyBytes.Some?
  }

  /** The pubkey lookup: the seen entries with public key bytes, keyed by
      them, in dictionary order (a later entry with the same key wins). */
  function SeenPubKeys(seen: seq<(string, SeenInfo)>): map<string, SeenInfo> {
    var withKey := Filter(seen, EntryHasPubkey);
    IndexBy(map[], withKey, (e: (string, SeenInfo)) => if e.1.pubKeyBytes.Some? then e.1.pubKeyBytes.value else "", InfoOfEntry)
  }

  /** Every entry of the pubkey lookup is a seen entry with those key
      bytes. */
  lemma SeenPubKeysFrom(seen: seq<(string, SeenInfo)>, k: string)
    requires k in SeenPubKeys(seen)
    ensures exists i :: 0 <= i < |seen| && seen[i].1 == SeenPubKeys(seen)[k] && seen[i].1.pubKeyBytes == Some(k)
  {
    var withKey := Filter(seen, EntryHasPubkey);
    var key := (e: (string, SeenInfo)) => if e.1.pubKeyBytes.Some? then e.1.pubKeyBytes.value else "";
    IndexByKeys(map[], withKey, key, InfoOfEntry, k);
    var i :| 0 <= i < |withKey| && key(withKey[i]) == k;
    var j := LastWithKey(withKey, key, i);
    IndexByLastWins(map[], withKey, key, InfoOfEntry, j);
    FilterMembers(seen, EntryHasPubkey, withKey[j]);
  }

  /** The last index whose element has the key of element `i`. */
  lemma LastWithKey<T>(s: seq<T>, key: T -> string, i: nat) returns (j: nat)
    requires i < |s|
    ensures i <= j < |s| && key(s[j]) == key(s[i])
    ensures forall k :: j < k < |s| ==> key(s[k]) != key(s[j])
    decreases |s| - i
  {
    if exists k :: i < k < |s| && key(s[k]) == key(s[i]) {
      var k :| i < k < |s| && key(s[k]) == key(s[i]);
      j := LastWithKey(s, key, k);
    } else {
      j := i;
    }
  }

  /** The seen dictionary as a map. */
  function AsMap(d: seq<(string, SeenInfo)>): (m: map<string, SeenInfo>)
    ensures m.Keys == KeySet(d)
    decreases |d|
  {
    if |d| == 0 then map[] else AsMap(d[..|d| - 1])[d[|d| - 1].0 := d[|d| - 1].1]
  }

  /** The node found under a public key is a seen node, so its IP is a key
      of the seen dictionary: the join never looks up a missing IP. */
  lemma JoinReady(nodes: seq<CrawledNode>)
    ensures var seen := SeenOf(nodes);
      forall pk :: pk in SeenPubKeys(seen) ==> SeenPubKeys(seen)[pk].ip in AsMap(seen)
  {
    var seen := SeenOf(nodes);
    SeenOfOwnIP(nodes);
    forall pk | pk in SeenPubKeys(seen)
      ensures SeenPubKeys(seen)[pk].ip in AsMap(seen)
    {
      SeenPubKeysFrom(seen, pk);
      var i :| 0 <= i < |seen| && seen[i].1 == SeenPubKeys(seen)[pk] && seen[i].1.pubKeyBytes == Some(pk);
      assert seen[i].0 in KeySet(seen);
    }
  }

  /** The join, as a fold over the validators: the seen map with operator
      data written in, and the IPs identified among the top validators and
      in total. */
  datatype Identified = Identified(seen: map<string, SeenInfo>, top: set<string>, total: set<string>)

  /** A validator is identified when its consensus public key is a crawled
      node's key bytes; its IP is that node's. */
  function IdentifyFold(start: map<string, SeenInfo>, seenPub: map<string, SeenInfo>, top175: set<string>,
                        operators: seq<Operator>): (r: Identified)
    ensures r.top <= r.total
    ensures r.seen.Keys == start.Keys + r.total
    decreases |operators|
  {
    if |operators| == 0 then Identified(start, {}, {})
    else
      var init := operators[..|operators| - 1];
      var r := IdentifyFold(start, seenPub, top175, init);
      var val := operators[|operators| - 1];
      var pk := val.consensusPubkey;
      if pk !in seenPub then r
      else
        var ip := seenPub[pk].ip;
        var info := if ip in r.seen then r.seen[ip] else seenPub[pk];
        var updated := info.(operator := Some(OperatorInfo(val.operatorAddress, val.tokens, val.delegatorShares, val.description)));
        Identified(r.seen[ip := updated], if pk in top175 then r.top + {ip} else r.top, r.total + {ip})
  }

  /** An IP is identified exactly when some validator's consensus key is
      the key bytes of the node seen at that IP, and among the top
      validators when that validator is also in the top set. */
  lemma {:induction false} IdentifyFoldMembers(start: map<string, SeenInfo>, seenPub: map<string, SeenInfo>,
                                               top175: set<string>, operators: seq<Operator>, ip: string)
    ensures ip in IdentifyFold(start, seenPub, top175, operators).total <==>
      exists i :: 0 <= i < |operators| && Joins(operators[i], seenPub, ip)
    ensures ip in IdentifyFold(start, seenPub, top175, operators).top <==>
      exists i :: 0 <= i < |operators| && Joins(operators[i], seenPub, ip) && operators[i].consensusPubkey in top175
    decreases |operators|
  {
    if |operators| > 0 {
      var init := operators[..|operators| - 1];
      IdentifyFoldMembers(start, seenPub, top175, init, ip);
      assert forall i :: 0 <= i < |init| ==> init[i] == operators[i];
    }
  }

  /** Validator `val` joins the node seen at `ip`. */
  predicate Joins(val: Operator, seenPub: map<string, SeenInfo>, ip: string) {
    val.consensusPubkey in seenPub && seenPub[val.consensusPubkey].ip == ip
  }

  /** The join loop over the validators. The identified dictionaries hold
      the same objects as the seen dictionary, so they are returned as
      their IPs, read through the final seen map. */
  method IdentifyValidators(seen: map<string, SeenInfo>, seenPub: map<string, SeenInfo>, top175: set<string>,
                            operators: seq<Operator>) returns (r: Identified)
    requires forall pk :: pk in seenPub ==> seenPub[pk].ip in seen
    ensures r == IdentifyFold(seen, seenPub, top175, operators)
    ensures r.seen.Keys == seen.Keys
  {
    var seenNow := seen;
    var top, total := {}, {};
    var i := 0;
    while i < |operators|
      invariant i <= |operators|
      invariant Identified(seenNow, top, total) == IdentifyFold(seen, seenPub, top175, operators[..i])
      invariant seenNow.Keys == seen.Keys
    {
      assert operators[..i + 1][..i] == operators[..i];
      var val := operators[i];
      var pk := val.consensusPubkey;
      if pk in seenPub {
        var ip := seenPub[pk].ip;
        seenNow := seenNow[ip := seenNow[ip].(operator := Some(OperatorInfo(val.operatorAddress, val.tokens, val.delegatorShares, val.description)))];
        if pk in top175 {
          top := top + {ip};
        }
        total := total + {ip};
      }
      i := i + 1;
    }
    assert operators[..i] == operators;
    r := Identified(seenNow, top, total);
  }
}
