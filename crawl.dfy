/** The Tendermint crawler's address trimming and its database keys.
    Byte slices are modelled as strings of their (ASCII) characters. */
module Crawl {
  import opened Wrappers
  import opened Strings

  // ------------------------------------------------ parseURL

  /** `parseURL`: the host of a peer address such as
      "id@tcp://1.2.3.4:26656". `parses` is whether Go's `url.Parse`
      accepts the address; when it does not, the result is "". Otherwise
      the address is cut after its last "@", then after its last "//",
      then before its first ":". */
  function ParseURL(nodeAddr: string, parses: bool): (ip: string)
    ensures !parses ==> ip == ""
    ensures !Contains(ip, "@") && !Contains(ip, ":") && !Contains(ip, "//")
  {
    if !parses then ""
    else
      var ip1 := Last(Split(nodeAddr, "@"));
      var ip2 := Last(Split(ip1, "//"));
      var ip := Split(ip2, ":")[0];
      TrimmedAvoids(nodeAddr);
      ip
  }

  /** Each cut removes one separator and keeps the others away: the part
      after the last "@" has no "@", the part after the last "//" of that
      is a suffix of it, and the part before the first ":" is a prefix. */
  lemma TrimmedAvoids(nodeAddr: string)
    ensures var ip1 := Last(Split(nodeAddr, "@"));
            var ip2 := Last(Split(ip1, "//"));
            var ip := Split(ip2, ":")[0];
            !Contains(ip, "@") && !Contains(ip, ":") && !Contains(ip, "//")
  {
    var ip1 := Last(Split(nodeAddr, "@"));
    SplitPartsAvoidSep(nodeAddr, "@");
    var ip2 := Last(Split(ip1, "//"));
    SplitPartsAvoidSep(ip1, "//");
    SplitLastIsSuffix(ip1, "//");
    SuffixAvoids(ip1, |ip1| - |ip2|, "@");
    var ip := Split(ip2, ":")[0];
    SplitPartsAvoidSep(ip2, ":");
    SplitFirstIsPrefix(ip2, ":");
    assert ip == ip2[..|ip|];
    PrefixAvoids(ip2, |ip|, "@");
    PrefixAvoids(ip2, |ip|, "//");
  }

  /** Trimming an already trimmed host gives it back, when `url.Parse`
      accepts it. */
  lemma {:induction false} ParseURLIdempotent(nodeAddr: string, parses: bool)
    ensures ParseURL(ParseURL(nodeAddr, parses), true) == ParseURL(nodeAddr, parses)
  {
    var ip := ParseURL(nodeAddr, parses);
    SplitSingleton(ip, "@");
    assert Last(Split(ip, "@")) == ip;
    SplitSingleton(ip, "//");
    assert Last(Split(ip, "//")) == ip;
    SplitSingleton(ip, ":");
  }

  // ------------------------------------------------ keys

  const NodeKeyPrefix: string := "node/"
  const LocationKeyPrefix: string := "location/"

  /** `NodeKey`: the database key of a node. */
  function NodeKey(addressable: string): (k: string)
    ensures |k| == |NodeKeyPrefix| + |addressable|
    ensures k[..|NodeKeyPrefix|] == NodeKeyPrefix && k[|NodeKeyPrefix|..] == addressable
  {
    NodeKeyPrefix + addressable
  }

  /** `LocationKey`: the database key of a cached location. */
  function LocationKey(addressable: string): (k: string)
    ensures |k| == |LocationKeyPrefix| + |addressable|
    ensures k[..|LocationKeyPrefix|] == LocationKeyPrefix && k[|LocationKeyPrefix|..] == addressable
  {
    LocationKeyPrefix + addressable
  }

  /** The part of a crawled node that its key depends on. */
  datatype Node = Node(ip: string, rpcPort: string, p2pPort: string, moniker: string, id: string)

  /** `Node.Key`: a node is stored under the key of its IP. */
  function Key(n: Node): string {
    NodeKey(n.ip)
  }

  /** Two nodes share a key exactly when they share an IP. */
  lemma KeySameIP(a: Node, b: Node)
    ensures Key(a) == Key(b) <==> a.ip == b.ip
  {
    if Key(a) == Key(b) {
      NodeKeyInjective(a.ip, b.ip);
    }
  }

  /** Distinct addresses give distinct node keys. */
  lemma NodeKeyInjective(a: string, b: string)
    requires NodeKey(a) == NodeKey(b)
    ensures a == b
  {
    assert a == NodeKey(a)[|NodeKeyPrefix|..];
  }

  /** No node key is a location key: the prefixes differ in their first
      character. */
  lemma NodeKeyNotLocationKey(a: string, b: string)
    ensures NodeKey(a) != LocationKey(b)
  {
    assert NodeKey(a)[0] == 'n' && LocationKey(b)[0] == 'l';
  }

  /** The keys of an empty node and of a local node. */
  lemma KeyExamples()
    ensures Key(Node("", "", "", "", "")) == "node/"
    ensures Key(Node("127.0.0.1", "", "", "", "")) == "node/127.0.0.1"
  {
  }
}
