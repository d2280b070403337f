/** The crawler's HTTP handlers: the paginated node listing and the
    single-node lookup. The database is the sequence of values stored under
    the node prefix, in key order (or, for the lookup, a key-value map);
    decoding a stored node and `paginate` are parameters. */
module Server {
  import opened Wrappers
  import opened Crawl

  // ------------------------------------------------ strconv.Atoi

  const MaxInt64: int := 0x7FFF_FFFF_FFFF_FFFF
  const MinInt64: int := -0x8000_0000_0000_0000

  predicate IsDigit(c: char) {
    '0' <= c <= '9'
  }

  function DigitValue(c: char): (d: nat)
    requires IsDigit(c)
    ensures d <= 9 && (d == 0 <==> c == '0')
  {
    c as int - '0' as int
  }

  /** The decimal value of a string of digits. */
  function DigitsValue(ds: string): (v: nat)
    requires forall i :: 0 <= i < |ds| ==> IsDigit(ds[i])
    ensures v == 0 <==> forall i :: 0 <= i < |ds| ==> ds[i] == '0'
    decreases |ds|
  {
    if |ds| == 0 then 0
    else
      var init := ds[..|ds| - 1];
      assert forall i :: 0 <= i < |init| ==> init[i] == ds[i];
      DigitsValue(init) * 10 + DigitValue(ds[|ds| - 1])
  }

  /** A number's text without its sign. */
  function Unsigned(s: string): string {
    if |s| > 0 && (s[0] == '+' || s[0] == '-') then s[1..] else s
  }

  /** A decimal integer in Go's syntax: an optional sign, then one or more
      digits. */
  predicate WellFormedInt(s: string) {
    |Unsigned(s)| > 0 && forall i :: 0 <= i < |Unsigned(s)| ==> IsDigit(Unsigned(s)[i])
  }

  /** The run of digits a text starts with, up to its first non-digit. */
  function LeadingDigits(s: string): (r: string)
    ensures |r| <= |s| && r == s[..|r|]
    ensures forall i :: 0 <= i < |r| ==> IsDigit(r[i])
    ensures |r| < |s| ==> !IsDigit(s[|r|])
    decreases |s|
  {
    if |s| == 0 || !IsDigit(s[0]) then "" else [s[0]] + LeadingDigits(s[1..])
  }

  const MaxUint64: int := 0xFFFF_FFFF_FFFF_FFFF

  /** The digits after the sign already exceed the unsigned 64-bit range.
      `strconv.ParseUint` reads the text left to right and reports the
      range error at the digit that overflows, before it looks at any
      character further on, so this wins over a later syntax error. */
  predicate Overflows(s: string) {
    DigitsValue(LeadingDigits(Unsigned(s))) > MaxUint64
  }

  /** The value `x, _ := strconv.Atoi(s)` leaves in `x` on a 64-bit
      platform: the value clamped to the 64-bit range on a range error,
      0 on a syntax error, else the value. */
  function Atoi(s: string): (x: int)
    ensures Overflows(s) ==> |s| > 0 && x == if s[0] == '-' then MinInt64 else MaxInt64
    ensures !Overflows(s) && !WellFormedInt(s) ==> x == 0
    ensures MinInt64 <= x <= MaxInt64
  {
    if Overflows(s) then (if s[0] == '-' then MinInt64 else MaxInt64)
    else if !WellFormedInt(s) then 0
    else
      var negative := s[0] == '-';
      var v: int := DigitsValue(Unsigned(s));
      if negative then (if -v < MinInt64 then MinInt64 else -v)
      else if v > MaxInt64 then MaxInt64 else v
  }

  /** A query value is accepted exactly when it has no '-' sign and either
      its leading digits overflow, whatever follows them, or it is a
      decimal with a non-zero digit. */
  lemma AtoiPositive(s: string)
    ensures Atoi(s) > 0 <==>
      |s| > 0 && s[0] != '-' &&
      (Overflows(s) || (WellFormedInt(s) && exists i :: 0 <= i < |s| && '1' <= s[i] <= '9'))
  {
    if !Overflows(s) && WellFormedInt(s) && s[0] != '-' {
      var off := if s[0] == '+' then 1 else 0;
      assert Unsigned(s) == s[off..];
      NonZeroDigitAfter(s, off);
    }
  }

  /** Twenty or more nines overflow, so a non-digit after them is never
      reached and the value is the largest 64-bit integer: the query
      `?page=99999999999999999999x` is accepted. */
  lemma AtoiOverflowBeforeJunk(ds: string, rest: string)
    requires |ds| >= 20 && forall i :: 0 <= i < |ds| ==> ds[i] == '9'
    requires |rest| > 0 && !IsDigit(rest[0])
    ensures !WellFormedInt(ds + rest) && Atoi(ds + rest) == MaxInt64
  {
    var s := ds + rest;
    assert Unsigned(s) == s;
    assert s[|ds|] == rest[0];
    LeadingDigitsStop(ds, rest);
    AllNinesValue(ds);
    Pow10Add(20, |ds| - 20);
    Pow10Twenty();
  }

  /** The leading digits of a digit run followed by a non-digit are that run. */
  lemma LeadingDigitsStop(ds: string, rest: string)
    requires forall i :: 0 <= i < |ds| ==> IsDigit(ds[i])
    requires |rest| > 0 && !IsDigit(rest[0])
    ensures LeadingDigits(ds + rest) == ds
  {
    var s := ds + rest;
    assert forall k :: 0 <= k < |ds| ==> IsDigit(s[k]);
    assert !IsDigit(s[|ds|]);
  }

  /** A run of n nines is worth 10^n - 1. */
  lemma {:induction false} AllNinesValue(ds: string)
    requires forall i :: 0 <= i < |ds| ==> ds[i] == '9'
    ensures DigitsValue(ds) == Pow10(|ds|) - 1
    decreases |ds|
  {
    if |ds| > 0 {
      AllNinesValue(ds[..|ds| - 1]);
    }
  }

  function Pow10(n: nat): (p: nat)
    ensures p >= 1
  {
    if n == 0 then 1 else 10 * Pow10(n - 1)
  }

  lemma {:induction false} Pow10Add(a: nat, b: nat)
    ensures Pow10(a + b) == Pow10(a) * Pow10(b)
    decreases b
  {
    if b > 0 {
      Pow10Add(a, b - 1);
      assert Pow10(a + b) == 10 * Pow10(a + b - 1);
    }
  }

  lemma Pow10Twenty()
    ensures Pow10(20) == 100_000_000_000_000_000_000
  {
    assert Pow10(5) == 100_000 by {
      assert Pow10(2) == 100;
      assert Pow10(4) == 10_000;
    }
    Pow10Add(5, 5);
    Pow10Add(10, 10);
  }

  /** Behind an optional '+', a run of digits has a non-zero value exactly
      when the text holds a digit other than '0'. */
  lemma NonZeroDigitAfter(s: string, off: nat)
    requires off <= |s| && (off == 1 ==> s[0] == '+') && off <= 1
    requires forall i :: 0 <= i < |s[off..]| ==> IsDigit(s[off..][i])
    ensures DigitsValue(s[off..]) > 0 <==> exists i :: 0 <= i < |s| && '1' <= s[i] <= '9'
  {
    var ds := s[off..];
    assert forall i :: 0 <= i < |ds| ==> ds[i] == s[i + off];
    if DigitsValue(ds) > 0 {
      var i :| 0 <= i < |ds| && ds[i] != '0';
      assert '1' <= s[i + off] <= '9';
    }
    if exists i :: 0 <= i < |s| && '1' <= s[i] <= '9' {
      var i :| 0 <= i < |s| && '1' <= s[i] <= '9';
      assert ds[i - off] != '0';
    }
  }

  // ------------------------------------------------ node listing

  /** An HTTP response of the handlers. `SlicePanic` is the run-time panic
      of slicing the node list with indices outside it. */
  datatype Response =
    | BadRequest(reason: string)
    | NotFound
    | NodePage(total: int, page: int, limit: int, nodes: seq<Node>)
    | NodeFound(node: Node)
    | SlicePanic

  /** The iteration over the stored nodes: each value is decoded and kept
      until the first that does not decode, which halts it. The flag says
      whether a decode failed. */
  function DecodePrefix(values: seq<string>, decode: string -> Option<Node>): (r: (seq<Node>, bool))
    ensures |r.0| <= |values|
    decreases |values|
  {
    if |values| == 0 then ([], false)
    else
      match decode(values[0])
      case None => ([], true)
      case Some(n) =>
        var rest := DecodePrefix(values[1..], decode);
        ([n] + rest.0, rest.1)
  }

  /** The nodes kept are the decoded values, in order; a failure is
      reported exactly when some value does not decode, and then the
      nodes stop at the first such value. */
  lemma {:induction false} DecodePrefixSpec(values: seq<string>, decode: string -> Option<Node>)
    ensures var r := DecodePrefix(values, decode);
      && (forall i :: 0 <= i < |r.0| ==> decode(values[i]) == Some(r.0[i]))
      && (r.1 <==> exists i :: 0 <= i < |values| && decode(values[i]).None?)
      && (r.1 ==> decode(values[|r.0|]).None?)
      && (!r.1 ==> |r.0| == |values|)
    decreases |values|
  {
    if |values| > 0 && decode(values[0]).Some? {
      var tail := values[1..];
      DecodePrefixSpec(tail, decode);
      assert forall i :: 0 <= i < |tail| ==> tail[i] == values[i + 1];
      var rest := DecodePrefix(tail, decode);
      if !rest.1 {
        assert forall i :: 1 <= i < |values| ==> values[i] == tail[i - 1];
      }
    }
  }

  /** The iteration from position `i`: it halts at a value that does not
      decode, and otherwise keeps the decoded node and goes on. */
  lemma DecodePrefixAt(values: seq<string>, decode: string -> Option<Node>, i: nat)
    requires i < |values|
    ensures decode(values[i]).None? ==> DecodePrefix(values[i..], decode) == ([], true)
    ensures decode(values[i]).Some? ==>
      DecodePrefix(values[i..], decode)
        == ([decode(values[i]).value] + DecodePrefix(values[i + 1..], decode).0, DecodePrefix(values[i + 1..], decode).1)
  {
    assert values[i..][0] == values[i];
    assert values[i..][1..] == values[i + 1..];
  }

  /** The `IteratePrefix` callback loop: `total` counts the nodes decoded. */
  method CollectNodes(values: seq<string>, decode: string -> Option<Node>)
    returns (nodes: seq<Node>, total: int, failed: bool)
    ensures (nodes, failed) == DecodePrefix(values, decode)
    ensures total == |nodes|
  {
    nodes, total, failed := [], 0, false;
    var i := 0;
    assert values[i..] == values;
    assert [] + DecodePrefix(values, decode).0 == DecodePrefix(values, decode).0;
    while i < |values|
      invariant i <= |values| && total == |nodes|
      invariant DecodePrefix(values, decode).1 == DecodePrefix(values[i..], decode).1
      invariant DecodePrefix(values, decode).0 == nodes + DecodePrefix(values[i..], decode).0
    {
      var node := decode(values[i]);
      DecodePrefixAt(values, decode, i);
      if node.None? {
        assert nodes + [] == nodes;
        failed := true;
        return;
      }
      assert nodes + ([node.value] + DecodePrefix(values[i + 1..], decode).0)
          == (nodes + [node.value]) + DecodePrefix(values[i + 1..], decode).0;
      total := total + 1;
      nodes := nodes + [node.value];
      i := i + 1;
    }
    assert DecodePrefix(values[i..], decode) == ([], false);
    assert nodes + [] == nodes;
  }

  /** The page and limit of the listing: absent values default to 1 and
      0; a present value that does not parse to a positive number is
      refused. */
  function QueryValue(str: string, default: int): (r: Option<int>)
    ensures str == "" ==> r == Some(default)
    ensures str != "" ==> (r.Some? <==> Atoi(str) > 0)
    ensures str != "" && r.Some? ==> r.value == Atoi(str)
  {
    if str == "" then Some(default)
    else if Atoi(str) <= 0 then None
    else Some(Atoi(str))
  }

  /** `getNodesHandler`. */
  method GetNodes(pageStr: string, limitStr: string, values: seq<string>, decode: string -> Option<Node>,
                  paginate: (int, int, int, int) -> (int, int)) returns (resp: Response)
    ensures QueryValue(pageStr, 1).None? ==> resp == BadRequest("invalid page query")
    ensures QueryValue(pageStr, 1).Some? && QueryValue(limitStr, 0).None? ==> resp == BadRequest("invalid limit query")
    ensures QueryValue(pageStr, 1).Some? && QueryValue(limitStr, 0).Some? && DecodePrefix(values, decode).1 ==>
      resp == BadRequest("failed to query nodes")
    ensures resp.NodePage? ==>
      && resp.page == QueryValue(pageStr, 1).value && resp.limit == QueryValue(limitStr, 0).value
      && resp.total == |values|
      && forall i :: 0 <= i < |values| ==> decode(values[i]).Some?
    ensures QueryValue(pageStr, 1).Some? && QueryValue(limitStr, 0).Some? && !DecodePrefix(values, decode).1 ==>
      var (start, end) := paginate(|values|, QueryValue(pageStr, 1).value, QueryValue(limitStr, 0).value, |values|);
      && (resp.NodePage? <==> start < 0 || end < 0 || start <= end <= |values|)
      && (resp == SlicePanic <==> !(start < 0 || end < 0 || start <= end <= |values|))
    ensures resp.NodePage? ==>
      var (start, end) := paginate(|values|, resp.page, resp.limit, |values|);
      if start < 0 || end < 0 then resp.nodes == []
      else
        && start <= end <= |values| && |DecodePrefix(values, decode).0| == |values|
        && resp.nodes == DecodePrefix(values, decode).0[start..end]
  {
    var page := 1;
    var limit := 0;
    if pageStr != "" {
      var x := Atoi(pageStr);
      if x <= 0 {
        return BadRequest("invalid page query");
      }
      page := x;
    }
    if limitStr != "" {
      var x := Atoi(limitStr);
      if x <= 0 {
        return BadRequest("invalid limit query");
      }
      limit := x;
    }
    var nodes, total, failed := CollectNodes(values, decode);
    DecodePrefixSpec(values, decode);
    if failed {
      return BadRequest("failed to query nodes");
    }
    var (start, end) := paginate(|nodes|, page, limit, |nodes|);
    if start < 0 || end < 0 {
      nodes := [];
    } else if start <= end <= |nodes| {
      nodes := nodes[start..end];
    } else {
      return SlicePanic;
    }
    resp := NodePage(total, page, limit, nodes);
  }

  // ------------------------------------------------ single node

  /** `getNodeHandler`: a node is looked up under the key of the address;
      a missing key is 404, a stored value that does not decode is 400. */
  function GetNode(address: string, db: map<string, string>, decode: string -> Option<Node>): (resp: Response)
    ensures resp == NotFound <==> NodeKey(address) !in db
    ensures resp.NodeFound? <==> NodeKey(address) in db && decode(db[NodeKey(address)]).Some?
    ensures resp.NodeFound? ==> Some(resp.node) == decode(db[NodeKey(address)])
    ensures NodeKey(address) in db && decode(db[NodeKey(address)]).None? ==> resp == BadRequest("failed to decode node")
  {
    if NodeKey(address) !in db then NotFound
    else
      match decode(db[NodeKey(address)])
      case None => BadRequest("failed to decode node")
      case Some(n) => NodeFound(n)
  }
}
