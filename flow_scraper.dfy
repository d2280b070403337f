/** The Flow scraper: the rows of the staking table get their role name
    through the role map and an IP taken from the output of a ping, are
    grouped by IP keeping the first row of each group, and then get an
    activity flag against their role's minimum stake and have their
    address moved to `domain`. The REST script calls and the ping
    subprocess are parameters. */
module FlowScraper {
  import opened Wrappers
  import opened Strings
  import opened Records
  import opened Indexes

  // ------------------------------------------------ rows

  /** One node of the staking table. `others` holds the eight remaining
      fields of the node info (tokensCommitted to initialWeight) under their
      names. `tokenStaked` is the integer the scraper obtains from the
      staked amount. */
  datatype FlowRow = FlowRow(
    id: string,
    role: string,
    networkingAddress: string,
    networkingKey: string,
    stakingKey: string,
    tokenStaked: nat,
    others: map<string, Value>)

  /** Why the scraper stops: an empty staking table, whose frame has no
      "role" column; a role code the role map lacks; or a grouped node
      whose role has no minimum (all three KeyErrors). */
  datatype FlowError = NoRoleColumn | UnknownRoleCode(code: string) | UnknownRole

  /** The role column through the role map; the first code the map lacks
      stops the scraper. */
  function MapRoles(rows: seq<FlowRow>, roleMap: map<string, string>): (r: Result<seq<FlowRow>, FlowError>)
    ensures r.Ok? <==> forall i :: 0 <= i < |rows| ==> rows[i].role in roleMap
    ensures r.Ok? ==> (|r.value| == |rows|
      && forall i :: 0 <= i < |rows| ==> r.value[i] == rows[i].(role := roleMap[rows[i].role]))
    ensures r.Err? ==> exists i :: (0 <= i < |rows| && r.error == UnknownRoleCode(rows[i].role)
      && rows[i].role !in roleMap && forall j :: 0 <= j < i ==> rows[j].role in roleMap)
    decreases |rows|
  {
    if |rows| == 0 then Ok([])
    else if rows[0].role !in roleMap then Err(UnknownRoleCode(rows[0].role))
    else
      var rest := MapRoles(rows[1..], roleMap);
      assert forall i :: 0 <= i < |rows[1..]| ==> rows[1..][i] == rows[i + 1];
      match rest
      case Err(e) =>
        assert exists i :: (1 <= i < |rows| && e == UnknownRoleCode(rows[i].role)
          && rows[i].role !in roleMap && forall j :: 1 <= j < i ==> rows[j].role in roleMap);
        Err(e)
      case Ok(mapped) =>
        assert forall i :: 1 <= i < |rows| ==> rows[i].role in roleMap;
        Ok([rows[0].(role := roleMap[rows[0].role])] + mapped)
  }

  // ------------------------------------------------ get_ip_address

  predicate IsDigit(c: char) {
    '0' <= c <= '9'
  }

  /** The `n` characters from `p` are digits. */
  predicate AllDigits(s: string, p: nat, n: nat)
    requires p + n <= |s|
    decreases n
  {
    n == 0 || (IsDigit(s[p]) && AllDigits(s, p + 1, n - 1))
  }

  /** The length of the run of digits starting at `p`. */
  function DigitRun(s: string, p: nat): (n: nat)
    requires p <= |s|
    ensures p + n <= |s| && AllDigits(s, p, n)
    ensures p + n == |s| || !IsDigit(s[p + n])
    decreases |s| - p
  {
    if p == |s| || !IsDigit(s[p]) then 0 else 1 + DigitRun(s, p + 1)
  }

  /** Each of the characters of a run of digits is a digit. */
  lemma {:induction false} AllDigitsAt(s: string, p: nat, n: nat, k: nat)
    requires p + n <= |s| && AllDigits(s, p, n) && k < n
    ensures IsDigit(s[p + k])
    decreases n
  {
    if k > 0 {
      AllDigitsAt(s, p + 1, n - 1, k - 1);
    }
  }

  /** A prefix of a run of digits is one. */
  lemma {:induction false} AllDigitsPrefix(s: string, p: nat, n: nat, m: nat)
    requires p + n <= |s| && AllDigits(s, p, n) && m <= n
    ensures AllDigits(s, p, m)
    decreases m
  {
    if m > 0 {
      AllDigitsPrefix(s, p + 1, n - 1, m - 1);
    }
  }

  /** The run of digits from `p` is at least as long as any run of digits
      there, and exactly as long as one that a non-digit ends. */
  lemma {:induction false} DigitRunBounds(s: string, p: nat, n: nat)
    requires p + n <= |s| && AllDigits(s, p, n)
    ensures n <= DigitRun(s, p)
    ensures p + n < |s| && !IsDigit(s[p + n]) ==> DigitRun(s, p) == n
    decreases n
  {
    if n > 0 {
      DigitRunBounds(s, p + 1, n - 1);
    }
  }

  /** From `p`, one to three digits. */
  predicate DigitsAt(s: string, p: nat, n: nat) {
    1 <= n <= 3 && p + n <= |s| && AllDigits(s, p, n)
  }

  /** From `p`, one to three digits and then a '.'. */
  predicate DigitsDotAt(s: string, p: nat, n: nat) {
    DigitsAt(s, p, n) && p + n < |s| && s[p + n] == '.'
  }

  /** The pattern `\d{1,3}\.\d{1,3}\.\d{1,3}\.\d{1,3}` matches from `p`
      with groups of lengths `a`, `b`, `c` and `d`. */
  predicate QuadAt(s: string, p: nat, a: nat, b: nat, c: nat, d: nat) {
    DigitsDotAt(s, p, a) && DigitsDotAt(s, p + a + 1, b) && DigitsDotAt(s, p + a + b + 2, c)
      && DigitsAt(s, p + a + b + c + 3, d)
  }

  /** The length of a group followed by '.' from `p`: such a group can
      only be the whole run of digits there, as '.' is not a digit. */
  function DotGroup(s: string, p: nat): (n: Option<nat>)
    requires p <= |s|
    ensures n.Some? ==> DigitsDotAt(s, p, n.value)
  {
    var a := DigitRun(s, p);
    if 1 <= a <= 3 && p + a < |s| && s[p + a] == '.' then Some(a) else None
  }

  /** The length of the last group from `p`: greedy, up to three digits. */
  function LastGroup(s: string, p: nat): (n: Option<nat>)
    requires p <= |s|
    ensures n.Some? ==> DigitsAt(s, p, n.value)
  {
    var d := DigitRun(s, p);
    if d == 0 then None
    else if d <= 3 then Some(d)
    else
      AllDigitsPrefix(s, p, d, 3);
      Some(3)
  }

  /** A group followed by '.' is the one DotGroup finds. */
  lemma DotGroupUnique(s: string, p: nat, n: nat)
    requires p <= |s| && DigitsDotAt(s, p, n)
    ensures DotGroup(s, p) == Some(n)
  {
    DigitRunBounds(s, p, n);
  }

  /** Every last group is at most as long as the one LastGroup finds. */
  lemma LastGroupLongest(s: string, p: nat, n: nat)
    requires p <= |s| && DigitsAt(s, p, n)
    ensures LastGroup(s, p).Some? && n <= LastGroup(s, p).value
  {
    DigitRunBounds(s, p, n);
  }

  /** The group lengths the backtracking matcher settles on at `p`. */
  function MatchAt(s: string, p: nat): (g: Option<(nat, nat, nat, nat)>)
    requires p <= |s|
  {
    var a := DotGroup(s, p);
    if a.None? then None
    else
      var b := DotGroup(s, p + a.value + 1);
      if b.None? then None
      else
        var c := DotGroup(s, p + a.value + b.value + 2);
        if c.None? then None
        else
          var d := LastGroup(s, p + a.value + b.value + c.value + 3);
          if d.None? then None else Some((a.value, b.value, c.value, d.value))
  }

  /** What the matcher finds is a match of the pattern. */
  lemma MatchAtSound(s: string, p: nat)
    requires p <= |s| && MatchAt(s, p).Some?
    ensures var g := MatchAt(s, p).value; QuadAt(s, p, g.0, g.1, g.2, g.3)
  {
  }

  /** The matcher's result is read off its four groups. */
  lemma MatchAtGroups(s: string, p: nat, a: nat, b: nat, c: nat)
    requires p <= |s| && DotGroup(s, p) == Some(a)
    requires p + a + 1 <= |s| && DotGroup(s, p + a + 1) == Some(b)
    requires p + a + b + 2 <= |s| && DotGroup(s, p + a + b + 2) == Some(c)
    requires p + a + b + c + 3 <= |s| && LastGroup(s, p + a + b + c + 3).Some?
    ensures MatchAt(s, p) == Some((a, b, c, LastGroup(s, p + a + b + c + 3).value))
  {
  }

  /** Every match of the pattern at `p` is found there: the first three
      groups are the same, and the greedy last group is at least as long. */
  lemma MatchAtComplete(s: string, p: nat, a: nat, b: nat, c: nat, d: nat)
    requires p <= |s| && QuadAt(s, p, a, b, c, d)
    ensures MatchAt(s, p).Some?
    ensures var g := MatchAt(s, p).value; g.0 == a && g.1 == b && g.2 == c && d <= g.3
  {
    DotGroupUnique(s, p, a);
    DotGroupUnique(s, p + a + 1, b);
    DotGroupUnique(s, p + a + b + 2, c);
    LastGroupLongest(s, p + a + b + c + 3, d);
    MatchAtGroups(s, p, a, b, c);
  }

  /** The leftmost position from `p` up to `n` where `m` succeeds, with
      what it returns there: the regex search's scan over start positions. */
  function FirstFrom<G>(n: nat, p: nat, m: nat -> Option<G>): (r: Option<(nat, G)>)
    requires p <= n
    ensures r.Some? ==> p <= r.value.0 <= n && m(r.value.0) == Some(r.value.1)
    ensures r.Some? ==> forall q :: p <= q < r.value.0 ==> m(q).None?
    ensures r.None? ==> forall q :: p <= q <= n ==> m(q).None?
    decreases n - p
  {
    if m(p).Some? then Some((p, m(p).value))
    else if p == n then None
    else FirstFrom(n, p + 1, m)
  }

  /** The matcher at every start position of `s`. */
  function Matcher(s: string): nat -> Option<(nat, nat, nat, nat)> {
    (q: nat) => if q <= |s| then MatchAt(s, q) else None
  }

  /** The text of the match the search finds. */
  function MatchText(s: string, p: nat, g: (nat, nat, nat, nat)): string
    requires p <= |s| && QuadAt(s, p, g.0, g.1, g.2, g.3)
  {
    s[p..p + g.0 + g.1 + g.2 + g.3 + 3]
  }

  /** `get_ip_address` on the output of the ping: the leftmost match of the
      pattern, or "Unknown". */
  function GetIPAddress(pingOutput: string): (r: string)
    ensures r == "Unknown" || exists p: nat, a: nat, b: nat, c: nat, d: nat ::
      p + a + b + c + d + 3 <= |pingOutput| && QuadAt(pingOutput, p, a, b, c, d)
      && r == pingOutput[p..p + a + b + c + d + 3]
  {
    match FirstFrom(|pingOutput|, 0, Matcher(pingOutput))
    case None => "Unknown"
    case Some((p, g)) =>
      MatchAtSound(pingOutput, p);
      MatchText(pingOutput, p, g)
  }

  /** The result is "Unknown" exactly when the pattern matches nowhere. */
  lemma GetIPAddressUnknown(s: string)
    ensures GetIPAddress(s) == "Unknown" <==>
      forall p: nat, a: nat, b: nat, c: nat, d: nat :: p <= |s| ==> !QuadAt(s, p, a, b, c, d)
  {
    match FirstFrom(|s|, 0, Matcher(s))
    case None =>
      forall p: nat, a: nat, b: nat, c: nat, d: nat | p <= |s| && QuadAt(s, p, a, b, c, d)
        ensures false
      {
        assert Matcher(s)(p) == MatchAt(s, p);
        MatchAtComplete(s, p, a, b, c, d);
      }
    case Some((p, g)) =>
      MatchAtSound(s, p);
      AllDigitsAt(s, p, g.0, 0);
      assert MatchText(s, p, g)[0] == s[p];
  }

  /** The search stops at the leftmost match, with its first three groups. */
  lemma SearchFindsLeftmost(s: string, p: nat, a: nat, b: nat, c: nat, d: nat)
    requires p <= |s| && QuadAt(s, p, a, b, c, d)
    requires forall q: nat, a': nat, b': nat, c': nat, d': nat :: q < p ==> !QuadAt(s, q, a', b', c', d')
    ensures var r := FirstFrom(|s|, 0, Matcher(s));
      r.Some? && r.value.0 == p && r.value.1.0 == a && r.value.1.1 == b && r.value.1.2 == c
  {
    assert Matcher(s)(p) == MatchAt(s, p);
    MatchAtComplete(s, p, a, b, c, d);
    var p0 := FirstFrom(|s|, 0, Matcher(s)).value.0;
    assert Matcher(s)(p0) == MatchAt(s, p0);
    MatchAtSound(s, p0);
  }

  /** When the pattern matches, the address found is the leftmost match,
      with the longest last group the pattern allows there. */
  lemma GetIPAddressLeftmost(s: string, p: nat, a: nat, b: nat, c: nat, d: nat)
    requires p + a + b + c + d + 3 <= |s| && QuadAt(s, p, a, b, c, d)
    requires forall q: nat, a': nat, b': nat, c': nat, d': nat :: q < p ==> !QuadAt(s, q, a', b', c', d')
    requires forall d': nat :: QuadAt(s, p, a, b, c, d') ==> d' <= d
    ensures GetIPAddress(s) == s[p..p + a + b + c + d + 3]
  {
    SearchFindsLeftmost(s, p, a, b, c, d);
    MatchAtComplete(s, p, a, b, c, d);
    var g := FirstFrom(|s|, 0, Matcher(s)).value.1;
    assert Matcher(s)(p) == MatchAt(s, p);
    MatchAtSound(s, p);
    assert g == (a, b, c, d);
  }

  // ------------------------------------------------ grouping

  /** The IP a row is grouped under: its networking address cut at the
      first ':' is pinged, and the address is taken from the output. */
  function RowIP(row: FlowRow, ping: string -> string): string {
    GetIPAddress(ping(Split(row.networkingAddress, ":")[0]))
  }

  /** `group_to_dict` on a group whose first row is `row`. */
  function GroupRecord(row: FlowRow): NodeRecord {
    NodeRecord(true, Some(row.tokenStaked), row.networkingAddress,
      row.others["id" := VStr(row.id)]["role" := VStr(row.role)]
        ["networkingKey" := VStr(row.networkingKey)]["stakingKey" := VStr(row.stakingKey)])
  }

  /** The grouped nodes: one entry per IP, built from the first row with
      that IP. */
  function GroupByIP(rows: seq<FlowRow>, ping: string -> string): (r: map<string, NodeRecord>)
    ensures |rows| > 0 ==> RowIP(rows[0], ping) in r && r[RowIP(rows[0], ping)] == GroupRecord(rows[0])
  {
    var key := (row: FlowRow) => RowIP(row, ping);
    if |rows| > 0 then
      IndexFirstWins(map[], rows, key, GroupRecord, 0);
      IndexFirst(map[], rows, key, GroupRecord)
    else
      IndexFirst(map[], rows, key, GroupRecord)
  }

  /** The first index whose element has the key of element `i`. */
  lemma FirstWithKey<T, K>(s: seq<T>, key: T -> K, i: nat) returns (j: nat)
    requires i < |s|
    ensures j <= i && key(s[j]) == key(s[i])
    ensures forall k :: 0 <= k < j ==> key(s[k]) != key(s[j])
    decreases i
  {
    if exists k :: 0 <= k < i && key(s[k]) == key(s[i]) {
      var k :| 0 <= k < i && key(s[k]) == key(s[i]);
      j := FirstWithKey(s, key, k);
    } else {
      j := i;
    }
  }

  /** The grouped nodes are keyed by the rows' IPs, and each is the record
      of the first row with its IP: a validator, with that row's stake and
      networking address, id and role. */
  lemma GroupByIPSpec(rows: seq<FlowRow>, ping: string -> string, ip: string)
    ensures ip in GroupByIP(rows, ping) <==> exists i :: 0 <= i < |rows| && RowIP(rows[i], ping) == ip
    ensures ip in GroupByIP(rows, ping) ==> exists i :: (0 <= i < |rows| && RowIP(rows[i], ping) == ip
      && (forall j :: 0 <= j < i ==> RowIP(rows[j], ping) != ip)
      && GroupByIP(rows, ping)[ip] == GroupRecord(rows[i]))
  {
    var key := (row: FlowRow) => RowIP(row, ping);
    IndexFirstKeys(map[], rows, key, GroupRecord, ip);
    if ip in GroupByIP(rows, ping) {
      var i :| 0 <= i < |rows| && key(rows[i]) == ip;
      var j := FirstWithKey(rows, key, i);
      IndexFirstWins(map[], rows, key, GroupRecord, j);
    }
  }

  // ------------------------------------------------ final edits

  /** The role name a record carries, when it carries one as a string. */
  function RoleOf(rec: NodeRecord): Option<string> {
    if "role" in rec.extraInfo && rec.extraInfo["role"].VStr? then Some(rec.extraInfo["role"].s) else None
  }

  /** A node's final edits: `is_active` says whether its stake reaches its
      role's minimum, its address moves to `domain`, and its id becomes its
      address. None when the role has no minimum or the id is missing (a
      KeyError), or the id is not a string. */
  function Finalize(rec: NodeRecord, minimums: map<string, int>): (r: Option<NodeRecord>)
    ensures r.Some? <==> (RoleOf(rec).Some? && RoleOf(rec).value in minimums
      && "id" in rec.extraInfo && rec.extraInfo["id"].VStr?)
  {
    match RoleOf(rec)
    case None => None
    case Some(role) =>
      if role !in minimums || "id" !in rec.extraInfo || !rec.extraInfo["id"].VStr? then None
      else
        var active := CoerceStake(rec.stake) >= minimums[role];
        var info := rec.extraInfo["is_active" := VBool(active)]["domain" := VStr(rec.address)];
        Some(rec.(address := rec.extraInfo["id"].s, extraInfo := info))
  }

  /** An edited node gains exactly `is_active` and `domain`: the first says
      whether its stake reaches its role's minimum, the second holds its old
      address; its address is its id, and nothing else changes. */
  lemma FinalizeSpec(rec: NodeRecord, minimums: map<string, int>)
    requires Finalize(rec, minimums).Some?
    ensures var r := Finalize(rec, minimums).value;
      && r.extraInfo.Keys == rec.extraInfo.Keys + {"is_active", "domain"}
      && r.extraInfo["is_active"] == VBool(CoerceStake(rec.stake) >= minimums[RoleOf(rec).value])
      && r.extraInfo["domain"] == VStr(rec.address) && VStr(r.address) == rec.extraInfo["id"]
      && r.isValidator == rec.isValidator && r.stake == rec.stake
      && forall k :: k in rec.extraInfo && k != "is_active" && k != "domain" ==> r.extraInfo[k] == rec.extraInfo[k]
  {
  }

  /** The final pass over all grouped nodes: every node edited, or
      `UnknownRole` when some node's role has no minimum. */
  function FinalizeAll(nodes: map<string, NodeRecord>, minimums: map<string, int>): (r: Result<map<string, NodeRecord>, FlowError>)
    ensures r.Ok? <==> forall ip :: ip in nodes ==> Finalize(nodes[ip], minimums).Some?
    ensures r.Ok? ==> r.value.Keys == nodes.Keys
    ensures r.Err? ==> r.error == UnknownRole
  {
    if forall ip :: ip in nodes ==> Finalize(nodes[ip], minimums).Some? then
      Ok(map ip | ip in nodes :: Finalize(nodes[ip], minimums).value)
    else Err(UnknownRole)
  }

  /** The final loop: each node is edited in place, in any order; a node
      whose role has no minimum stops it. */
  method FinalizeNodes(nodes: map<string, NodeRecord>, minimums: map<string, int>)
    returns (r: Result<map<string, NodeRecord>, FlowError>)
    ensures r == FinalizeAll(nodes, minimums)
  {
    var edited := nodes;
    var todo := nodes.Keys;
    while todo != {}
      invariant todo <= nodes.Keys && edited.Keys == nodes.Keys
      invariant forall ip :: ip in todo ==> edited[ip] == nodes[ip]
      invariant forall ip :: ip in nodes && ip !in todo ==>
        Finalize(nodes[ip], minimums).Some? && edited[ip] == Finalize(nodes[ip], minimums).value
      decreases todo
    {
      var ip :| ip in todo;
      var node := edited[ip];
      var done := Finalize(node, minimums);
      if done.None? {
        return Err(UnknownRole);
      }
      edited := edited[ip := done.value];
      todo := todo - {ip};
    }
    assert edited == map ip | ip in nodes :: Finalize(nodes[ip], minimums).value;
    r := Ok(edited);
  }

  /** The record of a row whose role has a minimum, once edited: a
      validator with the row's stake, its id as address, its networking
      address as domain and its role, active exactly when the stake reaches
      the role's minimum. A row whose role has none fails the edit. */
  lemma FinalizedRow(row: FlowRow, minimums: map<string, int>)
    ensures Finalize(GroupRecord(row), minimums).Some? <==> row.role in minimums
    ensures row.role in minimums ==> var r := Finalize(GroupRecord(row), minimums).value;
      && r.isValidator && r.stake == Some(row.tokenStaked) && r.address == row.id
      && r.extraInfo["domain"] == VStr(row.networkingAddress) && r.extraInfo["role"] == VStr(row.role)
      && r.extraInfo["is_active"] == VBool(row.tokenStaked >= minimums[row.role])
  {
  }

  // ------------------------------------------------ whole scraper

  /** The scraper from the staking table to the output nodes: one output
      node per IP, or the first error. */
  function FlowNodes(rows: seq<FlowRow>, roleMap: map<string, string>, ping: string -> string,
                     minimums: map<string, int>): (r: Result<map<string, NodeRecord>, FlowError>)
    ensures |rows| == 0 ==> r == Err(NoRoleColumn)
    ensures |rows| > 0 && MapRoles(rows, roleMap).Err? ==> r == Err(MapRoles(rows, roleMap).error)
    ensures r.Ok? ==>
      && MapRoles(rows, roleMap).Ok?
      && r.value.Keys == GroupByIP(MapRoles(rows, roleMap).value, ping).Keys
      && RowIP(MapRoles(rows, roleMap).value[0], ping) in r.value
    ensures r.Ok? <==>
      && |rows| > 0 && MapRoles(rows, roleMap).Ok?
      && var grouped := GroupByIP(MapRoles(rows, roleMap).value, ping);
         forall ip :: ip in grouped ==> Finalize(grouped[ip], minimums).Some?
    ensures |rows| > 0 && MapRoles(rows, roleMap).Ok? && r.Err? ==> r.error == UnknownRole
  {
    if |rows| == 0 then Err(NoRoleColumn)
    else
      match MapRoles(rows, roleMap)
      case Err(e) => Err(e)
      case Ok(mapped) => FinalizeAll(GroupByIP(mapped, ping), minimums)
  }

  /** Each output node is the edited record of the first row with its IP,
      after the role map. */
  lemma FlowNodesFirstRow(rows: seq<FlowRow>, roleMap: map<string, string>, ping: string -> string,
                          minimums: map<string, int>, ip: string) returns (i: nat)
    requires FlowNodes(rows, roleMap, ping, minimums).Ok?
    requires ip in FlowNodes(rows, roleMap, ping, minimums).value
    ensures var mapped := MapRoles(rows, roleMap).value;
      && i < |mapped| && RowIP(mapped[i], ping) == ip
      && (forall j :: 0 <= j < i ==> RowIP(mapped[j], ping) != ip)
      && Finalize(GroupRecord(mapped[i]), minimums).Some?
      && FlowNodes(rows, roleMap, ping, minimums).value[ip] == Finalize(GroupRecord(mapped[i]), minimums).value
  {
    var mapped := MapRoles(rows, roleMap).value;
    var grouped := GroupByIP(mapped, ping);
    GroupByIPSpec(mapped, ping, ip);
    i :| 0 <= i < |mapped| && RowIP(mapped[i], ping) == ip
      && (forall j :: 0 <= j < i ==> RowIP(mapped[j], ping) != ip)
      && grouped[ip] == GroupRecord(mapped[i]);
  }

  /** Each output node is the first row with its IP, after the role map:
      a validator with that row's stake, its id as the address and its
      networking address as the domain, active exactly when its stake
      reaches its role's minimum. */
  lemma FlowNodesSpec(rows: seq<FlowRow>, roleMap: map<string, string>, ping: string -> string,
                      minimums: map<string, int>, ip: string)
    requires FlowNodes(rows, roleMap, ping, minimums).Ok?
    requires ip in FlowNodes(rows, roleMap, ping, minimums).value
    ensures var mapped := MapRoles(rows, roleMap).value;
      var out := FlowNodes(rows, roleMap, ping, minimums).value[ip];
      exists i :: (0 <= i < |rows| && RowIP(mapped[i], ping) == ip
        && (forall j :: 0 <= j < i ==> RowIP(mapped[j], ping) != ip)
        && out.isValidator && out.stake == Some(rows[i].tokenStaked)
        && out.address == rows[i].id
        && out.extraInfo["domain"] == VStr(rows[i].networkingAddress)
        && out.extraInfo["role"] == VStr(roleMap[rows[i].role])
        && out.extraInfo["is_active"] == VBool(rows[i].tokenStaked >= minimums[roleMap[rows[i].role]]))
  {
    var mapped := MapRoles(rows, roleMap).value;
    var i := FlowNodesFirstRow(rows, roleMap, ping, minimums, ip);
    var row := mapped[i];
    assert row == rows[i].(role := roleMap[rows[i].role]);
    FinalizedRow(row, minimums);
    var out := FlowNodes(rows, roleMap, ping, minimums).value[ip];
    assert out.stake == Some(rows[i].tokenStaked) && out.address == rows[i].id;
    assert out.extraInfo["is_active"] == VBool(rows[i].tokenStaked >= minimums[roleMap[rows[i].role]]);
  }
}
