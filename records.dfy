/** The node records the scrapers write and the analysis reads, and the
    Flow role vocabulary. */
module Records {
  import opened Wrappers

  /** A JSON value, as found under a node's `extra_info`. */
  datatype Value =
    | VNull
    | VBool(b: bool)
    | VInt(i: int)
    | VStr(s: string)
    | VList(items: seq<Value>)
    | VObj(fields: map<string, Value>)

  /** Python truthiness of a JSON value. */
  predicate Truthy(v: Value) {
    match v
    case VNull => false
    case VBool(b) => b
    case VInt(i) => i != 0
    case VStr(s) => s != ""
    case VList(items) => items != []
    case VObj(fields) => fields != map[]
  }

  /** One entry of a scraper's `nodes` dictionary. `stake` is None when the
      scraper wrote null (or another falsy value); otherwise it is the
      integer the analysis obtains with `int(float(...))`. */
  datatype NodeRecord = NodeRecord(
    isValidator: bool,
    stake: Option<nat>,
    address: string,
    extraInfo: map<string, Value>)

  /** The stake a node contributes: 0 when it is null or falsy, else its
      integer value. */
  function CoerceStake(stake: Option<nat>): (r: nat)
    ensures stake.None? ==> r == 0
    ensures stake.Some? ==> r == stake.value
  {
    match stake
    case None => 0
    case Some(n) => n
  }

  /** The five Flow node roles. */
  datatype Role = Execution | Consensus | Collection | Verification | Access

  /** The role name used in the node records and by `ReturnNodeTypeQuantities`. */
  function RoleName(r: Role): string {
    match r
    case Execution => "execution"
    case Consensus => "consensus"
    case Collection => "collection"
    case Verification => "verification"
    case Access => "access"
  }

  /** The role a name denotes; any other name has none (a KeyError in the
      analysis). */
  function ParseRole(name: string): (r: Option<Role>)
    ensures r.Some? ==> RoleName(r.value) == name
  {
    if name == "execution" then Some(Execution)
    else if name == "consensus" then Some(Consensus)
    else if name == "collection" then Some(Collection)
    else if name == "verification" then Some(Verification)
    else if name == "access" then Some(Access)
    else None
  }

  /** Every role name parses back to its role. */
  lemma ParseRoleName(r: Role)
    ensures ParseRole(RoleName(r)) == Some(r)
  {
  }

  /** A pair of counters: the active part and the total. */
  datatype ActiveTotal = ActiveTotal(active: nat, total: nat)

  /** One value per Flow role. */
  datatype PerRole<T> = PerRole(execution: T, consensus: T, collection: T, verification: T, access: T)
  {
    function Get(r: Role): T {
      match r
      case Execution => execution
      case Consensus => consensus
      case Collection => collection
      case Verification => verification
      case Access => access
    }

    function Set(r: Role, v: T): (p: PerRole<T>)
      ensures p.Get(r) == v
      ensures forall q :: q != r ==> p.Get(q) == Get(q)
    {
      match r
      case Execution => this.(execution := v)
      case Consensus => this.(consensus := v)
      case Collection => this.(collection := v)
      case Verification => this.(verification := v)
      case Access => this.(access := v)
    }
  }

  function Uniform<T>(v: T): (p: PerRole<T>)
    ensures forall r :: p.Get(r) == v
  {
    PerRole(v, v, v, v, v)
  }

  /** The sum of `f` over the five roles. */
  function SumRoles<T>(p: PerRole<T>, f: T -> nat): nat {
    f(p.execution) + f(p.consensus) + f(p.collection) + f(p.verification) + f(p.access)
  }

  /** Changing one role's value changes the role sum by the difference. */
  lemma SumRolesSet<T>(p: PerRole<T>, f: T -> nat, r: Role, v: T)
    ensures SumRoles(p.Set(r, v), f) + f(p.Get(r)) == SumRoles(p, f) + f(v)
  {
  }

  function Active(c: ActiveTotal): nat { c.active }
  function Total(c: ActiveTotal): nat { c.total }

  /** Adds `a` to the active part and `t` to the total of role `r`. */
  function Bump(p: PerRole<ActiveTotal>, r: Role, a: nat, t: nat): (q: PerRole<ActiveTotal>)
    ensures q.Get(r) == ActiveTotal(p.Get(r).active + a, p.Get(r).total + t)
    ensures forall o :: o != r ==> q.Get(o) == p.Get(o)
    ensures SumRoles(q, Active) == SumRoles(p, Active) + a
    ensures SumRoles(q, Total) == SumRoles(p, Total) + t
  {
    var c := p.Get(r);
    var q := p.Set(r, ActiveTotal(c.active + a, c.total + t));
    SumRolesSet(p, Active, r, ActiveTotal(c.active + a, c.total + t));
    SumRolesSet(p, Total, r, ActiveTotal(c.active + a, c.total + t));
    q
  }
}
