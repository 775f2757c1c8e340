/** Parsed JSON as the Python scripts see it. */
module PyValue {

  datatype Val =
    | VNone
    | VBool(b: bool)
    | VInt(n: int)
    | VFloat(r: real)
    | VStr(s: string)
    | VList(items: seq<Val>)
    | VDict(fields: map<string, Val>)

  type Dict = map<string, Val>

  /** `d.get(key)` */
  function Get(d: Dict, key: string): Val {
    if key in d then d[key] else VNone
  }

  /** `d.get(key, default)` */
  function GetOr(d: Dict, key: string, default: Val): Val {
    if key in d then d[key] else default
  }

  /** Python truth. */
  predicate Truthy(v: Val) {
    match v
    case VNone => false
    case VBool(b) => b
    case VInt(n) => n != 0
    case VFloat(r) => r != 0.0
    case VStr(s) => s != ""
    case VList(items) => items != []
    case VDict(fields) => fields != map[]
  }

  /** Whether the value can be put in a set. */
  predicate Hashable(v: Val) {
    !v.VList? && !v.VDict?
  }

  predicate IsStrList(v: Val) {
    v.VList? && forall i :: 0 <= i < |v.items| ==> v.items[i].VStr?
  }

  function Strings(v: Val): (xs: seq<string>)
    requires IsStrList(v)
    ensures |xs| == |v.items| && forall i :: 0 <= i < |xs| ==> VStr(xs[i]) == v.items[i]
  {
    seq(|v.items|, i requires 0 <= i < |v.items| => v.items[i].s)
  }

  function FromStrings(xs: seq<string>): (v: Val)
    ensures IsStrList(v) && Strings(v) == xs
  {
    VList(seq(|xs|, i requires 0 <= i < |xs| => VStr(xs[i])))
  }
}
