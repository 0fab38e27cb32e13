/**
  The values a task's `settings` object holds, with the parts of JavaScript's
  coercion rules that the task code relies on: truthiness (`if (x)`, `!x`),
  conversion to a number (`a >= b`, `a - b`), conversion to text (template
  literals) and `x + 1`.  Numbers are whole numbers; NaN is its own value.
 */
module JsValues {
  import opened Wrappers
  import Decimal

  datatype Value = Undefined | Null | NaN | Bool(b: bool) | Num(n: int) | Str(s: string)

  /** A plain settings object: property name to value. */
  type Settings = map<string, Value>

  /** JavaScript truthiness. */
  predicate Truthy(v: Value) {
    match v
    case Undefined => false
    case Null => false
    case NaN => false
    case Bool(b) => b
    case Num(n) => n != 0
    case Str(s) => s != ""
  }

  /** Property read `settings.key`: a missing property reads as `undefined`. */
  function Lookup(s: Settings, key: string): Value {
    if key in s then s[key] else Undefined
  }

  /** `Object.assign(s, p)`: a shallow merge in which `p` wins. */
  function Merge(s: Settings, p: Settings): (r: Settings)
    ensures r.Keys == s.Keys + p.Keys
    ensures forall k :: k in p ==> r[k] == p[k]
    ensures forall k :: k in s && k !in p ==> r[k] == s[k]
  {
    s + p
  }

  /** Two merges with disjoint keys keep the values of both, and the rest of the old object. */
  lemma DisjointMergesKeepBoth(s: Settings, p: Settings, q: Settings)
    requires p.Keys !! q.Keys
    ensures var r := Merge(Merge(s, p), q);
      && (forall k :: k in p ==> r[k] == p[k])
      && (forall k :: k in q ==> r[k] == q[k])
      && (forall k :: k in s && k !in p && k !in q ==> r[k] == s[k])
  {
  }

  /** `Number(v)`; `None` stands for NaN. Strings are read as an optional minus sign and digits. */
  function ToNumber(v: Value): (r: Option<int>)
    ensures v.Num? ==> r == Some(v.n)
    ensures !Truthy(v) && !v.Undefined? && !v.NaN? ==> r == Some(0)
  {
    match v
    case Undefined => None
    case NaN => None
    case Null => Some(0)
    case Bool(b) => Some(if b then 1 else 0)
    case Num(n) => Some(n)
    case Str(s) => if s == "" then Some(0) else Decimal.ParseInt(s)
  }

  /** `String(v)`, as a template literal renders `v`. */
  function ToText(v: Value): string {
    match v
    case Undefined => "undefined"
    case Null => "null"
    case NaN => "NaN"
    case Bool(b) => if b then "true" else "false"
    case Num(n) => Decimal.IntToString(n)
    case Str(s) => s
  }

  /** `v + 1`: numeric addition, or concatenation when `v` is a string. */
  function PlusOne(v: Value): (r: Value)
    ensures v.Str? <==> r.Str?
    ensures !v.Str? && ToNumber(v).Some? ==> ToNumber(r) == Some(ToNumber(v).value + 1)
    ensures !v.Str? && ToNumber(v).None? ==> r == NaN
  {
    match v
    case Undefined => NaN
    case NaN => NaN
    case Null => Num(1)
    case Bool(b) => Num(if b then 2 else 1)
    case Num(n) => Num(n + 1)
    case Str(s) => Str(s + "1")
  }
}
