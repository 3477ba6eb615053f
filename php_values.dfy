/**
 * The PHP values that request input and API payloads are made of, with the few
 * PHP comparisons the controllers rely on.
 */
module PhpValues {
  import opened Options
  import opened Numbers

  /** A PHP value. Arrays used as lists are `Arr`; arrays used as records (string
      keys) are `Rec`. */
  datatype Value =
    | Null
    | Bool(b: bool)
    | Int(i: int)
    | Str(s: string)
    | Arr(items: seq<Value>)
    | Rec(fields: map<string, Value>)

  /** `$v[$key]` of a record, or null when `v` is not a record or lacks the key. */
  function Field(v: Value, key: string): (r: Value)
    ensures v.Rec? && key in v.fields ==> r == v.fields[key]
    ensures !(v.Rec? && key in v.fields) ==> r == Null
  {
    if v.Rec? && key in v.fields then v.fields[key] else Null
  }

  /** The elements `foreach` visits in a list (`Arr`). Scalars and null give
      nothing here. A string-keyed array (`Rec`) also gives nothing, although
      PHP's `foreach` would visit its values; list fields are taken to be lists. */
  function Items(v: Value): seq<Value>
  {
    if v.Arr? then v.items else []
  }

  /** `$m[$key] ?? $default` on an array with string keys. */
  function Get(m: map<string, Value>, key: string, default: Value): Value
  {
    if key in m then m[key] else default
  }

  /** The integer a string holds when it is an optional minus sign followed by one
      or more decimal digits, the form integer request fields take. */
  function IntOfString(s: string): (r: Option<int>)
    ensures r.Some? ==> |s| > 0
  {
    if |s| > 0 && s[0] == '-' then
      var digits := s[1..];
      if |digits| > 0 && forall i | 0 <= i < |digits| :: IsDigit(digits[i]) then Some(0 - DigitsValue(digits)) else None
    else if |s| > 0 && forall i | 0 <= i < |s| :: IsDigit(s[i]) then Some(DigitsValue(s))
    else None
  }

  /** The integer a value stands for in a numeric comparison. */
  function AsInt(v: Value): Option<int>
  {
    match v
    case Int(i) => Some(i)
    case Str(s) => IntOfString(s)
    case _ => None
  }

  /** PHP's loose `$v == $k` for an integer constant `k`, on the values request
      fields take: integers, integer strings and null (which equals 0). */
  predicate LooseEqualsInt(v: Value, k: int)
  {
    AsInt(v) == Some(k) || (v == Null && k == 0)
  }

  /** PHP's loose `in_array($v, $keys)` over integer keys. */
  predicate LooseIn(v: Value, keys: set<int>): (r: bool)
    ensures r <==> exists k | k in keys :: LooseEqualsInt(v, k)
  {
    (AsInt(v).Some? && AsInt(v).value in keys) || (v == Null && 0 in keys)
  }
}
