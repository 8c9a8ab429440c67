/**
 * The PHP values that resolver callbacks receive and return: scalars and
 * string-keyed arrays. Floats and objects are not modelled.
 */
module PhpValues {

  datatype Value =
    | Null
    | Bool(b: bool)
    | Int(i: int)
    | Str(s: string)
    | Arr(entries: map<string, Value>)

  /** PHP's `empty()` of a value: null, false, 0, "", "0" and the empty array. */
  predicate IsEmpty(v: Value) {
    match v
    case Null => true
    case Bool(b) => !b
    case Int(i) => i == 0
    case Str(s) => s == "" || s == "0"
    case Arr(m) => |m| == 0
  }

  /**
   * `empty($v[$key])`. `empty` has `isset` semantics, so a missing key, or a
   * `$v` that is not an array, counts as empty (and raises no warning).
   */
  predicate IsEmptyAt(v: Value, key: string) {
    !(v.Arr? && key in v.entries) || IsEmpty(v.entries[key])
  }

  /**
   * Reading `$v[$key]`: the entry, or null when the key is missing or `$v`
   * is not an array. String offsets of a string `$v` are not modelled.
   */
  function Index(v: Value, key: string): Value {
    if v.Arr? && key in v.entries then v.entries[key] else Null
  }

  /**
   * The array union `a + b`: every entry of `a`, and the entries of `b`
   * whose key `a` does not have. Nothing of `a` is overwritten.
   */
  function Union(a: map<string, Value>, b: map<string, Value>): (r: map<string, Value>)
    ensures r.Keys == a.Keys + b.Keys
    ensures forall k :: k in a ==> r[k] == a[k]
    ensures forall k :: k in b && k !in a ==> r[k] == b[k]
  {
    map k | k in a.Keys + b.Keys :: if k in a then a[k] else b[k]
  }
}
