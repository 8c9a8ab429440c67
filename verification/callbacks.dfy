/**
 * The closures the schema wiring hands to `callback(...)`, as data, with the
 * value each returns for an argument.
 */
module Callbacks {
  import opened PhpValues

  datatype Closure =
    /** `fn($arr) => $arr[$field]`, made for each field by addSimpleCallbackFields. */
    | ArrayEntry(field: string)
    /** The closure of the MediaImage `derivative` field. */
    | DerivativeSrc

  /**
   * The derivative closure: when `$values['url']` is non-empty it returns
   * `$values + ['src' => $values['url']]`, otherwise nothing (null).
   */
  function WithDerivativeSrc(values: Value): (r: Value)
    ensures r != Null <==> !IsEmptyAt(values, "url")
    ensures r != Null ==>
      values.Arr? && r.Arr? &&
      r.entries.Keys == values.entries.Keys + {"src"} &&
      (forall k :: k in values.entries ==> r.entries[k] == values.entries[k]) &&
      r.entries["src"] == (if "src" in values.entries then values.entries["src"] else values.entries["url"])
  {
    if !IsEmptyAt(values, "url") then
      Arr(Union(values.entries, map["src" := values.entries["url"]]))
    else
      Null
  }

  /** What a closure returns when the resolver chain hands it `arg`. */
  function Apply(c: Closure, arg: Value): (r: Value)
    ensures c.ArrayEntry? && arg.Arr? && c.field in arg.entries ==> r == arg.entries[c.field]
    ensures c.ArrayEntry? && !(arg.Arr? && c.field in arg.entries) ==> r == Null
    ensures c.DerivativeSrc? ==> (r != Null <==> !IsEmptyAt(arg, "url"))
  {
    match c
    case ArrayEntry(field) => Index(arg, field)
    case DerivativeSrc => WithDerivativeSrc(arg)
  }

  /** Applying the derivative closure to its own result changes nothing. */
  lemma WithDerivativeSrcIdempotent(values: Value)
    ensures WithDerivativeSrc(WithDerivativeSrc(values)) == WithDerivativeSrc(values)
  {
    var r := WithDerivativeSrc(values);
    if r != Null {
      assert r.entries["url"] == values.entries["url"];
      assert !IsEmptyAt(r, "url");
      var again := Union(r.entries, map["src" := r.entries["url"]]);
      assert again.Keys == r.entries.Keys;
      assert again == r.entries;
    }
  }
}
