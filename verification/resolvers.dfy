/**
 * Resolver expressions as inert data: the tree the GraphQL module's
 * ResolverBuilder produces. Producer names are uninterpreted strings; the
 * evaluation of the tree belongs to that module and is not modelled.
 */
module Resolvers {
  import opened Wrappers
  import opened PhpValues
  import opened Callbacks

  datatype Expr =
    /** `fromPath($type, $path, $value)`: a dotted path into a typed value (the parent when `value` is None). */
    | FromPath(dataType: string, path: string, value: Option<Expr>)
    /** `produce($id)` with the parameters its `->map(...)` calls bound. */
    | DataProducer(id: string, config: map<string, Expr>)
    /** `fromValue($v)`: a literal. */
    | FromValue(literal: Value)
    /** `fromArgument($name)`: a query argument. */
    | FromArgument(name: string)
    /** `fromParent()`: the parent value. */
    | FromParent
    /** `compose(...)`: each stage's result is the next stage's parent. */
    | Compose(stages: seq<Expr>)
    /** `callback($fn)`. */
    | Callback(closure: Closure)

  /** `produce($id)`: a data producer with nothing bound yet. */
  function Produce(id: string): Expr {
    DataProducer(id, map[])
  }

  /** `->map($name, $e)` on a data producer: binds (or rebinds) one parameter. */
  function Map(p: Expr, name: string, e: Expr): Expr
    requires p.DataProducer?
  {
    DataProducer(p.id, p.config[name := e])
  }

  /** `produce($id)` names the producer and binds no parameter. */
  lemma ProduceBindsNothing(id: string)
    ensures Produce(id).DataProducer? && Produce(id).id == id && Produce(id).config == map[]
  {
  }

  /**
   * `->map` keeps the producer, binds `name` to `e` and leaves every other
   * parameter as it was.
   */
  lemma MapBinds(p: Expr, name: string, e: Expr)
    requires p.DataProducer?
    ensures Map(p, name, e).DataProducer? && Map(p, name, e).id == p.id
    ensures Map(p, name, e).config.Keys == p.config.Keys + {name}
    ensures Map(p, name, e).config[name] == e
    ensures forall k :: k in p.config && k != name ==> Map(p, name, e).config[k] == p.config[k]
  {
  }

  /** Mapping a parameter again overwrites the earlier binding. */
  lemma MapRebinds(p: Expr, name: string, e1: Expr, e2: Expr)
    requires p.DataProducer?
    ensures Map(Map(p, name, e1), name, e2) == Map(p, name, e2)
  {
    assert p.config[name := e1][name := e2] == p.config[name := e2];
  }

  /** Bindings of different parameters do not depend on their order. */
  lemma MapCommutes(p: Expr, a: string, ea: Expr, b: string, eb: Expr)
    requires p.DataProducer? && a != b
    ensures Map(Map(p, a, ea), b, eb) == Map(Map(p, b, eb), a, ea)
  {
    assert p.config[a := ea][b := eb] == p.config[b := eb][a := ea];
  }

  /**
   * A type resolver: one registered by code outside this model, or the media
   * type resolver wrapped around whatever was registered before (possibly none).
   */
  datatype TypeResolver =
    | Registered(name: string)
    | MediaTypeResolver(inner: Option<TypeResolver>)
}
