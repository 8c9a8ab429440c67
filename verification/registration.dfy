/**
 * The field-resolver table as a value, and insert-if-absent registration
 * over it: the specification the registry-changing methods are proved against.
 */
module Registration {
  import opened Resolvers

  /** (type name, field name). */
  type FieldKey = (string, string)

  type FieldMap = map<FieldKey, Expr>

  /** One `addFieldResolverIfNotExists($type, $field, $resolver)` call. */
  datatype FieldRegistration = FieldRegistration(typeName: string, fieldName: string, resolver: Expr) {
    function Key(): FieldKey {
      (typeName, fieldName)
    }
  }

  /** The keys the first `n` of the registrations `rs` name. */
  function KeysOf(rs: seq<FieldRegistration>, n: nat): set<FieldKey>
    requires n <= |rs|
  {
    set i | 0 <= i < n :: rs[i].Key()
  }

  /**
   * Insert-if-absent: a missing key gets `e`; a present key keeps its
   * resolver, with no error; no other key is touched.
   */
  function RegisterIfAbsent(m: FieldMap, k: FieldKey, e: Expr): FieldMap {
    if k in m then m else m[k := e]
  }

  /**
   * A missing key afterwards maps to exactly `e`; a present key leaves the
   * whole table as it was; every other key keeps what it had.
   */
  lemma RegisterIfAbsentEffect(m: FieldMap, k: FieldKey, e: Expr)
    ensures var r := RegisterIfAbsent(m, k, e);
      && r.Keys == m.Keys + {k}
      && (k !in m ==> r[k] == e)
      && (k in m ==> r == m)
      && (forall j :: j in m && j != k ==> r[j] == m[j])
  {
  }

  /** Registering under the same key twice is registering once: the first resolver wins. */
  lemma RegisterIfAbsentTwice(m: FieldMap, k: FieldKey, e1: Expr, e2: Expr)
    ensures RegisterIfAbsent(RegisterIfAbsent(m, k, e1), k, e2) == RegisterIfAbsent(m, k, e1)
    ensures RegisterIfAbsent(RegisterIfAbsent(m, k, e1), k, e2)[k] == if k in m then m[k] else e1
  {
  }

  /** The first `n` registrations of `rs`, in order, each insert-if-absent. */
  function RegisterPrefix(m: FieldMap, rs: seq<FieldRegistration>, n: nat): FieldMap
    requires n <= |rs|
  {
    if n == 0 then m
    else RegisterIfAbsent(RegisterPrefix(m, rs, n - 1), rs[n - 1].Key(), rs[n - 1].resolver)
  }

  /** One more registration extends the prefix registered so far by one insert-if-absent. */
  lemma RegisterPrefixStep(m: FieldMap, rs: seq<FieldRegistration>, n: nat)
    requires n < |rs|
    ensures RegisterPrefix(m, rs, n + 1) == RegisterIfAbsent(RegisterPrefix(m, rs, n), rs[n].Key(), rs[n].resolver)
  {
  }

  /** All the registrations `rs`, in order, each insert-if-absent. */
  function RegisterAll(m: FieldMap, rs: seq<FieldRegistration>): FieldMap {
    RegisterPrefix(m, rs, |rs|)
  }

  /** Exactly the old keys and the registered keys exist afterwards. */
  lemma {:induction false} RegisterPrefixKeys(m: FieldMap, rs: seq<FieldRegistration>, n: nat)
    requires n <= |rs|
    ensures RegisterPrefix(m, rs, n).Keys == m.Keys + KeysOf(rs, n)
  {
    if n > 0 {
      RegisterPrefixKeys(m, rs, n - 1);
      assert KeysOf(rs, n) == KeysOf(rs, n - 1) + {rs[n - 1].Key()};
    }
  }

  /** A resolver present before is never replaced. */
  lemma {:induction false} RegisterPrefixPreserves(m: FieldMap, rs: seq<FieldRegistration>, n: nat, k: FieldKey)
    requires n <= |rs| && k in m
    ensures k in RegisterPrefix(m, rs, n) && RegisterPrefix(m, rs, n)[k] == m[k]
  {
    if n > 0 {
      RegisterPrefixPreserves(m, rs, n - 1, k);
    }
  }

  /** A key that was absent gets the resolver of its first registration. */
  lemma {:induction false} RegisterPrefixFirstWins(m: FieldMap, rs: seq<FieldRegistration>, n: nat, i: nat)
    requires i < n <= |rs| && rs[i].Key() !in m
    requires forall j :: 0 <= j < i ==> rs[j].Key() != rs[i].Key()
    ensures rs[i].Key() in RegisterPrefix(m, rs, n)
    ensures RegisterPrefix(m, rs, n)[rs[i].Key()] == rs[i].resolver
  {
    if i < n - 1 {
      RegisterPrefixFirstWins(m, rs, n - 1, i);
    } else {
      RegisterPrefixKeys(m, rs, n - 1);
    }
  }

  /**
   * A key that was absent, whose every registration carries the same
   * resolver `e`, ends up mapped to `e`.
   */
  lemma {:induction false} RegisterPrefixAgreeing(m: FieldMap, rs: seq<FieldRegistration>, n: nat, k: FieldKey, e: Expr)
    requires n <= |rs| && k !in m && k in KeysOf(rs, n)
    requires forall i :: 0 <= i < n && rs[i].Key() == k ==> rs[i].resolver == e
    ensures k in RegisterPrefix(m, rs, n) && RegisterPrefix(m, rs, n)[k] == e
  {
    RegisterPrefixKeys(m, rs, n - 1);
    if k in KeysOf(rs, n - 1) {
      RegisterPrefixAgreeing(m, rs, n - 1, k, e);
    }
  }

  /** Running the same registrations again changes nothing. */
  lemma RegisterAllIdempotent(m: FieldMap, rs: seq<FieldRegistration>)
    ensures RegisterAll(RegisterAll(m, rs), rs) == RegisterAll(m, rs)
  {
    RegisterPrefixKeys(m, rs, |rs|);
    RegisterAllCovered(RegisterAll(m, rs), rs);
  }

  /** No two of the registrations name the same key. */
  predicate DistinctKeys(rs: seq<FieldRegistration>) {
    forall i, j :: 0 <= i < j < |rs| ==> rs[i].Key() != rs[j].Key()
  }

  /** With distinct keys, every registration whose key was absent takes effect. */
  lemma RegisterAllDistinct(m: FieldMap, rs: seq<FieldRegistration>, i: nat)
    requires DistinctKeys(rs) && i < |rs| && rs[i].Key() !in m
    ensures rs[i].Key() in RegisterAll(m, rs) && RegisterAll(m, rs)[rs[i].Key()] == rs[i].resolver
  {
    RegisterPrefixFirstWins(m, rs, |rs|, i);
  }

  /** Registrations whose keys are all present already change nothing. */
  lemma RegisterAllCovered(m: FieldMap, rs: seq<FieldRegistration>)
    requires KeysOf(rs, |rs|) <= m.Keys
    ensures RegisterAll(m, rs) == m
  {
    RegisterPrefixKeys(m, rs, |rs|);
    forall k | k in m ensures RegisterAll(m, rs)[k] == m[k] {
      RegisterPrefixPreserves(m, rs, |rs|, k);
    }
  }
}
