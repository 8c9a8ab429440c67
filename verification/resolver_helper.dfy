/**
 * The helpers every Thunder schema extension mixes in: insert-if-absent
 * registration on the registry object, and builders for recurring resolver
 * shapes.
 */
module ResolverHelper {
  import opened Wrappers
  import opened PhpValues
  import opened Callbacks
  import opened Resolvers
  import opened Registration
  import opened Registry

  /** Registers `resolver` under (type, field) only when nothing is registered there yet. */
  method AddFieldResolverIfNotExists(registry: ResolverRegistry, typeName: string, fieldName: string, resolver: Expr)
    modifies registry
    ensures registry.fieldResolvers == RegisterIfAbsent(old(registry.fieldResolvers), (typeName, fieldName), resolver)
    ensures registry.typeResolvers == old(registry.typeResolvers)
  {
    var existing := registry.GetFieldResolver(typeName, fieldName);
    if existing.None? {
      registry.AddFieldResolver(typeName, fieldName, resolver);
    }
  }

  /** The registrations addSimpleCallbackFields makes: field `f` gets `fn($arr) => $arr[f]`. */
  function SimpleCallbackRegistrations(typeName: string, fields: seq<string>): (rs: seq<FieldRegistration>)
    ensures |rs| == |fields|
    ensures forall i :: 0 <= i < |rs| ==> rs[i] == FieldRegistration(typeName, fields[i], Callback(ArrayEntry(fields[i])))
  {
    if fields == [] then []
    else SimpleCallbackRegistrations(typeName, fields[..|fields| - 1])
         + [FieldRegistration(typeName, fields[|fields| - 1], Callback(ArrayEntry(fields[|fields| - 1])))]
  }

  /** Registers, insert-if-absent and in order, a callback resolver for each field. */
  method AddSimpleCallbackFields(registry: ResolverRegistry, typeName: string, fields: seq<string>)
    modifies registry
    ensures registry.fieldResolvers == RegisterAll(old(registry.fieldResolvers), SimpleCallbackRegistrations(typeName, fields))
    ensures registry.typeResolvers == old(registry.typeResolvers)
  {
    ghost var rs := SimpleCallbackRegistrations(typeName, fields);
    for i := 0 to |fields|
      invariant registry.fieldResolvers == RegisterPrefix(old(registry.fieldResolvers), rs, i)
      invariant registry.typeResolvers == old(registry.typeResolvers)
    {
      AddFieldResolverIfNotExists(registry, typeName, fields[i], Callback(ArrayEntry(fields[i])));
    }
  }

  /**
   * After addSimpleCallbackFields every listed field has a resolver under
   * `typeName`, earlier resolvers are kept, and other types gain nothing.
   */
  lemma SimpleCallbackFieldsEffect(m: FieldMap, typeName: string, fields: seq<string>)
    ensures var r := RegisterAll(m, SimpleCallbackRegistrations(typeName, fields));
      && (forall f :: f in fields ==> (typeName, f) in r)
      && (forall k :: k in m ==> k in r && r[k] == m[k])
      && (forall k: FieldKey :: k.0 != typeName ==> (k in r <==> k in m))
  {
    var rs := SimpleCallbackRegistrations(typeName, fields);
    RegisterPrefixKeys(m, rs, |rs|);
    forall f | f in fields ensures (typeName, f) in KeysOf(rs, |rs|) {
      var i :| 0 <= i < |fields| && fields[i] == f;
      assert rs[i].Key() == (typeName, f);
    }
    forall k | k in m ensures RegisterAll(m, rs)[k] == m[k] {
      RegisterPrefixPreserves(m, rs, |rs|, k);
    }
  }

  /**
   * A field that had no resolver gets one which, handed an array holding that
   * field, returns the array's entry.
   */
  lemma SimpleCallbackReturnsEntry(m: FieldMap, typeName: string, fields: seq<string>, f: string, arr: map<string, Value>)
    requires f in fields && (typeName, f) !in m && f in arr
    ensures var r := RegisterAll(m, SimpleCallbackRegistrations(typeName, fields));
      && (typeName, f) in r
      && r[(typeName, f)] == Callback(ArrayEntry(f))
      && Apply(r[(typeName, f)].closure, Arr(arr)) == arr[f]
  {
    var rs := SimpleCallbackRegistrations(typeName, fields);
    var i :| 0 <= i < |fields| && fields[i] == f;
    assert rs[i].Key() == (typeName, f);
    RegisterPrefixAgreeing(m, rs, |rs|, (typeName, f), Callback(ArrayEntry(f)));
  }

  /** `fromEntityReference($field, $entity)`: the entity_reference producer. */
  function FromEntityReference(field: string, entity: Option<Expr>): (r: Expr)
    ensures r.DataProducer? && r.id == "entity_reference"
    ensures r.config.Keys == {"field", "entity"}
    ensures r.config["field"] == FromValue(Str(field))
    ensures r.config["entity"] == if entity.Some? then entity.value else FromParent
  {
    Map(Map(Produce("entity_reference"), "field", FromValue(Str(field))), "entity", entity.GetOr(FromParent))
  }

  /** `fromEntityReferenceRevisions($field, $entity)`: as above, plus the parent's language. */
  function FromEntityReferenceRevisions(field: string, entity: Option<Expr>): (r: Expr)
    ensures r.DataProducer? && r.id == "entity_reference_revisions"
    ensures r.config.Keys == {"field", "entity", "language"}
    ensures r.config["field"] == FromValue(Str(field))
    ensures r.config["entity"] == if entity.Some? then entity.value else FromParent
    ensures r.config["language"] == FromPath("entity", "langcode.value", Some(FromParent))
  {
    Map(Map(Map(Produce("entity_reference_revisions"), "field", FromValue(Str(field))),
            "entity", entity.GetOr(FromParent)),
        "language", FromPath("entity", "langcode.value", Some(FromParent)))
  }

  /**
   * The revisions producer binds what the plain one binds, and only adds the
   * language.
   */
  lemma RevisionsExtendsReference(field: string, entity: Option<Expr>)
    ensures FromEntityReferenceRevisions(field, entity).config
      == FromEntityReference(field, entity).config["language" := FromPath("entity", "langcode.value", Some(FromParent))]
  {
  }

  /**
   * `fromRoute($path)`: load the route of `path`, then take its entity, in
   * the language of that same `path`.
   */
  function FromRoute(path: Expr): (r: Expr)
    ensures r.Compose? && |r.stages| == 2
    ensures r.stages[0] == DataProducer("route_load", map["path" := path])
    ensures r.stages[1].DataProducer? && r.stages[1].id == "route_entity"
    ensures r.stages[1].config.Keys == {"url", "language"}
    ensures r.stages[1].config["url"] == FromParent
    ensures r.stages[1].config["language"] == DataProducer("thunder_language", map["path" := path])
  {
    Compose([
      Map(Produce("route_load"), "path", path),
      Map(Map(Produce("route_entity"), "url", FromParent),
          "language", Map(Produce("thunder_language"), "path", path))
    ])
  }
}
