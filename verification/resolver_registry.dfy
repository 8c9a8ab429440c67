/**
 * The GraphQL module's resolver registry, which this repository only calls:
 * field resolvers keyed by (type, field) and type resolvers keyed by type.
 * Adding overwrites; looking up a missing key gives null.
 */
module Registry {
  import opened Wrappers
  import opened Resolvers
  import opened Registration

  class ResolverRegistry {
    var fieldResolvers: FieldMap
    var typeResolvers: map<string, TypeResolver>

    constructor ()
      ensures fieldResolvers == map[] && typeResolvers == map[]
    {
      fieldResolvers := map[];
      typeResolvers := map[];
    }

    /** `getFieldResolver($type, $field)`: the resolver, or null. */
    method GetFieldResolver(typeName: string, fieldName: string) returns (r: Option<Expr>)
      ensures r.Some? <==> (typeName, fieldName) in fieldResolvers
      ensures r.Some? ==> r.value == fieldResolvers[(typeName, fieldName)]
    {
      r := if (typeName, fieldName) in fieldResolvers then Some(fieldResolvers[(typeName, fieldName)]) else None;
    }

    /** `addFieldResolver($type, $field, $resolver)`: sets the entry, replacing any earlier one. */
    method AddFieldResolver(typeName: string, fieldName: string, resolver: Expr)
      modifies this
      ensures fieldResolvers == old(fieldResolvers)[(typeName, fieldName) := resolver]
      ensures typeResolvers == old(typeResolvers)
    {
      fieldResolvers := fieldResolvers[(typeName, fieldName) := resolver];
    }

    /** `getTypeResolver($type)`: the resolver, or null. */
    method GetTypeResolver(typeName: string) returns (r: Option<TypeResolver>)
      ensures r.Some? <==> typeName in typeResolvers
      ensures r.Some? ==> r.value == typeResolvers[typeName]
    {
      r := if typeName in typeResolvers then Some(typeResolvers[typeName]) else None;
    }

    /** `addTypeResolver($type, $resolver)`: sets the entry, replacing any earlier one. */
    method AddTypeResolver(typeName: string, resolver: TypeResolver)
      modifies this
      ensures typeResolvers == old(typeResolvers)[typeName := resolver]
      ensures fieldResolvers == old(fieldResolvers)
    {
      typeResolvers := typeResolvers[typeName := resolver];
    }
  }
}
