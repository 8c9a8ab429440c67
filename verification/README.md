# thunder_gqls resolver wiring, modelled in Dafny

This project models the GraphQL resolver wiring of Thunder's `thunder_gqls`
module: the helper trait that every Thunder schema extension mixes in
(`ResolverHelperTrait`) and the media schema extension
(`ThunderMediaSchemaExtension`), which registers the field resolvers of
`MediaImage` and `MediaVideo` and wraps the `Media` and `Video` type
resolvers.

The model has these parts:

- **Resolver expressions are inert data** (`Resolvers.Expr`): `fromPath`,
  `produce(...)->map(...)`, `fromValue`, `fromArgument`, `fromParent`,
  `compose` and `callback` are constructors of one datatype. Data producer
  names (`image_url`, `route_load`, ...) are uninterpreted strings.
- **The registry is an object** (`Registry.ResolverRegistry`). It holds two
  maps, field resolvers keyed by (type, field) and type resolvers keyed by
  type. Its methods reassign those maps. Adding overwrites. Looking up a
  missing key gives `None`, as `null` in PHP.
- **Insert-if-absent registration is specified by pure functions.**
  `Registration.RegisterIfAbsent`, `RegisterPrefix` and `RegisterAll` are
  those functions. The methods that change the registry are proved equal
  to them: `AddFieldResolverIfNotExists`, the `foreach` loop of
  `AddSimpleCallbackFields`, and the fixed sequence in `ResolveFields`. The
  properties are then proved as lemmas about the functions.
- **The two closures are data too** (`Callbacks.Closure`): the
  `fn($arr) => $arr[$field]` of `addSimpleCallbackFields` and the
  `derivative` closure. Their meaning is given on a small model of PHP values
  (`PhpValues`). It covers `empty()` with its `isset` semantics, `$a[$k]`
  giving `null` for a missing key or a non-array `$a`, and the array union
  `+`, which never overwrites. String offsets are not modelled.
- **`mapBundleToSchemaName`** is `str_replace('_', '', ucwords($s, '_'))` on
  ASCII text. It is proved equal to a one-pass camel-case reading, which
  gives the length, content, idempotence and join properties.

Two steps belong to the base class `ThunderSchemaExtensionPluginBase`, which
is not part of this model: `parent::registerResolvers` and
`resolveMediaInterfaceFields`. Each is a stand-in that sets the entries it is
given as parameters, overwriting what is there. The proved results hold
whatever those entries are.

The source reads the old type resolver through the `$registry` parameter and
writes through the `$this->registry` field. The model treats them as one
object, the one the base class stores before `registerResolvers` goes on.

`addFieldResolverIfNotExists` returns nothing (`void`), and neither does
`ResolverHelper.AddFieldResolverIfNotExists`.

## Model

| member | source | states |
|---|---|---|
| Registry.ResolverRegistry.GetFieldResolver | modules/thunder_gqls/src/Traits/ResolverHelperTrait.php:38 | the lookup gives a resolver exactly when one is registered under (type, field), and then that one |
| Registry.ResolverRegistry.AddFieldResolver | modules/thunder_gqls/src/Traits/ResolverHelperTrait.php:39 | the field table afterwards is the old one with (type, field) set to the resolver; type resolvers are unchanged |
| Registry.ResolverRegistry.GetTypeResolver | modules/thunder_gqls/src/Plugin/GraphQL/SchemaExtension/ThunderMediaSchemaExtension.php:28 | the lookup gives a type resolver exactly when one is registered for the type, and then that one |
| Registry.ResolverRegistry.AddTypeResolver | modules/thunder_gqls/src/Plugin/GraphQL/SchemaExtension/ThunderMediaSchemaExtension.php:26-29 | the type table afterwards is the old one with the type set; field resolvers are unchanged |
| ResolverHelper.AddFieldResolverIfNotExists | modules/thunder_gqls/src/Traits/ResolverHelperTrait.php:37-41 | the new field table is the old one with (type, field) inserted only if absent; type resolvers are unchanged |
| Registration.RegisterIfAbsentEffect | modules/thunder_gqls/src/Traits/ResolverHelperTrait.php:37-41 | a missing key then maps to exactly the given resolver; a present key leaves the whole table unchanged, with no error; no other key changes |
| Registration.RegisterIfAbsentTwice | modules/thunder_gqls/src/Traits/ResolverHelperTrait.php:38-40 | registering the same key twice equals registering it once, and the first resolver wins |
| ResolverHelper.SimpleCallbackRegistrations | modules/thunder_gqls/src/Traits/ResolverHelperTrait.php:94-97 | one registration per listed field, in order, each under the given type with the closure returning that field's array entry |
| ResolverHelper.AddSimpleCallbackFields | modules/thunder_gqls/src/Traits/ResolverHelperTrait.php:93-99 | the loop leaves the field table equal to registering the fields' callbacks in order, each insert-if-absent; type resolvers are unchanged |
| Registration.RegisterPrefixKeys | modules/thunder_gqls/src/Traits/ResolverHelperTrait.php:93-99 | after a sequence of insert-if-absent registrations, the keys are exactly the old keys plus the registered keys |
| Registration.RegisterPrefixPreserves | modules/thunder_gqls/src/Traits/ResolverHelperTrait.php:93-99 | a resolver present before the sequence is never replaced |
| Registration.RegisterPrefixFirstWins | modules/thunder_gqls/src/Traits/ResolverHelperTrait.php:93-99 | an absent key ends up with the resolver of its first registration |
| Registration.RegisterPrefixAgreeing | modules/thunder_gqls/src/Traits/ResolverHelperTrait.php:93-99 | an absent key whose registrations all carry the same resolver ends up with that resolver, however often it is listed |
| Registration.RegisterAllIdempotent | modules/thunder_gqls/src/Traits/ResolverHelperTrait.php:93-99 | running the same registrations a second time changes nothing |
| Registration.RegisterAllDistinct | modules/thunder_gqls/src/Traits/ResolverHelperTrait.php:93-99 | with no key listed twice, each registration whose key was absent takes effect |
| Registration.RegisterAllCovered | modules/thunder_gqls/src/Traits/ResolverHelperTrait.php:93-99 | registrations whose keys are all present leave the table unchanged |
| ResolverHelper.SimpleCallbackFieldsEffect | modules/thunder_gqls/src/Traits/ResolverHelperTrait.php:93-99 | afterwards every listed field has a resolver under the type, earlier resolvers are kept, and keys of other types are exactly as before |
| ResolverHelper.SimpleCallbackReturnsEntry | modules/thunder_gqls/src/Traits/ResolverHelperTrait.php:96 | a listed field that had no resolver gets the callback, and the callback applied to an array holding the field returns that entry |
| Resolvers.Produce | modules/thunder_gqls/src/Traits/ResolverHelperTrait.php:62 | `produce($id)` as a producer node with no parameter bound; its contract is in Resolvers.ProduceBindsNothing |
| Resolvers.ProduceBindsNothing | modules/thunder_gqls/src/Traits/ResolverHelperTrait.php:62 | `produce($id)` names the producer and binds no parameter |
| Resolvers.Map | modules/thunder_gqls/src/Traits/ResolverHelperTrait.php:63-64 | `->map($name, $e)` on a producer node; its contract is in Resolvers.MapBinds, MapRebinds and MapCommutes |
| Resolvers.MapBinds | modules/thunder_gqls/src/Traits/ResolverHelperTrait.php:63-64 | `->map` keeps the producer, binds `name` to the given resolver and leaves every other parameter as it was |
| Resolvers.MapRebinds | modules/thunder_gqls/src/Traits/ResolverHelperTrait.php:63-64 | mapping the same parameter again overwrites the earlier binding |
| Resolvers.MapCommutes | modules/thunder_gqls/src/Traits/ResolverHelperTrait.php:63-64 | bindings of two different parameters give the same producer in either order |
| ResolverHelper.FromEntityReference | modules/thunder_gqls/src/Traits/ResolverHelperTrait.php:61-65 | an `entity_reference` producer binding exactly `field` (to the literal field name) and `entity` (to the given resolver, or the parent when none) |
| ResolverHelper.FromEntityReferenceRevisions | modules/thunder_gqls/src/Traits/ResolverHelperTrait.php:78-83 | an `entity_reference_revisions` producer binding exactly `field`, `entity` (as above) and `language` (path `langcode.value` of the parent entity) |
| ResolverHelper.RevisionsExtendsReference | modules/thunder_gqls/src/Traits/ResolverHelperTrait.php:61-83 | the revisions producer binds the same parameters as the plain one plus `language`, and nothing else |
| ResolverHelper.FromRoute | modules/thunder_gqls/src/Traits/ResolverHelperTrait.php:110-120 | a two-stage compose: `route_load` with `path` bound to the given path, then `route_entity` with `url` bound to the parent and `language` bound to `thunder_language` of the same path |
| SchemaName.UcWordsFrom | modules/thunder_gqls/src/Traits/ResolverHelperTrait.php:132 | `ucwords` with `_` as delimiter keeps the length and upper-cases exactly the first character and each character right after `_` |
| SchemaName.RemoveAll | modules/thunder_gqls/src/Traits/ResolverHelperTrait.php:132 | `str_replace` of one character leaves no occurrence of it and shortens the string by the number of occurrences |
| SchemaName.RemoveAllSingle | modules/thunder_gqls/src/Traits/ResolverHelperTrait.php:132 | removing `c` from one character drops it when it is `c` and keeps it otherwise |
| SchemaName.RemoveAllAppend | modules/thunder_gqls/src/Traits/ResolverHelperTrait.php:132 | removing `c` from a concatenation is removing it from each part: all other characters are kept, in order |
| SchemaName.MapBundleToSchemaName | modules/thunder_gqls/src/Traits/ResolverHelperTrait.php:131-133 | `str_replace('_', '', ucwords($s, '_'))` equals the one-pass reading: drop each `_`, upper-case the first character and each one that followed `_` |
| SchemaName.UcWordsFromKeepsUnderscores | modules/thunder_gqls/src/Traits/ResolverHelperTrait.php:132 | `ucwords` keeps the number of `_` |
| SchemaName.RemoveUcWordsIsCamelCase | modules/thunder_gqls/src/Traits/ResolverHelperTrait.php:131-133 | removing `_` after `ucwords` equals the one-pass reading: drop each `_` and upper-case the first character and each one that followed `_` |
| SchemaName.SchemaNameShape | modules/thunder_gqls/src/Traits/ResolverHelperTrait.php:131-133 | the schema name has no `_`, its length is the bundle name's minus its `_` count, it equals the one-pass reading, and the empty name gives the empty name |
| SchemaName.SchemaNameWithoutUnderscore | modules/thunder_gqls/src/Traits/ResolverHelperTrait.php:131-133 | a name without `_` only has its first character upper-cased; nothing is lower-cased |
| SchemaName.CamelCaseWithoutUnderscore | modules/thunder_gqls/src/Traits/ResolverHelperTrait.php:131-133 | a string without `_`, read past its first character, is kept unchanged |
| SchemaName.CamelCaseStartsUpper | modules/thunder_gqls/src/Traits/ResolverHelperTrait.php:131-133 | a non-empty schema name starts with a character that upper-casing leaves unchanged |
| SchemaName.SchemaNameIdempotent | modules/thunder_gqls/src/Traits/ResolverHelperTrait.php:131-133 | converting a schema name again leaves it unchanged |
| SchemaName.CamelCaseJoin | modules/thunder_gqls/src/Traits/ResolverHelperTrait.php:131-133 | the one-pass reading of `a_b` is that of `a` followed by that of `b` with its first character upper-cased |
| SchemaName.SchemaNameJoin | modules/thunder_gqls/src/Traits/ResolverHelperTrait.php:131-133 | the schema name of `a_b` is the schema name of `a` followed by that of `b` |
| SchemaName.SchemaNameTwoWords | modules/thunder_gqls/src/Traits/ResolverHelperTrait.php:131-133 | two `_`-free words joined by `_` give each word with only its first character upper-cased, concatenated (`image_Gallery` gives `ImageGallery`) |
| PhpValues.Union | modules/thunder_gqls/src/Plugin/GraphQL/SchemaExtension/ThunderMediaSchemaExtension.php:69 | array union has both key sets, keeps every entry of the left array and takes only new keys from the right |
| Callbacks.Apply | modules/thunder_gqls/src/Traits/ResolverHelperTrait.php:96 | the field closure returns the array's entry for its field, or null when the array lacks it or the value is no array; the derivative closure is non-null exactly when `url` is PHP-non-empty |
| Callbacks.WithDerivativeSrc | modules/thunder_gqls/src/Plugin/GraphQL/SchemaExtension/ThunderMediaSchemaExtension.php:67-72 | non-null exactly when `url` is PHP-non-empty; then the same array plus `src`, every existing entry unchanged, `src` the old `src` if there was one and `url` otherwise |
| Callbacks.WithDerivativeSrcIdempotent | modules/thunder_gqls/src/Plugin/GraphQL/SchemaExtension/ThunderMediaSchemaExtension.php:67-72 | applying the derivative closure to its own result changes nothing |
| MediaSchemaExtension.WrapMediaTypeResolvers | modules/thunder_gqls/src/Plugin/GraphQL/SchemaExtension/ThunderMediaSchemaExtension.php:26-34 | `Media` and `Video` become media type resolvers wrapping the resolver each had before (or none); every other type is kept |
| MediaSchemaExtension.ParentRegisterResolvers | modules/thunder_gqls/src/Plugin/GraphQL/SchemaExtension/ThunderMediaSchemaExtension.php:24 | the base class's step sets the given field and type resolvers, overwriting |
| MediaSchemaExtension.RegisterResolvers | modules/thunder_gqls/src/Plugin/GraphQL/SchemaExtension/ThunderMediaSchemaExtension.php:23-37 | after the base step, the type table has `Media` and `Video` wrapped around what was registered for them before, and the field table is the result of resolveFields |
| MediaSchemaExtension.WithFields | modules/thunder_gqls/src/Plugin/GraphQL/SchemaExtension/ThunderMediaSchemaExtension.php:44 | the interface step adds the given fields of one type, overwriting, and keeps every other entry |
| MediaSchemaExtension.ResolveMediaInterfaceFields | modules/thunder_gqls/src/Plugin/GraphQL/SchemaExtension/ThunderMediaSchemaExtension.php:44 | the interface step as a registry update: field table as in WithFields, type resolvers unchanged |
| MediaSchemaExtension.ResolveFields | modules/thunder_gqls/src/Plugin/GraphQL/SchemaExtension/ThunderMediaSchemaExtension.php:42-135 | the two interface steps and seventeen registrations leave the field table equal to the MediaImage interface step, its eleven registrations in order, then the MediaVideo interface step and its six registrations, all insert-if-absent; type resolvers are unchanged |
| MediaSchemaExtension.ImageFieldRegistrations | modules/thunder_gqls/src/Plugin/GraphQL/SchemaExtension/ThunderMediaSchemaExtension.php:45-106 | the eleven MediaImage registrations with their resolvers, in source order; which fields they name is in ImageKeys, that none repeats in ImageRegistrationsDistinct |
| MediaSchemaExtension.VideoFieldRegistrations | modules/thunder_gqls/src/Plugin/GraphQL/SchemaExtension/ThunderMediaSchemaExtension.php:111-133 | the six MediaVideo registrations with their resolvers, in source order; which fields they name is in VideoKeys, that none repeats in VideoRegistrationsDistinct |
| MediaSchemaExtension.ImageKeys | modules/thunder_gqls/src/Plugin/GraphQL/SchemaExtension/ThunderMediaSchemaExtension.php:45-106 | the MediaImage registrations name exactly copyright, description, src, derivative, focalPoint, width, height, title, alt, tags and source |
| MediaSchemaExtension.VideoKeys | modules/thunder_gqls/src/Plugin/GraphQL/SchemaExtension/ThunderMediaSchemaExtension.php:111-133 | the MediaVideo registrations name exactly src, username, caption, copyright, description and source |
| MediaSchemaExtension.ImageRegistrationsDistinct | modules/thunder_gqls/src/Plugin/GraphQL/SchemaExtension/ThunderMediaSchemaExtension.php:45-106 | no MediaImage field is registered twice |
| MediaSchemaExtension.VideoRegistrationsDistinct | modules/thunder_gqls/src/Plugin/GraphQL/SchemaExtension/ThunderMediaSchemaExtension.php:111-133 | no MediaVideo field is registered twice |
| MediaSchemaExtension.MediaPassKeys | modules/thunder_gqls/src/Plugin/GraphQL/SchemaExtension/ThunderMediaSchemaExtension.php:44-106 | one media type's pass leaves exactly the old keys, its interface fields and its registered fields |
| MediaSchemaExtension.MediaPassKeeps | modules/thunder_gqls/src/Plugin/GraphQL/SchemaExtension/ThunderMediaSchemaExtension.php:44-106 | one pass keeps the interface fields and every older entry the interface step did not overwrite |
| MediaSchemaExtension.MediaPassCovered | modules/thunder_gqls/src/Plugin/GraphQL/SchemaExtension/ThunderMediaSchemaExtension.php:44-106 | a pass whose fields are all registered already, with no interface fields, changes nothing |
| MediaSchemaExtension.MediaPassDefault | modules/thunder_gqls/src/Plugin/GraphQL/SchemaExtension/ThunderMediaSchemaExtension.php:44-106 | a registration of a pass whose key had no resolver takes effect |
| MediaSchemaExtension.FirstPassDefault | modules/thunder_gqls/src/Plugin/GraphQL/SchemaExtension/ThunderMediaSchemaExtension.php:42-135 | a MediaImage default that took effect survives the MediaVideo pass |
| MediaSchemaExtension.SecondPassDefault | modules/thunder_gqls/src/Plugin/GraphQL/SchemaExtension/ThunderMediaSchemaExtension.php:42-135 | a MediaVideo registration whose key had no resolver takes effect after the MediaImage pass |
| MediaSchemaExtension.ResolveFieldsKeys | modules/thunder_gqls/src/Plugin/GraphQL/SchemaExtension/ThunderMediaSchemaExtension.php:42-135 | afterwards the keys are exactly the earlier ones, the interface fields, the eleven MediaImage fields and the six MediaVideo fields |
| MediaSchemaExtension.ResolveFieldsKeepsEarlier | modules/thunder_gqls/src/Plugin/GraphQL/SchemaExtension/ThunderMediaSchemaExtension.php:44-133 | no resolver present before a registration is replaced: the interface steps' entries stay, and so does every earlier entry they did not overwrite |
| MediaSchemaExtension.ResolveFieldsOtherTypes | modules/thunder_gqls/src/Plugin/GraphQL/SchemaExtension/ThunderMediaSchemaExtension.php:42-135 | keys of types other than MediaImage and MediaVideo are exactly as before, with the same resolvers |
| MediaSchemaExtension.ResolveFieldsIdempotent | modules/thunder_gqls/src/Plugin/GraphQL/SchemaExtension/ThunderMediaSchemaExtension.php:42-135 | running resolveFields again, with no new interface fields, changes nothing |
| MediaSchemaExtension.ResolveFieldsImageEntityPaths | modules/thunder_gqls/src/Plugin/GraphQL/SchemaExtension/ThunderMediaSchemaExtension.php:45-106 | MediaImage copyright, description and source, when they had no resolver, read `field_copyright.value`, `field_description.processed` and `field_source.value` of the entity |
| MediaSchemaExtension.ResolveFieldsImageDimensions | modules/thunder_gqls/src/Plugin/GraphQL/SchemaExtension/ThunderMediaSchemaExtension.php:84-90 | MediaImage width and height, when they had no resolver, read `field_image.width` and `field_image.height` |
| MediaSchemaExtension.ResolveFieldsImageTexts | modules/thunder_gqls/src/Plugin/GraphQL/SchemaExtension/ThunderMediaSchemaExtension.php:92-98 | MediaImage title and alt, when they had no resolver, read `field_image.title` and `field_image.alt` |
| MediaSchemaExtension.ResolveFieldsImageFiles | modules/thunder_gqls/src/Plugin/GraphQL/SchemaExtension/ThunderMediaSchemaExtension.php:53-82 | MediaImage src, derivative and focalPoint, when they had no resolver, get the compose chains that start from `field_image.entity` and feed it as the parent to `image_url`, `image_derivative` (with `style` from the argument, then the derivative closure) and `focal_point` |
| MediaSchemaExtension.ResolveFieldsImageTags | modules/thunder_gqls/src/Plugin/GraphQL/SchemaExtension/ThunderMediaSchemaExtension.php:100-102 | MediaImage tags, when it had no resolver, is the entity reference producer over `field_tags` of the parent |
| MediaSchemaExtension.ResolveFieldsVideoSrc | modules/thunder_gqls/src/Plugin/GraphQL/SchemaExtension/ThunderMediaSchemaExtension.php:111-113 | MediaVideo src, when it had no resolver, is `media_source_field` with `media` bound to the parent |
| MediaSchemaExtension.ResolveFieldsVideoTexts | modules/thunder_gqls/src/Plugin/GraphQL/SchemaExtension/ThunderMediaSchemaExtension.php:115-121 | MediaVideo username and caption, when they had no resolver, read `field_author.value` and `field_caption.processed` |
| MediaSchemaExtension.ResolveFieldsVideoShared | modules/thunder_gqls/src/Plugin/GraphQL/SchemaExtension/ThunderMediaSchemaExtension.php:123-133 | MediaVideo copyright, description and source, when they had no resolver, read the same entity fields as MediaImage's |

## Left out

- Evaluating resolver expressions is left out. That belongs to the GraphQL module's executor and its data producers (`image_url`, `image_derivative`, `focal_point`, `entity_reference`, `entity_reference_revisions`, `route_load`, `route_entity`, `thunder_language`, `media_source_field`), which are not part of this model. Producer names stay uninterpreted strings. Only the two closures get a meaning.
- The GraphQL module's `ResolverRegistry` is represented by the stand-in class `Registry.ResolverRegistry`. Its behaviour is taken as: adding overwrites, and a lookup of a missing key gives null.
- `MediaTypeResolver` internals are left out. The model records only which resolver each one wraps.
- `ThunderSchemaExtensionPluginBase` is not part of this model. Its `registerResolvers` and `resolveMediaInterfaceFields` are stand-ins that set the entries passed to them, overwriting. The properties are stated for any such entries, assuming the interface step only touches the type it is called for.
- `createResolverBuilder` is left out: it only constructs the builder object, which the model replaces with plain datatype constructors.
- Callbacks.Apply: a string parent is not modelled. For a string `$arr`, PHP's `$arr[$field]` reads a string offset (a numeric offset gives one character, a non-numeric one a warning or error depending on the PHP version), while the model gives null for every non-array value.
- PHP array order is left out. Keyed tables are maps.
- Callback values are scalars and string-keyed arrays. Floats, objects and integer array keys are left out.
- `SchemaName.MapBundleToSchemaName` covers ASCII upper-casing only. Multibyte and locale behaviour of `ucwords` is left out.
- The browser-driven installer and paragraph-split tests are left out. They script a browser and a service container, and have no logic of the modelled core.
