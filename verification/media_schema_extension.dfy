/**
 * The media schema extension: wraps the Media and Video type resolvers and
 * registers the default field resolvers of MediaImage and MediaVideo.
 */
module MediaSchemaExtension {
  import opened Wrappers
  import opened Callbacks
  import opened Resolvers
  import opened Registration
  import opened Registry
  import opened ResolverHelper

  /** `fromPath('entity', $path)`. */
  function EntityPath(path: string): Expr {
    FromPath("entity", path, None)
  }

  /** MediaImage `src`: the URL of the image file. */
  function ImageSrc(): Expr
  {
    Compose([EntityPath("field_image.entity"), Map(Produce("image_url"), "entity", FromParent)])
  }

  /**
   * MediaImage `derivative`: the image style derivative of the file for the
   * `style` argument, then the derivative closure.
   */
  function ImageDerivative(): Expr
  {
    Compose([EntityPath("field_image.entity"),
             Map(Map(Produce("image_derivative"), "entity", FromParent), "style", FromArgument("style")),
             Callback(DerivativeSrc)])
  }

  /** MediaImage `focalPoint`: the focal point of the file. */
  function ImageFocalPoint(): Expr
  {
    Compose([EntityPath("field_image.entity"), Map(Produce("focal_point"), "file", FromParent)])
  }

  /** MediaVideo `src`: the media's source field. */
  function VideoSrc(): Expr
  {
    Map(Produce("media_source_field"), "media", FromParent)
  }

  /** The MediaImage registrations, in the order resolveFields makes them. */
  function ImageFieldRegistrations(): seq<FieldRegistration> {
    [
      FieldRegistration("MediaImage", "copyright", EntityPath("field_copyright.value")),
      FieldRegistration("MediaImage", "description", EntityPath("field_description.processed")),
      FieldRegistration("MediaImage", "src",
        ImageSrc()),
      FieldRegistration("MediaImage", "derivative",
        ImageDerivative()),
      FieldRegistration("MediaImage", "focalPoint",
        ImageFocalPoint()),
      FieldRegistration("MediaImage", "width", EntityPath("field_image.width")),
      FieldRegistration("MediaImage", "height", EntityPath("field_image.height")),
      FieldRegistration("MediaImage", "title", EntityPath("field_image.title")),
      FieldRegistration("MediaImage", "alt", EntityPath("field_image.alt")),
      FieldRegistration("MediaImage", "tags", FromEntityReference("field_tags", None)),
      FieldRegistration("MediaImage", "source", EntityPath("field_source.value"))
    ]
  }

  /** The MediaVideo registrations, in the order resolveFields makes them. */
  function VideoFieldRegistrations(): seq<FieldRegistration> {
    [
      FieldRegistration("MediaVideo", "src", VideoSrc()),
      FieldRegistration("MediaVideo", "username", EntityPath("field_author.value")),
      FieldRegistration("MediaVideo", "caption", EntityPath("field_caption.processed")),
      FieldRegistration("MediaVideo", "copyright", EntityPath("field_copyright.value")),
      FieldRegistration("MediaVideo", "description", EntityPath("field_description.processed")),
      FieldRegistration("MediaVideo", "source", EntityPath("field_source.value"))
    ]
  }

  /**
   * What resolveMediaInterfaceFields (in the base class, not part of this
   * model) may do: set the given fields of one type, replacing what is there.
   */
  function WithFields(m: FieldMap, typeName: string, entries: map<string, Expr>): (r: FieldMap)
    ensures r.Keys == m.Keys + (set f | f in entries :: (typeName, f))
    ensures forall k :: k in r ==> r[k] == if k.0 == typeName && k.1 in entries then entries[k.1] else m[k]
  {
    map k | k in m.Keys + (set f | f in entries :: (typeName, f)) ::
      if k.0 == typeName && k.1 in entries then entries[k.1] else m[k]
  }

  /** One media type's part of resolveFields: its interface fields, then its own registrations. */
  function MediaPass(m: FieldMap, typeName: string, interface: map<string, Expr>, rs: seq<FieldRegistration>): FieldMap {
    RegisterAll(WithFields(m, typeName, interface), rs)
  }

  /** The field table after resolveFields, given what the two interface passes add. */
  function ResolveFieldsResult(m: FieldMap, imageInterface: map<string, Expr>, videoInterface: map<string, Expr>): FieldMap {
    MediaPass(MediaPass(m, "MediaImage", imageInterface, ImageFieldRegistrations()),
              "MediaVideo", videoInterface, VideoFieldRegistrations())
  }

  /** Stand-in for the base class's resolveMediaInterfaceFields. */
  method ResolveMediaInterfaceFields(registry: ResolverRegistry, typeName: string, entries: map<string, Expr>)
    modifies registry
    ensures registry.fieldResolvers == WithFields(old(registry.fieldResolvers), typeName, entries)
    ensures registry.typeResolvers == old(registry.typeResolvers)
  {
    registry.fieldResolvers := WithFields(registry.fieldResolvers, typeName, entries);
  }

  /** resolveFields: the MediaImage and MediaVideo field resolvers, each insert-if-absent. */
  method ResolveFields(registry: ResolverRegistry, imageInterface: map<string, Expr>, videoInterface: map<string, Expr>)
    modifies registry
    ensures registry.fieldResolvers == ResolveFieldsResult(old(registry.fieldResolvers), imageInterface, videoInterface)
    ensures registry.typeResolvers == old(registry.typeResolvers)
  {
    // Image.
    ResolveMediaInterfaceFields(registry, "MediaImage", imageInterface);
    ghost var start, done := registry.fieldResolvers, ImageFieldRegistrations();
    AddFieldResolverIfNotExists(registry, "MediaImage", "copyright", EntityPath("field_copyright.value"));
    RegisterPrefixStep(start, done, 0);
    AddFieldResolverIfNotExists(registry, "MediaImage", "description", EntityPath("field_description.processed"));
    RegisterPrefixStep(start, done, 1);
    AddFieldResolverIfNotExists(registry, "MediaImage", "src", ImageSrc());
    RegisterPrefixStep(start, done, 2);
    AddFieldResolverIfNotExists(registry, "MediaImage", "derivative", ImageDerivative());
    RegisterPrefixStep(start, done, 3);
    AddFieldResolverIfNotExists(registry, "MediaImage", "focalPoint", ImageFocalPoint());
    RegisterPrefixStep(start, done, 4);
    AddFieldResolverIfNotExists(registry, "MediaImage", "width", EntityPath("field_image.width"));
    RegisterPrefixStep(start, done, 5);
    AddFieldResolverIfNotExists(registry, "MediaImage", "height", EntityPath("field_image.height"));
    RegisterPrefixStep(start, done, 6);
    AddFieldResolverIfNotExists(registry, "MediaImage", "title", EntityPath("field_image.title"));
    RegisterPrefixStep(start, done, 7);
    AddFieldResolverIfNotExists(registry, "MediaImage", "alt", EntityPath("field_image.alt"));
    RegisterPrefixStep(start, done, 8);
    AddFieldResolverIfNotExists(registry, "MediaImage", "tags", FromEntityReference("field_tags", None));
    RegisterPrefixStep(start, done, 9);
    AddFieldResolverIfNotExists(registry, "MediaImage", "source", EntityPath("field_source.value"));
    RegisterPrefixStep(start, done, 10);

    // Video.
    ResolveMediaInterfaceFields(registry, "MediaVideo", videoInterface);
    start, done := registry.fieldResolvers, VideoFieldRegistrations();
    AddFieldResolverIfNotExists(registry, "MediaVideo", "src", VideoSrc());
    RegisterPrefixStep(start, done, 0);
    AddFieldResolverIfNotExists(registry, "MediaVideo", "username", EntityPath("field_author.value"));
    RegisterPrefixStep(start, done, 1);
    AddFieldResolverIfNotExists(registry, "MediaVideo", "caption", EntityPath("field_caption.processed"));
    RegisterPrefixStep(start, done, 2);
    AddFieldResolverIfNotExists(registry, "MediaVideo", "copyright", EntityPath("field_copyright.value"));
    RegisterPrefixStep(start, done, 3);
    AddFieldResolverIfNotExists(registry, "MediaVideo", "description", EntityPath("field_description.processed"));
    RegisterPrefixStep(start, done, 4);
    AddFieldResolverIfNotExists(registry, "MediaVideo", "source", EntityPath("field_source.value"));
    RegisterPrefixStep(start, done, 5);
  }

  /** The Media and Video type resolvers, each wrapped around the one registered before. */
  function WrapMediaTypeResolvers(t: map<string, TypeResolver>): (r: map<string, TypeResolver>)
    ensures r.Keys == t.Keys + {"Media", "Video"}
    ensures r["Media"] == MediaTypeResolver(if "Media" in t then Some(t["Media"]) else None)
    ensures r["Video"] == MediaTypeResolver(if "Video" in t then Some(t["Video"]) else None)
    ensures forall n :: n in t && n != "Media" && n != "Video" ==> r[n] == t[n]
  {
    var media := t["Media" := MediaTypeResolver(if "Media" in t then Some(t["Media"]) else None)];
    media["Video" := MediaTypeResolver(if "Video" in media then Some(media["Video"]) else None)]
  }

  /**
   * Stand-in for the base class's registerResolvers (not part of this model):
   * it may set field and type resolvers of its own.
   */
  method ParentRegisterResolvers(registry: ResolverRegistry, fields: FieldMap, types: map<string, TypeResolver>)
    modifies registry
    ensures registry.fieldResolvers == old(registry.fieldResolvers) + fields
    ensures registry.typeResolvers == old(registry.typeResolvers) + types
  {
    registry.fieldResolvers := registry.fieldResolvers + fields;
    registry.typeResolvers := registry.typeResolvers + types;
  }

  /**
   * registerResolvers: after the base class's registrations, wrap the Media
   * and Video type resolvers, then register the media fields.
   */
  method RegisterResolvers(registry: ResolverRegistry, parentFields: FieldMap, parentTypes: map<string, TypeResolver>,
                           imageInterface: map<string, Expr>, videoInterface: map<string, Expr>)
    modifies registry
    ensures registry.typeResolvers == WrapMediaTypeResolvers(old(registry.typeResolvers) + parentTypes)
    ensures registry.fieldResolvers == ResolveFieldsResult(old(registry.fieldResolvers) + parentFields, imageInterface, videoInterface)
  {
    ParentRegisterResolvers(registry, parentFields, parentTypes);
    var media := registry.GetTypeResolver("Media");
    registry.AddTypeResolver("Media", MediaTypeResolver(media));
    var video := registry.GetTypeResolver("Video");
    registry.AddTypeResolver("Video", MediaTypeResolver(video));
    ResolveFields(registry, imageInterface, videoInterface);
  }

  /** The MediaImage fields resolveFields registers. */
  function ImageFieldNames(): set<string> {
    {"copyright", "description", "src", "derivative", "focalPoint", "width", "height", "title", "alt", "tags", "source"}
  }

  /** The MediaVideo fields resolveFields registers. */
  function VideoFieldNames(): set<string> {
    {"src", "username", "caption", "copyright", "description", "source"}
  }

  /** The MediaImage registrations name exactly the MediaImage fields listed above. */
  lemma ImageKeys()
    ensures KeysOf(ImageFieldRegistrations(), 11) == set f | f in ImageFieldNames() :: ("MediaImage", f)
  {
    var rs := ImageFieldRegistrations();
    assert rs[0].Key() == ("MediaImage", "copyright");
    assert rs[1].Key() == ("MediaImage", "description");
    assert rs[2].Key() == ("MediaImage", "src");
    assert rs[3].Key() == ("MediaImage", "derivative");
    assert rs[4].Key() == ("MediaImage", "focalPoint");
    assert rs[5].Key() == ("MediaImage", "width");
    assert rs[6].Key() == ("MediaImage", "height");
    assert rs[7].Key() == ("MediaImage", "title");
    assert rs[8].Key() == ("MediaImage", "alt");
    assert rs[9].Key() == ("MediaImage", "tags");
    assert rs[10].Key() == ("MediaImage", "source");
  }

  /** The MediaVideo registrations name exactly the MediaVideo fields listed above. */
  lemma VideoKeys()
    ensures KeysOf(VideoFieldRegistrations(), 6) == set f | f in VideoFieldNames() :: ("MediaVideo", f)
  {
    var rs := VideoFieldRegistrations();
    assert rs[0].Key() == ("MediaVideo", "src");
    assert rs[1].Key() == ("MediaVideo", "username");
    assert rs[2].Key() == ("MediaVideo", "caption");
    assert rs[3].Key() == ("MediaVideo", "copyright");
    assert rs[4].Key() == ("MediaVideo", "description");
    assert rs[5].Key() == ("MediaVideo", "source");
  }

  /** resolveFields registers no MediaImage field twice. */
  lemma ImageRegistrationsDistinct()
    ensures DistinctKeys(ImageFieldRegistrations())
  {
  }

  /** resolveFields registers no MediaVideo field twice. */
  lemma VideoRegistrationsDistinct()
    ensures DistinctKeys(VideoFieldRegistrations())
  {
  }

  /** The keys one media pass leaves: the old ones, the interface fields and the registered fields. */
  lemma MediaPassKeys(m: FieldMap, typeName: string, interface: map<string, Expr>, rs: seq<FieldRegistration>, names: set<string>)
    requires KeysOf(rs, |rs|) == set f | f in names :: (typeName, f)
    ensures MediaPass(m, typeName, interface, rs).Keys == m.Keys + (set f | f in names + interface.Keys :: (typeName, f))
  {
    RegisterPrefixKeys(WithFields(m, typeName, interface), rs, |rs|);
  }

  /** One media pass keeps every entry it does not overwrite with an interface field. */
  lemma MediaPassKeeps(m: FieldMap, typeName: string, interface: map<string, Expr>, rs: seq<FieldRegistration>)
    ensures var r := MediaPass(m, typeName, interface, rs);
      && (forall f :: f in interface ==> (typeName, f) in r && r[(typeName, f)] == interface[f])
      && (forall k :: k in m && !(k.0 == typeName && k.1 in interface) ==> k in r && r[k] == m[k])
  {
    var start := WithFields(m, typeName, interface);
    forall k | k in start ensures k in RegisterAll(start, rs) && RegisterAll(start, rs)[k] == start[k] {
      RegisterPrefixPreserves(start, rs, |rs|, k);
    }
  }

  /** A pass whose registered keys are all present already changes nothing. */
  lemma MediaPassCovered(m: FieldMap, typeName: string, rs: seq<FieldRegistration>)
    requires KeysOf(rs, |rs|) <= m.Keys
    ensures MediaPass(m, typeName, map[], rs) == m
  {
    assert WithFields(m, typeName, map[]) == m;
    RegisterAllCovered(m, rs);
  }

  /** In a pass with distinct keys, a registration whose key had no resolver takes effect. */
  lemma MediaPassDefault(m: FieldMap, typeName: string, interface: map<string, Expr>, rs: seq<FieldRegistration>, i: nat)
    requires DistinctKeys(rs) && i < |rs|
    requires rs[i].Key() !in m && !(rs[i].typeName == typeName && rs[i].fieldName in interface)
    ensures rs[i].Key() in MediaPass(m, typeName, interface, rs)
    ensures MediaPass(m, typeName, interface, rs)[rs[i].Key()] == rs[i].resolver
  {
    RegisterAllDistinct(WithFields(m, typeName, interface), rs, i);
  }

  /**
   * After resolveFields exactly these keys exist: the earlier ones, the ones
   * the interface passes add, and every MediaImage and MediaVideo field
   * resolveFields registers.
   */
  lemma ResolveFieldsKeys(m: FieldMap, imageInterface: map<string, Expr>, videoInterface: map<string, Expr>)
    ensures ResolveFieldsResult(m, imageInterface, videoInterface).Keys
      == m.Keys
         + (set f | f in ImageFieldNames() + imageInterface.Keys :: ("MediaImage", f))
         + (set f | f in VideoFieldNames() + videoInterface.Keys :: ("MediaVideo", f))
  {
    ImageKeys();
    VideoKeys();
    MediaPassKeys(m, "MediaImage", imageInterface, ImageFieldRegistrations(), ImageFieldNames());
    var image := MediaPass(m, "MediaImage", imageInterface, ImageFieldRegistrations());
    MediaPassKeys(image, "MediaVideo", videoInterface, VideoFieldRegistrations(), VideoFieldNames());
  }

  /**
   * resolveFields never replaces a resolver: whatever was there before its
   * registrations (earlier entries, or the interface passes' entries) stays.
   */
  lemma ResolveFieldsKeepsEarlier(m: FieldMap, imageInterface: map<string, Expr>, videoInterface: map<string, Expr>)
    ensures var r := ResolveFieldsResult(m, imageInterface, videoInterface);
      && (forall f :: f in imageInterface ==> ("MediaImage", f) in r && r[("MediaImage", f)] == imageInterface[f])
      && (forall f :: f in videoInterface ==> ("MediaVideo", f) in r && r[("MediaVideo", f)] == videoInterface[f])
      && (forall k :: k in m && !(k.0 == "MediaImage" && k.1 in imageInterface) && !(k.0 == "MediaVideo" && k.1 in videoInterface)
            ==> k in r && r[k] == m[k])
  {
    MediaPassKeeps(m, "MediaImage", imageInterface, ImageFieldRegistrations());
    var image := MediaPass(m, "MediaImage", imageInterface, ImageFieldRegistrations());
    MediaPassKeeps(image, "MediaVideo", videoInterface, VideoFieldRegistrations());
  }

  /** Types other than MediaImage and MediaVideo are left exactly as they were. */
  lemma ResolveFieldsOtherTypes(m: FieldMap, imageInterface: map<string, Expr>, videoInterface: map<string, Expr>, k: FieldKey)
    requires k.0 != "MediaImage" && k.0 != "MediaVideo"
    ensures var r := ResolveFieldsResult(m, imageInterface, videoInterface);
      (k in r <==> k in m) && (k in m ==> r[k] == m[k])
  {
    ResolveFieldsKeys(m, imageInterface, videoInterface);
    ResolveFieldsKeepsEarlier(m, imageInterface, videoInterface);
  }

  /** Running resolveFields again, with nothing new from the interface passes, changes nothing. */
  lemma ResolveFieldsIdempotent(m: FieldMap, imageInterface: map<string, Expr>, videoInterface: map<string, Expr>)
    ensures var r := ResolveFieldsResult(m, imageInterface, videoInterface);
      ResolveFieldsResult(r, map[], map[]) == r
  {
    var r := ResolveFieldsResult(m, imageInterface, videoInterface);
    ResolveFieldsKeys(m, imageInterface, videoInterface);
    ImageKeys();
    VideoKeys();
    MediaPassCovered(r, "MediaImage", ImageFieldRegistrations());
    MediaPassCovered(r, "MediaVideo", VideoFieldRegistrations());
  }

  /** `r` has resolver `e` under key `k`. */
  predicate Maps(r: FieldMap, k: FieldKey, e: Expr) {
    k in r && r[k] == e
  }

  /** No resolver for (type, field) before resolveFields' own registration of it. */
  predicate Unset(m: FieldMap, interface: map<string, Expr>, typeName: string, field: string) {
    (typeName, field) !in m && field !in interface
  }

  /** A registration of the first of two passes over different types survives the second. */
  lemma FirstPassDefault(m: FieldMap, t1: string, i1: map<string, Expr>, rs1: seq<FieldRegistration>,
                         t2: string, i2: map<string, Expr>, rs2: seq<FieldRegistration>, i: nat)
    requires t1 != t2 && DistinctKeys(rs1) && i < |rs1| && rs1[i].typeName == t1
    requires rs1[i].Key() !in m && rs1[i].fieldName !in i1
    ensures var r := MediaPass(MediaPass(m, t1, i1, rs1), t2, i2, rs2);
      rs1[i].Key() in r && r[rs1[i].Key()] == rs1[i].resolver
  {
    MediaPassDefault(m, t1, i1, rs1, i);
    MediaPassKeeps(MediaPass(m, t1, i1, rs1), t2, i2, rs2);
  }

  /** A registration of the second of two passes over different types takes effect when its key had no resolver. */
  lemma SecondPassDefault(m: FieldMap, t1: string, i1: map<string, Expr>, rs1: seq<FieldRegistration>, names: set<string>,
                          t2: string, i2: map<string, Expr>, rs2: seq<FieldRegistration>, i: nat)
    requires t1 != t2 && KeysOf(rs1, |rs1|) == set f | f in names :: (t1, f)
    requires DistinctKeys(rs2) && i < |rs2| && rs2[i].typeName == t2
    requires rs2[i].Key() !in m && rs2[i].fieldName !in i2
    ensures var r := MediaPass(MediaPass(m, t1, i1, rs1), t2, i2, rs2);
      rs2[i].Key() in r && r[rs2[i].Key()] == rs2[i].resolver
  {
    MediaPassKeys(m, t1, i1, rs1, names);
    MediaPassDefault(MediaPass(m, t1, i1, rs1), t2, i2, rs2, i);
  }

  /** MediaImage copyright, description and source, when they had no resolver, read fields of the media entity. */
  lemma ResolveFieldsImageEntityPaths(m: FieldMap, imageInterface: map<string, Expr>, videoInterface: map<string, Expr>)
    ensures var r := ResolveFieldsResult(m, imageInterface, videoInterface);
      && (Unset(m, imageInterface, "MediaImage", "copyright") ==>
            Maps(r, ("MediaImage", "copyright"), FromPath("entity", "field_copyright.value", None)))
      && (Unset(m, imageInterface, "MediaImage", "description") ==>
            Maps(r, ("MediaImage", "description"), FromPath("entity", "field_description.processed", None)))
      && (Unset(m, imageInterface, "MediaImage", "source") ==>
            Maps(r, ("MediaImage", "source"), FromPath("entity", "field_source.value", None)))
  {
    var rs, video := ImageFieldRegistrations(), VideoFieldRegistrations();
    ImageRegistrationsDistinct();
    if Unset(m, imageInterface, "MediaImage", "copyright") {
      FirstPassDefault(m, "MediaImage", imageInterface, rs, "MediaVideo", videoInterface, video, 0);
    }
    if Unset(m, imageInterface, "MediaImage", "description") {
      FirstPassDefault(m, "MediaImage", imageInterface, rs, "MediaVideo", videoInterface, video, 1);
    }
    if Unset(m, imageInterface, "MediaImage", "source") {
      FirstPassDefault(m, "MediaImage", imageInterface, rs, "MediaVideo", videoInterface, video, 10);
    }
  }

  /** MediaImage width and height, when they had no resolver, read the dimensions stored on field_image. */
  lemma ResolveFieldsImageDimensions(m: FieldMap, imageInterface: map<string, Expr>, videoInterface: map<string, Expr>)
    ensures var r := ResolveFieldsResult(m, imageInterface, videoInterface);
      && (Unset(m, imageInterface, "MediaImage", "width") ==>
            Maps(r, ("MediaImage", "width"), FromPath("entity", "field_image.width", None)))
      && (Unset(m, imageInterface, "MediaImage", "height") ==>
            Maps(r, ("MediaImage", "height"), FromPath("entity", "field_image.height", None)))
  {
    var rs, video := ImageFieldRegistrations(), VideoFieldRegistrations();
    ImageRegistrationsDistinct();
    if Unset(m, imageInterface, "MediaImage", "width") {
      FirstPassDefault(m, "MediaImage", imageInterface, rs, "MediaVideo", videoInterface, video, 5);
    }
    if Unset(m, imageInterface, "MediaImage", "height") {
      FirstPassDefault(m, "MediaImage", imageInterface, rs, "MediaVideo", videoInterface, video, 6);
    }
  }

  /** MediaImage title and alt, when they had no resolver, read the texts stored on field_image. */
  lemma ResolveFieldsImageTexts(m: FieldMap, imageInterface: map<string, Expr>, videoInterface: map<string, Expr>)
    ensures var r := ResolveFieldsResult(m, imageInterface, videoInterface);
      && (Unset(m, imageInterface, "MediaImage", "title") ==>
            Maps(r, ("MediaImage", "title"), FromPath("entity", "field_image.title", None)))
      && (Unset(m, imageInterface, "MediaImage", "alt") ==>
            Maps(r, ("MediaImage", "alt"), FromPath("entity", "field_image.alt", None)))
  {
    var rs, video := ImageFieldRegistrations(), VideoFieldRegistrations();
    ImageRegistrationsDistinct();
    if Unset(m, imageInterface, "MediaImage", "title") {
      FirstPassDefault(m, "MediaImage", imageInterface, rs, "MediaVideo", videoInterface, video, 7);
    }
    if Unset(m, imageInterface, "MediaImage", "alt") {
      FirstPassDefault(m, "MediaImage", imageInterface, rs, "MediaVideo", videoInterface, video, 8);
    }
  }

  /**
   * MediaImage src, derivative and focalPoint, when they had no resolver:
   * first the file entity behind field_image, then a producer fed with it.
   */
  lemma ResolveFieldsImageFiles(m: FieldMap, imageInterface: map<string, Expr>, videoInterface: map<string, Expr>)
    ensures var r := ResolveFieldsResult(m, imageInterface, videoInterface);
      && (Unset(m, imageInterface, "MediaImage", "src") ==> Maps(r, ("MediaImage", "src"), ImageSrc()))
      && (Unset(m, imageInterface, "MediaImage", "derivative") ==>
            Maps(r, ("MediaImage", "derivative"), ImageDerivative()))
      && (Unset(m, imageInterface, "MediaImage", "focalPoint") ==>
            Maps(r, ("MediaImage", "focalPoint"), ImageFocalPoint()))
  {
    var rs, video := ImageFieldRegistrations(), VideoFieldRegistrations();
    ImageRegistrationsDistinct();
    if Unset(m, imageInterface, "MediaImage", "src") {
      FirstPassDefault(m, "MediaImage", imageInterface, rs, "MediaVideo", videoInterface, video, 2);
    }
    if Unset(m, imageInterface, "MediaImage", "derivative") {
      FirstPassDefault(m, "MediaImage", imageInterface, rs, "MediaVideo", videoInterface, video, 3);
    }
    if Unset(m, imageInterface, "MediaImage", "focalPoint") {
      FirstPassDefault(m, "MediaImage", imageInterface, rs, "MediaVideo", videoInterface, video, 4);
    }
  }

  /** MediaImage tags, when it had no resolver, follows the field_tags entity references. */
  lemma ResolveFieldsImageTags(m: FieldMap, imageInterface: map<string, Expr>, videoInterface: map<string, Expr>)
    requires Unset(m, imageInterface, "MediaImage", "tags")
    ensures var r := ResolveFieldsResult(m, imageInterface, videoInterface);
      Maps(r, ("MediaImage", "tags"), FromEntityReference("field_tags", None))
  {
    ImageRegistrationsDistinct();
    FirstPassDefault(m, "MediaImage", imageInterface, ImageFieldRegistrations(),
                     "MediaVideo", videoInterface, VideoFieldRegistrations(), 9);
  }

  /** MediaVideo src, when it had no resolver, is the media's source field. */
  lemma ResolveFieldsVideoSrc(m: FieldMap, imageInterface: map<string, Expr>, videoInterface: map<string, Expr>)
    requires Unset(m, videoInterface, "MediaVideo", "src")
    ensures Maps(ResolveFieldsResult(m, imageInterface, videoInterface), ("MediaVideo", "src"), VideoSrc())
  {
    ImageKeys();
    VideoRegistrationsDistinct();
    SecondPassDefault(m, "MediaImage", imageInterface, ImageFieldRegistrations(), ImageFieldNames(),
                      "MediaVideo", videoInterface, VideoFieldRegistrations(), 0);
  }

  /** MediaVideo username and caption, when they had no resolver, read fields of the media entity. */
  lemma ResolveFieldsVideoTexts(m: FieldMap, imageInterface: map<string, Expr>, videoInterface: map<string, Expr>)
    ensures var r := ResolveFieldsResult(m, imageInterface, videoInterface);
      && (Unset(m, videoInterface, "MediaVideo", "username") ==>
            Maps(r, ("MediaVideo", "username"), FromPath("entity", "field_author.value", None)))
      && (Unset(m, videoInterface, "MediaVideo", "caption") ==>
            Maps(r, ("MediaVideo", "caption"), FromPath("entity", "field_caption.processed", None)))
  {
    var image, rs := ImageFieldRegistrations(), VideoFieldRegistrations();
    ImageKeys();
    VideoRegistrationsDistinct();
    if Unset(m, videoInterface, "MediaVideo", "username") {
      SecondPassDefault(m, "MediaImage", imageInterface, image, ImageFieldNames(), "MediaVideo", videoInterface, rs, 1);
    }
    if Unset(m, videoInterface, "MediaVideo", "caption") {
      SecondPassDefault(m, "MediaImage", imageInterface, image, ImageFieldNames(), "MediaVideo", videoInterface, rs, 2);
    }
  }

  /** MediaVideo copyright, description and source read the same entity fields as MediaImage's. */
  lemma ResolveFieldsVideoShared(m: FieldMap, imageInterface: map<string, Expr>, videoInterface: map<string, Expr>)
    ensures var r := ResolveFieldsResult(m, imageInterface, videoInterface);
      && (Unset(m, videoInterface, "MediaVideo", "copyright") ==>
            Maps(r, ("MediaVideo", "copyright"), FromPath("entity", "field_copyright.value", None)))
      && (Unset(m, videoInterface, "MediaVideo", "description") ==>
            Maps(r, ("MediaVideo", "description"), FromPath("entity", "field_description.processed", None)))
      && (Unset(m, videoInterface, "MediaVideo", "source") ==>
            Maps(r, ("MediaVideo", "source"), FromPath("entity", "field_source.value", None)))
  {
    var image, rs := ImageFieldRegistrations(), VideoFieldRegistrations();
    ImageKeys();
    VideoRegistrationsDistinct();
    if Unset(m, videoInterface, "MediaVideo", "copyright") {
      SecondPassDefault(m, "MediaImage", imageInterface, image, ImageFieldNames(), "MediaVideo", videoInterface, rs, 3);
    }
    if Unset(m, videoInterface, "MediaVideo", "description") {
      SecondPassDefault(m, "MediaImage", imageInterface, image, ImageFieldNames(), "MediaVideo", videoInterface, rs, 4);
    }
    if Unset(m, videoInterface, "MediaVideo", "source") {
      SecondPassDefault(m, "MediaImage", imageInterface, image, ImageFieldNames(), "MediaVideo", videoInterface, rs, 5);
    }
  }
}
