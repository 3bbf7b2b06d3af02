/**
  The built-in argument extractors of the framework (ninja.params.ArgumentExtractors).

  An extractor turns a request context into one argument value of a controller method.
  Java classes are replaced by the TypeTag enumeration, every extractor class by one
  constructor of the Extractor datatype whose fields are that class's final fields (a
  key, an attribute's class, a body's class, or nothing for the ambient extractors), and
  the request context by a record of the lookups the extractors use.
 */
module ArgumentExtractors {

  import opened Wrappers

  /** The Java classes an extractor can report as its extracted type. */
  datatype TypeTag =
    | ContextClass
    | ValidationClass
    | SessionClass
    | FlashScopeClass
    | StringClass
    | StringArrayClass
    | InputStreamClass
    | InputStreamArrayClass
    | UserClass(name: string)   // any application class (attribute and body types)

  /** An uploaded file stream, identified by its handle. */
  datatype InputStream = InputStream(handle: nat)

  /** An application object, as handed out by getAttribute or parseBody. */
  datatype Object = Object(runtimeType: TypeTag, id: nat)

  datatype Session = Session(data: map<string, string>)

  datatype FlashScope = FlashScope(data: map<string, string>)

  datatype Validation = Validation(violations: seq<string>)

  /** Outcome of a context lookup whose internals are not modelled. */
  datatype Lookup = Found(obj: Object) | NotFound | Raised(error: string)

  /**
    The request context, as far as the extractors read it. A key missing from a map
    is a lookup that returns null; getAttribute and parseBody are left uninterpreted.
   */
  datatype Context = Context(
    pathParameters: map<string, string>,
    parameters: map<string, string>,
    parameterValues: map<string, seq<string>>,
    headers: map<string, string>,
    headerValues: map<string, seq<string>>,
    session: Session,
    flash: FlashScope,
    validation: Validation,
    uploadedFile: map<string, InputStream>,
    uploadedFiles: map<string, seq<InputStream>>,
    getAttribute: (string, TypeTag) -> Lookup,
    parseBody: TypeTag -> Lookup)

  /** A value an extractor can produce; Null is Java's null. */
  datatype Value =
    | Null
    | ContextValue(context: Context)
    | ValidationValue(validation: Validation)
    | SessionValue(session: Session)
    | FlashValue(flash: FlashScope)
    | Text(text: string)
    | TextArray(texts: seq<string>)
    | Stream(stream: InputStream)
    | StreamArray(streams: seq<InputStream>)
    | Obj(obj: Object)

  /** extract either returns a value or lets an exception of a collaborator escape. */
  datatype Extraction = Returned(value: Value) | Thrown(error: string)

  /** The parameter annotations whose value() becomes an extractor's key. */
  datatype Annotation =
    | PathParam(value: string)
    | Param(value: string)
    | Params(value: string)
    | FileParam(value: string)
    | FileParams(value: string)
    | Header(value: string)
    | Headers(value: string)
    | SessionParam(value: string)
    | Attribute(value: string)

  /** One constructor per extractor class; the fields are the classes' final fields. */
  datatype Extractor =
    | ContextExtractor
    | ValidationExtractor
    | SessionExtractor
    | FlashExtractor
    | PathParamExtractor(key: string)
    | ParamExtractor(key: string)
    | ParamsExtractor(key: string)
    | FileExtractor(name: string)
    | FilesExtractor(name: string)
    | HeaderExtractor(key: string)
    | HeadersExtractor(key: string)
    | SessionParamExtractor(key: string)
    | AttributeExtractor(key: string, attributeType: TypeTag)
    | BodyAsExtractor(bodyType: TypeTag)

  /** The ambient types that the static registry serves. */
  predicate IsAmbient(t: TypeTag) {
    t.ContextClass? || t.ValidationClass? || t.SessionClass? || t.FlashScopeClass?
  }

  /** STATIC_EXTRACTORS: the immutable map from ambient type to its shared extractor. */
  const StaticExtractors: map<TypeTag, Extractor> := map[
    ContextClass := ContextExtractor,
    ValidationClass := ValidationExtractor,
    SessionClass := SessionExtractor,
    FlashScopeClass := FlashExtractor]

  /** getExtractorForType: exact-key lookup in the registry, null for any other type. */
  function GetExtractorForType(t: TypeTag): (r: Option<Extractor>)
    ensures r.Some? <==> IsAmbient(t)
    ensures r.Some? ==> GetExtractedType(r.value) == t && GetFieldName(r.value).None?
    ensures r.Some? ==> !r.value.AttributeExtractor? && !r.value.BodyAsExtractor?
  {
    if t in StaticExtractors then Some(StaticExtractors[t]) else None
  }

  /** The constructors of the keyed extractors: the annotation's value becomes the key. */
  function FromAnnotation(a: Annotation, argumentClass: TypeTag): (e: Extractor)
    ensures GetFieldName(e) == Some(a.value)
    ensures GetExtractedType(e) ==
              match a
              case PathParam(_) => StringClass
              case Param(_) => StringClass
              case Header(_) => StringClass
              case SessionParam(_) => StringClass
              case Params(_) => StringArrayClass
              case Headers(_) => StringArrayClass
              case FileParam(_) => InputStreamClass
              case FileParams(_) => InputStreamArrayClass
              case Attribute(_) => argumentClass
    ensures a.Attribute? <==> e.AttributeExtractor?
  {
    match a
    case PathParam(v) => PathParamExtractor(v)
    case Param(v) => ParamExtractor(v)
    case Params(v) => ParamsExtractor(v)
    case FileParam(v) => FileExtractor(v)
    case FileParams(v) => FilesExtractor(v)
    case Header(v) => HeaderExtractor(v)
    case Headers(v) => HeadersExtractor(v)
    case SessionParam(v) => SessionParamExtractor(v)
    case Attribute(v) => AttributeExtractor(v, argumentClass)
  }

  /** A nullable map lookup of a single string. */
  function TextOrNull(m: map<string, string>, key: string): Value {
    if key in m then Text(m[key]) else Null
  }

  /**
    The multi-valued rule of ParamsExtractor, HeadersExtractor and FilesExtractor:
    a null or empty list becomes null, never an empty array; otherwise the result is
    a copy of the list, same length, same elements, same order.
   */
  function ToArrayOrNull<T>(values: Option<seq<T>>): (r: Option<seq<T>>)
    ensures r.None? <==> values.None? || |values.value| == 0
    ensures r.Some? ==> |r.value| == |values.value| > 0
    ensures r.Some? ==> forall i :: 0 <= i < |r.value| ==> r.value[i] == values.value[i]
  {
    if values.None? || |values.value| == 0 then None else Some(values.value)
  }

  /** A nullable map lookup of a list (getParameterValues, getHeaders, getUploadedFileStreams). */
  function ListOrNull<T>(m: map<string, seq<T>>, key: string): Option<seq<T>> {
    if key in m then Some(m[key]) else None
  }

  /** What extract returns for an uninterpreted lookup: the object, null, or the exception. */
  function FromLookup(l: Lookup): Extraction {
    match l
    case Found(o) => Returned(Obj(o))
    case NotFound => Returned(Null)
    case Raised(e) => Thrown(e)
  }

  /**
    extract(context), one branch per extractor class. Only the attribute and body
    extractors can fail, and a multi-valued extractor never returns an empty array.
   */
  function Extract(e: Extractor, ctx: Context): (r: Extraction)
    ensures r.Thrown? ==> e.AttributeExtractor? || e.BodyAsExtractor?
    ensures r.Returned? && r.value.TextArray? ==> |r.value.texts| > 0
    ensures r.Returned? && r.value.StreamArray? ==> |r.value.streams| > 0
  {
    match e
    case ContextExtractor => Returned(ContextValue(ctx))
    case ValidationExtractor => Returned(ValidationValue(ctx.validation))
    case SessionExtractor => Returned(SessionValue(ctx.session))
    case FlashExtractor => Returned(FlashValue(ctx.flash))
    case PathParamExtractor(key) => Returned(TextOrNull(ctx.pathParameters, key))
    case ParamExtractor(key) => Returned(TextOrNull(ctx.parameters, key))
    case ParamsExtractor(key) =>
      var a := ToArrayOrNull(ListOrNull(ctx.parameterValues, key));
      Returned(if a.None? then Null else TextArray(a.value))
    case FileExtractor(name) =>
      Returned(if name in ctx.uploadedFile then Stream(ctx.uploadedFile[name]) else Null)
    case FilesExtractor(name) =>
      var a := ToArrayOrNull(ListOrNull(ctx.uploadedFiles, name));
      Returned(if a.None? then Null else StreamArray(a.value))
    case HeaderExtractor(key) => Returned(TextOrNull(ctx.headers, key))
    case HeadersExtractor(key) =>
      var a := ToArrayOrNull(ListOrNull(ctx.headerValues, key));
      Returned(if a.None? then Null else TextArray(a.value))
    case SessionParamExtractor(key) => Returned(TextOrNull(ctx.session.data, key))
    case AttributeExtractor(key, attributeType) => FromLookup(ctx.getAttribute(key, attributeType))
    case BodyAsExtractor(bodyType) => FromLookup(ctx.parseBody(bodyType))
  }

  /** The extractors that need no key: the four the static registry holds. */
  predicate IsAmbientExtractor(e: Extractor) {
    e.ContextExtractor? || e.ValidationExtractor? || e.SessionExtractor? || e.FlashExtractor?
  }

  /**
    getExtractedType: fixed per class for every extractor but the attribute and body
    extractors, which report the class they were built with.
   */
  function GetExtractedType(e: Extractor): (r: TypeTag)
    ensures e.AttributeExtractor? ==> r == e.attributeType
    ensures e.BodyAsExtractor? ==> r == e.bodyType
    ensures IsAmbientExtractor(e) ==> IsAmbient(r)
    ensures !IsAmbientExtractor(e) && !e.AttributeExtractor? && !e.BodyAsExtractor? ==>
              r in {StringClass, StringArrayClass, InputStreamClass, InputStreamArrayClass}
  {
    match e
    case ContextExtractor => ContextClass
    case ValidationExtractor => ValidationClass
    case SessionExtractor => SessionClass
    case FlashExtractor => FlashScopeClass
    case PathParamExtractor(_) => StringClass
    case ParamExtractor(_) => StringClass
    case ParamsExtractor(_) => StringArrayClass
    case FileExtractor(_) => InputStreamClass
    case FilesExtractor(_) => InputStreamArrayClass
    case HeaderExtractor(_) => StringClass
    case HeadersExtractor(_) => StringArrayClass
    case SessionParamExtractor(_) => StringClass
    case AttributeExtractor(_, attributeType) => attributeType
    case BodyAsExtractor(bodyType) => bodyType
  }

  /** getFieldName: the key for keyed extractors, null for the ambient ones and BodyAs. */
  function GetFieldName(e: Extractor): (r: Option<string>)
    ensures r.None? <==> IsAmbientExtractor(e) || e.BodyAsExtractor?
  {
    match e
    case ContextExtractor => None
    case ValidationExtractor => None
    case SessionExtractor => None
    case FlashExtractor => None
    case PathParamExtractor(key) => Some(key)
    case ParamExtractor(key) => Some(key)
    case ParamsExtractor(key) => Some(key)
    case FileExtractor(name) => Some(name)
    case FilesExtractor(name) => Some(name)
    case HeaderExtractor(key) => Some(key)
    case HeadersExtractor(key) => Some(key)
    case SessionParamExtractor(key) => Some(key)
    case AttributeExtractor(key, _) => Some(key)
    case BodyAsExtractor(_) => None
  }

  /** A value is of a Java type when it is null or an instance of exactly that type. */
  ghost predicate HasType(v: Value, t: TypeTag) {
    match v
    case Null => true
    case ContextValue(_) => t == ContextClass
    case ValidationValue(_) => t == ValidationClass
    case SessionValue(_) => t == SessionClass
    case FlashValue(_) => t == FlashScopeClass
    case Text(_) => t == StringClass
    case TextArray(_) => t == StringArrayClass
    case Stream(_) => t == InputStreamClass
    case StreamArray(_) => t == InputStreamArrayClass
    case Obj(o) => o.runtimeType == t
  }

  /** The context honours the type argument of getAttribute and parseBody. */
  ghost predicate HonoursTypes(ctx: Context) {
    && (forall key, t :: ctx.getAttribute(key, t).Found? ==> ctx.getAttribute(key, t).obj.runtimeType == t)
    && (forall t :: ctx.parseBody(t).Found? ==> ctx.parseBody(t).obj.runtimeType == t)
  }

  /** Two maps agree on one key: both lack it, or both hold the same value under it. */
  ghost predicate SameEntry<K, V>(m1: map<K, V>, m2: map<K, V>, k: K) {
    (k in m1 <==> k in m2) && (k in m1 ==> m1[k] == m2[k])
  }

  /** Two contexts agree on everything extractor e reads, under e's own key. */
  ghost predicate ReadsAlike(e: Extractor, c1: Context, c2: Context) {
    match e
    case ContextExtractor => c1 == c2
    case ValidationExtractor => c1.validation == c2.validation
    case SessionExtractor => c1.session == c2.session
    case FlashExtractor => c1.flash == c2.flash
    case PathParamExtractor(key) => SameEntry(c1.pathParameters, c2.pathParameters, key)
    case ParamExtractor(key) => SameEntry(c1.parameters, c2.parameters, key)
    case ParamsExtractor(key) => SameEntry(c1.parameterValues, c2.parameterValues, key)
    case FileExtractor(name) => SameEntry(c1.uploadedFile, c2.uploadedFile, name)
    case FilesExtractor(name) => SameEntry(c1.uploadedFiles, c2.uploadedFiles, name)
    case HeaderExtractor(key) => SameEntry(c1.headers, c2.headers, key)
    case HeadersExtractor(key) => SameEntry(c1.headerValues, c2.headerValues, key)
    case SessionParamExtractor(key) => SameEntry(c1.session.data, c2.session.data, key)
    case AttributeExtractor(key, t) => c1.getAttribute(key, t) == c2.getAttribute(key, t)
    case BodyAsExtractor(t) => c1.parseBody(t) == c2.parseBody(t)
  }

  // ---------------------------------------------------------------------------
  // Properties of the extractors
  // ---------------------------------------------------------------------------

  /** The ambient extractors hand out the context itself or its component. */
  lemma AmbientExtractors(ctx: Context)
    ensures Extract(StaticExtractors[ContextClass], ctx) == Returned(ContextValue(ctx))
    ensures Extract(StaticExtractors[ValidationClass], ctx) == Returned(ValidationValue(ctx.validation))
    ensures Extract(StaticExtractors[SessionClass], ctx) == Returned(SessionValue(ctx.session))
    ensures Extract(StaticExtractors[FlashScopeClass], ctx) == Returned(FlashValue(ctx.flash))
  {
  }

  /** Whatever an extractor returns has the type it reports (Extractor<T>). */
  lemma ExtractIsWellTyped(e: Extractor, ctx: Context)
    requires HonoursTypes(ctx)
    ensures Extract(e, ctx).Returned? ==> HasType(Extract(e, ctx).value, GetExtractedType(e))
  {
  }

  /**
    The extractor built from @Params, @Headers or @FileParams reads the list under the
    annotation's value: a missing or empty list gives null, any other list is copied whole.
   */
  lemma MultiValuedPolicy(v: string, c: TypeTag, ctx: Context)
    ensures Extract(FromAnnotation(Params(v), c), ctx) ==
              Returned(if v !in ctx.parameterValues || ctx.parameterValues[v] == [] then Null
                       else TextArray(ctx.parameterValues[v]))
    ensures Extract(FromAnnotation(Headers(v), c), ctx) ==
              Returned(if v !in ctx.headerValues || ctx.headerValues[v] == [] then Null
                       else TextArray(ctx.headerValues[v]))
    ensures Extract(FromAnnotation(FileParams(v), c), ctx) ==
              Returned(if v !in ctx.uploadedFiles || ctx.uploadedFiles[v] == [] then Null
                       else StreamArray(ctx.uploadedFiles[v]))
  {
  }

  /**
    The extractor built from @PathParam, @Param, @Header, @SessionParam or @FileParam
    returns exactly the context's lookup under the annotation's value.
   */
  lemma KeyedLookups(v: string, c: TypeTag, ctx: Context)
    ensures Extract(FromAnnotation(PathParam(v), c), ctx) == Returned(TextOrNull(ctx.pathParameters, v))
    ensures Extract(FromAnnotation(Param(v), c), ctx) == Returned(TextOrNull(ctx.parameters, v))
    ensures Extract(FromAnnotation(Header(v), c), ctx) == Returned(TextOrNull(ctx.headers, v))
    ensures Extract(FromAnnotation(SessionParam(v), c), ctx) == Returned(TextOrNull(ctx.session.data, v))
    ensures Extract(FromAnnotation(FileParam(v), c), ctx) ==
              Returned(if v in ctx.uploadedFile then Stream(ctx.uploadedFile[v]) else Null)
  {
  }

  /** Attribute and BodyAs report the class they pass to the context. */
  lemma TypedLookups(v: string, t: TypeTag, ctx: Context)
    ensures GetExtractedType(FromAnnotation(Attribute(v), t)) == t
    ensures Extract(FromAnnotation(Attribute(v), t), ctx) ==
              FromLookup(ctx.getAttribute(v, GetExtractedType(FromAnnotation(Attribute(v), t))))
    ensures GetExtractedType(BodyAsExtractor(t)) == t && GetFieldName(BodyAsExtractor(t)).None?
    ensures Extract(BodyAsExtractor(t), ctx) == FromLookup(ctx.parseBody(GetExtractedType(BodyAsExtractor(t))))
  {
  }

  /**
    Extraction has no hidden state: an extractor gives the same result on any two
    contexts that agree on what it reads under its own key.
   */
  lemma Deterministic(e: Extractor, c1: Context, c2: Context)
    requires ReadsAlike(e, c1, c2)
    ensures Extract(e, c1) == Extract(e, c2)
  {
  }
}
