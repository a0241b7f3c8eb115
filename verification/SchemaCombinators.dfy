/** The `s` combinators of src/ai.ts.  Each builds a parser and a JSON Schema side by side. */
module SchemaCombinators {
  import opened Wrappers
  import opened Json
  import opened JsonSchema

  type Scalar = j: Json<real> | !j.Array? && !j.Object? witness Null

  datatype Entry = Entry(key: string, schema: Combinator)

  datatype Combinator =
    | Str(min: Option<nat>, max: Option<nat>)
    | Num(low: Option<real>, high: Option<real>, integer: bool)
    | Boolean
    | Literal(value: Scalar)
    | Enumeration(members: seq<string>)
    | Unknown
    | Arr(item: Combinator, min: Option<nat>, max: Option<nat>)
    | Rec(entry: Combinator)
    | Obj(shape: seq<Entry>, strict: bool)
    | Optional(inner: Combinator)
    | Nullable(inner: Combinator)
    | Default(inner: Combinator, fallback: Json<real>)
    | Union(alternatives: seq<Combinator>)

  /** A JavaScript object holds every key of a shape once. */
  predicate Built(s: Combinator) {
    match s
    case Arr(item, _, _) => Built(item)
    case Rec(entry) => Built(entry)
    case Obj(shape, _) =>
      && (forall i, j | 0 <= i < j < |shape| :: shape[i].key != shape[j].key)
      && (forall i | 0 <= i < |shape| :: Built(shape[i].schema))
    case Optional(inner) => Built(inner)
    case Nullable(inner) => Built(inner)
    case Default(inner, _) => Built(inner)
    case Union(alternatives) => forall i | 0 <= i < |alternatives| :: Built(alternatives[i])
    case _ => true
  }

  // ----- The published JSON Schema -----

  function Maybe(key: string, bound: Option<real>): Keywords {
    if bound.Some? then map[key := Number(bound.value)] else map[]
  }

  function Size(n: Option<nat>): Option<real> {
    if n.Some? then Some(n.value as real) else None
  }

  function Strings(members: seq<string>): seq<Json<real>> {
    seq(|members|, i requires 0 <= i < |members| => String(members[i]))
  }

  /** `toJSONSchema()`; the `optional` mark tells an enclosing object not to require the property. */
  function ToKeywords(s: Combinator): Keywords
    decreases s, 0
  {
    match s
    case Str(min, max) =>
      map["type" := String("string")] + Maybe("minLength", Size(min)) + Maybe("maxLength", Size(max))
    case Num(low, high, integer) =>
      map["type" := String(if integer then "integer" else "number")] + Maybe("minimum", low) + Maybe("maximum", high)
    case Boolean => map["type" := String("boolean")]
    case Literal(value) => map["const" := value]
    case Enumeration(members) => map["type" := String("string"), "enum" := Array(Strings(members))]
    case Unknown => map["optional" := Bool(true)]
    case Arr(item, min, max) =>
      map["type" := String("array"), "items" := Object(ToKeywords(item))]
      + Maybe("minItems", Size(min)) + Maybe("maxItems", Size(max))
    case Rec(entry) => map["type" := String("object"), "additionalProperties" := Object(ToKeywords(entry))]
    case Obj(shape, strict) =>
      map["type" := String("object"), "properties" := Object(Properties(shape)),
          "required" := Array(Required(shape)), "additionalProperties" := Bool(!strict)]
    case Optional(inner) => ToKeywords(inner)["optional" := Bool(true)]
    case Nullable(inner) =>
      map["anyOf" := Array([Object(ToKeywords(inner) - {"optional"}), Object(map["type" := String("null")])])]
      + Mark(IsOptional(inner))
    case Default(inner, fallback) => ToKeywords(inner)["default" := fallback]["optional" := Bool(true)]
    case Union(alternatives) =>
      map["anyOf" := Array(seq(|alternatives|, i requires 0 <= i < |alternatives| =>
                                 Object(ToKeywords(alternatives[i]) - {"optional"})))]
      + Mark(exists i | 0 <= i < |alternatives| :: IsOptional(alternatives[i]))
  }

  function Mark(optional: bool): Keywords {
    if optional then map["optional" := Bool(true)] else map[]
  }

  predicate IsOptional(s: Combinator)
    decreases s, 1
  {
    "optional" in ToKeywords(s)
  }

  function Properties(shape: seq<Entry>): map<string, Json<real>>
    decreases shape, 0
  {
    if shape == [] then map[]
    else
      var last := shape[|shape| - 1];
      Properties(shape[..|shape| - 1])[last.key := Object(ToKeywords(last.schema) - {"optional"})]
  }

  function Required(shape: seq<Entry>): seq<Json<real>>
    decreases shape, 0
  {
    if shape == [] then []
    else
      var last := shape[|shape| - 1];
      Required(shape[..|shape| - 1]) + if IsOptional(last.schema) then [] else [String(last.key)]
  }

  function ToSchema(s: Combinator): Schema {
    Object(ToKeywords(s))
  }

  // ----- The parser's meaning: `None` is an absent value -----

  const RESERVED: set<string> := {"__proto__", "prototype", "constructor"}

  predicate AtLeast(min: Option<real>, x: real) {
    min.Some? ==> min.value <= x
  }

  predicate AtMost(max: Option<real>, x: real) {
    max.Some? ==> x <= max.value
  }

  function Lookup(fields: map<string, Json<real>>, key: string): Option<Json<real>> {
    if key in fields then Some(fields[key]) else None
  }

  predicate Accepts(s: Combinator, input: Option<Json<real>>)
    decreases s
  {
    match s
    case Str(min, max) =>
      input.Some? && input.value.String?
      && AtLeast(Size(min), |input.value.s| as real) && AtMost(Size(max), |input.value.s| as real)
    case Num(low, high, integer) =>
      input.Some? && input.value.Number?
      && (integer ==> input.value.n.Floor as real == input.value.n)
      && AtLeast(low, input.value.n) && AtMost(high, input.value.n)
    case Boolean => input.Some? && input.value.Bool?
    case Literal(value) => input == Some(value)
    case Enumeration(members) => input.Some? && input.value.String? && input.value.s in members
    case Unknown => true
    case Arr(item, min, max) =>
      input.Some? && input.value.Array?
      && AtLeast(Size(min), |input.value.items| as real) && AtMost(Size(max), |input.value.items| as real)
      && forall i | 0 <= i < |input.value.items| :: Accepts(item, Some(input.value.items[i]))
    case Rec(entry) =>
      input.Some? && input.value.Object?
      && forall k | k in input.value.fields :: k !in RESERVED && Accepts(entry, Some(input.value.fields[k]))
    case Obj(shape, strict) =>
      input.Some? && input.value.Object?
      && (forall i | 0 <= i < |shape| :: Accepts(shape[i].schema, Lookup(input.value.fields, shape[i].key)))
      && (strict ==> forall k | k in input.value.fields :: HasKey(shape, k))
    case Optional(inner) => input.None? || Accepts(inner, input)
    case Nullable(inner) => input == Some(Null) || Accepts(inner, input)
    case Default(inner, _) => input.None? || Accepts(inner, input)
    case Union(alternatives) => exists i | 0 <= i < |alternatives| :: Accepts(alternatives[i], input)
  }

  predicate HasKey(shape: seq<Entry>, key: string) {
    exists i | 0 <= i < |shape| :: shape[i].key == key
  }

  /** What a successful parse returns. */
  function Parsed(s: Combinator, input: Option<Json<real>>): Option<Json<real>>
    requires Accepts(s, input)
    decreases s, 1
  {
    match s
    case Arr(item, _, _) =>
      Some(Array(ParsedItems(s, input.value.items, |input.value.items|)))
    case Rec(entry) =>
      Some(Object(map k | k in input.value.fields :: Present(Parsed(entry, Some(input.value.fields[k])))))
    case Obj(shape, strict) =>
      Some(Object(ParsedFields(s, input.value.fields, |shape|)))
    case Optional(inner) => if input.None? then None else Parsed(inner, input)
    case Nullable(inner) => if input == Some(Null) then input else Parsed(inner, input)
    case Default(inner, fallback) => if input.None? then Some(fallback) else Parsed(inner, input)
    case Union(alternatives) => ParsedByFirst(s, input, 0)
    case _ => input
  }

  /** JSON has no `undefined`; a present input never parses to it. */
  function Present(j: Option<Json<real>>): Json<real> {
    if j.Some? then j.value else Null
  }

  function ParsedItems(s: Combinator, items: seq<Json<real>>, n: nat): seq<Json<real>>
    requires s.Arr? && n <= |items|
    requires forall i | 0 <= i < |items| :: Accepts(s.item, Some(items[i]))
    decreases s, 0, n
  {
    if n == 0 then [] else ParsedItems(s, items, n - 1) + [Present(Parsed(s.item, Some(items[n - 1])))]
  }

  /** The output object after the first `n` entries of the shape; absent results leave no property. */
  function ParsedFields(s: Combinator, fields: map<string, Json<real>>, n: nat): map<string, Json<real>>
    requires s.Obj? && n <= |s.shape|
    requires forall i | 0 <= i < |s.shape| :: Accepts(s.shape[i].schema, Lookup(fields, s.shape[i].key))
    decreases s, 0, n
  {
    if n == 0 then (if s.strict then map[] else fields)
    else
      var e := s.shape[n - 1];
      var parsed := Parsed(e.schema, Lookup(fields, e.key));
      SetField(ParsedFields(s, fields, n - 1), e.key, parsed)
  }

  function SetField(m: map<string, Json<real>>, key: string, parsed: Option<Json<real>>): map<string, Json<real>> {
    if parsed.Some? then m[key := parsed.value] else m - {key}
  }

  function ParsedByFirst(s: Combinator, input: Option<Json<real>>, n: nat): Option<Json<real>>
    requires s.Union? && n <= |s.alternatives|
    requires exists i | n <= i < |s.alternatives| :: Accepts(s.alternatives[i], input)
    decreases s, 0, |s.alternatives| - n
  {
    if Accepts(s.alternatives[n], input) then Parsed(s.alternatives[n], input)
    else ParsedByFirst(s, input, n + 1)
  }
}
