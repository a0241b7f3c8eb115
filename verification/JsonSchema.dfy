/** What a JSON Schema accepts: the keywords of JSON Schema Validation draft 2020-12, sections 6.1 to 6.5,
    and of Core sections 10.2.1.2 (anyOf), 10.3.1.2 (items), 10.3.2.1 (properties) and
    10.3.2.3 (additionalProperties).  Every other keyword is given a meaning by the parameter `ext`. */
module JsonSchema {
  import opened Json

  type Schema = Json<real>
  type Value = Json<real>
  type Keywords = map<string, Json<real>>

  /** The meaning of a keyword outside this list: its name, its value and the instance. */
  type Extension = (string, Json<real>, Value) -> bool

  const ANNOTATIONS: set<string> :=
    {"title", "description", "examples", "$comment", "deprecated", "readOnly", "writeOnly"}

  const SUPPORTED: set<string> :=
    {"type", "enum", "const", "properties", "required", "additionalProperties", "items", "minimum", "maximum",
     "exclusiveMinimum", "exclusiveMaximum", "minLength", "maxLength", "minItems", "maxItems", "uniqueItems"}

  /** Keywords whose meaning needs a sibling keyword or the whole document. */
  const CONTEXTUAL: set<string> :=
    {"patternProperties", "prefixItems", "$ref", "$dynamicRef", "if", "then", "else", "contains", "minContains",
     "maxContains", "unevaluatedProperties", "unevaluatedItems"}

  const ALL_TYPES: seq<Json<real>> :=
    [String("null"), String("boolean"), String("object"), String("array"), String("number"), String("integer"),
     String("string")]

  /** The alternatives of a `type` keyword. */
  function Types(m: Keywords): seq<Json<real>> {
    if "type" !in m then ALL_TYPES
    else if m["type"].Array? then m["type"].items
    else [m["type"]]
  }

  predicate HasType(t: Json<real>, v: Value) {
    match v
    case Null => t == String("null")
    case Bool(_) => t == String("boolean")
    case Number(n) => t == String("number") || (t == String("integer") && n.Floor as real == n)
    case String(_) => t == String("string")
    case Array(_) => t == String("array")
    case Object(_) => t == String("object")
  }

  predicate TypeHolds(m: Keywords, v: Value) {
    exists t | t in Types(m) :: HasType(t, v)
  }

  predicate EnumHolds(m: Keywords, v: Value) {
    "enum" in m && m["enum"].Array? ==> v in m["enum"].items
  }

  predicate ConstHolds(m: Keywords, v: Value) {
    "const" in m ==> v == m["const"]
  }

  predicate LowerHolds(m: Keywords, key: string, x: real) {
    key in m && m[key].Number? ==> m[key].n <= x
  }

  predicate UpperHolds(m: Keywords, key: string, x: real) {
    key in m && m[key].Number? ==> x <= m[key].n
  }

  predicate BoundsHold(m: Keywords, v: Value) {
    match v
    case Number(n) =>
      && LowerHolds(m, "minimum", n)
      && UpperHolds(m, "maximum", n)
      && ("exclusiveMinimum" in m && m["exclusiveMinimum"].Number? ==> m["exclusiveMinimum"].n < n)
      && ("exclusiveMaximum" in m && m["exclusiveMaximum"].Number? ==> n < m["exclusiveMaximum"].n)
    case String(s) => LowerHolds(m, "minLength", |s| as real) && UpperHolds(m, "maxLength", |s| as real)
    case Array(items) => LowerHolds(m, "minItems", |items| as real) && UpperHolds(m, "maxItems", |items| as real)
    case _ => true
  }

  predicate UniqueHolds(m: Keywords, v: Value) {
    v.Array? && "uniqueItems" in m && m["uniqueItems"] == Bool(true) ==>
      forall i, j | 0 <= i < j < |v.items| :: v.items[i] != v.items[j]
  }

  predicate RequiredHolds(m: Keywords, v: Value) {
    v.Object? && "required" in m && m["required"].Array? ==>
      forall name | name in m["required"].items && name.String? :: name.s in v.fields
  }

  predicate Extra(key: string) {
    key !in SUPPORTED && key !in ANNOTATIONS && key != "anyOf"
  }

  predicate ExtensionsHold(m: Keywords, v: Value, ext: Extension) {
    forall k | k in m && Extra(k) :: ext(k, m[k], v)
  }

  /** The keywords that look at the instance itself. */
  predicate AssertionsHold(m: Keywords, v: Value, ext: Extension) {
    && TypeHolds(m, v)
    && EnumHolds(m, v)
    && ConstHolds(m, v)
    && BoundsHold(m, v)
    && UniqueHolds(m, v)
    && RequiredHolds(m, v)
    && ExtensionsHold(m, v, ext)
  }

  predicate Declares(m: Keywords, p: string) {
    "properties" in m && m["properties"].Object? && p in m["properties"].fields
  }

  predicate Valid(s: Schema, v: Value, ext: Extension)
    decreases s, 1
  {
    match s
    case Bool(b) => b
    case Object(m) =>
      && AssertionsHold(m, v, ext)
      && (v.Object? ==> forall p | p in v.fields :: PropertyHolds(s, p, v.fields[p], ext))
      && (v.Array? ==> forall i | 0 <= i < |v.items| :: ItemHolds(s, v.items[i], ext))
      && AnyOfHolds(s, v, ext)
    case _ => false
  }

  predicate PropertyHolds(s: Schema, p: string, v: Value, ext: Extension)
    requires s.Object?
    decreases s, 0
  {
    if Declares(s.fields, p) then Valid(s.fields["properties"].fields[p], v, ext)
    else "additionalProperties" in s.fields ==> Valid(s.fields["additionalProperties"], v, ext)
  }

  predicate ItemHolds(s: Schema, v: Value, ext: Extension)
    requires s.Object?
    decreases s, 0
  {
    "items" in s.fields ==> Valid(s.fields["items"], v, ext)
  }

  predicate AnyOfHolds(s: Schema, v: Value, ext: Extension)
    requires s.Object?
    decreases s, 0
  {
    "anyOf" in s.fields && s.fields["anyOf"].Array? ==>
      exists i | 0 <= i < |s.fields["anyOf"].items| :: Valid(s.fields["anyOf"].items[i], v, ext)
  }

  // ----- Schemas that follow the standard -----

  predicate NumberOrAbsent(m: Keywords, key: string) {
    key in m ==> m[key].Number?
  }

  predicate KeywordsWellFormed(m: Keywords) {
    && ("type" in m ==>
          m["type"].String? || (m["type"].Array? && forall t | t in m["type"].items :: t.String?))
    && ("enum" in m ==> m["enum"].Array?)
    && NumberOrAbsent(m, "minimum") && NumberOrAbsent(m, "maximum")
    && NumberOrAbsent(m, "exclusiveMinimum") && NumberOrAbsent(m, "exclusiveMaximum")
    && NumberOrAbsent(m, "minLength") && NumberOrAbsent(m, "maxLength")
    && NumberOrAbsent(m, "minItems") && NumberOrAbsent(m, "maxItems")
    && ("required" in m ==> m["required"].Array?)
    && ("anyOf" in m ==> m["anyOf"].Array?)
    && m.Keys !! CONTEXTUAL
  }

  predicate WellFormed(s: Schema)
    decreases s
  {
    match s
    case Bool(_) => true
    case Object(m) =>
      && KeywordsWellFormed(m)
      && ("properties" in m ==>
            m["properties"].Object? &&
            forall p | p in m["properties"].fields :: WellFormed(m["properties"].fields[p]))
      && ("additionalProperties" in m ==> WellFormed(m["additionalProperties"]))
      && ("items" in m ==> WellFormed(m["items"]))
    case _ => false
  }
}
