/** A combinator's parser and its published JSON Schema accept the same values. */
module SchemaProofs {
  import opened Wrappers
  import opened Json
  import opened JsonSchema
  import opened SchemaCombinators
  import C = ContractCompatibility

  /** Validators ignore the two marks the combinators add. */
  ghost predicate Neutral(ext: Extension) {
    forall k, j, v | k in {"optional", "default"} :: ext(k, j, v)
  }

  // ----- The `optional` mark -----

  lemma {:induction false} OptionalExact(s: Combinator)
    ensures IsOptional(s) <==> Accepts(s, None)
    decreases s
  {
    match s
    case Optional(inner) =>
    case Nullable(inner) => OptionalExact(inner);
    case Default(inner, _) =>
    case Union(alternatives) =>
      forall i | 0 <= i < |alternatives|
        ensures IsOptional(alternatives[i]) <==> Accepts(alternatives[i], None)
      {
        OptionalExact(alternatives[i]);
      }
    case _ =>
  }

  // ----- Keywords that do not matter -----

  /** Two keyword maps that differ in marks only. */
  predicate SameUpToMarks(m: Keywords, n: Keywords) {
    forall k | k in m.Keys + n.Keys && k != "optional" && k != "default" :: k in m && k in n && m[k] == n[k]
  }

  lemma MarksIgnored(m: Keywords, n: Keywords, v: Value, ext: Extension)
    requires SameUpToMarks(m, n) && Neutral(ext) && Valid(Object(m), v, ext)
    ensures Valid(Object(n), v, ext)
  {
    MarksIgnoredByAssertions(m, n, v, ext);
    MarksIgnoredByParts(Object(m), Object(n), v, ext);
    if v.Object? {
      forall p | p in v.fields ensures PropertyHolds(Object(n), p, v.fields[p], ext) {
        assert PropertyHolds(Object(m), p, v.fields[p], ext);
        MarksIgnoredByParts(Object(m), Object(n), v.fields[p], ext);
      }
    }
    if v.Array? {
      forall i | 0 <= i < |v.items| ensures ItemHolds(Object(n), v.items[i], ext) {
        assert ItemHolds(Object(m), v.items[i], ext);
        MarksIgnoredByParts(Object(m), Object(n), v.items[i], ext);
      }
    }
  }

  predicate SameAt(m: Keywords, n: Keywords, k: string) {
    if k in m && k in n then m[k] == n[k] else k !in m && k !in n
  }

  lemma SupportedSame(m: Keywords, n: Keywords)
    requires SameUpToMarks(m, n)
    ensures forall k | k in SUPPORTED :: SameAt(m, n, k)
    ensures SameAt(m, n, "anyOf")
  {
  }

  lemma MarksIgnoredByAssertions(m: Keywords, n: Keywords, v: Value, ext: Extension)
    requires SameUpToMarks(m, n) && Neutral(ext) && AssertionsHold(m, v, ext)
    ensures AssertionsHold(n, v, ext)
  {
    SupportedSame(m, n);
    assert SameAt(m, n, "type") && SameAt(m, n, "enum") && SameAt(m, n, "const");
    assert SameAt(m, n, "uniqueItems") && SameAt(m, n, "required");
    assert Types(m) == Types(n);
    MarksIgnoredByBounds(m, n, v);
    forall k | k in n && Extra(k) ensures ext(k, n[k], v) {
      if k != "optional" && k != "default" {
        assert k in m.Keys + n.Keys;
      }
    }
  }

  lemma MarksIgnoredByBounds(m: Keywords, n: Keywords, v: Value)
    requires forall k | k in SUPPORTED :: SameAt(m, n, k)
    requires BoundsHold(m, v)
    ensures BoundsHold(n, v)
  {
    assert SameAt(m, n, "minimum") && SameAt(m, n, "maximum");
    assert SameAt(m, n, "exclusiveMinimum") && SameAt(m, n, "exclusiveMaximum");
    assert SameAt(m, n, "minLength") && SameAt(m, n, "maxLength");
    assert SameAt(m, n, "minItems") && SameAt(m, n, "maxItems");
  }

  lemma MarksIgnoredByParts(s: Schema, t: Schema, v: Value, ext: Extension)
    requires s.Object? && t.Object? && SameUpToMarks(s.fields, t.fields)
    ensures forall p :: PropertyHolds(s, p, v, ext) <==> PropertyHolds(t, p, v, ext)
    ensures ItemHolds(s, v, ext) <==> ItemHolds(t, v, ext)
    ensures AnyOfHolds(s, v, ext) <==> AnyOfHolds(t, v, ext)
  {
    SupportedSame(s.fields, t.fields);
    assert SameAt(s.fields, t.fields, "properties") && SameAt(s.fields, t.fields, "additionalProperties");
    assert SameAt(s.fields, t.fields, "items");
  }

  // ----- One combinator at a time -----

  lemma AnyType(m: Keywords, v: Value)
    requires "type" !in m
    ensures TypeHolds(m, v)
  {
    C.EmptyAcceptsAll(v, (k, j, w) => true);
    assert TypeHolds(C.EMPTY.fields, v);
  }

  lemma OneType(m: Keywords, t: string, v: Value)
    requires "type" in m && m["type"] == String(t)
    ensures TypeHolds(m, v) <==> HasType(String(t), v)
  {
    assert Types(m) == [String(t)];
    assert String(t) in Types(m);
  }

  lemma StrExact(s: Combinator, v: Value, ext: Extension)
    requires s.Str?
    ensures Valid(ToSchema(s), v, ext) <==> Accepts(s, Some(v))
  {
    OneType(ToKeywords(s), "string", v);
  }

  lemma NumExact(s: Combinator, v: Value, ext: Extension)
    requires s.Num?
    ensures Valid(ToSchema(s), v, ext) <==> Accepts(s, Some(v))
  {
    OneType(ToKeywords(s), if s.integer then "integer" else "number", v);
  }

  lemma BooleanExact(s: Combinator, v: Value, ext: Extension)
    requires s.Boolean?
    ensures Valid(ToSchema(s), v, ext) <==> Accepts(s, Some(v))
  {
    OneType(ToKeywords(s), "boolean", v);
  }

  lemma LiteralExact(s: Combinator, v: Value, ext: Extension)
    requires s.Literal?
    ensures Valid(ToSchema(s), v, ext) <==> Accepts(s, Some(v))
  {
    AnyType(ToKeywords(s), v);
  }

  lemma EnumerationExact(s: Combinator, v: Value, ext: Extension)
    requires s.Enumeration?
    ensures Valid(ToSchema(s), v, ext) <==> Accepts(s, Some(v))
  {
    OneType(ToKeywords(s), "string", v);
    if v.String? && v.s in s.members {
      var i :| 0 <= i < |s.members| && s.members[i] == v.s;
      assert Strings(s.members)[i] == v;
    }
  }

  lemma UnknownExact(s: Combinator, v: Value, ext: Extension)
    requires s.Unknown? && Neutral(ext)
    ensures Valid(ToSchema(s), v, ext)
  {
    AnyType(ToKeywords(s), v);
  }

  lemma ArrShape(s: Combinator)
    requires s.Arr?
    ensures var m := ToKeywords(s);
            && m.Keys <= {"type", "items", "minItems", "maxItems"} && "type" in m && "items" in m
            && m["type"] == String("array") && m["items"] == ToSchema(s.item)
            && ("minItems" in m <==> s.min.Some?) && ("maxItems" in m <==> s.max.Some?)
            && (s.min.Some? ==> m["minItems"] == Number(s.min.value as real))
            && (s.max.Some? ==> m["maxItems"] == Number(s.max.value as real))
  {
  }

  lemma ArrAssertions(s: Combinator, m: Keywords, v: Value, ext: Extension)
    requires s.Arr? && m.Keys <= {"type", "items", "minItems", "maxItems"}
    requires "type" in m && m["type"] == String("array")
    requires ("minItems" in m <==> s.min.Some?) && ("maxItems" in m <==> s.max.Some?)
    requires s.min.Some? ==> m["minItems"] == Number(s.min.value as real)
    requires s.max.Some? ==> m["maxItems"] == Number(s.max.value as real)
    ensures AssertionsHold(m, v, ext) <==>
      v.Array? && AtLeast(Size(s.min), |v.items| as real) && AtMost(Size(s.max), |v.items| as real)
  {
    OneType(m, "array", v);
  }

  lemma ArrExact(s: Combinator, v: Value, ext: Extension)
    requires s.Arr?
    ensures Valid(ToSchema(s), v, ext) <==>
      && v.Array? && AtLeast(Size(s.min), |v.items| as real) && AtMost(Size(s.max), |v.items| as real)
      && forall i | 0 <= i < |v.items| :: Valid(ToSchema(s.item), v.items[i], ext)
  {
    var m := ToKeywords(s);
    ArrShape(s);
    ArrAssertions(s, m, v, ext);
    ArrItems(m, s.item, v, ext);
  }

  lemma ArrItems(m: Keywords, item: Combinator, v: Value, ext: Extension)
    requires "items" in m && m["items"] == ToSchema(item) && "anyOf" !in m
    ensures v.Array? ==>
      (Valid(Object(m), v, ext) <==>
         AssertionsHold(m, v, ext) && forall i | 0 <= i < |v.items| :: Valid(ToSchema(item), v.items[i], ext))
    ensures !AssertionsHold(m, v, ext) ==> !Valid(Object(m), v, ext)
  {
    if v.Array? {
      forall i | 0 <= i < |v.items|
        ensures ItemHolds(Object(m), v.items[i], ext) <==> Valid(ToSchema(item), v.items[i], ext)
      {
      }
    }
  }

  lemma RecExact(s: Combinator, v: Value, ext: Extension)
    requires s.Rec?
    ensures Valid(ToSchema(s), v, ext) <==>
      v.Object? && forall k | k in v.fields :: Valid(ToSchema(s.entry), v.fields[k], ext)
  {
    var t := ToSchema(s);
    OneType(t.fields, "object", v);
    if v.Object? {
      forall k | k in v.fields
        ensures PropertyHolds(t, k, v.fields[k], ext) <==> Valid(ToSchema(s.entry), v.fields[k], ext)
      {
        assert t.fields["additionalProperties"] == ToSchema(s.entry);
      }
    }
  }

  // ----- Objects -----

  predicate DistinctKeys(shape: seq<Entry>) {
    forall i, j | 0 <= i < j < |shape| :: shape[i].key != shape[j].key
  }

  lemma HasKeyStep(shape: seq<Entry>, k: string)
    requires shape != []
    ensures HasKey(shape, k) <==> HasKey(shape[..|shape| - 1], k) || k == shape[|shape| - 1].key
  {
    var front := shape[..|shape| - 1];
    if HasKey(shape, k) && k != shape[|shape| - 1].key {
      var i :| 0 <= i < |shape| && shape[i].key == k;
      assert front[i].key == k;
    }
    if HasKey(front, k) {
      var i :| 0 <= i < |front| && front[i].key == k;
      assert shape[i].key == k;
    }
  }

  lemma {:induction false} PropertyNames(shape: seq<Entry>, k: string)
    ensures k in Properties(shape) <==> HasKey(shape, k)
  {
    if shape != [] {
      PropertyNames(shape[..|shape| - 1], k);
      HasKeyStep(shape, k);
    }
  }

  lemma {:induction false} PropertyAt(shape: seq<Entry>, i: nat)
    requires i < |shape| && DistinctKeys(shape)
    ensures shape[i].key in Properties(shape)
    ensures Properties(shape)[shape[i].key] == Object(ToKeywords(shape[i].schema) - {"optional"})
  {
    if i < |shape| - 1 {
      PropertyAt(shape[..|shape| - 1], i);
    }
  }

  predicate Requires(shape: seq<Entry>, key: string) {
    exists i | 0 <= i < |shape| :: shape[i].key == key && !IsOptional(shape[i].schema)
  }

  lemma {:induction false} RequiredOf(shape: seq<Entry>)
    ensures forall j | j in Required(shape) :: j.String?
    ensures forall k :: String(k) in Required(shape) <==> Requires(shape, k)
  {
    if shape != [] {
      var front, last := shape[..|shape| - 1], shape[|shape| - 1];
      RequiredOf(front);
      forall k
        ensures Requires(shape, k) <==> Requires(front, k) || (k == last.key && !IsOptional(last.schema))
      {
        if Requires(shape, k) {
          var i :| 0 <= i < |shape| && shape[i].key == k && !IsOptional(shape[i].schema);
          assert i < |front| ==> front[i] == shape[i];
        }
        if Requires(front, k) {
          var i :| 0 <= i < |front| && front[i].key == k && !IsOptional(front[i].schema);
          assert shape[i] == front[i];
        }
        assert shape[|shape| - 1] == last;
      }
    }
  }

  predicate PropertiesValid(shape: seq<Entry>, fields: map<string, Json<real>>, ext: Extension) {
    forall i | 0 <= i < |shape| ::
      if shape[i].key in fields then Valid(ToSchema(shape[i].schema), fields[shape[i].key], ext)
      else IsOptional(shape[i].schema)
  }

  predicate KeysKnown(shape: seq<Entry>, fields: map<string, Json<real>>) {
    forall k | k in fields :: HasKey(shape, k)
  }

  lemma UnmarkedSame(s: Combinator, v: Value, ext: Extension)
    requires Neutral(ext)
    ensures Valid(Object(ToKeywords(s) - {"optional"}), v, ext) <==> Valid(ToSchema(s), v, ext)
  {
    if Valid(ToSchema(s), v, ext) {
      MarksIgnored(ToKeywords(s), ToKeywords(s) - {"optional"}, v, ext);
    }
    if Valid(Object(ToKeywords(s) - {"optional"}), v, ext) {
      MarksIgnored(ToKeywords(s) - {"optional"}, ToKeywords(s), v, ext);
    }
  }

  /** A declared property is checked against its own schema, any other against `strict`. */
  lemma ObjDeclared(s: Combinator, i: nat, v: Value, ext: Extension)
    requires s.Obj? && DistinctKeys(s.shape) && i < |s.shape| && Neutral(ext)
    ensures PropertyHolds(ToSchema(s), s.shape[i].key, v, ext) <==> Valid(ToSchema(s.shape[i].schema), v, ext)
  {
    PropertyAt(s.shape, i);
    UnmarkedSame(s.shape[i].schema, v, ext);
    assert ToKeywords(s)["properties"] == Object(Properties(s.shape));
  }

  lemma ObjUndeclared(s: Combinator, k: string, v: Value, ext: Extension)
    requires s.Obj? && !HasKey(s.shape, k)
    ensures PropertyHolds(ToSchema(s), k, v, ext) <==> !s.strict
  {
    PropertyNames(s.shape, k);
    assert ToKeywords(s)["properties"] == Object(Properties(s.shape));
    assert ToKeywords(s)["additionalProperties"] == Bool(!s.strict);
  }

  lemma ObjRequired(s: Combinator, v: Value)
    requires s.Obj? && v.Object?
    ensures RequiredHolds(ToKeywords(s), v) <==> forall k | Requires(s.shape, k) :: k in v.fields
  {
    RequiredOf(s.shape);
    assert ToKeywords(s)["required"] == Array(Required(s.shape));
    if RequiredHolds(ToKeywords(s), v) {
      forall k | Requires(s.shape, k) ensures k in v.fields {
        assert String(k) in Required(s.shape);
      }
    }
  }

  lemma ObjAssertions(s: Combinator, v: Value, ext: Extension)
    requires s.Obj?
    ensures AssertionsHold(ToKeywords(s), v, ext) <==> v.Object? && RequiredHolds(ToKeywords(s), v)
  {
    OneType(ToKeywords(s), "object", v);
  }

  lemma ObjFieldsSound(s: Combinator, v: Value, ext: Extension)
    requires s.Obj? && DistinctKeys(s.shape) && Neutral(ext) && v.Object?
    requires forall k | Requires(s.shape, k) :: k in v.fields
    requires forall p | p in v.fields :: PropertyHolds(ToSchema(s), p, v.fields[p], ext)
    ensures PropertiesValid(s.shape, v.fields, ext) && (s.strict ==> KeysKnown(s.shape, v.fields))
  {
    forall i | 0 <= i < |s.shape|
      ensures if s.shape[i].key in v.fields then Valid(ToSchema(s.shape[i].schema), v.fields[s.shape[i].key], ext)
              else IsOptional(s.shape[i].schema)
    {
      var k := s.shape[i].key;
      if k in v.fields {
        ObjDeclared(s, i, v.fields[k], ext);
      } else {
        assert !Requires(s.shape, k);
      }
    }
    forall k | k in v.fields && s.strict ensures HasKey(s.shape, k) {
      if !HasKey(s.shape, k) {
        ObjUndeclared(s, k, v.fields[k], ext);
      }
    }
  }

  lemma ObjFieldsComplete(s: Combinator, v: Value, ext: Extension)
    requires s.Obj? && DistinctKeys(s.shape) && Neutral(ext) && v.Object?
    requires PropertiesValid(s.shape, v.fields, ext) && (s.strict ==> KeysKnown(s.shape, v.fields))
    ensures forall k | Requires(s.shape, k) :: k in v.fields
    ensures forall p | p in v.fields :: PropertyHolds(ToSchema(s), p, v.fields[p], ext)
  {
    forall p | p in v.fields ensures PropertyHolds(ToSchema(s), p, v.fields[p], ext) {
      if HasKey(s.shape, p) {
        var i :| 0 <= i < |s.shape| && s.shape[i].key == p;
        ObjDeclared(s, i, v.fields[p], ext);
      } else {
        ObjUndeclared(s, p, v.fields[p], ext);
      }
    }
  }

  /** What an object parser checks, besides that the value is an object. */
  predicate ShapeHolds(s: Combinator, fields: map<string, Json<real>>, ext: Extension)
    requires s.Obj?
  {
    PropertiesValid(s.shape, fields, ext) && (s.strict ==> KeysKnown(s.shape, fields))
  }

  lemma ObjSound(s: Combinator, v: Value, ext: Extension)
    requires s.Obj? && DistinctKeys(s.shape) && Neutral(ext) && v.Object? && Valid(ToSchema(s), v, ext)
    ensures ShapeHolds(s, v.fields, ext)
  {
    ObjAssertions(s, v, ext);
    ObjRequired(s, v);
    ObjFieldsSound(s, v, ext);
  }

  lemma ObjComplete(s: Combinator, v: Value, ext: Extension)
    requires s.Obj? && DistinctKeys(s.shape) && Neutral(ext) && v.Object? && ShapeHolds(s, v.fields, ext)
    ensures Valid(ToSchema(s), v, ext)
  {
    ObjAssertions(s, v, ext);
    ObjRequired(s, v);
    ObjFieldsComplete(s, v, ext);
    assert AnyOfHolds(ToSchema(s), v, ext);
  }

  lemma ObjExact(s: Combinator, v: Value, ext: Extension)
    requires s.Obj? && DistinctKeys(s.shape) && Neutral(ext)
    ensures Valid(ToSchema(s), v, ext) <==>
      && v.Object? && PropertiesValid(s.shape, v.fields, ext) && (s.strict ==> KeysKnown(s.shape, v.fields))
  {
    ObjAssertions(s, v, ext);
    if v.Object? && Valid(ToSchema(s), v, ext) {
      ObjSound(s, v, ext);
    }
    if v.Object? && ShapeHolds(s, v.fields, ext) {
      ObjComplete(s, v, ext);
    }
  }

  // ----- Alternatives -----

  /** A schema that consists of `anyOf` and a mark. */
  lemma AnyOfExact(m: Keywords, options: seq<Json<real>>, v: Value, ext: Extension)
    requires m.Keys <= {"anyOf", "optional"} && "anyOf" in m && m["anyOf"] == Array(options) && Neutral(ext)
    ensures Valid(Object(m), v, ext) <==> exists i | 0 <= i < |options| :: Valid(options[i], v, ext)
  {
    AnyType(m, v);
    assert AssertionsHold(m, v, ext);
    assert Object(m).fields["anyOf"].items == options;
    assert AnyOfHolds(Object(m), v, ext) <==> exists i | 0 <= i < |options| :: Valid(options[i], v, ext);
  }

  lemma NullExact(v: Value, ext: Extension)
    ensures Valid(Object(map["type" := String("null")]), v, ext) <==> v == Null
  {
    OneType(map["type" := String("null")], "null", v);
  }

  lemma NullableExact(s: Combinator, v: Value, ext: Extension)
    requires s.Nullable? && Neutral(ext)
    ensures Valid(ToSchema(s), v, ext) <==> v == Null || Valid(ToSchema(s.inner), v, ext)
  {
    var options := [Object(ToKeywords(s.inner) - {"optional"}), Object(map["type" := String("null")])];
    AnyOfExact(ToKeywords(s), options, v, ext);
    UnmarkedSame(s.inner, v, ext);
    NullExact(v, ext);
    assert Valid(options[0], v, ext) || Valid(options[1], v, ext) <==>
      exists i | 0 <= i < |options| :: Valid(options[i], v, ext);
  }

  lemma UnionExact(s: Combinator, v: Value, ext: Extension)
    requires s.Union? && Neutral(ext)
    ensures Valid(ToSchema(s), v, ext) <==>
      exists i | 0 <= i < |s.alternatives| :: Valid(ToSchema(s.alternatives[i]), v, ext)
  {
    var options := seq(|s.alternatives|, i requires 0 <= i < |s.alternatives| =>
                         Object(ToKeywords(s.alternatives[i]) - {"optional"}));
    AnyOfExact(ToKeywords(s), options, v, ext);
    forall i | 0 <= i < |options|
      ensures Valid(options[i], v, ext) <==> Valid(ToSchema(s.alternatives[i]), v, ext)
    {
      UnmarkedSame(s.alternatives[i], v, ext);
    }
  }

  lemma MarkedExact(s: Combinator, v: Value, ext: Extension)
    requires (s.Optional? || s.Default?) && Neutral(ext)
    ensures Valid(ToSchema(s), v, ext) <==> Valid(ToSchema(s.inner), v, ext)
  {
    if Valid(ToSchema(s), v, ext) {
      MarksIgnored(ToKeywords(s), ToKeywords(s.inner), v, ext);
    }
    if Valid(ToSchema(s.inner), v, ext) {
      MarksIgnored(ToKeywords(s.inner), ToKeywords(s), v, ext);
    }
  }

  // ----- Parser and schema agree -----

  /** Where the combinator reads a record, no key is reserved; of a union, one valid alternative must be so. */
  ghost predicate RecordKeysFree(s: Combinator, v: Json<real>, ext: Extension)
    decreases s
  {
    match s
    case Arr(item, _, _) => v.Array? ==> forall i | 0 <= i < |v.items| :: RecordKeysFree(item, v.items[i], ext)
    case Rec(entry) =>
      v.Object? ==> forall k | k in v.fields :: k !in RESERVED && RecordKeysFree(entry, v.fields[k], ext)
    case Obj(shape, _) =>
      v.Object? ==> forall i | 0 <= i < |shape| && shape[i].key in v.fields ::
        RecordKeysFree(shape[i].schema, v.fields[shape[i].key], ext)
    case Optional(inner) => RecordKeysFree(inner, v, ext)
    case Nullable(inner) => v == Null || RecordKeysFree(inner, v, ext)
    case Default(inner, _) => RecordKeysFree(inner, v, ext)
    case Union(alternatives) =>
      exists i | 0 <= i < |alternatives| ::
        Valid(ToSchema(alternatives[i]), v, ext) && RecordKeysFree(alternatives[i], v, ext)
    case _ => true
  }

  predicate Leaf(s: Combinator) {
    s.Str? || s.Num? || s.Boolean? || s.Literal? || s.Enumeration? || s.Unknown?
  }

  lemma LeafExact(s: Combinator, v: Value, ext: Extension)
    requires Leaf(s) && Neutral(ext)
    ensures Valid(ToSchema(s), v, ext) <==> Accepts(s, Some(v))
  {
    match s
    case Str(_, _) => StrExact(s, v, ext);
    case Num(_, _, _) => NumExact(s, v, ext);
    case Boolean => BooleanExact(s, v, ext);
    case Literal(_) => LiteralExact(s, v, ext);
    case Enumeration(_) => EnumerationExact(s, v, ext);
    case Unknown => UnknownExact(s, v, ext);
  }

  /** Whatever the parser accepts, the published schema accepts, and its records have no reserved key. */
  lemma {:induction false} AcceptedIsValid(s: Combinator, v: Value, ext: Extension)
    requires Built(s) && Neutral(ext) && Accepts(s, Some(v))
    ensures Valid(ToSchema(s), v, ext) && RecordKeysFree(s, v, ext)
    decreases s
  {
    match s
    case Arr(item, _, _) =>
      ArrExact(s, v, ext);
      forall i | 0 <= i < |v.items|
        ensures Valid(ToSchema(item), v.items[i], ext) && RecordKeysFree(item, v.items[i], ext)
      {
        AcceptedIsValid(item, v.items[i], ext);
      }
    case Rec(entry) =>
      RecExact(s, v, ext);
      forall k | k in v.fields
        ensures Valid(ToSchema(entry), v.fields[k], ext) && RecordKeysFree(entry, v.fields[k], ext)
      {
        AcceptedIsValid(entry, v.fields[k], ext);
      }
    case Obj(shape, _) =>
      ObjExact(s, v, ext);
      forall i | 0 <= i < |shape|
        ensures if shape[i].key in v.fields then
                  && Valid(ToSchema(shape[i].schema), v.fields[shape[i].key], ext)
                  && RecordKeysFree(shape[i].schema, v.fields[shape[i].key], ext)
                else IsOptional(shape[i].schema)
      {
        if shape[i].key in v.fields {
          AcceptedIsValid(shape[i].schema, v.fields[shape[i].key], ext);
        } else {
          OptionalExact(shape[i].schema);
        }
      }
    case Optional(inner) =>
      MarkedExact(s, v, ext);
      AcceptedIsValid(inner, v, ext);
    case Nullable(inner) =>
      NullableExact(s, v, ext);
      if v != Null { AcceptedIsValid(inner, v, ext); }
    case Default(inner, _) =>
      MarkedExact(s, v, ext);
      AcceptedIsValid(inner, v, ext);
    case Union(alternatives) =>
      UnionExact(s, v, ext);
      var i :| 0 <= i < |alternatives| && Accepts(alternatives[i], Some(v));
      AcceptedIsValid(alternatives[i], v, ext);
    case _ => LeafExact(s, v, ext);
  }

  /** Whatever the published schema accepts, the parser accepts, unless one of its records has a reserved key. */
  lemma {:induction false} ValidIsAccepted(s: Combinator, v: Value, ext: Extension)
    requires Built(s) && Neutral(ext) && Valid(ToSchema(s), v, ext) && RecordKeysFree(s, v, ext)
    ensures Accepts(s, Some(v))
    decreases s, 1
  {
    match s
    case Arr(_, _, _) => ValidArrayIsAccepted(s, v, ext);
    case Rec(_) => ValidRecordIsAccepted(s, v, ext);
    case Obj(_, _) => ValidObjectIsAccepted(s, v, ext);
    case Optional(inner) =>
      MarkedExact(s, v, ext);
      ValidIsAccepted(inner, v, ext);
    case Nullable(inner) =>
      NullableExact(s, v, ext);
      if v != Null { ValidIsAccepted(inner, v, ext); }
    case Default(inner, _) =>
      MarkedExact(s, v, ext);
      ValidIsAccepted(inner, v, ext);
    case Union(alternatives) =>
      UnionExact(s, v, ext);
      var i :| 0 <= i < |alternatives| &&
        Valid(ToSchema(alternatives[i]), v, ext) && RecordKeysFree(alternatives[i], v, ext);
      ValidIsAccepted(alternatives[i], v, ext);
    case _ => LeafExact(s, v, ext);
  }

  lemma {:induction false} ValidArrayIsAccepted(s: Combinator, v: Value, ext: Extension)
    requires Built(s) && Neutral(ext) && Valid(ToSchema(s), v, ext) && RecordKeysFree(s, v, ext) && s.Arr?
    ensures Accepts(s, Some(v))
    decreases s, 0
  {
    ArrExact(s, v, ext);
    forall i | 0 <= i < |v.items| ensures Accepts(s.item, Some(v.items[i])) {
      ValidIsAccepted(s.item, v.items[i], ext);
    }
  }

  lemma {:induction false} ValidRecordIsAccepted(s: Combinator, v: Value, ext: Extension)
    requires Built(s) && Neutral(ext) && Valid(ToSchema(s), v, ext) && RecordKeysFree(s, v, ext) && s.Rec?
    ensures Accepts(s, Some(v))
    decreases s, 0
  {
    RecExact(s, v, ext);
    forall k | k in v.fields ensures k !in RESERVED && Accepts(s.entry, Some(v.fields[k])) {
      ValidIsAccepted(s.entry, v.fields[k], ext);
    }
  }

  lemma {:induction false} ValidObjectIsAccepted(s: Combinator, v: Value, ext: Extension)
    requires Built(s) && Neutral(ext) && Valid(ToSchema(s), v, ext) && RecordKeysFree(s, v, ext) && s.Obj?
    ensures Accepts(s, Some(v))
    decreases s, 0
  {
    var shape := s.shape;
    ObjExact(s, v, ext);
    forall i | 0 <= i < |shape| ensures Accepts(shape[i].schema, Lookup(v.fields, shape[i].key)) {
      if shape[i].key in v.fields {
        ValidIsAccepted(shape[i].schema, v.fields[shape[i].key], ext);
      } else {
        OptionalExact(shape[i].schema);
      }
    }
  }

  /** Parser and published schema agree exactly on the values whose records have no reserved key. */
  lemma AcceptedExactly(s: Combinator, v: Value, ext: Extension)
    requires Built(s) && Neutral(ext)
    ensures Accepts(s, Some(v)) <==> Valid(ToSchema(s), v, ext) && RecordKeysFree(s, v, ext)
  {
    if Accepts(s, Some(v)) {
      AcceptedIsValid(s, v, ext);
    }
    if Valid(ToSchema(s), v, ext) && RecordKeysFree(s, v, ext) {
      ValidIsAccepted(s, v, ext);
    }
  }

  /** A combinator without records, at any depth. */
  predicate NoRecords(s: Combinator) {
    match s
    case Rec(_) => false
    case Arr(item, _, _) => NoRecords(item)
    case Obj(shape, _) => forall i | 0 <= i < |shape| :: NoRecords(shape[i].schema)
    case Optional(inner) => NoRecords(inner)
    case Nullable(inner) => NoRecords(inner)
    case Default(inner, _) => NoRecords(inner)
    case Union(alternatives) => forall i | 0 <= i < |alternatives| :: NoRecords(alternatives[i])
    case _ => true
  }

  /** Without records, whatever is valid is free. */
  lemma {:induction false} NoRecordsIsFree(s: Combinator, v: Value, ext: Extension)
    requires Built(s) && Neutral(ext) && NoRecords(s) && Valid(ToSchema(s), v, ext)
    ensures RecordKeysFree(s, v, ext)
    decreases s
  {
    match s
    case Arr(item, _, _) =>
      ArrExact(s, v, ext);
      forall i | 0 <= i < |v.items| ensures RecordKeysFree(item, v.items[i], ext) {
        NoRecordsIsFree(item, v.items[i], ext);
      }
    case Obj(shape, _) =>
      ObjExact(s, v, ext);
      forall i | 0 <= i < |shape| && shape[i].key in v.fields
        ensures RecordKeysFree(shape[i].schema, v.fields[shape[i].key], ext)
      {
        NoRecordsIsFree(shape[i].schema, v.fields[shape[i].key], ext);
      }
    case Optional(inner) =>
      MarkedExact(s, v, ext);
      NoRecordsIsFree(inner, v, ext);
    case Nullable(inner) =>
      NullableExact(s, v, ext);
      if v != Null { NoRecordsIsFree(inner, v, ext); }
    case Default(inner, _) =>
      MarkedExact(s, v, ext);
      NoRecordsIsFree(inner, v, ext);
    case Union(alternatives) =>
      UnionExact(s, v, ext);
      var i :| 0 <= i < |alternatives| && Valid(ToSchema(alternatives[i]), v, ext);
      NoRecordsIsFree(alternatives[i], v, ext);
    case _ =>
  }

  /** Why reserved keys are excluded: the schema of a record does not forbid them, its parser does. */
  lemma ReservedKeyExample(ext: Extension)
    requires Neutral(ext)
    ensures var v := Object(map["constructor" := Null]);
            Valid(ToSchema(Rec(Unknown)), v, ext) && !Accepts(Rec(Unknown), Some(v))
  {
    var v: Json<real> := Object(map["constructor" := Null]);
    RecExact(Rec(Unknown), v, ext);
    UnknownExact(Unknown, Null, ext);
    assert "constructor" in v.fields;
  }

  // ----- Parsing returns what it read -----

  predicate NoDefaults(s: Combinator) {
    match s
    case Default(_, _) => false
    case Arr(item, _, _) => NoDefaults(item)
    case Rec(entry) => NoDefaults(entry)
    case Obj(shape, _) => forall i | 0 <= i < |shape| :: NoDefaults(shape[i].schema)
    case Optional(inner) => NoDefaults(inner)
    case Nullable(inner) => NoDefaults(inner)
    case Union(alternatives) => forall i | 0 <= i < |alternatives| :: NoDefaults(alternatives[i])
    case _ => true
  }

  /** Without defaults, a parse changes nothing: it returns its input, present or absent. */
  lemma {:induction false} ParsedIsInput(s: Combinator, input: Option<Json<real>>)
    requires NoDefaults(s) && Accepts(s, input)
    ensures Parsed(s, input) == input
    decreases s, 1
  {
    match s
    case Arr(item, _, _) =>
      var items := input.value.items;
      ParsedItemsSame(s, items, |items|);
      assert items[..|items|] == items;
    case Rec(entry) => ParsedRecordSame(s, input);
    case Obj(shape, strict) => ParsedObjectSame(s, input);
    case Optional(inner) => if input.Some? { ParsedIsInput(inner, input); }
    case Nullable(inner) => if input != Some(Null) { ParsedIsInput(inner, input); }
    case Union(alternatives) => ParsedByFirstSame(s, input, 0);
    case _ =>
  }

  lemma {:induction false} ParsedRecordSame(s: Combinator, input: Option<Json<real>>)
    requires s.Rec? && NoDefaults(s) && Accepts(s, input)
    ensures Parsed(s, input) == input
    decreases s, 0
  {
    var fields := input.value.fields;
    forall k | k in fields ensures Parsed(s.entry, Some(fields[k])) == Some(fields[k]) {
      ParsedIsInput(s.entry, Some(fields[k]));
    }
    assert Parsed(s, input).value.fields == fields;
  }

  lemma {:induction false} ParsedObjectSame(s: Combinator, input: Option<Json<real>>)
    requires s.Obj? && NoDefaults(s) && Accepts(s, input)
    ensures Parsed(s, input) == input
    decreases s, 0, |s.shape| + 1
  {
    var fields := input.value.fields;
    ParsedFieldsSame(s, fields, |s.shape|);
    var out := ParsedFields(s, fields, |s.shape|);
    assert forall k | k in fields :: k in out;
    assert out == fields;
  }

  lemma {:induction false} ParsedItemsSame(s: Combinator, items: seq<Json<real>>, n: nat)
    requires s.Arr? && NoDefaults(s) && n <= |items|
    requires forall i | 0 <= i < |items| :: Accepts(s.item, Some(items[i]))
    ensures ParsedItems(s, items, n) == items[..n]
    decreases s, 0, n
  {
    if n > 0 {
      ParsedItemsSame(s, items, n - 1);
      ParsedIsInput(s.item, Some(items[n - 1]));
    }
  }

  lemma {:induction false} ParsedFieldsSame(s: Combinator, fields: map<string, Json<real>>, n: nat)
    requires s.Obj? && NoDefaults(s) && n <= |s.shape|
    requires forall i | 0 <= i < |s.shape| :: Accepts(s.shape[i].schema, Lookup(fields, s.shape[i].key))
    ensures var out := ParsedFields(s, fields, n);
            && (forall k | k in out :: k in fields && out[k] == fields[k])
            && (forall k | k in fields && (!s.strict || HasKey(s.shape[..n], k)) :: k in out)
    decreases s, 0, n
  {
    if n > 0 {
      var e := s.shape[n - 1];
      ParsedFieldsSame(s, fields, n - 1);
      ParsedIsInput(e.schema, Lookup(fields, e.key));
      forall k | HasKey(s.shape[..n], k) ensures HasKey(s.shape[..n - 1], k) || k == e.key {
        HasKeyStep(s.shape[..n], k);
        assert s.shape[..n][..n - 1] == s.shape[..n - 1];
      }
    }
  }

  lemma {:induction false} ParsedByFirstSame(s: Combinator, input: Option<Json<real>>, n: nat)
    requires s.Union? && NoDefaults(s) && n <= |s.alternatives|
    requires exists i | n <= i < |s.alternatives| :: Accepts(s.alternatives[i], input)
    ensures ParsedByFirst(s, input, n) == input
    decreases s, 0, |s.alternatives| - n
  {
    if Accepts(s.alternatives[n], input) {
      ParsedIsInput(s.alternatives[n], input);
    } else {
      ParsedByFirstSame(s, input, n + 1);
    }
  }

  // ----- Published schemas are in the scope of the compatibility check -----

  predicate InScope(s: Schema) {
    WellFormed(s) && C.Agrees(s)
  }

  lemma MarksKeepScope(m: Keywords, n: Keywords)
    requires SameUpToMarks(m, n) && InScope(Object(m))
    ensures InScope(Object(n))
  {
    SupportedSame(m, n);
    assert C.PartsAgree(Object(m));
    assert SameAt(m, n, "properties") && SameAt(m, n, "additionalProperties") && SameAt(m, n, "items");
    assert SameAt(m, n, "const") && SameAt(m, n, "enum");
    MarksKeepKeywords(m, n);
    assert C.PartsAgree(Object(n));
  }

  lemma MarksKeepKeywords(m: Keywords, n: Keywords)
    requires SameUpToMarks(m, n) && KeywordsWellFormed(m)
    ensures KeywordsWellFormed(n)
  {
    SupportedSame(m, n);
    assert SameAt(m, n, "type") && SameAt(m, n, "enum") && SameAt(m, n, "required") && SameAt(m, n, "anyOf");
    assert SameAt(m, n, "minimum") && SameAt(m, n, "maximum");
    assert SameAt(m, n, "exclusiveMinimum") && SameAt(m, n, "exclusiveMaximum");
    assert SameAt(m, n, "minLength") && SameAt(m, n, "maxLength");
    assert SameAt(m, n, "minItems") && SameAt(m, n, "maxItems");
    assert forall k | k in n :: k in m || k == "optional" || k == "default";
  }

  lemma BoundedKeywords(m: Keywords, a: string, x: Option<real>, b: string, y: Option<real>)
    requires KeywordsWellFormed(m) && a !in CONTEXTUAL && b !in CONTEXTUAL
    requires a !in {"type", "enum", "required", "anyOf"} && b !in {"type", "enum", "required", "anyOf"}
    ensures KeywordsWellFormed(m + Maybe(a, x) + Maybe(b, y))
  {
    KeywordsWithBound(m, a, x);
    KeywordsWithBound(m + Maybe(a, x), b, y);
  }

  lemma KeywordsWithBound(m: Keywords, key: string, bound: Option<real>)
    requires KeywordsWellFormed(m) && key !in CONTEXTUAL && key !in {"type", "enum", "required", "anyOf"}
    ensures KeywordsWellFormed(m + Maybe(key, bound))
  {
    var n := m + Maybe(key, bound);
    if bound.Some? {
      assert n == m[key := Number(bound.value)];
    } else {
      assert n == m;
    }
  }

  lemma ArrKeywords(s: Combinator)
    requires s.Arr?
    ensures KeywordsWellFormed(ToKeywords(s))
  {
    var base: Keywords := map["type" := String("array"), "items" := ToSchema(s.item)];
    assert KeywordsWellFormed(base);
    BoundedKeywords(base, "minItems", Size(s.min), "maxItems", Size(s.max));
  }

  lemma ArrParts(s: Combinator)
    requires s.Arr? && C.Agrees(ToSchema(s.item))
    ensures C.PartsAgree(ToSchema(s))
  {
    assert ToKeywords(s)["items"] == ToSchema(s.item);
  }

  lemma ArrInScope(s: Combinator)
    requires s.Arr? && InScope(ToSchema(s.item))
    ensures InScope(ToSchema(s))
  {
    ArrKeywords(s);
    ArrParts(s);
    ArrShape(s);
  }

  lemma RecInScope(s: Combinator)
    requires s.Rec? && InScope(ToSchema(s.entry))
    ensures InScope(ToSchema(s))
  {
    assert ToKeywords(s)["additionalProperties"] == ToSchema(s.entry);
    assert KeywordsWellFormed(ToKeywords(s));
    assert C.PartsAgree(ToSchema(s));
  }

  lemma StrInScope(s: Combinator)
    requires s.Str?
    ensures InScope(ToSchema(s))
  {
    var base: Keywords := map["type" := String("string")];
    assert KeywordsWellFormed(base);
    BoundedKeywords(base, "minLength", Size(s.min), "maxLength", Size(s.max));
  }

  lemma NumInScope(s: Combinator)
    requires s.Num?
    ensures InScope(ToSchema(s))
  {
    var base: Keywords := map["type" := String(if s.integer then "integer" else "number")];
    assert KeywordsWellFormed(base);
    BoundedKeywords(base, "minimum", s.low, "maximum", s.high);
  }

  lemma LeafInScope(s: Combinator)
    requires s.Boolean? || s.Literal? || s.Enumeration? || s.Unknown?
    ensures InScope(ToSchema(s))
  {
  }

  lemma AnyOfInScope(m: Keywords)
    requires m.Keys <= {"anyOf", "optional"} && ("anyOf" in m ==> m["anyOf"].Array?)
    ensures InScope(Object(m))
  {
  }

  lemma MarkKeys(m: Keywords, optional: bool)
    requires m.Keys == {"anyOf"}
    ensures (m + Mark(optional)).Keys <= {"anyOf", "optional"}
    ensures (m + Mark(optional))["anyOf"] == m["anyOf"]
  {
  }

  lemma NullableInScope(s: Combinator)
    requires s.Nullable?
    ensures InScope(ToSchema(s))
  {
    MarkKeys(map["anyOf" := ToKeywords(s)["anyOf"]], IsOptional(s.inner));
    AnyOfInScope(ToKeywords(s));
  }

  lemma UnionInScope(s: Combinator)
    requires s.Union?
    ensures InScope(ToSchema(s))
  {
    MarkKeys(map["anyOf" := ToKeywords(s)["anyOf"]],
             exists i | 0 <= i < |s.alternatives| :: IsOptional(s.alternatives[i]));
    AnyOfInScope(ToKeywords(s));
  }

  lemma {:induction false} PublishedInScope(s: Combinator)
    requires Built(s)
    ensures InScope(ToSchema(s))
    decreases s
  {
    match s
    case Arr(item, _, _) =>
      PublishedInScope(item);
      ArrInScope(s);
    case Rec(entry) =>
      PublishedInScope(entry);
      RecInScope(s);
    case Obj(shape, _) =>
      forall p | p in Properties(shape) ensures InScope(Properties(shape)[p]) {
        PropertyNames(shape, p);
        var i :| 0 <= i < |shape| && shape[i].key == p;
        PropertyAt(shape, i);
        PublishedInScope(shape[i].schema);
        MarksKeepScope(ToKeywords(shape[i].schema), ToKeywords(shape[i].schema) - {"optional"});
      }
      ObjectInScope(s);
    case Optional(inner) =>
      PublishedInScope(inner);
      MarksKeepScope(ToKeywords(inner), ToKeywords(s));
    case Default(inner, _) =>
      PublishedInScope(inner);
      MarksKeepScope(ToKeywords(inner), ToKeywords(s));
    case Str(_, _) => StrInScope(s);
    case Num(_, _, _) => NumInScope(s);
    case Nullable(_) => NullableInScope(s);
    case Union(_) => UnionInScope(s);
    case _ => LeafInScope(s);
  }

  lemma ObjectKeywords(s: Combinator)
    requires s.Obj?
    ensures KeywordsWellFormed(ToKeywords(s))
  {
  }

  lemma ObjectInScope(s: Combinator)
    requires s.Obj? && forall p | p in Properties(s.shape) :: InScope(Properties(s.shape)[p])
    ensures InScope(ToSchema(s))
  {
    var m := ToKeywords(s);
    assert m["properties"] == Object(Properties(s.shape)) && m["additionalProperties"] == Bool(!s.strict);
    ObjectKeywords(s);
    assert C.PartsAgree(ToSchema(s));
  }

  // ----- End to end: compatible contracts mean compatible parsers -----

  /** If the check finds nothing between two published schemas, the second parser accepts a value the first one
      accepts exactly when none of the records it reads in it has a reserved key. */
  lemma CompatibleParsers(older: Combinator, newer: Combinator, depth: nat, v: Value, ext: Extension)
    requires Built(older) && Built(newer) && Neutral(ext)
    requires C.Subsumes(ToSchema(older), ToSchema(newer), depth)
    requires Accepts(older, Some(v))
    ensures Accepts(newer, Some(v)) <==> RecordKeysFree(newer, v, ext)
    ensures NoRecords(newer) ==> Accepts(newer, Some(v))
  {
    AcceptedIsValid(older, v, ext);
    PublishedInScope(older);
    PublishedInScope(newer);
    C.SubsumesSound(ToSchema(older), ToSchema(newer), depth, v, ext);
    AcceptedExactly(newer, v, ext);
    if NoRecords(newer) {
      NoRecordsIsFree(newer, v, ext);
    }
  }
}
