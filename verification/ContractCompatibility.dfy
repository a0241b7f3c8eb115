/** src/contract-compatibility.ts: a conservative check that a new contract accepts every call and keeps
    every answer of the old one. */
module ContractCompatibility {
  import opened Wrappers
  import opened Json
  import opened JsonSchema

  // ----- The check on schemas -----

  const LOWER_BOUNDS: seq<string> := ["minimum", "exclusiveMinimum", "minLength", "minItems"]
  const UPPER_BOUNDS: seq<string> := ["maximum", "exclusiveMaximum", "maxLength", "maxItems"]

  predicate SameKeyword(a: Keywords, b: Keywords, key: string) {
    if key in a && key in b then a[key] == b[key] else key !in a && key !in b
  }

  predicate Reviewed(key: string) {
    key !in SUPPORTED && key !in ANNOTATIONS
  }

  predicate TypeCovered(t: Json<real>, to: seq<Json<real>>) {
    t in to || (t == String("integer") && String("number") in to)
  }

  /** The values of `const`, or else of `enum`. */
  function Values(m: Keywords): Option<Json<real>> {
    if "const" in m then Some(Array([m["const"]]))
    else if "enum" in m then Some(m["enum"])
    else None
  }

  predicate ValuesCovered(a: Keywords, b: Keywords) {
    Values(b).Some? ==>
      && Values(b).value.Array?
      && Values(a).Some? && Values(a).value.Array?
      && forall x | x in Values(a).value.items :: x in Values(b).value.items
  }

  predicate Above(x: Json<real>, y: Json<real>) {
    x.Number? && y.Number? && x.n > y.n
  }

  predicate LowerCovered(a: Keywords, b: Keywords, key: string) {
    key in b ==> key in a && !Above(b[key], a[key])
  }

  predicate UpperCovered(a: Keywords, b: Keywords, key: string) {
    key in b ==> key in a && !Above(a[key], b[key])
  }

  predicate UniqueCovered(a: Keywords, b: Keywords) {
    "uniqueItems" in b && b["uniqueItems"] == Bool(true) ==>
      "uniqueItems" in a && a["uniqueItems"] == Bool(true)
  }

  /** The checks on one pair of schema objects that need no other schema. */
  predicate KeywordsCovered(a: Keywords, b: Keywords) {
    && (forall k | k in a.Keys + b.Keys && Reviewed(k) :: SameKeyword(a, b, k))
    && (forall t | t in Types(a) :: TypeCovered(t, Types(b)))
    && ValuesCovered(a, b)
    && (forall i | 0 <= i < |LOWER_BOUNDS| :: LowerCovered(a, b, LOWER_BOUNDS[i]))
    && (forall i | 0 <= i < |UPPER_BOUNDS| :: UpperCovered(a, b, UPPER_BOUNDS[i]))
    && UniqueCovered(a, b)
  }

  /** `m[key] ?? fallback` */
  function Or(m: Keywords, key: string, fallback: Json<real>): Json<real> {
    if key in m && !m[key].Null? then m[key] else fallback
  }

  const EMPTY: Json<real> := Object(map[])

  predicate ObjectsReadable(a: Keywords, b: Keywords) {
    && Or(a, "required", Array([])).Array? && Or(b, "required", Array([])).Array?
    && Or(a, "properties", EMPTY).Object? && Or(b, "properties", EMPTY).Object?
  }

  predicate RequiredCovered(a: Keywords, b: Keywords)
    requires ObjectsReadable(a, b)
  {
    forall name | name in Or(b, "required", Array([])).items :: name in Or(a, "required", Array([])).items
  }

  predicate ClosedCovered(a: Keywords, b: Keywords) {
    "additionalProperties" in b && b["additionalProperties"] == Bool(false) ==>
      "additionalProperties" in a && a["additionalProperties"] == Bool(false)
  }

  /** The schema a property falls under. */
  function PropertySchema(m: Keywords, name: string): Json<real>
    requires Or(m, "properties", EMPTY).Object?
  {
    var declared := Or(m, "properties", EMPTY).fields;
    if name in declared then declared[name] else Or(m, "additionalProperties", EMPTY)
  }

  function TrueAsEmpty(s: Json<real>): Json<real> {
    if s == Bool(true) then EMPTY else s
  }

  /** An additionalProperties schema, or the empty schema when it is a boolean or missing. */
  function AdditionalSchema(m: Keywords): Json<real> {
    if "additionalProperties" in m && (m["additionalProperties"].Object? || m["additionalProperties"].Array?)
    then m["additionalProperties"] else EMPTY
  }

  predicate ConstrainsAdditional(m: Keywords) {
    "additionalProperties" in m && (m["additionalProperties"].Object? || m["additionalProperties"].Array?)
  }

  predicate BothAllow(kind: string, a: Keywords, b: Keywords) {
    String(kind) in Types(a) && String(kind) in Types(b)
  }

  /** No finding: everything the source schema accepts, the target is expected to accept. */
  predicate Subsumes(source: Json<real>, target: Json<real>, depth: nat)
    decreases 33 - depth, 2
  {
    && depth <= 32
    && source.Object? && target.Object?
    && (source == target || (
          && KeywordsCovered(source.fields, target.fields)
          && (BothAllow("object", source.fields, target.fields) ==>
                ObjectSubsumes(source.fields, target.fields, depth))
          && (BothAllow("array", source.fields, target.fields) ==>
                Subsumes(Or(source.fields, "items", EMPTY), Or(target.fields, "items", EMPTY), depth + 1))))
  }

  predicate ObjectSubsumes(a: Keywords, b: Keywords, depth: nat)
    requires depth <= 32
    decreases 33 - depth, 1
  {
    && ObjectsReadable(a, b)
    && RequiredCovered(a, b)
    && ClosedCovered(a, b)
    && (forall name | name in Or(a, "properties", EMPTY).fields.Keys + Or(b, "properties", EMPTY).fields.Keys ::
          PropertySubsumes(PropertySchema(a, name), PropertySchema(b, name), depth))
    && (ConstrainsAdditional(b) ==> Subsumes(AdditionalSchema(a), b["additionalProperties"], depth + 1))
  }

  predicate PropertySubsumes(p: Json<real>, q: Json<real>, depth: nat)
    requires depth <= 32
    decreases 33 - depth, 0
  {
    p == Bool(false) || (q != Bool(false) && Subsumes(TrueAsEmpty(p), TrueAsEmpty(q), depth + 1))
  }

  // ----- The check is sound -----

  /** Everything `s` accepts, `t` accepts. */
  ghost predicate Includes(s: Schema, t: Schema, ext: Extension) {
    forall v :: Valid(s, v, ext) ==> Valid(t, v, ext)
  }

  predicate ConstInEnum(m: Keywords) {
    "const" in m && "enum" in m && m["enum"].Array? ==> m["const"] in m["enum"].items
  }

  /** Wherever the check looks, a `const` next to an `enum` is one of its values. */
  predicate Agrees(s: Schema)
    decreases s, 1
  {
    s.Object? ==> ConstInEnum(s.fields) && PartsAgree(s)
  }

  predicate PartsAgree(s: Schema)
    requires s.Object?
    decreases s, 0
  {
    && ("properties" in s.fields && s.fields["properties"].Object? ==>
          forall p | p in s.fields["properties"].fields :: Agrees(s.fields["properties"].fields[p]))
    && ("additionalProperties" in s.fields ==> Agrees(s.fields["additionalProperties"]))
    && ("items" in s.fields ==> Agrees(s.fields["items"]))
  }

  lemma EmptyAcceptsAll(v: Value, ext: Extension)
    ensures Valid(EMPTY, v, ext)
    ensures WellFormed(EMPTY) && Agrees(EMPTY)
  {
    var k := if v.Null? then 0 else if v.Bool? then 1 else if v.Object? then 2 else if v.Array? then 3
             else if v.Number? then 4 else 6;
    assert ALL_TYPES[k] in Types(EMPTY.fields) && HasType(ALL_TYPES[k], v);
  }

  lemma TypesSound(a: Keywords, b: Keywords, v: Value)
    requires forall t | t in Types(a) :: TypeCovered(t, Types(b))
    requires TypeHolds(a, v)
    ensures TypeHolds(b, v)
    ensures v.Object? ==> BothAllow("object", a, b)
    ensures v.Array? ==> BothAllow("array", a, b)
  {
    var t :| t in Types(a) && HasType(t, v);
    if t !in Types(b) {
      assert HasType(String("number"), v);
    }
  }

  lemma ValuesSound(a: Keywords, b: Keywords, v: Value)
    requires KeywordsWellFormed(a) && ValuesCovered(a, b) && ConstInEnum(b)
    requires EnumHolds(a, v) && ConstHolds(a, v)
    ensures EnumHolds(b, v) && ConstHolds(b, v)
  {
    if Values(b).Some? {
      assert v in Values(a).value.items;
      assert v in Values(b).value.items;
    }
  }

  lemma BoundsSound(a: Keywords, b: Keywords, v: Value)
    requires KeywordsWellFormed(a) && KeywordsWellFormed(b)
    requires forall i | 0 <= i < |LOWER_BOUNDS| :: LowerCovered(a, b, LOWER_BOUNDS[i])
    requires forall i | 0 <= i < |UPPER_BOUNDS| :: UpperCovered(a, b, UPPER_BOUNDS[i])
    requires BoundsHold(a, v)
    ensures BoundsHold(b, v)
  {
    assert LowerCovered(a, b, LOWER_BOUNDS[0]) && LowerCovered(a, b, LOWER_BOUNDS[1]);
    assert LowerCovered(a, b, LOWER_BOUNDS[2]) && LowerCovered(a, b, LOWER_BOUNDS[3]);
    assert UpperCovered(a, b, UPPER_BOUNDS[0]) && UpperCovered(a, b, UPPER_BOUNDS[1]);
    assert UpperCovered(a, b, UPPER_BOUNDS[2]) && UpperCovered(a, b, UPPER_BOUNDS[3]);
  }

  lemma ExtensionsSound(a: Keywords, b: Keywords, v: Value, ext: Extension)
    requires forall k | k in a.Keys + b.Keys && Reviewed(k) :: SameKeyword(a, b, k)
    requires ExtensionsHold(a, v, ext)
    ensures ExtensionsHold(b, v, ext)
  {
    forall k | k in b && Extra(k) ensures ext(k, b[k], v) {
      assert SameKeyword(a, b, k);
    }
  }

  lemma AnyOfSound(s: Schema, t: Schema, v: Value, ext: Extension)
    requires s.Object? && t.Object?
    requires forall k | k in s.fields.Keys + t.fields.Keys && Reviewed(k) :: SameKeyword(s.fields, t.fields, k)
    requires AnyOfHolds(s, v, ext)
    ensures AnyOfHolds(t, v, ext)
  {
    if "anyOf" in t.fields {
      assert SameKeyword(s.fields, t.fields, "anyOf");
    }
  }

  lemma RequiredSound(a: Keywords, b: Keywords, v: Value)
    requires KeywordsWellFormed(a) && KeywordsWellFormed(b)
    requires ObjectsReadable(a, b) && RequiredCovered(a, b)
    requires RequiredHolds(a, v)
    ensures RequiredHolds(b, v)
  {
  }

  /** If the check raises no finding, the target accepts every value the source accepts. */
  lemma {:induction false} SubsumesSound(s: Schema, t: Schema, depth: nat, v: Value, ext: Extension)
    requires WellFormed(s) && WellFormed(t) && Agrees(t)
    requires Subsumes(s, t, depth) && Valid(s, v, ext)
    ensures Valid(t, v, ext)
    decreases 33 - depth, 2
  {
    if s != t {
      var a, b := s.fields, t.fields;
      TypesSound(a, b, v);
      ValuesSound(a, b, v);
      BoundsSound(a, b, v);
      ExtensionsSound(a, b, v, ext);
      AnyOfSound(s, t, v, ext);
      if v.Object? {
        RequiredSound(a, b, v);
        forall p | p in v.fields ensures PropertyHolds(t, p, v.fields[p], ext) {
          assert PropertyHolds(s, p, v.fields[p], ext);
          PropertySound(s, t, depth, p, v.fields[p], ext);
        }
      }
      if v.Array? {
        forall i | 0 <= i < |v.items| ensures ItemHolds(t, v.items[i], ext) {
          assert ItemHolds(s, v.items[i], ext);
          EmptyAcceptsAll(v.items[i], ext);
          PropertySchemaAgrees(t, "");
          SubsumesSound(Or(a, "items", EMPTY), Or(b, "items", EMPTY), depth + 1, v.items[i], ext);
        }
      }
    }
  }

  /** The schema a property falls under decides it. */
  lemma PropertyHoldsBySchema(s: Schema, p: string, v: Value, ext: Extension)
    requires WellFormed(s) && s.Object?
    ensures Or(s.fields, "properties", EMPTY).Object?
    ensures PropertyHolds(s, p, v, ext) <==> Valid(PropertySchema(s.fields, p), v, ext)
    ensures WellFormed(PropertySchema(s.fields, p))
  {
    EmptyAcceptsAll(v, ext);
  }

  lemma PropertySchemaAgrees(s: Schema, p: string)
    requires WellFormed(s) && s.Object? && Agrees(s)
    ensures Agrees(PropertySchema(s.fields, p))
    ensures "items" in s.fields ==> Agrees(s.fields["items"])
    ensures "additionalProperties" in s.fields ==> Agrees(s.fields["additionalProperties"])
  {
    assert PartsAgree(s);
    assert Agrees(EMPTY);
  }

  lemma TrueAsEmptySame(s: Schema, v: Value, ext: Extension)
    requires WellFormed(s)
    ensures Valid(TrueAsEmpty(s), v, ext) <==> Valid(s, v, ext)
    ensures WellFormed(TrueAsEmpty(s))
    ensures Agrees(s) ==> Agrees(TrueAsEmpty(s))
  {
    EmptyAcceptsAll(v, ext);
  }

  lemma {:induction false} PropertySound(s: Schema, t: Schema, depth: nat, p: string, v: Value, ext: Extension)
    requires WellFormed(s) && WellFormed(t) && Agrees(t) && s.Object? && t.Object?
    requires depth <= 32 && ObjectSubsumes(s.fields, t.fields, depth)
    requires PropertyHolds(s, p, v, ext)
    ensures PropertyHolds(t, p, v, ext)
    decreases 33 - depth, 1
  {
    var a, b := s.fields, t.fields;
    var left, right := PropertySchema(a, p), PropertySchema(b, p);
    PropertyHoldsBySchema(s, p, v, ext);
    PropertyHoldsBySchema(t, p, v, ext);
    PropertySchemaAgrees(t, p);
    if p in Or(a, "properties", EMPTY).fields.Keys + Or(b, "properties", EMPTY).fields.Keys {
      assert PropertySubsumes(left, right, depth);
      TrueAsEmptySame(left, v, ext);
      TrueAsEmptySame(right, v, ext);
      SubsumesSound(TrueAsEmpty(left), TrueAsEmpty(right), depth + 1, v, ext);
    } else {
      AdditionalSound(s, t, depth, v, ext);
    }
  }

  /** Properties neither side declares. */
  lemma {:induction false} AdditionalSound(s: Schema, t: Schema, depth: nat, v: Value, ext: Extension)
    requires WellFormed(s) && WellFormed(t) && Agrees(t) && s.Object? && t.Object?
    requires depth <= 32 && ObjectSubsumes(s.fields, t.fields, depth)
    requires Valid(Or(s.fields, "additionalProperties", EMPTY), v, ext)
    ensures Valid(Or(t.fields, "additionalProperties", EMPTY), v, ext)
    decreases 33 - depth, 0
  {
    EmptyAcceptsAll(v, ext);
    PropertySchemaAgrees(t, "");
    if ConstrainsAdditional(t.fields) {
      SubsumesSound(AdditionalSchema(s.fields), t.fields["additionalProperties"], depth + 1, v, ext);
    }
  }

  // ----- The one unsound corner: `enum` is not read beside `const` -----

  function WithoutEnum(t: Schema): Schema
    requires t.Object?
  {
    Object(t.fields - {"enum"})
  }

  lemma KeywordsCoverWithoutEnum(t: Schema)
    requires WellFormed(t) && t.Object? && "const" in t.fields
    ensures KeywordsCovered(WithoutEnum(t).fields, t.fields)
  {
    var a, b := WithoutEnum(t).fields, t.fields;
    assert Types(a) == Types(b) && Values(a) == Values(b);
  }

  /** Dropping an `enum` that stands beside a `const` raises no finding. */
  lemma WithoutEnumSubsumes(t: Schema)
    requires WellFormed(t) && t.Object? && "const" in t.fields
    requires "items" in t.fields ==> t.fields["items"].Object?
    ensures Subsumes(WithoutEnum(t), t, 0)
  {
    var a, b := WithoutEnum(t).fields, t.fields;
    KeywordsCoverWithoutEnum(t);
    assert Or(a, "properties", EMPTY) == Or(b, "properties", EMPTY);
    assert Or(a, "required", Array([])) == Or(b, "required", Array([]));
    assert Or(a, "additionalProperties", EMPTY) == Or(b, "additionalProperties", EMPTY);
    assert Or(a, "items", EMPTY) == Or(b, "items", EMPTY);
    forall name | name in Or(b, "properties", EMPTY).fields
      ensures PropertySubsumes(PropertySchema(a, name), PropertySchema(b, name), 0)
    {
      assert WellFormed(PropertySchema(b, name)) && PropertySchema(a, name) == PropertySchema(b, name);
      assert TrueAsEmpty(PropertySchema(b, name)).Object? || PropertySchema(b, name) == Bool(false);
    }
    assert ConstrainsAdditional(b) ==> AdditionalSchema(a) == b["additionalProperties"];
    assert ConstrainsAdditional(b) ==> WellFormed(b["additionalProperties"]);
    assert ObjectSubsumes(a, b, 0);
  }

  /** A pair that passes the check although the target rejects a value the source accepts. */
  lemma IgnoredEnumExample(ext: Extension)
    ensures var t := Object(map["const" := Number(1.0), "enum" := Array([Number(2.0)])]);
            && WellFormed(t) && WellFormed(WithoutEnum(t)) && Subsumes(WithoutEnum(t), t, 0)
            && Valid(WithoutEnum(t), Number(1.0), ext) && !Valid(t, Number(1.0), ext)
  {
    var t := Object(map["const" := Number(1.0), "enum" := Array([Number(2.0)])]);
    WithoutEnumSubsumes(t);
    assert WithoutEnum(t).fields == map["const" := Number(1.0)];
    ConstAccepts(Number(1.0), ext);
    assert !EnumHolds(t.fields, Number(1.0));
  }

  lemma ConstAccepts(x: Json<real>, ext: Extension)
    requires x.Number?
    ensures Valid(Object(map["const" := x]), x, ext)
  {
    var m: Keywords := map["const" := x];
    assert ALL_TYPES[4] in Types(m) && HasType(ALL_TYPES[4], x);
  }

  lemma SubsumesWithoutEnum(s: Schema, t: Schema, depth: nat)
    requires WellFormed(s) && WellFormed(t) && t.Object? && "const" in t.fields && s != t
    requires Subsumes(s, t, depth)
    ensures Subsumes(s, WithoutEnum(t), depth)
  {
    var a, b, c := s.fields, t.fields, WithoutEnum(t).fields;
    assert Types(b) == Types(c) && Values(b) == Values(c);
    assert forall k | k in a.Keys + c.Keys && Reviewed(k) :: SameKeyword(a, b, k);
    assert KeywordsCovered(a, c);
    assert Or(c, "properties", EMPTY) == Or(b, "properties", EMPTY);
    assert Or(c, "required", Array([])) == Or(b, "required", Array([]));
    assert Or(c, "additionalProperties", EMPTY) == Or(b, "additionalProperties", EMPTY);
    assert Or(c, "items", EMPTY) == Or(b, "items", EMPTY);
    if BothAllow("object", a, c) {
      assert ObjectSubsumes(a, b, depth);
      assert ObjectSubsumes(a, c, depth);
    }
  }

  /** The check's promise for one pair of schemas. */
  ghost predicate Kept(s: Schema, t: Schema, depth: nat, ext: Extension) {
    WellFormed(s) && Subsumes(s, t, depth) ==> Includes(s, t, ext)
  }

  /** The check is sound for a target exactly when its `const` is in its `enum`, or fails the rest anyway. */
  lemma IgnoredEnumExact(t: Schema, ext: Extension)
    requires WellFormed(t) && t.Object? && PartsAgree(t)
    requires "items" in t.fields ==> t.fields["items"].Object?
    ensures (forall s, depth :: Kept(s, t, depth, ext))
       <==> (ConstInEnum(t.fields) || !Valid(WithoutEnum(t), t.fields["const"], ext))
  {
    if ConstInEnum(t.fields) {
      forall s, depth, v | WellFormed(s) && Subsumes(s, t, depth) && Valid(s, v, ext) ensures Valid(t, v, ext) {
        SubsumesSound(s, t, depth, v, ext);
      }
    } else if Valid(WithoutEnum(t), t.fields["const"], ext) {
      WithoutEnumSubsumes(t);
      assert !EnumHolds(t.fields, t.fields["const"]);
      assert !Kept(WithoutEnum(t), t, 0, ext);
    } else {
      forall s, depth, v | WellFormed(s) && Subsumes(s, t, depth) && Valid(s, v, ext) ensures Valid(t, v, ext) {
        IgnoredEnumHarmless(s, t, depth, v, ext);
      }
    }
  }

  lemma IgnoredEnumHarmless(s: Schema, t: Schema, depth: nat, v: Value, ext: Extension)
    requires WellFormed(s) && WellFormed(t) && t.Object? && PartsAgree(t) && "const" in t.fields
    requires !Valid(WithoutEnum(t), t.fields["const"], ext)
    requires Subsumes(s, t, depth) && Valid(s, v, ext)
    ensures Valid(t, v, ext)
  {
    if s != t {
      SubsumesWithoutEnum(s, t, depth);
      assert PartsAgree(WithoutEnum(t));
      SubsumesSound(s, WithoutEnum(t), depth, v, ext);
    }
  }
}
