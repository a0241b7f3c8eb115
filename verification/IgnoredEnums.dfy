/** The one unsound corner of the compatibility check, at every depth: what the check promises without any condition,
    and exactly when that is enough. */
module IgnoredEnums {
  import opened Json
  import opened JsonSchema
  import opened ContractCompatibility

  /** A schema as the check reads it: wherever it looks, without an `enum` beside a `const`. */
  function Effective(t: Schema): Schema
    decreases t, 1
  {
    if !t.Object? then t
    else Object(map k | k in t.fields && !(k == "enum" && "const" in t.fields) :: EffectiveAt(k, t.fields[k]))
  }

  function EffectiveAt(key: string, j: Json<real>): Json<real>
    decreases j, 2
  {
    if key == "properties" && j.Object? then Object(map p | p in j.fields :: Effective(j.fields[p]))
    else if key == "items" || key == "additionalProperties" then Effective(j)
    else j
  }

  /** The keywords whose value the reading changes. */
  const NESTING: set<string> := {"properties", "items", "additionalProperties"}

  lemma SameElsewhere(t: Schema)
    requires t.Object?
    ensures Effective(t).Object?
    ensures var c := Effective(t).fields;
            && (forall k | k in c :: k in t.fields)
            && (forall k | k in t.fields && k !in NESTING && k != "enum" :: k in c && c[k] == t.fields[k])
            && ("enum" in c ==> "const" !in t.fields && c["enum"] == t.fields["enum"])
            && ("enum" in t.fields && "const" !in t.fields ==> "enum" in c)
            && (forall k | k in NESTING :: (k in c <==> k in t.fields))
  {
  }

  lemma SameKeywords(t: Schema)
    requires t.Object? && KeywordsWellFormed(t.fields)
    ensures Effective(t).Object?
    ensures var c := Effective(t).fields;
            && KeywordsWellFormed(c) && ConstInEnum(c)
            && Types(c) == Types(t.fields) && Values(c) == Values(t.fields)
            && Or(c, "required", Array([])) == Or(t.fields, "required", Array([]))
  {
    SameElsewhere(t);
  }

  lemma CoveredAsRead(a: Keywords, t: Schema)
    requires t.Object? && KeywordsWellFormed(t.fields) && KeywordsCovered(a, t.fields)
    ensures Effective(t).Object? && KeywordsCovered(a, Effective(t).fields)
  {
    SameElsewhere(t);
    SameKeywords(t);
    var b, c := t.fields, Effective(t).fields;
    forall k | k in a.Keys + c.Keys && Reviewed(k) ensures SameKeyword(a, c, k) {
      assert SameKeyword(a, b, k);
    }
    BoundsAsRead(a, t);
  }

  lemma BoundsAsRead(a: Keywords, t: Schema)
    requires t.Object?
    ensures Effective(t).Object?
    ensures forall i | 0 <= i < |LOWER_BOUNDS| ::
              LowerCovered(a, Effective(t).fields, LOWER_BOUNDS[i]) <==> LowerCovered(a, t.fields, LOWER_BOUNDS[i])
    ensures forall i | 0 <= i < |UPPER_BOUNDS| ::
              UpperCovered(a, Effective(t).fields, UPPER_BOUNDS[i]) <==> UpperCovered(a, t.fields, UPPER_BOUNDS[i])
  {
    SameElsewhere(t);
    assert forall i | 0 <= i < |LOWER_BOUNDS| :: LOWER_BOUNDS[i] !in NESTING && LOWER_BOUNDS[i] != "enum";
    assert forall i | 0 <= i < |UPPER_BOUNDS| :: UPPER_BOUNDS[i] !in NESTING && UPPER_BOUNDS[i] != "enum";
  }

  /** The schema of a property, and of the items, as the check reads it. */
  lemma PartsAsRead(t: Schema, p: string)
    requires t.Object? && WellFormed(t)
    ensures Effective(t).Object? && Or(Effective(t).fields, "properties", EMPTY).Object?
    ensures Or(t.fields, "properties", EMPTY).Object?
    ensures PropertySchema(Effective(t).fields, p) == Effective(PropertySchema(t.fields, p))
    ensures Or(Effective(t).fields, "items", EMPTY) == Effective(Or(t.fields, "items", EMPTY))
    ensures "items" in t.fields ==> Effective(t).fields["items"] == Effective(t.fields["items"])
    ensures Or(Effective(t).fields, "additionalProperties", EMPTY)
         == Effective(Or(t.fields, "additionalProperties", EMPTY))
  {
    SameElsewhere(t);
    assert Effective(EMPTY) == EMPTY;
  }

  lemma {:induction false} EffectiveWellFormed(t: Schema)
    requires WellFormed(t)
    ensures WellFormed(Effective(t))
    decreases t
  {
    if t.Object? {
      var m, c := t.fields, Effective(t).fields;
      SameElsewhere(t);
      SameKeywords(t);
      if "properties" in m {
        forall p | p in m["properties"].fields ensures WellFormed(Effective(m["properties"].fields[p])) {
          EffectiveWellFormed(m["properties"].fields[p]);
        }
        assert c["properties"] == EffectiveAt("properties", m["properties"]);
      }
      if "additionalProperties" in m {
        EffectiveWellFormed(m["additionalProperties"]);
      }
      if "items" in m {
        EffectiveWellFormed(m["items"]);
      }
    }
  }

  /** The assertions other than `enum`. */
  predicate OthersHold(m: Keywords, v: Value, ext: Extension) {
    && TypeHolds(m, v) && ConstHolds(m, v) && BoundsHold(m, v) && UniqueHolds(m, v) && RequiredHolds(m, v)
    && ExtensionsHold(m, v, ext)
  }

  lemma PlainKeywords(t: Schema)
    requires t.Object?
    ensures Effective(t).Object?
    ensures forall k | k !in NESTING && k != "enum" :: SameKeyword(t.fields, Effective(t).fields, k)
  {
    SameElsewhere(t);
  }

  lemma BoundsHoldAsRead(t: Schema, v: Value)
    requires t.Object? && BoundsHold(t.fields, v)
    ensures Effective(t).Object? && BoundsHold(Effective(t).fields, v)
  {
    PlainKeywords(t);
    var m, n := t.fields, Effective(t).fields;
    assert SameKeyword(m, n, "minimum") && SameKeyword(m, n, "maximum");
    assert SameKeyword(m, n, "exclusiveMinimum") && SameKeyword(m, n, "exclusiveMaximum");
    assert SameKeyword(m, n, "minLength") && SameKeyword(m, n, "maxLength");
    assert SameKeyword(m, n, "minItems") && SameKeyword(m, n, "maxItems");
  }

  lemma ShapeHoldsAsRead(t: Schema, v: Value)
    requires t.Object? && TypeHolds(t.fields, v) && ConstHolds(t.fields, v)
    requires UniqueHolds(t.fields, v) && RequiredHolds(t.fields, v)
    ensures Effective(t).Object?
    ensures var c := Effective(t).fields;
            TypeHolds(c, v) && ConstHolds(c, v) && UniqueHolds(c, v) && RequiredHolds(c, v)
  {
    PlainKeywords(t);
    var m, n := t.fields, Effective(t).fields;
    assert SameKeyword(m, n, "type") && SameKeyword(m, n, "const");
    assert SameKeyword(m, n, "uniqueItems") && SameKeyword(m, n, "required");
    assert Types(n) == Types(m);
  }

  lemma ExtensionsHoldAsRead(t: Schema, v: Value, ext: Extension)
    requires t.Object? && ExtensionsHold(t.fields, v, ext)
    ensures Effective(t).Object? && ExtensionsHold(Effective(t).fields, v, ext)
  {
    PlainKeywords(t);
    var m, n := t.fields, Effective(t).fields;
    forall k | k in n && Extra(k) ensures ext(k, n[k], v) {
      assert SameKeyword(m, n, k);
    }
  }

  lemma OthersAsRead(t: Schema, v: Value, ext: Extension)
    requires t.Object? && OthersHold(t.fields, v, ext)
    ensures Effective(t).Object? && OthersHold(Effective(t).fields, v, ext)
  {
    BoundsHoldAsRead(t, v);
    ShapeHoldsAsRead(t, v);
    ExtensionsHoldAsRead(t, v, ext);
  }

  lemma AssertionsAsRead(t: Schema, v: Value, ext: Extension)
    requires t.Object? && KeywordsWellFormed(t.fields) && AssertionsHold(t.fields, v, ext)
    ensures Effective(t).Object? && AssertionsHold(Effective(t).fields, v, ext)
  {
    OthersAsRead(t, v, ext);
    SameElsewhere(t);
  }

  /** Reading a schema this way only widens it. */
  lemma {:induction false} ReadingWidens(t: Schema, v: Value, ext: Extension)
    requires WellFormed(t) && Valid(t, v, ext)
    ensures Valid(Effective(t), v, ext)
    decreases t
  {
    if t.Object? {
      SameElsewhere(t);
      EffectiveWellFormed(t);
      AssertionsAsRead(t, v, ext);
      if v.Object? {
        forall p | p in v.fields ensures PropertyHolds(Effective(t), p, v.fields[p], ext) {
          assert PropertyHolds(t, p, v.fields[p], ext);
          WidensProperty(t, p, v.fields[p], ext);
        }
      }
      if v.Array? {
        forall i | 0 <= i < |v.items| ensures ItemHolds(Effective(t), v.items[i], ext) {
          assert ItemHolds(t, v.items[i], ext);
          PartsAsRead(t, "");
          if "items" in t.fields {
            ReadingWidens(t.fields["items"], v.items[i], ext);
          }
        }
      }
    }
  }

  lemma {:induction false} WidensProperty(t: Schema, p: string, v: Value, ext: Extension)
    requires t.Object? && WellFormed(t) && WellFormed(Effective(t)) && PropertyHolds(t, p, v, ext)
    ensures PropertyHolds(Effective(t), p, v, ext)
    decreases t, 0
  {
    PropertyHoldsBySchema(t, p, v, ext);
    PropertyHoldsBySchema(Effective(t), p, v, ext);
    PartsAsRead(t, p);
    EmptyAcceptsAll(v, ext);
    assert Effective(EMPTY) == EMPTY;
    if PropertySchema(t.fields, p) != EMPTY {
      ReadingWidens(PropertySchema(t.fields, p), v, ext);
    }
  }

  // ----- The promise without conditions -----

  /** If the check raises no finding, the target as the check reads it accepts every value the source accepts. */
  lemma {:induction false} CheckSound(s: Schema, t: Schema, depth: nat, v: Value, ext: Extension)
    requires WellFormed(s) && WellFormed(t) && Subsumes(s, t, depth) && Valid(s, v, ext)
    ensures Valid(Effective(t), v, ext)
    decreases 33 - depth, 2
  {
    if s == t {
      ReadingWidens(t, v, ext);
    } else {
      EffectiveWellFormed(t);
      TypesSound(s.fields, t.fields, v);
      if v.Object? {
        RequiredSound(s.fields, t.fields, v);
      }
      KeywordsSound(s, t, v, ext);
      if v.Object? {
        forall p | p in v.fields ensures PropertyHolds(Effective(t), p, v.fields[p], ext) {
          assert PropertyHolds(s, p, v.fields[p], ext);
          PropertyCheckSound(s, t, depth, p, v.fields[p], ext);
        }
      }
      if v.Array? {
        forall i | 0 <= i < |v.items| ensures ItemHolds(Effective(t), v.items[i], ext) {
          assert ItemHolds(s, v.items[i], ext);
          EmptyAcceptsAll(v.items[i], ext);
          PartsAsRead(t, "");
          CheckSound(Or(s.fields, "items", EMPTY), Or(t.fields, "items", EMPTY), depth + 1, v.items[i], ext);
        }
      }
    }
  }

  /** What the keyword comparison gives without looking at `enum`. */
  lemma OthersSound(s: Schema, t: Schema, v: Value, ext: Extension)
    requires WellFormed(s) && WellFormed(t) && s.Object? && t.Object? && KeywordsCovered(s.fields, t.fields)
    requires Valid(s, v, ext) && RequiredHolds(t.fields, v)
    ensures TypeHolds(t.fields, v) && BoundsHold(t.fields, v) && UniqueHolds(t.fields, v)
    ensures ExtensionsHold(t.fields, v, ext) && AnyOfHolds(t, v, ext)
  {
    TypesSound(s.fields, t.fields, v);
    BoundsSound(s.fields, t.fields, v);
    ExtensionsSound(s.fields, t.fields, v, ext);
    AnyOfSound(s, t, v, ext);
  }

  lemma ValuesAsRead(a: Keywords, t: Schema, v: Value)
    requires t.Object? && KeywordsWellFormed(a) && KeywordsWellFormed(t.fields) && ValuesCovered(a, t.fields)
    requires EnumHolds(a, v) && ConstHolds(a, v)
    ensures Effective(t).Object? && EnumHolds(Effective(t).fields, v) && ConstHolds(t.fields, v)
  {
    SameElsewhere(t);
    SameKeywords(t);
    ValuesSound(a, Effective(t).fields, v);
  }

  lemma KeywordsSound(s: Schema, t: Schema, v: Value, ext: Extension)
    requires WellFormed(s) && WellFormed(t) && s.Object? && t.Object? && KeywordsCovered(s.fields, t.fields)
    requires Valid(s, v, ext) && RequiredHolds(t.fields, v)
    ensures Effective(t).Object? && AssertionsHold(Effective(t).fields, v, ext) && AnyOfHolds(Effective(t), v, ext)
  {
    OthersSound(s, t, v, ext);
    ValuesAsRead(s.fields, t, v);
    OthersAsRead(t, v, ext);
    SameElsewhere(t);
  }

  lemma {:induction false} DeclaredCheckSound(
    left: Schema, right: Schema, depth: nat, v: Value, ext: Extension)
    requires WellFormed(left) && WellFormed(right) && depth <= 32 && PropertySubsumes(left, right, depth)
    requires Valid(left, v, ext)
    ensures Valid(Effective(right), v, ext)
    decreases 33 - depth, 0
  {
    TrueAsEmptySame(left, v, ext);
    TrueAsEmptySame(right, v, ext);
    CheckSound(TrueAsEmpty(left), TrueAsEmpty(right), depth + 1, v, ext);
  }

  lemma {:induction false} PropertyCheckSound(
    s: Schema, t: Schema, depth: nat, p: string, v: Value, ext: Extension)
    requires WellFormed(s) && WellFormed(t) && WellFormed(Effective(t)) && s.Object? && t.Object?
    requires depth <= 32 && ObjectSubsumes(s.fields, t.fields, depth) && PropertyHolds(s, p, v, ext)
    ensures PropertyHolds(Effective(t), p, v, ext)
    decreases 33 - depth, 1
  {
    var left, right := PropertySchema(s.fields, p), PropertySchema(t.fields, p);
    PropertyHoldsBySchema(s, p, v, ext);
    PropertyHoldsBySchema(t, p, v, ext);
    PropertyHoldsBySchema(Effective(t), p, v, ext);
    PartsAsRead(t, p);
    if p in Or(s.fields, "properties", EMPTY).fields.Keys + Or(t.fields, "properties", EMPTY).fields.Keys {
      assert PropertySubsumes(left, right, depth);
      DeclaredCheckSound(left, right, depth, v, ext);
    } else {
      AdditionalCheckSound(s, t, depth, v, ext);
    }
  }

  lemma {:induction false} AdditionalCheckSound(s: Schema, t: Schema, depth: nat, v: Value, ext: Extension)
    requires WellFormed(s) && WellFormed(t) && s.Object? && t.Object?
    requires depth <= 32 && ObjectSubsumes(s.fields, t.fields, depth)
    requires Valid(Or(s.fields, "additionalProperties", EMPTY), v, ext)
    ensures Valid(Effective(Or(t.fields, "additionalProperties", EMPTY)), v, ext)
    decreases 33 - depth, 0
  {
    EmptyAcceptsAll(v, ext);
    assert Effective(EMPTY) == EMPTY;
    if ConstrainsAdditional(t.fields) {
      CheckSound(AdditionalSchema(s.fields), t.fields["additionalProperties"], depth + 1, v, ext);
    }
  }

  // ----- When it is enough -----

  /** The check reaches every part of the schema, and finds schemas there that it can read. */
  predicate Reached(t: Schema, depth: nat)
    decreases t
  {
    && depth <= 31 && t.Object?
    && ("properties" in t.fields && t.fields["properties"].Object? ==>
          forall p | p in t.fields["properties"].fields ::
            var q := t.fields["properties"].fields[p];
            q.Bool? || Reached(q, depth + 1))
    && ("additionalProperties" in t.fields ==>
          t.fields["additionalProperties"].Bool? || Reached(t.fields["additionalProperties"], depth + 1))
    && ("items" in t.fields ==> Reached(t.fields["items"], depth + 1))
  }

  lemma KeywordsReadCovered(t: Schema)
    requires t.Object? && KeywordsWellFormed(t.fields)
    ensures Effective(t).Object? && KeywordsCovered(Effective(t).fields, t.fields)
  {
    PlainKeywords(t);
    SameKeywords(t);
    var a, b := Effective(t).fields, t.fields;
    forall k | k in a.Keys + b.Keys && Reviewed(k) ensures SameKeyword(a, b, k) {
      assert SameKeyword(b, a, k);
    }
    assert SameKeyword(b, a, "uniqueItems");
    BoundsReadCovered(t);
  }

  lemma BoundsReadCovered(t: Schema)
    requires t.Object?
    ensures Effective(t).Object?
    ensures forall i | 0 <= i < |LOWER_BOUNDS| :: LowerCovered(Effective(t).fields, t.fields, LOWER_BOUNDS[i])
    ensures forall i | 0 <= i < |UPPER_BOUNDS| :: UpperCovered(Effective(t).fields, t.fields, UPPER_BOUNDS[i])
  {
    PlainKeywords(t);
    forall i | 0 <= i < |LOWER_BOUNDS| ensures LowerCovered(Effective(t).fields, t.fields, LOWER_BOUNDS[i]) {
      assert SameKeyword(t.fields, Effective(t).fields, LOWER_BOUNDS[i]);
    }
    forall i | 0 <= i < |UPPER_BOUNDS| ensures UpperCovered(Effective(t).fields, t.fields, UPPER_BOUNDS[i]) {
      assert SameKeyword(t.fields, Effective(t).fields, UPPER_BOUNDS[i]);
    }
  }

  lemma {:induction false} PartSubsumes(q: Schema, depth: nat)
    requires depth <= 31 && WellFormed(q) && (q.Bool? || q == EMPTY || Reached(q, depth + 1))
    ensures PropertySubsumes(Effective(q), q, depth)
    decreases q, 2
  {
    assert Effective(EMPTY) == EMPTY;
    if !q.Bool? && q != EMPTY {
      EffectiveSubsumes(q, depth + 1);
    }
  }

  lemma {:induction false} PropertiesSubsume(t: Schema, depth: nat, p: string)
    requires WellFormed(t) && Reached(t, depth)
    ensures Or(Effective(t).fields, "properties", EMPTY).Object? && Or(t.fields, "properties", EMPTY).Object?
    ensures PropertySubsumes(PropertySchema(Effective(t).fields, p), PropertySchema(t.fields, p), depth)
    decreases t, 0, 1
  {
    PartsAsRead(t, p);
    var q := PropertySchema(t.fields, p);
    assert Effective(EMPTY) == EMPTY;
    if q != EMPTY {
      PropertyHoldsBySchema(t, p, Null, (k, j, v) => true);
      PartSubsumes(q, depth);
    }
  }

  /** What is reached passes the check against what it is read as. */
  lemma {:induction false} EffectiveSubsumes(t: Schema, depth: nat)
    requires WellFormed(t) && Reached(t, depth)
    ensures Subsumes(Effective(t), t, depth)
    decreases t, 1
  {
    KeywordsReadCovered(t);
    ObjectPartSubsumes(t, depth);
    ItemsSubsume(t, depth);
  }

  lemma {:induction false} ItemsSubsume(t: Schema, depth: nat)
    requires WellFormed(t) && Reached(t, depth)
    ensures Effective(t).Object?
    ensures Subsumes(Or(Effective(t).fields, "items", EMPTY), Or(t.fields, "items", EMPTY), depth + 1)
    decreases t, 0, 2
  {
    PartsAsRead(t, "");
    assert Effective(EMPTY) == EMPTY;
    if "items" in t.fields {
      EffectiveSubsumes(t.fields["items"], depth + 1);
    }
  }

  lemma {:induction false} ObjectPartSubsumes(t: Schema, depth: nat)
    requires WellFormed(t) && Reached(t, depth)
    ensures Effective(t).Object? && ObjectSubsumes(Effective(t).fields, t.fields, depth)
    decreases t, 0, 2
  {
    PartsAsRead(t, "");
    forall p
      ensures PropertySubsumes(PropertySchema(Effective(t).fields, p), PropertySchema(t.fields, p), depth)
    {
      PropertiesSubsume(t, depth, p);
    }
    if ConstrainsAdditional(t.fields) {
      EffectiveSubsumes(t.fields["additionalProperties"], depth + 1);
    }
    ObjectReadSubsumes(t, depth);
  }

  lemma ObjectReadSubsumes(t: Schema, depth: nat)
    requires WellFormed(t) && Reached(t, depth) && Effective(t).Object?
    requires Or(Effective(t).fields, "properties", EMPTY).Object? && Or(t.fields, "properties", EMPTY).Object?
    requires forall p ::
               PropertySubsumes(PropertySchema(Effective(t).fields, p), PropertySchema(t.fields, p), depth)
    requires ConstrainsAdditional(t.fields) ==>
               Subsumes(Effective(t.fields["additionalProperties"]), t.fields["additionalProperties"], depth + 1)
    ensures ObjectSubsumes(Effective(t).fields, t.fields, depth)
  {
    SameElsewhere(t);
    SameKeywords(t);
    PartsAsRead(t, "");
  }

  /** Wherever the check looks, a `const` beside an `enum` is one of its values, or is excluded by the rest of its
      schema.  This can be checked before any comparison: it asks one value per pair. */
  predicate Harmless(t: Schema, ext: Extension)
    decreases t, 1
  {
    t.Object? ==> (ConstInEnum(t.fields) || !Valid(Effective(t), t.fields["const"], ext)) && PartsHarmless(t, ext)
  }

  predicate PartsHarmless(t: Schema, ext: Extension)
    requires t.Object?
    decreases t, 0
  {
    && ("properties" in t.fields && t.fields["properties"].Object? ==>
          forall p | p in t.fields["properties"].fields :: Harmless(t.fields["properties"].fields[p], ext))
    && ("additionalProperties" in t.fields ==> Harmless(t.fields["additionalProperties"], ext))
    && ("items" in t.fields ==> Harmless(t.fields["items"], ext))
  }

  lemma BoundsHoldBack(t: Schema, v: Value)
    requires t.Object? && Effective(t).Object? && BoundsHold(Effective(t).fields, v)
    ensures BoundsHold(t.fields, v)
  {
    PlainKeywords(t);
    var m, n := t.fields, Effective(t).fields;
    assert SameKeyword(m, n, "minimum") && SameKeyword(m, n, "maximum");
    assert SameKeyword(m, n, "exclusiveMinimum") && SameKeyword(m, n, "exclusiveMaximum");
    assert SameKeyword(m, n, "minLength") && SameKeyword(m, n, "maxLength");
    assert SameKeyword(m, n, "minItems") && SameKeyword(m, n, "maxItems");
  }

  lemma ShapeHoldsBack(t: Schema, v: Value)
    requires t.Object? && Effective(t).Object?
    requires var c := Effective(t).fields;
             TypeHolds(c, v) && ConstHolds(c, v) && UniqueHolds(c, v) && RequiredHolds(c, v)
    ensures TypeHolds(t.fields, v) && ConstHolds(t.fields, v)
    ensures UniqueHolds(t.fields, v) && RequiredHolds(t.fields, v)
  {
    PlainKeywords(t);
    var m, n := t.fields, Effective(t).fields;
    assert SameKeyword(m, n, "type") && SameKeyword(m, n, "const");
    assert SameKeyword(m, n, "uniqueItems") && SameKeyword(m, n, "required");
    assert Types(n) == Types(m);
  }

  lemma ExtensionsHoldBack(t: Schema, v: Value, ext: Extension)
    requires t.Object? && Effective(t).Object? && ExtensionsHold(Effective(t).fields, v, ext)
    ensures ExtensionsHold(t.fields, v, ext)
  {
    PlainKeywords(t);
    var m, n := t.fields, Effective(t).fields;
    forall k | k in m && Extra(k) ensures ext(k, m[k], v) {
      assert SameKeyword(m, n, k);
    }
  }

  /** Where the ignored enums are harmless, the assertions of the schema are those it is read with. */
  lemma AssertionsHoldBack(t: Schema, v: Value, ext: Extension)
    requires t.Object? && Effective(t).Object? && Harmless(t, ext) && Valid(Effective(t), v, ext)
    ensures AssertionsHold(t.fields, v, ext) && AnyOfHolds(t, v, ext)
  {
    SameElsewhere(t);
    BoundsHoldBack(t, v);
    ShapeHoldsBack(t, v);
    ExtensionsHoldBack(t, v, ext);
    assert "const" in t.fields ==> v == t.fields["const"] && ConstInEnum(t.fields);
  }

  /** Where the ignored enums are harmless, the schema is what it is read as. */
  lemma {:induction false} HarmlessIncludes(t: Schema, v: Value, ext: Extension)
    requires WellFormed(t) && Harmless(t, ext) && Valid(Effective(t), v, ext)
    ensures Valid(t, v, ext)
    decreases t, 1
  {
    if t.Object? {
      SameElsewhere(t);
      EffectiveWellFormed(t);
      AssertionsHoldBack(t, v, ext);
      if v.Object? {
        forall p | p in v.fields ensures PropertyHolds(t, p, v.fields[p], ext) {
          assert PropertyHolds(Effective(t), p, v.fields[p], ext);
          HarmlessProperty(t, p, v.fields[p], ext);
        }
      }
      if v.Array? {
        forall i | 0 <= i < |v.items| ensures ItemHolds(t, v.items[i], ext) {
          assert ItemHolds(Effective(t), v.items[i], ext);
          HarmlessItem(t, v.items[i], ext);
        }
      }
    }
  }

  lemma {:induction false} HarmlessItem(t: Schema, v: Value, ext: Extension)
    requires t.Object? && WellFormed(t) && PartsHarmless(t, ext) && ItemHolds(Effective(t), v, ext)
    ensures ItemHolds(t, v, ext)
    decreases t, 0
  {
    PartsAsRead(t, "");
    SameElsewhere(t);
    if "items" in t.fields {
      HarmlessIncludes(t.fields["items"], v, ext);
    }
  }

  lemma {:induction false} HarmlessProperty(t: Schema, p: string, v: Value, ext: Extension)
    requires t.Object? && WellFormed(t) && WellFormed(Effective(t)) && PartsHarmless(t, ext)
    requires PropertyHolds(Effective(t), p, v, ext)
    ensures PropertyHolds(t, p, v, ext)
    decreases t, 0
  {
    PropertyHoldsBySchema(t, p, v, ext);
    PropertyHoldsBySchema(Effective(t), p, v, ext);
    PartsAsRead(t, p);
    EmptyAcceptsAll(v, ext);
    if PropertySchema(t.fields, p) != EMPTY {
      HarmlessIncludes(PropertySchema(t.fields, p), v, ext);
    }
  }

  /** For a target that the check reaches everywhere: the check is sound for it exactly when the values of the enums it
      ignores, at whatever depth, exclude nothing.  For any target it is sound if every such pair is harmless, which
      can be checked. */
  lemma IgnoredEnumsExact(t: Schema, ext: Extension)
    requires WellFormed(t)
    ensures Reached(t, 0) ==> ((forall s, depth :: Kept(s, t, depth, ext)) <==> Includes(Effective(t), t, ext))
    ensures Harmless(t, ext) ==> forall s, depth :: Kept(s, t, depth, ext)
  {
    if Harmless(t, ext) {
      forall v | Valid(Effective(t), v, ext) ensures Valid(t, v, ext) {
        HarmlessIncludes(t, v, ext);
      }
    }
    if Includes(Effective(t), t, ext) {
      forall s, depth, v | WellFormed(s) && Subsumes(s, t, depth) && Valid(s, v, ext) ensures Valid(t, v, ext) {
        CheckSound(s, t, depth, v, ext);
      }
    } else if Reached(t, 0) {
      EffectiveWellFormed(t);
      EffectiveSubsumes(t, 0);
      assert !Kept(Effective(t), t, 0, ext);
    }
  }
}
