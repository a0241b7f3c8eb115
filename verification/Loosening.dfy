/** Edits that only loosen a schema, and that the compatibility check lets every one of them pass. */
module Loosening {
  import opened Wrappers
  import opened Json
  import opened JsonSchema
  import C = ContractCompatibility
  import P = ContractComparison
  import S = SchemaCombinators

  // ----- Loosening edits, keyword by keyword -----

  const NOTES: set<string> :=
    {"title", "description", "examples", "$comment", "deprecated", "readOnly", "writeOnly"}

  const EDITED: set<string> :=
    {"type", "enum", "const", "properties", "required", "additionalProperties", "items", "uniqueItems",
     "minimum", "exclusiveMinimum", "minLength", "minItems", "maximum", "exclusiveMaximum", "maxLength", "maxItems"}

  function At(m: Keywords, key: string): Option<Json<real>> {
    if key in m then Some(m[key]) else None
  }

  /** A bound is dropped or moved outwards. */
  predicate Lowered(x: Option<Json<real>>, y: Option<Json<real>>) {
    y.None? || x == y || (x.Some? && x.value.Number? && y.value.Number? && y.value.n <= x.value.n)
  }

  predicate Raised(x: Option<Json<real>>, y: Option<Json<real>>) {
    y.None? || x == y || (x.Some? && x.value.Number? && y.value.Number? && x.value.n <= y.value.n)
  }

  function Names(t: Json<real>): seq<Json<real>> {
    if t.Array? then t.items else [t]
  }

  predicate Standard(t: Json<real>) {
    t.String? && t.s in {"null", "boolean", "object", "array", "number", "integer", "string"}
  }

  /** Types are added, integers become numbers, or the keyword is dropped. */
  predicate Widened(x: Option<Json<real>>, y: Option<Json<real>>) {
    if y.None? then x.Some? ==> forall t | t in Names(x.value) :: Standard(t)
    else x.Some? && forall t | t in Names(x.value) ::
           t in Names(y.value) || (t == String("integer") && String("number") in Names(y.value))
  }

  /** The values a schema lists: its only one, or its enumeration. */
  function Listed(m: Keywords): Option<Json<real>> {
    if At(m, "const").Some? then Some(Array([m["const"]])) else At(m, "enum")
  }

  /** Values are added, or the list is dropped. */
  predicate Extended(x: Option<Json<real>>, y: Option<Json<real>>) {
    y.None? || (x.Some? && x.value.Array? && y.value.Array? && forall v | v in x.value.items :: v in y.value.items)
  }

  predicate FlatLoosens(a: Keywords, b: Keywords) {
    && (forall k | k in a.Keys + b.Keys && k !in EDITED && k !in NOTES :: At(a, k) == At(b, k))
    && Widened(At(a, "type"), At(b, "type"))
    && Extended(Listed(a), Listed(b))
    && Lowered(At(a, "minimum"), At(b, "minimum")) && Raised(At(a, "maximum"), At(b, "maximum"))
    && Lowered(At(a, "exclusiveMinimum"), At(b, "exclusiveMinimum"))
    && Raised(At(a, "exclusiveMaximum"), At(b, "exclusiveMaximum"))
    && Lowered(At(a, "minLength"), At(b, "minLength")) && Raised(At(a, "maxLength"), At(b, "maxLength"))
    && Lowered(At(a, "minItems"), At(b, "minItems")) && Raised(At(a, "maxItems"), At(b, "maxItems"))
    && (At(b, "uniqueItems") == Some(Bool(true)) ==> At(a, "uniqueItems") == Some(Bool(true)))
  }

  // ----- Loosening edits, at any depth -----

  const ANY: Json<real> := Object(map[])

  predicate Allows(m: Keywords, kind: string) {
    At(m, "type").Some? ==> String(kind) in Names(m["type"])
  }

  function Declared(m: Keywords): map<string, Json<real>> {
    if "properties" in m && m["properties"].Object? then m["properties"].fields else map[]
  }

  function Demanded(m: Keywords): seq<Json<real>> {
    if "required" in m && m["required"].Array? then m["required"].items else []
  }

  /** The keywords that hold other schemas have the form the standard gives them. */
  predicate Formed(m: Keywords) {
    && ("properties" in m ==> m["properties"].Object?)
    && ("required" in m ==> m["required"].Array?)
    && ("additionalProperties" in m ==> m["additionalProperties"].Bool? || m["additionalProperties"].Object?)
    && ("items" in m ==> m["items"].Object?)
  }

  /** What a property of this name must satisfy. */
  function Under(m: Keywords, name: string): Json<real> {
    if name in Declared(m) then Declared(m)[name]
    else if "additionalProperties" in m then m["additionalProperties"] else ANY
  }

  function Plain(s: Json<real>): Json<real> {
    if s == Bool(true) then ANY else s
  }

  /** `b` is `a` after edits that only loosen it, at most `levels` schemas deep. */
  predicate Loosens(a: Json<real>, b: Json<real>, levels: nat)
    decreases levels, 2
  {
    && a.Object? && b.Object?
    && (a == b || (
          && Formed(a.fields) && Formed(b.fields)
          && FlatLoosens(a.fields, b.fields)
          && (Allows(a.fields, "object") && Allows(b.fields, "object") ==> ObjectLoosens(a.fields, b.fields, levels))
          && (Allows(a.fields, "array") && Allows(b.fields, "array") ==>
                PartLoosens(if "items" in a.fields then a.fields["items"] else ANY,
                            if "items" in b.fields then b.fields["items"] else ANY, levels))))
  }

  predicate PartLoosens(p: Json<real>, q: Json<real>, levels: nat)
    decreases levels, 0
  {
    p.Object? && q.Object? && (p == q || (levels > 0 && Loosens(p, q, levels - 1)))
  }

  /** Required names are dropped, forbidden properties allowed, and every property and the additional ones
      loosened. */
  predicate ObjectLoosens(a: Keywords, b: Keywords, levels: nat)
    decreases levels, 1
  {
    && (forall name | name in Demanded(b) :: name in Demanded(a))
    && (At(b, "additionalProperties") == Some(Bool(false)) ==> At(a, "additionalProperties") == Some(Bool(false)))
    && (forall name | name in Declared(a).Keys + Declared(b).Keys ::
          Under(a, name) == Bool(false) ||
          (Under(b, name) != Bool(false) && PartLoosens(Plain(Under(a, name)), Plain(Under(b, name)), levels)))
    && ("additionalProperties" in b && b["additionalProperties"].Object? ==>
          PartLoosens(if "additionalProperties" in a && a["additionalProperties"].Object?
                      then a["additionalProperties"] else ANY,
                      b["additionalProperties"], levels))
  }

  // ----- No loosening raises a finding -----

  lemma TypesPass(a: Keywords, b: Keywords)
    requires Widened(At(a, "type"), At(b, "type"))
    ensures forall t | t in Types(a) :: C.TypeCovered(t, Types(b))
  {
    assert "type" in a ==> Types(a) == Names(a["type"]);
    assert "type" in b ==> Types(b) == Names(b["type"]);
    if "type" !in b {
      forall t | t in Types(a) ensures t in ALL_TYPES {
        if "type" in a {
          assert Standard(t);
          StandardListed(t);
        }
      }
    }
  }

  lemma StandardListed(t: Json<real>)
    requires Standard(t)
    ensures t in ALL_TYPES
  {
    var k := if t.s == "null" then 0 else if t.s == "boolean" then 1 else if t.s == "object" then 2
             else if t.s == "array" then 3 else if t.s == "number" then 4 else if t.s == "integer" then 5 else 6;
    assert ALL_TYPES[k] == t;
  }

  lemma FlatPasses(a: Keywords, b: Keywords)
    requires FlatLoosens(a, b)
    ensures C.KeywordsCovered(a, b)
  {
    TypesPass(a, b);
    forall k | k in a.Keys + b.Keys && C.Reviewed(k) ensures C.SameKeyword(a, b, k) {
      assert At(a, k) == At(b, k);
    }
    LowerPasses(a, b, "minimum");
    LowerPasses(a, b, "exclusiveMinimum");
    LowerPasses(a, b, "minLength");
    LowerPasses(a, b, "minItems");
    UpperPasses(a, b, "maximum");
    UpperPasses(a, b, "exclusiveMaximum");
    UpperPasses(a, b, "maxLength");
    UpperPasses(a, b, "maxItems");
    assert forall i | 0 <= i < |C.LOWER_BOUNDS| :: C.LowerCovered(a, b, C.LOWER_BOUNDS[i]);
    assert forall i | 0 <= i < |C.UPPER_BOUNDS| :: C.UpperCovered(a, b, C.UPPER_BOUNDS[i]);
  }

  lemma LowerPasses(a: Keywords, b: Keywords, key: string)
    requires Lowered(At(a, key), At(b, key))
    ensures C.LowerCovered(a, b, key)
  {
  }

  lemma UpperPasses(a: Keywords, b: Keywords, key: string)
    requires Raised(At(a, key), At(b, key))
    ensures C.UpperCovered(a, b, key)
  {
  }

  lemma AllowsBoth(a: Keywords, b: Keywords, kind: string)
    requires kind in {"object", "array"}
    ensures C.BothAllow(kind, a, b) <==> Allows(a, kind) && Allows(b, kind)
  {
    StandardListed(String(kind));
  }

  /** Every loosening that the depth limit of the check leaves room for passes without a finding. */
  lemma {:induction false} LooseningPasses(a: Json<real>, b: Json<real>, levels: nat, depth: nat)
    requires Loosens(a, b, levels) && depth + levels <= 31
    ensures C.Subsumes(a, b, depth)
    decreases levels, 2
  {
    if a != b {
      FlatPasses(a.fields, b.fields);
      AllowsBoth(a.fields, b.fields, "object");
      AllowsBoth(a.fields, b.fields, "array");
      if C.BothAllow("object", a.fields, b.fields) {
        ObjectPasses(a.fields, b.fields, levels, depth);
      }
      if C.BothAllow("array", a.fields, b.fields) {
        PartPasses(C.Or(a.fields, "items", C.EMPTY), C.Or(b.fields, "items", C.EMPTY), levels, depth);
      }
    }
  }

  lemma {:induction false} PartPasses(p: Json<real>, q: Json<real>, levels: nat, depth: nat)
    requires PartLoosens(p, q, levels) && depth + levels <= 31
    ensures C.Subsumes(p, q, depth + 1)
    decreases levels, 0
  {
    if p == q {
      SamePasses(p, depth + 1);
    } else {
      LooseningPasses(p, q, levels - 1, depth + 1);
    }
  }

  lemma SamePasses(p: Json<real>, depth: nat)
    requires p.Object? && depth <= 32
    ensures C.Subsumes(p, p, depth)
  {
  }

  lemma {:induction false} ObjectPasses(a: Keywords, b: Keywords, levels: nat, depth: nat)
    requires Formed(a) && Formed(b) && ObjectLoosens(a, b, levels) && depth + levels <= 31
    ensures C.ObjectSubsumes(a, b, depth)
    decreases levels, 1
  {
    assert C.Or(a, "properties", C.EMPTY).fields == Declared(a) && C.Or(b, "properties", C.EMPTY).fields == Declared(b);
    forall name | name in Declared(a).Keys + Declared(b).Keys
      ensures C.PropertySubsumes(C.PropertySchema(a, name), C.PropertySchema(b, name), depth)
    {
      assert C.PropertySchema(a, name) == Under(a, name) && C.PropertySchema(b, name) == Under(b, name);
      assert C.TrueAsEmpty(Under(a, name)) == Plain(Under(a, name));
      assert C.TrueAsEmpty(Under(b, name)) == Plain(Under(b, name));
      if Under(a, name) != Bool(false) {
        PartPasses(Plain(Under(a, name)), Plain(Under(b, name)), levels, depth);
      }
    }
    if C.ConstrainsAdditional(b) {
      PartPasses(C.AdditionalSchema(a), b["additionalProperties"], levels, depth);
    }
    assert C.Or(a, "required", Array([])).items == Demanded(a) && C.Or(b, "required", Array([])).items == Demanded(b);
  }

  /** The check is cautious: it reports that a closed object is opened to additional properties of some type, although
      the new schema accepts more. */
  lemma OpenedExample(ext: Extension)
    ensures var closed: Json<real> := Object(map["additionalProperties" := Bool(false)]);
            var typed: Json<real> := Object(map["additionalProperties" := Object(map["type" := String("string")])]);
            && WellFormed(closed) && WellFormed(typed)
            && C.Includes(closed, typed, ext) && !C.Subsumes(closed, typed, 0)
  {
    var texts: Keywords := map["type" := String("string")];
    var a: Keywords := map["additionalProperties" := Bool(false)];
    var b: Keywords := map["additionalProperties" := Object(texts)];
    forall v | Valid(Object(a), v, ext) ensures Valid(Object(b), v, ext) {
      OpeningAccepts(a, b, v, ext);
    }
    OpeningIsReported(a, b, texts);
    OpenedWellFormed(a, b, texts);
  }

  lemma OpenedWellFormed(a: Keywords, b: Keywords, texts: Keywords)
    requires texts == map["type" := String("string")]
    requires a == map["additionalProperties" := Bool(false)] && b == map["additionalProperties" := Object(texts)]
    ensures WellFormed(Object(a)) && WellFormed(Object(b))
  {
    assert KeywordsWellFormed(texts) && KeywordsWellFormed(a) && KeywordsWellFormed(b);
    assert WellFormed(Object(texts));
  }

  lemma OpeningAccepts(a: Keywords, b: Keywords, v: Value, ext: Extension)
    requires a == map["additionalProperties" := Bool(false)] && b.Keys == {"additionalProperties"}
    requires Valid(Object(a), v, ext)
    ensures Valid(Object(b), v, ext)
  {
    ClosedIsEmpty(a, v, ext);
    assert Types(a) == Types(b);
    assert AssertionsHold(b, v, ext);
  }

  lemma OpeningIsReported(a: Keywords, b: Keywords, texts: Keywords)
    requires texts == map["type" := String("string")]
    requires a == map["additionalProperties" := Bool(false)] && b == map["additionalProperties" := Object(texts)]
    ensures !C.Subsumes(Object(a), Object(b), 0)
  {
    StandardListed(String("object"));
    assert C.BothAllow("object", a, b);
    StandardListed(String("null"));
    assert Types(texts) == [String("string")];
    assert !C.TypeCovered(String("null"), Types(texts));
    assert !C.Subsumes(C.EMPTY, Object(texts), 1);
    assert C.ConstrainsAdditional(b) && C.AdditionalSchema(a) == C.EMPTY;
    assert !C.ObjectSubsumes(a, b, 0);
  }

  lemma ClosedIsEmpty(a: Keywords, v: Value, ext: Extension)
    requires a == map["additionalProperties" := Bool(false)] && Valid(Object(a), v, ext)
    ensures v.Object? ==> v.fields == map[]
  {
    if v.Object? && v.fields != map[] {
      var p :| p in v.fields;
      assert PropertyHolds(Object(a), p, v.fields[p], ext);
      NothingFits(a, p, v.fields[p], ext);
    }
  }

  lemma NothingFits(a: Keywords, p: string, v: Value, ext: Extension)
    requires a == map["additionalProperties" := Bool(false)]
    ensures !PropertyHolds(Object(a), p, v, ext)
  {
    assert !Declares(a, p) && a["additionalProperties"] == Bool(false);
    assert !Valid(Bool(false), v, ext);
  }

  // ----- A contract that only loosens -----

  /** The new action asks for no more than the old one: its input is loosened, its output tightened, and whatever
      else a caller relies on stays. */
  predicate ActionLoosens(o: P.ContractAction, n: P.ContractAction, backend: bool, levels: nat) {
    && n.kind == o.kind
    && (n.access == Some(String("required")) ==> o.access == Some(String("required")))
    && (o.agent ==> n.agent)
    && n.scope == o.scope && (!backend ==> n.scope.Some? && n.scope.value != "")
    && n.actionPath == o.actionPath && (o.actionPath.Some? ==> o.actionPath.value.String?)
    && Loosens(o.input, n.input, levels) && Loosens(n.output, o.output, levels)
  }

  predicate OnlyLoosens(before: P.Catalog, after: P.Catalog, levels: nat) {
    && before.backend == after.backend
    && forall name | name in before.actions ::
         name in after.actions && ActionLoosens(before.actions[name], after.actions[name], before.backend, levels)
  }

  /** A contract that only loosens its inputs, tightens its outputs and adds actions gets a report, the report is ok,
      and it tells of nothing but the added actions. */
  lemma LooseningIsOk(
    before: P.Catalog, after: P.Catalog, levels: nat, r: Result<P.Report, string>, found: seq<P.Finding>)
    requires OnlyLoosens(before, after, levels) && levels <= 31
    requires P.Judged(before, after, r, found)
    ensures r.Ok? && r.value.ok && r.value.findings == found
    ensures forall f | f in found :: f.severity == P.Info && f.action in after.actions.Keys - before.actions.Keys
  {
    forall name | name in before.actions
      ensures P.ActionKept(before.actions[name], after.actions[name], before.backend)
    {
      var o, n := before.actions[name], after.actions[name];
      assert ActionLoosens(o, n, before.backend, levels);
      LooseningPasses(o.input, n.input, levels, 0);
      LooseningPasses(n.output, o.output, levels, 0);
    }
    assert P.Compatible(before, after);
    assert forall f | f in found :: !P.Lost(before, after, f.action);
  }

  // ----- Flat schemas: the check is exact -----

  /** A schema of one type with its two bounds. */
  datatype Flat =
    | Numbers(low: Option<real>, high: Option<real>)
    | Texts(min: Option<nat>, max: Option<nat>)
    | Lists(min: Option<nat>, max: Option<nat>)

  function Low(f: Flat): Option<real> {
    if f.Numbers? then f.low else S.Size(f.min)
  }

  function High(f: Flat): Option<real> {
    if f.Numbers? then f.high else S.Size(f.max)
  }

  function Kind(f: Flat): string {
    match f case Numbers(_, _) => "number" case Texts(_, _) => "string" case Lists(_, _) => "array"
  }

  function LowKey(f: Flat): string {
    match f case Numbers(_, _) => "minimum" case Texts(_, _) => "minLength" case Lists(_, _) => "minItems"
  }

  function HighKey(f: Flat): string {
    match f case Numbers(_, _) => "maximum" case Texts(_, _) => "maxLength" case Lists(_, _) => "maxItems"
  }

  function FlatKeywords(f: Flat): Keywords {
    map["type" := String(Kind(f))] + S.Maybe(LowKey(f), Low(f)) + S.Maybe(HighKey(f), High(f))
  }

  predicate Satisfiable(f: Flat) {
    Low(f).Some? && High(f).Some? ==> Low(f).value <= High(f).value
  }

  function SizeOf(v: Value): real {
    match v
    case Number(n) => n
    case String(s) => |s| as real
    case Array(items) => |items| as real
    case _ => 0.0
  }

  predicate HasKind(f: Flat, v: Value) {
    match f case Numbers(_, _) => v.Number? case Texts(_, _) => v.String? case Lists(_, _) => v.Array?
  }

  predicate Meets(f: Flat, v: Value) {
    && HasKind(f, v)
    && (Low(f).Some? ==> Low(f).value <= SizeOf(v)) && (High(f).Some? ==> SizeOf(v) <= High(f).value)
  }

  lemma FlatKeywordsAt(f: Flat)
    ensures var m := FlatKeywords(f);
            && m.Keys <= {"type", LowKey(f), HighKey(f)}
            && (forall key | key !in {"type", LowKey(f), HighKey(f)} :: At(m, key) == None)
            && At(m, "type") == Some(String(Kind(f)))
            && At(m, LowKey(f)) == (if Low(f).Some? then Some(Number(Low(f).value)) else None)
            && At(m, HighKey(f)) == (if High(f).Some? then Some(Number(High(f).value)) else None)
  {
  }

  lemma FlatMeans(f: Flat, v: Value, ext: Extension)
    ensures Valid(Object(FlatKeywords(f)), v, ext) <==> Meets(f, v)
  {
    FlatFormed(f);
    FlatAssertions(f, v, ext);
  }

  lemma FlatAssertions(f: Flat, v: Value, ext: Extension)
    ensures AssertionsHold(FlatKeywords(f), v, ext) <==> Meets(f, v)
  {
    var m := FlatKeywords(f);
    FlatKeywordsAt(f);
    FlatFormed(f);
    FlatTypes(f, v);
    if HasKind(f, v) {
      FlatBounds(f, v);
    }
    assert forall k | k in m :: !Extra(k);
  }

  lemma FlatTypes(f: Flat, v: Value)
    ensures TypeHolds(FlatKeywords(f), v) <==> HasKind(f, v)
  {
    var m := FlatKeywords(f);
    FlatKeywordsAt(f);
    assert Types(m) == [String(Kind(f))];
    assert String(Kind(f)) in Types(m);
    assert TypeHolds(m, v) <==> HasType(String(Kind(f)), v);
  }

  lemma FlatBounds(f: Flat, v: Value)
    requires HasKind(f, v)
    ensures BoundsHold(FlatKeywords(f), v) <==>
      (Low(f).Some? ==> Low(f).value <= SizeOf(v)) && (High(f).Some? ==> SizeOf(v) <= High(f).value)
  {
    FlatKeywordsAt(f);
  }

  /** A value of the schema's type and of a given size. */
  function Sample(f: Flat, x: real, n: nat): Value {
    match f
    case Numbers(_, _) => Number(x)
    case Texts(_, _) => String(seq(n, _ => 'a'))
    case Lists(_, _) => Array(seq(n, _ => Null))
  }

  lemma Included(s: Flat, t: Flat, v: Value, ext: Extension)
    requires C.Includes(Object(FlatKeywords(s)), Object(FlatKeywords(t)), ext) && Meets(s, v)
    ensures Meets(t, v)
  {
    FlatMeans(s, v, ext);
    FlatMeans(t, v, ext);
  }

  function Least(a: Option<real>, b: real): real {
    if a.Some? && a.value < b then a.value else b
  }

  function Greatest(a: Option<real>, b: real): real {
    if a.Some? && a.value > b then a.value else b
  }

  /** The sample of a schema at its lower end, below `x` if nothing bounds it. */
  function Lowest(f: Flat, x: real): Value {
    Sample(f, if Low(f).Some? then Low(f).value else Least(High(f), x - 1.0),
           if f.Numbers? || f.min.None? then 0 else f.min.value)
  }

  function Highest(f: Flat, x: real, n: nat): Value {
    Sample(f, if High(f).Some? then High(f).value else Greatest(Low(f), x + 1.0),
           if f.Numbers? then 0 else if f.max.Some? then f.max.value
           else if f.min.Some? && f.min.value > n + 1 then f.min.value else n + 1)
  }

  lemma EndsMeet(f: Flat, x: real, n: nat)
    requires Satisfiable(f)
    ensures Meets(f, Lowest(f, x)) && Meets(f, Highest(f, x, n))
    ensures Low(f).Some? ==> SizeOf(Lowest(f, x)) == Low(f).value
    ensures Low(f).None? && f.Numbers? ==> SizeOf(Lowest(f, x)) < x
    ensures Low(f).None? && !f.Numbers? ==> SizeOf(Lowest(f, x)) == 0.0
    ensures High(f).Some? ==> SizeOf(Highest(f, x, n)) == High(f).value
    ensures High(f).None? ==> SizeOf(Highest(f, x, n)) > if f.Numbers? then x else n as real
  {
  }

  /** What an inclusion of two flat schemas says about their bounds. */
  lemma InclusionBounds(s: Flat, t: Flat, ext: Extension)
    requires Satisfiable(s) && C.Includes(Object(FlatKeywords(s)), Object(FlatKeywords(t)), ext)
    ensures Kind(s) == Kind(t)
    ensures Low(t).Some? && Low(s).Some? ==> Low(t).value <= Low(s).value
    ensures Low(t).Some? && Low(s).None? ==> Low(t).value == 0.0 && !t.Numbers?
    ensures High(t).Some? ==> High(s).Some? && High(s).value <= High(t).value
  {
    var x, y := if Low(t).Some? then Low(t).value else 0.0, if High(t).Some? then High(t).value else 0.0;
    var n := if t.Numbers? || t.max.None? then 0 else t.max.value;
    EndsMeet(s, x, n);
    Included(s, t, Lowest(s, x), ext);
    EndsMeet(s, y, n);
    Included(s, t, Highest(s, y, n), ext);
  }

  lemma FlatFormed(f: Flat)
    ensures var m := FlatKeywords(f);
            && Formed(m) && "items" !in m && "enum" !in m && "const" !in m && "anyOf" !in m && !Allows(m, "object")
            && "properties" !in m && "additionalProperties" !in m && "required" !in m
            && m["type"].String? && forall k | k in m && k != "type" :: m[k].Number? && k !in CONTEXTUAL
  {
    FlatKeywordsAt(f);
  }

  lemma FlatWellFormed(f: Flat)
    ensures WellFormed(Object(FlatKeywords(f))) && C.Agrees(Object(FlatKeywords(f)))
  {
    FlatFormed(f);
  }

  /** On flat schemas the check is exact: it raises no finding exactly if everything the satisfiable source accepts
      the target accepts, except that it reports a lower bound of 0 on a length of which the source says nothing. */
  lemma FlatExact(s: Flat, t: Flat, depth: nat, ext: Extension)
    requires Satisfiable(s) && depth <= 31
    ensures C.Subsumes(Object(FlatKeywords(s)), Object(FlatKeywords(t)), depth) <==>
      && C.Includes(Object(FlatKeywords(s)), Object(FlatKeywords(t)), ext)
      && (!t.Numbers? && t.min == Some(0) ==> Low(s).Some?)
  {
    var a, b := FlatKeywords(s), FlatKeywords(t);
    if C.Subsumes(Object(a), Object(b), depth) {
      FlatPassSound(s, t, depth, ext);
      InclusionBounds(s, t, ext);
    }
    if C.Includes(Object(a), Object(b), ext) && (!t.Numbers? && t.min == Some(0) ==> Low(s).Some?) {
      InclusionBounds(s, t, ext);
      FlatLoosened(s, t);
      LooseningPasses(Object(a), Object(b), 0, depth);
    }
  }

  lemma FlatPassSound(s: Flat, t: Flat, depth: nat, ext: Extension)
    requires C.Subsumes(Object(FlatKeywords(s)), Object(FlatKeywords(t)), depth)
    ensures C.Includes(Object(FlatKeywords(s)), Object(FlatKeywords(t)), ext)
    ensures Low(t).Some? && Kind(s) == Kind(t) ==> Low(s).Some?
  {
    var a, b := Object(FlatKeywords(s)), Object(FlatKeywords(t));
    FlatWellFormed(s);
    FlatWellFormed(t);
    forall v | Valid(a, v, ext) ensures Valid(b, v, ext) {
      C.SubsumesSound(a, b, depth, v, ext);
    }
    FlatKeywordsAt(s);
    FlatKeywordsAt(t);
    var i := if t.Numbers? then 0 else if t.Texts? then 2 else 3;
    if a != b {
      assert C.LowerCovered(a.fields, b.fields, C.LOWER_BOUNDS[i]);
    }
  }

  lemma FlatLoosened(s: Flat, t: Flat)
    requires Kind(s) == Kind(t)
    requires Low(t).Some? ==> Low(s).Some? && Low(t).value <= Low(s).value
    requires High(t).Some? ==> High(s).Some? && High(s).value <= High(t).value
    ensures Loosens(Object(FlatKeywords(s)), Object(FlatKeywords(t)), 0)
  {
    SameButBounds(s, t);
    FlatFormed(s);
    FlatFormed(t);
    WithoutParts(FlatKeywords(s), FlatKeywords(t));
  }

  lemma WithoutParts(a: Keywords, b: Keywords)
    requires FlatLoosens(a, b) && Formed(a) && Formed(b) && "items" !in a && "items" !in b && !Allows(a, "object")
    ensures Loosens(Object(a), Object(b), 0)
  {
  }

  lemma SameButBounds(s: Flat, t: Flat)
    requires Kind(s) == Kind(t)
    requires Low(t).Some? ==> Low(s).Some? && Low(t).value <= Low(s).value
    requires High(t).Some? ==> High(s).Some? && High(s).value <= High(t).value
    ensures FlatLoosens(FlatKeywords(s), FlatKeywords(t))
  {
    FlatKeywordsAt(s);
    FlatKeywordsAt(t);
    FlatFormed(s);
    FlatFormed(t);
    forall key | key != LowKey(s) && key != HighKey(s) ensures At(FlatKeywords(s), key) == At(FlatKeywords(t), key) {
    }
    BoundsOnly(FlatKeywords(s), FlatKeywords(t), LowKey(s), HighKey(s));
  }

  /** Schemas that differ in one lower and one upper bound. */
  lemma BoundsOnly(a: Keywords, b: Keywords, low: string, high: string)
    requires low in {"minimum", "minLength", "minItems"} && high in {"maximum", "maxLength", "maxItems"}
    requires forall key | key != low && key != high :: At(a, key) == At(b, key)
    requires "type" in a && "const" !in a && "enum" !in a && "const" !in b && "enum" !in b
    requires Lowered(At(a, low), At(b, low)) && Raised(At(a, high), At(b, high))
    ensures FlatLoosens(a, b)
  {
  }
}
