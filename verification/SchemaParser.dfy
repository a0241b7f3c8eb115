/** The parsers of src/ai.ts as they run: loops that fill the output and collect issues. */
module SchemaParser {
  import opened Wrappers
  import opened Json
  import opened SchemaCombinators
  import opened SchemaOutputs

  datatype Step = Key(key: string) | Index(index: nat)

  /** A validation issue: where it was found. */
  datatype Issue = Issue(path: seq<Step>)

  /** Issues found below `path`. */
  predicate Below(issues: seq<Issue>, path: seq<Step>) {
    forall i | 0 <= i < |issues| :: path <= issues[i].path
  }

  /** Succeeds exactly on what the combinator accepts, with the output that belongs to the input; otherwise reports
      at least one issue, all of them at or below `path`. */
  method Parse(s: Combinator, input: Option<Json<real>>, path: seq<Step>)
    returns (r: Result<Option<Json<real>>, seq<Issue>>)
    ensures r.Ok? <==> Accepts(s, input)
    ensures r.Ok? ==> r.value == Parsed(s, input)
    ensures r.Ok? && Built(s) ==> ParsesTo(s, input, r.value)
    ensures r.Err? ==> r.error != [] && Below(r.error, path)
    decreases s, 3
  {
    r := ParseAny(s, input, path);
    if r.Ok? && Built(s) {
      ParseMeans(s, input);
    }
  }

  method ParseAny(s: Combinator, input: Option<Json<real>>, path: seq<Step>)
    returns (r: Result<Option<Json<real>>, seq<Issue>>)
    ensures r.Ok? <==> Accepts(s, input)
    ensures r.Ok? ==> r.value == Parsed(s, input)
    ensures r.Err? ==> r.error != [] && Below(r.error, path)
    decreases s, 2
  {
    match s
    case Arr(item, min, max) => r := ParseArray(s, input, path);
    case Rec(entry) => r := ParseRecord(s, input, path);
    case Obj(shape, strict) => r := ParseObject(s, input, path);
    case Optional(inner) =>
      if input.None? { return Ok(None); }
      r := Parse(inner, input, path);
    case Nullable(inner) =>
      if input == Some(Null) { return Ok(input); }
      r := Parse(inner, input, path);
    case Default(inner, fallback) =>
      if input.None? { return Ok(Some(fallback)); }
      r := Parse(inner, input, path);
    case Union(alternatives) => r := ParseUnion(s, input, path);
    case _ =>
      if Accepts(s, input) { return Ok(input); }
      return Err([Issue(path)]);
  }

  method ParseArray(s: Combinator, input: Option<Json<real>>, path: seq<Step>)
    returns (r: Result<Option<Json<real>>, seq<Issue>>)
    requires s.Arr?
    ensures r.Ok? <==> Accepts(s, input)
    ensures r.Ok? ==> r.value == Parsed(s, input)
    ensures r.Err? ==> r.error != [] && Below(r.error, path)
    decreases s, 1
  {
    if input.None? || !input.value.Array? {
      return Err([Issue(path)]);
    }
    var items := input.value.items;
    if !AtLeast(Size(s.min), |items| as real) || !AtMost(Size(s.max), |items| as real) {
      return Err([Issue(path)]);
    }
    var issues: seq<Issue>, output: seq<Json<real>> := [], [];
    for i := 0 to |items|
      invariant Below(issues, path)
      invariant issues == [] <==> forall j | 0 <= j < i :: Accepts(s.item, Some(items[j]))
      invariant issues == [] ==> |output| == i && forall j | 0 <= j < i :: output[j] == ParsedItem(s, items[j])
    {
      var step := Parse(s.item, Some(items[i]), path + [Index(i)]);
      match step
      case Ok(parsed) => output := output + [Present(parsed)];
      case Err(more) =>
        issues := issues + more;
    }
    if issues != [] {
      return Err(issues);
    }
    ItemsAre(s, items, output, |items|);
    assert output == output[..|items|];
    return Ok(Some(Array(output)));
  }

  ghost function ParsedItem(s: Combinator, item: Json<real>): Json<real>
    requires s.Arr?
  {
    if Accepts(s.item, Some(item)) then Present(Parsed(s.item, Some(item))) else Null
  }

  lemma {:induction false} ItemsAre(s: Combinator, items: seq<Json<real>>, output: seq<Json<real>>, n: nat)
    requires s.Arr? && n <= |items| == |output|
    requires forall i | 0 <= i < |items| :: Accepts(s.item, Some(items[i]))
    requires forall i | 0 <= i < |items| :: output[i] == ParsedItem(s, items[i])
    ensures ParsedItems(s, items, n) == output[..n]
  {
    if n > 0 {
      ItemsAre(s, items, output, n - 1);
      assert output[..n] == output[..n - 1] + [output[n - 1]];
    }
  }

  predicate EntryAccepted(s: Combinator, fields: map<string, Json<real>>, k: string)
    requires s.Rec? && k in fields
  {
    k !in RESERVED && Accepts(s.entry, Some(fields[k]))
  }

  ghost predicate EntriesParsed(
    s: Combinator, fields: map<string, Json<real>>, output: map<string, Json<real>>, done: set<string>)
    requires s.Rec? && done <= fields.Keys
  {
    && output.Keys == done
    && forall k | k in output ::
         EntryAccepted(s, fields, k) && output[k] == Present(Parsed(s.entry, Some(fields[k])))
  }

  method ParseRecord(s: Combinator, input: Option<Json<real>>, path: seq<Step>)
    returns (r: Result<Option<Json<real>>, seq<Issue>>)
    requires s.Rec?
    ensures r.Ok? <==> Accepts(s, input)
    ensures r.Ok? ==> r.value == Parsed(s, input)
    ensures r.Err? ==> r.error != [] && Below(r.error, path)
    decreases s, 1
  {
    if input.None? || !input.value.Object? {
      return Err([Issue(path)]);
    }
    var fields := input.value.fields;
    var issues: seq<Issue>, output: map<string, Json<real>> := [], map[];
    var rest := fields.Keys;
    while rest != {}
      invariant rest <= fields.Keys && Below(issues, path)
      invariant issues == [] <==> forall k | k in fields.Keys - rest :: EntryAccepted(s, fields, k)
      invariant issues == [] ==> EntriesParsed(s, fields, output, fields.Keys - rest)
    {
      var key :| key in rest;
      ghost var done := fields.Keys - rest;
      rest := rest - {key};
      assert fields.Keys - rest == done + {key};
      if key in RESERVED {
        issues := issues + [Issue(path + [Key(key)])];
      } else {
        var step := Parse(s.entry, Some(fields[key]), path + [Key(key)]);
        match step
        case Ok(parsed) => output := output[key := Present(parsed)];
        case Err(more) =>
          issues := issues + more;
      }
    }
    if issues != [] {
      return Err(issues);
    }
    assert forall k | k in fields :: EntryAccepted(s, fields, k);
    assert output == map k | k in fields :: Present(Parsed(s.entry, Some(fields[k])));
    return Ok(Some(Object(output)));
  }

  method ParseObject(s: Combinator, input: Option<Json<real>>, path: seq<Step>)
    returns (r: Result<Option<Json<real>>, seq<Issue>>)
    requires s.Obj?
    ensures r.Ok? <==> Accepts(s, input)
    ensures r.Ok? ==> r.value == Parsed(s, input)
    ensures r.Err? ==> r.error != [] && Below(r.error, path)
    decreases s, 1
  {
    if input.None? || !input.value.Object? {
      return Err([Issue(path)]);
    }
    var source := input.value.fields;
    var issues, output := ParseShape(s, source, path);
    if s.strict {
      var unknown := UnknownKeys(s, source, path);
      issues := issues + unknown;
    }
    if issues != [] {
      return Err(issues);
    }
    return Ok(Some(Object(output)));
  }

  method ParseShape(s: Combinator, source: map<string, Json<real>>, path: seq<Step>)
    returns (issues: seq<Issue>, output: map<string, Json<real>>)
    requires s.Obj?
    ensures Below(issues, path)
    ensures issues == [] <==>
      forall j | 0 <= j < |s.shape| :: Accepts(s.shape[j].schema, Lookup(source, s.shape[j].key))
    ensures issues == [] ==> output == ParsedFields(s, source, |s.shape|)
    decreases s, 0
  {
    issues, output := [], if s.strict then map[] else source;
    for i := 0 to |s.shape|
      invariant Below(issues, path)
      invariant issues == [] <==>
        forall j | 0 <= j < i :: Accepts(s.shape[j].schema, Lookup(source, s.shape[j].key))
      invariant issues == [] ==> output == FieldsUpTo(s, source, i)
    {
      var key := s.shape[i].key;
      var step := Parse(s.shape[i].schema, Lookup(source, key), path + [Key(key)]);
      match step
      case Ok(parsed) => output := SetField(output, key, parsed);
      case Err(more) =>
        issues := issues + more;
    }
    if issues == [] {
      FieldsUpToIsParsed(s, source, |s.shape|);
    }
  }

  /** `ParsedFields` on a shape of which only a prefix is known to be accepted. */
  ghost function FieldsUpTo(s: Combinator, source: map<string, Json<real>>, n: nat): map<string, Json<real>>
    requires s.Obj? && n <= |s.shape|
    requires forall j | 0 <= j < n :: Accepts(s.shape[j].schema, Lookup(source, s.shape[j].key))
  {
    if n == 0 then (if s.strict then map[] else source)
    else
      var e := s.shape[n - 1];
      SetField(FieldsUpTo(s, source, n - 1), e.key, Parsed(e.schema, Lookup(source, e.key)))
  }

  lemma {:induction false} FieldsUpToIsParsed(s: Combinator, source: map<string, Json<real>>, n: nat)
    requires s.Obj? && n <= |s.shape|
    requires forall j | 0 <= j < |s.shape| :: Accepts(s.shape[j].schema, Lookup(source, s.shape[j].key))
    ensures FieldsUpTo(s, source, n) == ParsedFields(s, source, n)
  {
    if n > 0 {
      FieldsUpToIsParsed(s, source, n - 1);
    }
  }

  method UnknownKeys(s: Combinator, source: map<string, Json<real>>, path: seq<Step>)
    returns (issues: seq<Issue>)
    requires s.Obj?
    ensures Below(issues, path)
    ensures issues == [] <==> forall k | k in source :: HasKey(s.shape, k)
  {
    issues := [];
    var rest := source.Keys;
    while rest != {}
      invariant rest <= source.Keys && Below(issues, path)
      invariant issues == [] <==> forall k | k in source.Keys - rest :: HasKey(s.shape, k)
    {
      var key :| key in rest;
      rest := rest - {key};
      if !HasKey(s.shape, key) {
        issues := issues + [Issue(path + [Key(key)])];
      }
    }
  }

  method ParseUnion(s: Combinator, input: Option<Json<real>>, path: seq<Step>)
    returns (r: Result<Option<Json<real>>, seq<Issue>>)
    requires s.Union?
    ensures r.Ok? <==> Accepts(s, input)
    ensures r.Ok? ==> r.value == Parsed(s, input)
    ensures r.Err? ==> r.error != [] && Below(r.error, path)
    decreases s, 1
  {
    var i := 0;
    while i < |s.alternatives|
      invariant 0 <= i <= |s.alternatives|
      invariant forall j | 0 <= j < i :: !Accepts(s.alternatives[j], input)
      invariant Accepts(s, input) ==> Parsed(s, input) == ParsedByFirst(s, input, i)
    {
      var step := Parse(s.alternatives[i], input, path);
      if step.Ok? {
        return step;
      }
      i := i + 1;
    }
    return Err([Issue(path)]);
  }
}
