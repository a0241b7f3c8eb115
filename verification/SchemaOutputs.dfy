/** What a successful parse returns, as a relation between input and output. */
module SchemaOutputs {
  import opened Wrappers
  import opened Json
  import opened SchemaCombinators

  /** The output belongs to the input: defaults fill in what is absent, a strict object has only its declared keys, a
      loose one also keeps its other fields, and a union answers with its first member that accepts. */
  predicate ParsesTo(s: Combinator, input: Option<Json<real>>, output: Option<Json<real>>)
    decreases s
  {
    match s
    case Arr(item, _, _) =>
      && input.Some? && input.value.Array? && output.Some? && output.value.Array?
      && |output.value.items| == |input.value.items|
      && forall i | 0 <= i < |input.value.items| ::
           ParsesTo(item, Some(input.value.items[i]), Some(output.value.items[i]))
    case Rec(entry) =>
      && input.Some? && input.value.Object? && output.Some? && output.value.Object?
      && output.value.fields.Keys == input.value.fields.Keys
      && forall k | k in input.value.fields ::
           ParsesTo(entry, Some(input.value.fields[k]), Lookup(output.value.fields, k))
    case Obj(shape, strict) =>
      && input.Some? && input.value.Object? && output.Some? && output.value.Object?
      && (forall i | 0 <= i < |shape| ::
            ParsesTo(shape[i].schema, Lookup(input.value.fields, shape[i].key),
                     Lookup(output.value.fields, shape[i].key)))
      && (forall k | k in output.value.fields && !HasKey(shape, k) ::
            !strict && Lookup(input.value.fields, k) == Some(output.value.fields[k]))
      && (forall k | k in input.value.fields && !HasKey(shape, k) && !strict :: k in output.value.fields)
    case Optional(inner) => if input.None? then output.None? else ParsesTo(inner, input, output)
    case Nullable(inner) => if input == Some(Null) then output == Some(Null) else ParsesTo(inner, input, output)
    case Default(inner, fallback) =>
      if input.None? then output == Some(fallback) else ParsesTo(inner, input, output)
    case Union(alternatives) =>
      exists i | 0 <= i < |alternatives| ::
        Accepts(alternatives[i], input) && FirstAccepting(alternatives, input, i)
        && ParsesTo(alternatives[i], input, output)
    case _ => output == input
  }

  predicate FirstAccepting(alternatives: seq<Combinator>, input: Option<Json<real>>, n: nat)
    requires n <= |alternatives|
  {
    forall j | 0 <= j < n :: !Accepts(alternatives[j], input)
  }

  // ----- Every successful parse satisfies it -----

  /** A present value never parses to an absent one. */
  lemma {:induction false} PresentStays(s: Combinator, v: Json<real>)
    requires Accepts(s, Some(v))
    ensures Parsed(s, Some(v)).Some?
    decreases s, 1
  {
    match s
    case Optional(inner) => PresentStays(inner, v);
    case Nullable(inner) => if v != Null { PresentStays(inner, v); }
    case Default(inner, _) => PresentStays(inner, v);
    case Union(alternatives) => PresentStaysFrom(s, v, 0);
    case _ =>
  }

  lemma {:induction false} PresentStaysFrom(s: Combinator, v: Json<real>, n: nat)
    requires s.Union? && n <= |s.alternatives|
    requires exists i | n <= i < |s.alternatives| :: Accepts(s.alternatives[i], Some(v))
    ensures ParsedByFirst(s, Some(v), n).Some?
    decreases s, 0, |s.alternatives| - n
  {
    if Accepts(s.alternatives[n], Some(v)) {
      PresentStays(s.alternatives[n], v);
    } else {
      PresentStaysFrom(s, v, n + 1);
    }
  }

  lemma {:induction false} ItemsParsed(s: Combinator, items: seq<Json<real>>, n: nat)
    requires s.Arr? && n <= |items| && Built(s)
    requires forall i | 0 <= i < |items| :: Accepts(s.item, Some(items[i]))
    ensures |ParsedItems(s, items, n)| == n
    ensures forall i | 0 <= i < n :: ParsesTo(s.item, Some(items[i]), Some(ParsedItems(s, items, n)[i]))
    decreases s, 0, n
  {
    if n > 0 {
      ItemsParsed(s, items, n - 1);
      PresentStays(s.item, items[n - 1]);
      ParseMeans(s.item, Some(items[n - 1]));
    }
  }

  /** The declared fields of an object after the first entries of its shape. */
  predicate DeclaredFit(s: Combinator, fields: map<string, Json<real>>, m: map<string, Json<real>>, n: nat)
    requires s.Obj? && n <= |s.shape|
  {
    forall i | 0 <= i < n ::
      ParsesTo(s.shape[i].schema, Lookup(fields, s.shape[i].key), Lookup(m, s.shape[i].key))
  }

  /** The other fields are dropped by a strict object and kept by a loose one. */
  predicate OthersFit(s: Combinator, fields: map<string, Json<real>>, m: map<string, Json<real>>, n: nat)
    requires s.Obj? && n <= |s.shape|
  {
    forall k | k in fields.Keys + m.Keys && !HasKey(s.shape[..n], k) ::
      Lookup(m, k) == if s.strict then None else Lookup(fields, k)
  }

  lemma {:induction false} OthersStay(s: Combinator, fields: map<string, Json<real>>, n: nat)
    requires s.Obj? && n <= |s.shape|
    requires forall i | 0 <= i < |s.shape| :: Accepts(s.shape[i].schema, Lookup(fields, s.shape[i].key))
    ensures OthersFit(s, fields, ParsedFields(s, fields, n), n)
  {
    if n > 0 {
      OthersStay(s, fields, n - 1);
      var e := s.shape[n - 1];
      OtherStep(s, fields, ParsedFields(s, fields, n - 1), n, Parsed(e.schema, Lookup(fields, e.key)));
    }
  }

  lemma OtherStep(
    s: Combinator, fields: map<string, Json<real>>, m: map<string, Json<real>>, n: nat, parsed: Option<Json<real>>)
    requires s.Obj? && 0 < n <= |s.shape| && OthersFit(s, fields, m, n - 1)
    ensures OthersFit(s, fields, SetField(m, s.shape[n - 1].key, parsed), n)
  {
    var after := SetField(m, s.shape[n - 1].key, parsed);
    forall k | k in fields.Keys + after.Keys && !HasKey(s.shape[..n], k)
      ensures Lookup(after, k) == if s.strict then None else Lookup(fields, k)
    {
      HasKeyLast(s.shape, n, k);
      assert k != s.shape[n - 1].key && !HasKey(s.shape[..n - 1], k);
    }
  }

  lemma {:induction false} FieldsParsed(s: Combinator, fields: map<string, Json<real>>, n: nat)
    requires s.Obj? && n <= |s.shape| && Built(s)
    requires forall i | 0 <= i < |s.shape| :: Accepts(s.shape[i].schema, Lookup(fields, s.shape[i].key))
    ensures DeclaredFit(s, fields, ParsedFields(s, fields, n), n)
    decreases s, 0, n, 1
  {
    if n > 0 {
      FieldsParsed(s, fields, n - 1);
      FieldStep(s, fields, ParsedFields(s, fields, n - 1), n);
    }
  }

  lemma FieldStep(s: Combinator, fields: map<string, Json<real>>, m: map<string, Json<real>>, n: nat)
    requires s.Obj? && 0 < n <= |s.shape| && Built(s) && DeclaredFit(s, fields, m, n - 1)
    requires Accepts(s.shape[n - 1].schema, Lookup(fields, s.shape[n - 1].key))
    ensures var e := s.shape[n - 1];
            DeclaredFit(s, fields, SetField(m, e.key, Parsed(e.schema, Lookup(fields, e.key))), n)
    decreases s, 0, n, 0
  {
    var key := s.shape[n - 1].key;
    var parsed := Parsed(s.shape[n - 1].schema, Lookup(fields, key));
    var after := SetField(m, key, parsed);
    ParseMeans(s.shape[n - 1].schema, Lookup(fields, key));
    assert Lookup(after, key) == parsed;
    assert forall i | 0 <= i < n - 1 ::
             s.shape[i].key != key && Lookup(after, s.shape[i].key) == Lookup(m, s.shape[i].key);
  }

  lemma HasKeyLast(shape: seq<Entry>, n: nat, k: string)
    requires 0 < n <= |shape|
    ensures HasKey(shape[..n], k) <==> HasKey(shape[..n - 1], k) || k == shape[n - 1].key
  {
    if HasKey(shape[..n - 1], k) {
      var i :| 0 <= i < n - 1 && shape[..n - 1][i].key == k;
      assert shape[..n][i].key == k;
    }
    if HasKey(shape[..n], k) {
      var i :| 0 <= i < n && shape[..n][i].key == k;
      if i < n - 1 {
        assert shape[..n - 1][i].key == k;
      }
    }
    assert shape[..n][n - 1].key == shape[n - 1].key;
  }

  lemma {:induction false} FirstParsed(s: Combinator, input: Option<Json<real>>, n: nat)
    requires s.Union? && n <= |s.alternatives| && Built(s) && FirstAccepting(s.alternatives, input, n)
    requires exists i | n <= i < |s.alternatives| :: Accepts(s.alternatives[i], input)
    ensures ParsesTo(s, input, ParsedByFirst(s, input, n))
    decreases s, 0, |s.alternatives| - n
  {
    if Accepts(s.alternatives[n], input) {
      ParseMeans(s.alternatives[n], input);
    } else {
      FirstParsed(s, input, n + 1);
    }
  }

  lemma {:induction false} RecordParsed(s: Combinator, input: Option<Json<real>>)
    requires s.Rec? && Accepts(s, input) && Built(s)
    ensures ParsesTo(s, input, Parsed(s, input))
    decreases s, 0
  {
    var fields := input.value.fields;
    forall k | k in fields ensures ParsesTo(s.entry, Some(fields[k]), Lookup(Parsed(s, input).value.fields, k)) {
      PresentStays(s.entry, fields[k]);
      ParseMeans(s.entry, Some(fields[k]));
    }
  }

  lemma {:induction false} ObjectParsed(s: Combinator, input: Option<Json<real>>)
    requires s.Obj? && Accepts(s, input) && Built(s)
    ensures ParsesTo(s, input, Parsed(s, input))
    decreases s, 1
  {
    var fields, m := input.value.fields, Parsed(s, input).value.fields;
    FieldsParsed(s, fields, |s.shape|);
    OthersStay(s, fields, |s.shape|);
    assert s.shape[..|s.shape|] == s.shape;
    assert forall k | k in m && !HasKey(s.shape, k) ::
             Lookup(m, k) == if s.strict then None else Lookup(fields, k);
  }

  /** Every successful parse, at whatever nesting, returns the output that belongs to its input. */
  lemma {:induction false} ParseMeans(s: Combinator, input: Option<Json<real>>)
    requires Accepts(s, input) && Built(s)
    ensures ParsesTo(s, input, Parsed(s, input))
    decreases s, 2
  {
    match s
    case Arr(item, _, _) => ItemsParsed(s, input.value.items, |input.value.items|);
    case Rec(entry) => RecordParsed(s, input);
    case Obj(shape, strict) => ObjectParsed(s, input);
    case Optional(inner) => if input.Some? { ParseMeans(inner, input); }
    case Nullable(inner) => if input != Some(Null) { ParseMeans(inner, input); }
    case Default(inner, fallback) => if input.Some? { ParseMeans(inner, input); }
    case Union(alternatives) => FirstParsed(s, input, 0);
    case _ =>
  }

  // ----- And nothing else does -----

  /** The input determines the output that belongs to it. */
  lemma {:induction false} OutputUnique(
    s: Combinator, input: Option<Json<real>>, a: Option<Json<real>>, b: Option<Json<real>>)
    requires ParsesTo(s, input, a) && ParsesTo(s, input, b)
    ensures a == b
    decreases s, 1
  {
    match s
    case Arr(item, _, _) =>
      forall i | 0 <= i < |a.value.items| ensures a.value.items[i] == b.value.items[i] {
        OutputUnique(item, Some(input.value.items[i]), Some(a.value.items[i]), Some(b.value.items[i]));
      }
      assert a.value.items == b.value.items;
    case Rec(entry) =>
      forall k | k in a.value.fields ensures a.value.fields[k] == b.value.fields[k] {
        OutputUnique(entry, Some(input.value.fields[k]), Lookup(a.value.fields, k), Lookup(b.value.fields, k));
      }
      assert a.value.fields == b.value.fields;
    case Obj(shape, strict) => ObjectUnique(s, input, a, b);
    case Optional(inner) => if input.Some? { OutputUnique(inner, input, a, b); }
    case Nullable(inner) => if input != Some(Null) { OutputUnique(inner, input, a, b); }
    case Default(inner, fallback) => if input.Some? { OutputUnique(inner, input, a, b); }
    case Union(alternatives) =>
      var i :| 0 <= i < |alternatives| && Accepts(alternatives[i], input)
               && FirstAccepting(alternatives, input, i) && ParsesTo(alternatives[i], input, a);
      var j :| 0 <= j < |alternatives| && Accepts(alternatives[j], input)
               && FirstAccepting(alternatives, input, j) && ParsesTo(alternatives[j], input, b);
      assert i == j;
      OutputUnique(alternatives[i], input, a, b);
    case _ =>
  }

  lemma {:induction false} ObjectUnique(
    s: Combinator, input: Option<Json<real>>, a: Option<Json<real>>, b: Option<Json<real>>)
    requires s.Obj? && ParsesTo(s, input, a) && ParsesTo(s, input, b)
    ensures a == b
    decreases s, 0
  {
    var x, y, fields := a.value.fields, b.value.fields, input.value.fields;
    forall k ensures Lookup(x, k) == Lookup(y, k) {
      if HasKey(s.shape, k) {
        var i :| 0 <= i < |s.shape| && s.shape[i].key == k;
        OutputUnique(s.shape[i].schema, Lookup(fields, k), Lookup(x, k), Lookup(y, k));
      }
    }
    SameLookups(x, y);
  }

  lemma SameLookups(x: map<string, Json<real>>, y: map<string, Json<real>>)
    requires forall k :: Lookup(x, k) == Lookup(y, k)
    ensures x == y
  {
    assert forall k :: (k in x <==> Lookup(x, k).Some?) && (k in y <==> Lookup(y, k).Some?);
    assert forall k | k in x :: Lookup(x, k) == Some(x[k]) && Lookup(y, k) == Some(y[k]);
  }
}
