/** The canonical text determines the value and depends on its meaning only. */
module CanonicalTextProofs {
  import opened CanonicalText
  import J = Json

  // ----- Unique readability of the text -----

  lemma EscapeCharLength(c: char)
    ensures 1 <= |EscapeChar(c)| <= 6
    ensures EscapeChar(c)[0] != '\"'
    ensures |EscapeChar(c)| == 1 <==> EscapeChar(c)[0] != '\\'
    ensures |EscapeChar(c)| == 1 ==> EscapeChar(c) == [c]
    ensures |EscapeChar(c)| != 1 ==> (|EscapeChar(c)| == 6 <==> EscapeChar(c)[1] == 'u')
  {
  }

  lemma ShortEscapeUnique(c: char, d: char)
    requires |EscapeChar(c)| == 2 && |EscapeChar(d)| == 2 && EscapeChar(c)[1] == EscapeChar(d)[1]
    ensures c == d
  {
  }

  lemma HexUnique(m: nat, n: nat)
    requires m < 16 && n < 16 && Hex(m) == Hex(n)
    ensures m == n
  {
  }

  lemma LongEscapeUnique(c: char, d: char)
    requires |EscapeChar(c)| == 6 && |EscapeChar(d)| == 6
    requires EscapeChar(c)[4] == EscapeChar(d)[4] && EscapeChar(c)[5] == EscapeChar(d)[5]
    ensures c == d
  {
    HexUnique(c as int / 16, d as int / 16);
    HexUnique(c as int % 16, d as int % 16);
  }

  lemma EscapeCharUnique(c: char, x: string, d: char, y: string)
    requires EscapeChar(c) + x == EscapeChar(d) + y
    ensures c == d && x == y
  {
    EscapeCharLength(c);
    EscapeCharLength(d);
    var e, f := EscapeChar(c), EscapeChar(d);
    assert e[0] == (e + x)[0] == (f + y)[0] == f[0];
    if |e| != 1 {
      assert e[1] == (e + x)[1] == (f + y)[1] == f[1];
      if |e| == 6 {
        assert e[4] == (e + x)[4] == (f + y)[4] == f[4];
        assert e[5] == (e + x)[5] == (f + y)[5] == f[5];
        LongEscapeUnique(c, d);
      } else {
        ShortEscapeUnique(c, d);
      }
    }
    assert x == (e + x)[|e|..] == (f + y)[|f|..] == y;
  }

  lemma AfterFirst(first: string, x: string, y: string)
    requires |first| == 1 && first + x == first + y
    ensures x == y
  {
    assert x == (first + x)[1..] == (first + y)[1..] == y;
  }

  lemma Associate(e: string, rest: string, q: string, x: string)
    ensures e + rest + q + x == e + (rest + q + x)
  {
  }

  lemma EscapeStart(s: string, x: string)
    ensures Escape(s) + "\"" + x
         == if s == "" then "\"" + x else EscapeChar(s[0]) + (Escape(s[1..]) + "\"" + x)
    ensures (Escape(s) + "\"" + x)[0] == '\"' <==> s == ""
  {
    if s != "" {
      EscapeCharLength(s[0]);
      Associate(EscapeChar(s[0]), Escape(s[1..]), "\"", x);
    }
  }

  lemma {:induction false} EscapeUnique(a: string, x: string, b: string, y: string)
    requires Escape(a) + "\"" + x == Escape(b) + "\"" + y
    ensures a == b && x == y
  {
    EscapeStart(a, x);
    EscapeStart(b, y);
    if a == "" {
      AfterFirst("\"", x, y);
    } else {
      EscapeCharUnique(a[0], Escape(a[1..]) + "\"" + x, b[0], Escape(b[1..]) + "\"" + y);
      EscapeUnique(a[1..], x, b[1..], y);
      assert a == [a[0]] + a[1..] && b == [b[0]] + b[1..];
    }
  }

  lemma QuoteUnique(a: string, x: string, b: string, y: string)
    requires Quote(a) + x == Quote(b) + y
    ensures a == b && x == y
  {
    assert Escape(a) + "\"" + x == (Quote(a) + x)[1..];
    assert Escape(b) + "\"" + y == (Quote(b) + y)[1..];
    EscapeUnique(a, x, b, y);
  }

  /** What may follow a value: nothing, or the punctuation that ends it. */
  predicate Ends(rest: string) {
    rest == "" || rest[0] == ',' || rest[0] == ']' || rest[0] == '}'
  }

  lemma CharAfter(a: string, x: string, b: string, y: string)
    requires a + x == b + y && |a| < |b|
    ensures x != "" && x[0] in b
  {
    assert x != "" && x[0] == (a + x)[|a|] == (b + y)[|a|] == b[|a|];
  }

  lemma NumeralUnique(a: Numeral, x: string, b: Numeral, y: string)
    requires a + x == b + y && Ends(x) && Ends(y)
    ensures a == b && x == y
  {
    if |a| < |b| {
      CharAfter(a, x, b, y);
    } else if |b| < |a| {
      CharAfter(b, y, a, x);
    } else {
      assert a == (a + x)[..|a|] && b == (b + y)[..|b|];
      assert x == (a + x)[|a|..] && y == (b + y)[|b|..];
    }
  }

  /** The first character tells the kind of value. */
  function Kind(c: char): nat {
    if c == 'n' then 0 else if c == 't' || c == 'f' then 1
    else if c == '-' || '0' <= c <= '9' then 2
    else if c == '\"' then 3 else if c == '[' then 4 else if c == '{' then 5 else 6
  }

  function KindOf(v: Value): nat {
    match v
    case Null => 0
    case Bool(_) => 1
    case Number(_) => 2
    case String(_) => 3
    case Array(_) => 4
    case Object(_) => 5
  }

  lemma FirstChar(v: Value, x: string)
    ensures |Encode(v)| >= 1
    ensures Kind((Encode(v) + x)[0]) == KindOf(v)
  {
  }

  /** Two values whose texts start alike are of the same kind. */
  lemma SameKind(a: Value, x: string, b: Value, y: string)
    requires Encode(a) + x == Encode(b) + y
    ensures KindOf(a) == KindOf(b)
  {
    FirstChar(a, x);
    FirstChar(b, y);
  }

  lemma WordUnique(a: Value, x: string, b: Value, y: string)
    requires (a.Null? && b.Null?) || (a.Bool? && b.Bool?)
    requires Encode(a) + x == Encode(b) + y
    ensures a == b && x == y
  {
    assert (Encode(a) + x)[0] == Encode(a)[0] && (Encode(b) + y)[0] == Encode(b)[0];
    assert a == b;
    assert x == (Encode(a) + x)[|Encode(a)|..] == (Encode(b) + y)[|Encode(a)|..] == y;
  }

  lemma Bracketed(open: string, body: string, close: string, x: string)
    requires |open| == 1
    ensures ((open + body + close) + x)[1..] == body + close + x
  {
  }

  lemma {:induction false} ValueUnique(a: Value, x: string, b: Value, y: string)
    requires Encode(a) + x == Encode(b) + y && Ends(x) && Ends(y)
    ensures a == b && x == y
    decreases a, 1
  {
    SameKind(a, x, b, y);
    match a
    case Null =>
      WordUnique(a, x, b, y);
    case Bool(_) =>
      WordUnique(a, x, b, y);
    case Number(t) =>
      NumeralUnique(t, x, b.text, y);
    case String(s) =>
      QuoteUnique(s, x, b.s, y);
    case Array(items) =>
      Bracketed("[", EncodeItems(items), "]", x);
      Bracketed("[", EncodeItems(b.items), "]", y);
      ItemsUnique(items, x, b.items, y);
    case Object(fields) =>
      Bracketed("{", EncodeFields(fields), "}", x);
      Bracketed("{", EncodeFields(b.fields), "}", y);
      FieldsUnique(fields, x, b.fields, y);
  }

  /** What follows the first item of a list: the closing bracket, or a comma and the others. */
  function AfterItem(items: seq<Value>, x: string): string
    requires items != []
  {
    if |items| == 1 then "]" + x else "," + EncodeItems(items[1..]) + "]" + x
  }

  lemma ItemsSplit(items: seq<Value>, x: string)
    ensures EncodeItems(items) + "]" + x
         == if items == [] then "]" + x else Encode(items[0]) + AfterItem(items, x)
    ensures (EncodeItems(items) + "]" + x)[0] == ']' <==> items == []
  {
    if items != [] {
      FirstChar(items[0], AfterItem(items, x));
      if |items| > 1 {
        assert EncodeItems(items) + "]" + x == Encode(items[0]) + ("," + EncodeItems(items[1..]) + "]" + x);
      }
    }
  }

  lemma NextItems(items: seq<Value>, x: string)
    requires items != []
    ensures Ends(AfterItem(items, x))
    ensures AfterItem(items, x)[0] == ',' <==> |items| > 1
    ensures AfterItem(items, x)[1..] == (if |items| == 1 then x else EncodeItems(items[1..]) + "]" + x)
  {
  }

  lemma {:induction false} ItemsUnique(a: seq<Value>, x: string, b: seq<Value>, y: string)
    requires EncodeItems(a) + "]" + x == EncodeItems(b) + "]" + y
    ensures a == b && x == y
    decreases a, 0
  {
    ItemsSplit(a, x);
    ItemsSplit(b, y);
    if a == [] {
      AfterFirst("]", x, y);
    } else {
      ValueUniqueInList(a, x, b, y);
      if |a| > 1 {
        ItemsUnique(a[1..], x, b[1..], y);
      }
      assert a == [a[0]] + a[1..] && b == [b[0]] + b[1..];
    }
  }

  lemma {:induction false} ValueUniqueInList(a: seq<Value>, x: string, b: seq<Value>, y: string)
    requires a != [] && b != []
    requires Encode(a[0]) + AfterItem(a, x) == Encode(b[0]) + AfterItem(b, y)
    ensures a[0] == b[0]
    ensures |a| == 1 <==> |b| == 1
    ensures |a| == 1 ==> x == y
    ensures |a| > 1 ==> EncodeItems(a[1..]) + "]" + x == EncodeItems(b[1..]) + "]" + y
    decreases a[0], 2
  {
    NextItems(a, x);
    NextItems(b, y);
    ValueUnique(a[0], AfterItem(a, x), b[0], AfterItem(b, y));
  }

  /** What follows the key of a field in its object. */
  function AfterField(fields: seq<Field>, x: string): string
    requires fields != []
  {
    if |fields| == 1 then "}" + x else "," + EncodeFields(fields[1..]) + "}" + x
  }

  lemma Regroup(q: string, v: string, rest: string)
    ensures (q + ":" + v) + rest == q + (":" + (v + rest))
  {
  }

  lemma RegroupMore(f: string, more: string, x: string)
    ensures f + "," + more + "}" + x == f + ("," + more + "}" + x)
  {
  }

  lemma QuoteStart(s: string, rest: string)
    ensures (Quote(s) + rest)[0] == '\"'
  {
  }

  lemma FieldsSplit(fields: seq<Field>, x: string)
    ensures EncodeFields(fields) + "}" + x
         == if fields == [] then "}" + x
            else Quote(fields[0].key) + (":" + (Encode(fields[0].value) + AfterField(fields, x)))
    ensures (EncodeFields(fields) + "}" + x)[0] == '}' <==> fields == []
  {
    if fields != [] {
      var f := fields[0];
      if |fields| > 1 {
        RegroupMore(EncodeField(f), EncodeFields(fields[1..]), x);
      } else {
        assert EncodeField(f) + "}" + x == EncodeField(f) + ("}" + x);
      }
      Regroup(Quote(f.key), Encode(f.value), AfterField(fields, x));
      QuoteStart(f.key, ":" + (Encode(f.value) + AfterField(fields, x)));
    }
  }

  lemma NextFields(fields: seq<Field>, x: string)
    requires fields != []
    ensures Ends(AfterField(fields, x))
    ensures AfterField(fields, x)[0] == ',' <==> |fields| > 1
    ensures AfterField(fields, x)[1..] == (if |fields| == 1 then x else EncodeFields(fields[1..]) + "}" + x)
  {
  }

  lemma {:induction false} FieldsUnique(a: seq<Field>, x: string, b: seq<Field>, y: string)
    requires EncodeFields(a) + "}" + x == EncodeFields(b) + "}" + y
    ensures a == b && x == y
    decreases a, 0
  {
    FieldsSplit(a, x);
    FieldsSplit(b, y);
    if a == [] {
      AfterFirst("}", x, y);
    } else {
      FieldUniqueInList(a, x, b, y);
      if |a| > 1 {
        FieldsUnique(a[1..], x, b[1..], y);
      }
      assert a == [a[0]] + a[1..] && b == [b[0]] + b[1..];
    }
  }

  lemma {:induction false} FieldUniqueInList(a: seq<Field>, x: string, b: seq<Field>, y: string)
    requires a != [] && b != []
    requires Quote(a[0].key) + (":" + (Encode(a[0].value) + AfterField(a, x)))
          == Quote(b[0].key) + (":" + (Encode(b[0].value) + AfterField(b, y)))
    ensures a[0] == b[0]
    ensures |a| == 1 <==> |b| == 1
    ensures |a| == 1 ==> x == y
    ensures |a| > 1 ==> EncodeFields(a[1..]) + "}" + x == EncodeFields(b[1..]) + "}" + y
    decreases a[0], 2
  {
    var ra, rb := Encode(a[0].value) + AfterField(a, x), Encode(b[0].value) + AfterField(b, y);
    QuoteUnique(a[0].key, ":" + ra, b[0].key, ":" + rb);
    assert (":" + ra)[1..] == ra && (":" + rb)[1..] == rb;
    NextFields(a, x);
    NextFields(b, y);
    ValueUnique(a[0].value, AfterField(a, x), b[0].value, AfterField(b, y));
  }

  // ----- The normal form keeps the meaning -----

  predicate SameFields(a: seq<Field>, b: seq<Field>) {
    (forall f | f in a :: f in b) && (forall f | f in b :: f in a)
  }

  predicate Sorted(fields: seq<Field>, leq: (string, string) -> bool) {
    forall i, j | 0 <= i < j < |fields| :: leq(fields[i].key, fields[j].key)
  }

  lemma {:induction false} InsertFields(f: Field, fields: seq<Field>, leq: (string, string) -> bool)
    ensures forall g :: g in Insert(f, fields, leq) <==> g == f || g in fields
  {
    if fields != [] && !leq(f.key, fields[0].key) {
      InsertFields(f, fields[1..], leq);
      assert fields == [fields[0]] + fields[1..];
    }
  }

  lemma {:induction false} InsertDistinct(f: Field, fields: seq<Field>, leq: (string, string) -> bool)
    requires Distinct(fields) && forall g | g in fields :: g.key != f.key
    ensures Distinct(Insert(f, fields, leq))
  {
    if fields != [] && !leq(f.key, fields[0].key) {
      InsertDistinct(f, fields[1..], leq);
      InsertFields(f, fields[1..], leq);
      var r := Insert(f, fields[1..], leq);
      forall j | 0 <= j < |r| ensures fields[0].key != r[j].key {
        assert r[j] in r;
      }
    }
  }

  lemma {:induction false} SortFields(fields: seq<Field>, leq: (string, string) -> bool)
    ensures SameFields(Sort(fields, leq), fields)
    ensures Distinct(fields) ==> Distinct(Sort(fields, leq))
  {
    if fields != [] {
      SortFields(fields[1..], leq);
      InsertFields(fields[0], Sort(fields[1..], leq), leq);
      assert fields == [fields[0]] + fields[1..];
      if Distinct(fields) {
        InsertDistinct(fields[0], Sort(fields[1..], leq), leq);
      }
    }
  }

  lemma {:induction false} InsertSorted(f: Field, fields: seq<Field>, leq: (string, string) -> bool)
    requires TotalOrder(leq) && Sorted(fields, leq)
    ensures Sorted(Insert(f, fields, leq), leq)
  {
    if fields != [] && !leq(f.key, fields[0].key) {
      InsertSorted(f, fields[1..], leq);
      InsertFields(f, fields[1..], leq);
      var r := Insert(f, fields[1..], leq);
      forall j | 0 <= j < |r| ensures leq(fields[0].key, r[j].key) {
        assert r[j] in r;
      }
    }
  }

  lemma {:induction false} SortSorted(fields: seq<Field>, leq: (string, string) -> bool)
    requires TotalOrder(leq)
    ensures Sorted(Sort(fields, leq), leq)
  {
    if fields != [] {
      SortSorted(fields[1..], leq);
      InsertSorted(fields[0], Sort(fields[1..], leq), leq);
    }
  }

  /** An object with distinct keys means the map that sends each key to its value's meaning. */
  lemma {:induction false} FieldLookup(fields: seq<Field>)
    requires Distinct(fields)
    ensures forall k :: k in MeaningOfFields(fields) <==> exists i :: 0 <= i < |fields| && fields[i].key == k
    ensures forall i | 0 <= i < |fields| :: MeaningOfFields(fields)[fields[i].key] == Meaning(fields[i].value)
  {
    if fields != [] {
      FieldLookup(fields[..|fields| - 1]);
    }
  }

  lemma SameFieldsSameMeaning(a: seq<Field>, b: seq<Field>)
    requires Distinct(a) && Distinct(b) && SameFields(a, b)
    ensures MeaningOfFields(a) == MeaningOfFields(b)
  {
    FieldLookup(a);
    FieldLookup(b);
    var m, n := MeaningOfFields(a), MeaningOfFields(b);
    forall k ensures k in m <==> k in n {
      if k in m { var i :| 0 <= i < |a| && a[i].key == k; assert a[i] in b; }
      if k in n { var i :| 0 <= i < |b| && b[i].key == k; assert b[i] in a; }
    }
    forall k | k in m ensures m[k] == n[k] {
      var i :| 0 <= i < |a| && a[i].key == k;
      assert a[i] in b;
    }
  }

  function NormalizeFields(fields: seq<Field>, leq: (string, string) -> bool): (r: seq<Field>)
    ensures |r| == |fields|
    ensures forall i | 0 <= i < |fields| :: r[i] == Field(fields[i].key, Normalize(fields[i].value, leq))
  {
    seq(|fields|, i requires 0 <= i < |fields| => Field(fields[i].key, Normalize(fields[i].value, leq)))
  }

  lemma NormalizeObject(fields: seq<Field>, leq: (string, string) -> bool)
    ensures Normalize(Object(fields), leq) == Object(Sort(NormalizeFields(fields, leq), leq))
  {
    assert NormalizeFields(fields, leq)
        == seq(|fields|, i requires 0 <= i < |fields| => Field(fields[i].key, Normalize(fields[i].value, leq)));
  }

  /** Fields with the same keys whose values mean the same make objects that mean the same. */
  lemma {:induction false} PointwiseMeaning(a: seq<Field>, b: seq<Field>)
    requires |a| == |b|
    requires forall i | 0 <= i < |a| :: a[i].key == b[i].key && Meaning(a[i].value) == Meaning(b[i].value)
    ensures MeaningOfFields(a) == MeaningOfFields(b)
  {
    if a != [] {
      PointwiseMeaning(a[..|a| - 1], b[..|b| - 1]);
    }
  }

  lemma {:induction false} NormalizeKeepsMeaning(v: Value, leq: (string, string) -> bool)
    requires WellFormed(v)
    ensures Meaning(Normalize(v, leq)) == Meaning(v)
    decreases v
  {
    match v
    case Array(items) =>
      forall i | 0 <= i < |items| ensures Meaning(Normalize(items[i], leq)) == Meaning(items[i]) {
        NormalizeKeepsMeaning(items[i], leq);
      }
      var n := Normalize(v, leq);
      assert n.items == seq(|items|, i requires 0 <= i < |items| => Normalize(items[i], leq));
      assert Meaning(n).items == Meaning(v).items;
    case Object(fields) =>
      var n := NormalizeFields(fields, leq);
      forall i | 0 <= i < |fields| ensures Meaning(n[i].value) == Meaning(fields[i].value) {
        assert fields[i] in fields;
        NormalizeKeepsMeaning(fields[i].value, leq);
      }
      PointwiseMeaning(n, fields);
      SortFields(n, leq);
      SameFieldsSameMeaning(Sort(n, leq), n);
      NormalizeObject(fields, leq);
    case _ =>
  }

  // ----- The normal form depends on the meaning only -----

  lemma {:induction false} SortedUnique(a: seq<Field>, b: seq<Field>, leq: (string, string) -> bool)
    requires TotalOrder(leq)
    requires Sorted(a, leq) && Sorted(b, leq) && Distinct(a) && Distinct(b) && SameFields(a, b)
    ensures a == b
  {
    if a != [] || b != [] {
      assert forall f :: f in a <==> f in b;
      assert a != [] ==> a[0] in a;
      assert b != [] ==> b[0] in b;
      assert a[0] == b[0];
      forall f ensures f in a[1..] <==> f in b[1..] {
        TailMember(a, f);
        TailMember(b, f);
      }
      SortedUnique(a[1..], b[1..], leq);
      assert a == [a[0]] + a[1..] && b == [b[0]] + b[1..];
    }
  }

  lemma TailMember(a: seq<Field>, f: Field)
    requires a != [] && Distinct(a)
    ensures f in a[1..] <==> f in a && f != a[0]
  {
    if f in a && f != a[0] {
      var i :| 0 <= i < |a| && a[i] == f;
      assert a[1..][i - 1] == f;
    }
  }

  lemma {:induction false} NormalizeDependsOnMeaning(v: Value, w: Value, leq: (string, string) -> bool)
    requires TotalOrder(leq) && WellFormed(v) && WellFormed(w) && Meaning(v) == Meaning(w)
    ensures Normalize(v, leq) == Normalize(w, leq)
    decreases v
  {
    match v
    case Array(items) =>
      assert |items| == |Meaning(v).items| == |Meaning(w).items| == |w.items|;
      forall i | 0 <= i < |items| ensures Normalize(items[i], leq) == Normalize(w.items[i], leq) {
        assert Meaning(v).items[i] == Meaning(w).items[i];
        NormalizeDependsOnMeaning(items[i], w.items[i], leq);
      }
      assert Normalize(v, leq).items == Normalize(w, leq).items;
    case Object(fields) =>
      var n, m := NormalizeFields(fields, leq), NormalizeFields(w.fields, leq);
      forall f | f in n ensures f in m {
        var i :| 0 <= i < |n| && n[i] == f;
        var j := Counterpart(fields, w.fields, i);
        assert fields[i] in fields && w.fields[j] in w.fields;
        NormalizeDependsOnMeaning(fields[i].value, w.fields[j].value, leq);
        assert m[j] == f;
      }
      forall f | f in m ensures f in n {
        var j :| 0 <= j < |m| && m[j] == f;
        var i := Counterpart(w.fields, fields, j);
        assert fields[i] in fields && w.fields[j] in w.fields;
        NormalizeDependsOnMeaning(fields[i].value, w.fields[j].value, leq);
        assert n[i] == f;
      }
      SortFields(n, leq);
      SortFields(m, leq);
      SortSorted(n, leq);
      SortSorted(m, leq);
      SortedUnique(Sort(n, leq), Sort(m, leq), leq);
      NormalizeObject(fields, leq);
      NormalizeObject(w.fields, leq);
    case _ =>
  }

  lemma Counterpart(a: seq<Field>, b: seq<Field>, i: nat) returns (j: nat)
    requires Distinct(a) && Distinct(b) && MeaningOfFields(a) == MeaningOfFields(b) && i < |a|
    ensures j < |b| && b[j].key == a[i].key && Meaning(b[j].value) == Meaning(a[i].value)
  {
    FieldLookup(a);
    FieldLookup(b);
    assert a[i].key in MeaningOfFields(b);
    j :| 0 <= j < |b| && b[j].key == a[i].key;
  }

  // ----- Main results -----

  /** For any key order, texts that are equal come from values that mean the same. */
  lemma EncodingDeterminesMeaning(v: Value, w: Value, leq: (string, string) -> bool)
    requires WellFormed(v) && WellFormed(w)
    requires Encode(Normalize(v, leq)) == Encode(Normalize(w, leq))
    ensures Meaning(v) == Meaning(w)
  {
    var t, u := Encode(Normalize(v, leq)), Encode(Normalize(w, leq));
    assert t + "" == u + "";
    ValueUnique(Normalize(v, leq), "", Normalize(w, leq), "");
    NormalizeKeepsMeaning(v, leq);
    NormalizeKeepsMeaning(w, leq);
  }

  /** Two values have the same canonical text exactly when they are equal up to key order. */
  lemma StableStringifyExact(v: Value, w: Value)
    requires WellFormed(v) && WellFormed(w)
    ensures StableStringify(v) == StableStringify(w) <==> Meaning(v) == Meaning(w)
  {
    OrdersAreTotal();
    if StableStringify(v) == StableStringify(w) {
      EncodingDeterminesMeaning(v, w, EnumerationLeq);
    }
    if Meaning(v) == Meaning(w) {
      NormalizeDependsOnMeaning(v, w, EnumerationLeq);
    }
  }

  /** The text has no line break, so the last one in a key ends the path. */
  lemma {:induction false} EscapeOneLine(s: string)
    ensures '\n' !in Escape(s)
  {
    if s != "" {
      EscapeOneLine(s[1..]);
      EscapeCharOneLine(s[0]);
    }
  }

  lemma EscapeCharOneLine(c: char)
    ensures '\n' !in EscapeChar(c)
  {
  }

  lemma {:induction false} EncodeOneLine(v: Value)
    ensures '\n' !in Encode(v)
    decreases v, 1
  {
    match v
    case Null => assert '\n' !in "null";
    case Bool(b) => assert '\n' !in "true" && '\n' !in "false";
    case Number(text) =>
    case String(s) => EscapeOneLine(s);
    case Array(items) => ItemsOneLine(items);
    case Object(fields) => FieldsOneLine(fields);
  }

  lemma {:induction false} ItemsOneLine(items: seq<Value>)
    ensures '\n' !in EncodeItems(items)
    decreases items, 0
  {
    if items != [] {
      EncodeOneLine(items[0]);
      ItemsOneLine(items[1..]);
    }
  }

  lemma {:induction false} FieldsOneLine(fields: seq<Field>)
    ensures '\n' !in EncodeFields(fields)
    decreases fields, 0
  {
    if fields != [] {
      EncodeOneLine(fields[0].value);
      EscapeOneLine(fields[0].key);
      FieldsOneLine(fields[1..]);
    }
  }

  /** If two lines split one text at different breaks, each side holds the other's break. */
  lemma EarlierBreak(p: string, t: string, q: string, u: string)
    requires p + "\n" + t == q + "\n" + u && |p| < |q|
    ensures '\n' in q && '\n' in t
  {
    var a, b := p + "\n" + t, q + "\n" + u;
    assert q[|p|] == b[|p|] == a[|p|] == '\n';
    assert t[|q| - |p| - 1] == a[|q|] == b[|q|] == '\n';
  }

  lemma BreakUnique(p: string, t: string, q: string, u: string)
    requires p + "\n" + t == q + "\n" + u
    requires ('\n' !in p && '\n' !in q) || ('\n' !in t && '\n' !in u)
    ensures p == q && t == u
  {
    var a, b := p + "\n" + t, q + "\n" + u;
    if |p| < |q| {
      EarlierBreak(p, t, q, u);
    } else if |q| < |p| {
      EarlierBreak(q, u, p, t);
    } else {
      assert p == a[..|p|] && q == b[..|p|];
      assert t == a[|p| + 1..] && u == b[|p| + 1..];
    }
  }

  /** What a call's arguments mean: `null` stands for no arguments. */
  function ArgumentsMeaning(args: Value): J.Json<Numeral> {
    if args.Null? then J.Object(map[]) else Meaning(args)
  }

  /** Two calls have the same function key exactly when path and arguments agree up to key order. */
  lemma FunctionKeyExact(p: string, v: Value, q: string, w: Value)
    requires WellFormed(v) && WellFormed(w)
    ensures FunctionKey(p, v) == FunctionKey(q, w) <==> p == q && ArgumentsMeaning(v) == ArgumentsMeaning(w)
  {
    var a, b := if v.Null? then Object([]) else v, if w.Null? then Object([]) else w;
    EncodeOneLine(Normalize(a, EnumerationLeq));
    EncodeOneLine(Normalize(b, EnumerationLeq));
    if FunctionKey(p, v) == FunctionKey(q, w) {
      BreakUnique(p, StableStringify(a), q, StableStringify(b));
    }
    StableStringifyExact(a, b);
  }

  /** The cache key also separates callers, whose partition names hold no line break. */
  lemma CacheKeyExact(s: string, p: string, v: Value, t: string, q: string, w: Value)
    requires WellFormed(v) && WellFormed(w)
    requires '\n' !in s && '\n' !in t
    ensures CacheKey(s, p, v) == CacheKey(t, q, w)
       <==> s == t && p == q && ArgumentsMeaning(v) == ArgumentsMeaning(w)
  {
    if CacheKey(s, p, v) == CacheKey(t, q, w) {
      BreakUnique(s, FunctionKey(p, v), t, FunctionKey(q, w));
    }
    FunctionKeyExact(p, v, q, w);
  }
}
