/** The canonical JSON text behind query keys, stored documents and audit digests
    (`stableStringify` and `functionKey` in src/backend.ts, `canonical` in src/audit-export.ts).

    A JavaScript object is a sequence of fields in enumeration order.  What an object *means* is the
    map from its keys to the meaning of its values; the text must depend on the meaning only, and
    must determine it. */
module CanonicalText {
  import J = Json

  // ----- Values -----

  /** The printed form of a finite number: Number::toString prints different numbers differently. */
  predicate IsNumeral(text: string) {
    && text != ""
    && (forall c | c in text :: NumeralChar(c))
    && (text[0] == '-' || '0' <= text[0] <= '9')
  }

  predicate NumeralChar(c: char) {
    '0' <= c <= '9' || c == '-' || c == '+' || c == '.' || c == 'e'
  }

  type Numeral = text: string | IsNumeral(text) witness "0"

  datatype Field = Field(key: string, value: Value)

  datatype Value =
    | Null
    | Bool(b: bool)
    | Number(text: Numeral)
    | String(s: string)
    | Array(items: seq<Value>)
    | Object(fields: seq<Field>)

  function Keys(fields: seq<Field>): (keys: seq<string>)
    ensures |keys| == |fields| && forall i | 0 <= i < |fields| :: keys[i] == fields[i].key
  {
    seq(|fields|, i requires 0 <= i < |fields| => fields[i].key)
  }

  predicate Distinct(fields: seq<Field>) {
    forall i, j | 0 <= i < j < |fields| :: fields[i].key != fields[j].key
  }

  /** Objects hold every key once, at every depth. */
  predicate WellFormed(v: Value) {
    match v
    case Array(items) => forall x | x in items :: WellFormed(x)
    case Object(fields) => Distinct(fields) && forall f | f in fields :: WellFormed(f.value)
    case _ => true
  }

  /** The value up to key order. */
  function Meaning(v: Value): J.Json<Numeral> {
    match v
    case Null => J.Null
    case Bool(b) => J.Bool(b)
    case Number(text) => J.Number(text)
    case String(s) => J.String(s)
    case Array(items) => J.Array(seq(|items|, i requires 0 <= i < |items| => Meaning(items[i])))
    case Object(fields) => J.Object(MeaningOfFields(fields))
  }

  function MeaningOfFields(fields: seq<Field>): map<string, J.Json<Numeral>> {
    if fields == [] then map[]
    else MeaningOfFields(fields[..|fields| - 1])[fields[|fields| - 1].key := Meaning(fields[|fields| - 1].value)]
  }

  // ----- Key order -----

  /** Strings compare by UTF-16 code units: a supplementary character starts with a surrogate,
      which is below U+E000. */
  function Rank(c: char): int {
    if c as int >= 0x1_0000 then 0xD800 + (c as int - 0x1_0000)
    else if c as int >= 0xE000 then 0x20_0000 + c as int
    else c as int
  }

  predicate TextLeq(a: string, b: string) {
    a == "" || (b != "" && (Rank(a[0]) < Rank(b[0]) || (a[0] == b[0] && TextLeq(a[1..], b[1..]))))
  }

  /** Array-index keys ("0", "1", ... below 2^32 - 1): JavaScript enumerates these first, by number. */
  predicate IsIndex(key: string) {
    && key != ""
    && (forall c | c in key :: '0' <= c <= '9')
    && (key[0] == '0' ==> |key| == 1)
    && (|key| < 10 || (|key| == 10 && TextLeq(key, "4294967294")))
  }

  /** Sorting the keys and rebuilding the object leaves index keys first, then the sorted others. */
  predicate EnumerationLeq(a: string, b: string) {
    if IsIndex(a) && IsIndex(b) then |a| < |b| || (|a| == |b| && TextLeq(a, b))
    else if IsIndex(a) || IsIndex(b) then IsIndex(a)
    else TextLeq(a, b)
  }

  ghost predicate TotalOrder(leq: (string, string) -> bool) {
    && (forall a, b :: leq(a, b) || leq(b, a))
    && (forall a, b :: leq(a, b) && leq(b, a) ==> a == b)
    && (forall a, b, c :: leq(a, b) && leq(b, c) ==> leq(a, c))
  }

  lemma {:induction false} TextLeqTotal(a: string, b: string)
    ensures TextLeq(a, b) || TextLeq(b, a)
    ensures TextLeq(a, b) && TextLeq(b, a) ==> a == b
  {
    if a != "" && b != "" && a[0] == b[0] {
      TextLeqTotal(a[1..], b[1..]);
      assert a == [a[0]] + a[1..] && b == [b[0]] + b[1..];
    }
  }

  lemma {:induction false} TextLeqTransitive(a: string, b: string, c: string)
    requires TextLeq(a, b) && TextLeq(b, c)
    ensures TextLeq(a, c)
  {
    if a != "" && a[0] == b[0] && b[0] == c[0] {
      TextLeqTransitive(a[1..], b[1..], c[1..]);
    }
  }

  lemma OrdersAreTotal()
    ensures TotalOrder(TextLeq)
    ensures TotalOrder(EnumerationLeq)
  {
    forall a, b
      ensures TextLeq(a, b) || TextLeq(b, a)
      ensures TextLeq(a, b) && TextLeq(b, a) ==> a == b
    {
      TextLeqTotal(a, b);
    }
    forall a, b, c | TextLeq(a, b) && TextLeq(b, c)
      ensures TextLeq(a, c)
    {
      TextLeqTransitive(a, b, c);
    }
  }

  // ----- Normal form: fields sorted at every depth -----

  function Insert(f: Field, sorted: seq<Field>, leq: (string, string) -> bool): seq<Field> {
    if sorted == [] || leq(f.key, sorted[0].key) then [f] + sorted
    else [sorted[0]] + Insert(f, sorted[1..], leq)
  }

  function Sort(fields: seq<Field>, leq: (string, string) -> bool): seq<Field> {
    if fields == [] then [] else Insert(fields[0], Sort(fields[1..], leq), leq)
  }

  function Normalize(v: Value, leq: (string, string) -> bool): Value {
    match v
    case Array(items) => Array(seq(|items|, i requires 0 <= i < |items| => Normalize(items[i], leq)))
    case Object(fields) =>
      Object(Sort(seq(|fields|, i requires 0 <= i < |fields| =>
                    Field(fields[i].key, Normalize(fields[i].value, leq))), leq))
    case _ => v
  }

  // ----- Text -----

  function Hex(d: nat): char
    requires d < 16
  {
    "0123456789abcdef"[d]
  }

  function EscapeChar(c: char): string {
    if c == '\"' then "\\\""
    else if c == '\\' then "\\\\"
    else if c as int == 8 then "\\b"
    else if c == '\t' then "\\t"
    else if c == '\n' then "\\n"
    else if c as int == 12 then "\\f"
    else if c == '\r' then "\\r"
    else if c as int < 0x20 then "\\u00" + [Hex(c as int / 16), Hex(c as int % 16)]
    else [c]
  }

  function Escape(s: string): string {
    if s == "" then "" else EscapeChar(s[0]) + Escape(s[1..])
  }

  function Quote(s: string): string {
    "\"" + Escape(s) + "\""
  }

  function Encode(v: Value): string {
    match v
    case Null => "null"
    case Bool(b) => if b then "true" else "false"
    case Number(text) => text
    case String(s) => Quote(s)
    case Array(items) => "[" + EncodeItems(items) + "]"
    case Object(fields) => "{" + EncodeFields(fields) + "}"
  }

  function EncodeItems(items: seq<Value>): string {
    if items == [] then ""
    else if |items| == 1 then Encode(items[0])
    else Encode(items[0]) + "," + EncodeItems(items[1..])
  }

  function EncodeField(f: Field): string {
    Quote(f.key) + ":" + Encode(f.value)
  }

  function EncodeFields(fields: seq<Field>): string {
    if fields == [] then ""
    else if |fields| == 1 then EncodeField(fields[0])
    else EncodeField(fields[0]) + "," + EncodeFields(fields[1..])
  }

  function StableStringify(v: Value): string {
    Encode(Normalize(v, EnumerationLeq))
  }

  function FunctionKey(path: string, args: Value): string {
    path + "\n" + StableStringify(if args.Null? then Object([]) else args)
  }

  function CacheKey(partition: string, path: string, args: Value): string {
    partition + "\n" + FunctionKey(path, args)
  }
}
