/** The signed audit outbox of src/audit-export.ts: entries, the chain they form, and the verifier. */
module AuditExport {
  import opened Wrappers
  import T = CanonicalText

  function Zeros(n: nat): (s: string)
    ensures |s| == n && forall c | c in s :: c == '0'
  {
    if n == 0 then "" else "0" + Zeros(n - 1)
  }

  /** The digest before the first entry. */
  const ZERO: string := Zeros(64)
  const PROTOCOL: string := "clank-signed-audit/1"
  const MAX_EVENT_BYTES: nat := 256 * 1024

  datatype SignedEntry = SignedEntry(
    sequence: nat, previousSequence: nat, previousDigest: string, keyId: string, event: T.Value,
    digest: string, signature: string)

  datatype Checkpoint = Checkpoint(sequence: nat, digest: string)

  const START: Checkpoint := Checkpoint(0, ZERO)

  // ----- Text -----

  function Digit(d: nat): char
    requires d < 10
  {
    "0123456789"[d]
  }

  function Decimal(n: nat): T.Numeral {
    if n < 10 then [Digit(n)] else Decimal(n / 10) + [Digit(n % 10)]
  }

  /** The length of a string in UTF-8. */
  function Utf8Length(s: string): nat {
    if s == "" then 0
    else
      var c := s[0] as int;
      (if c < 0x80 then 1 else if c < 0x800 then 2 else if c < 0x1_0000 then 3 else 4) + Utf8Length(s[1..])
  }

  /** What is signed: the entry without digest and signature. */
  function Unsigned(e: SignedEntry): seq<T.Field> {
    [T.Field("protocol", T.String(PROTOCOL)),
     T.Field("sequence", T.Number(Decimal(e.sequence))),
     T.Field("previousSequence", T.Number(Decimal(e.previousSequence))),
     T.Field("previousDigest", T.String(e.previousDigest)),
     T.Field("keyId", T.String(e.keyId)),
     T.Field("event", e.event)]
  }

  /** `canonical`: keys in sorted order at every depth. */
  function Canonical(v: T.Value): string {
    T.Encode(T.Normalize(v, T.TextLeq))
  }

  function Material(e: SignedEntry): string {
    Canonical(T.Object(Unsigned(e)))
  }

  /** `JSON.stringify` of the stored envelope. */
  function Envelope(e: SignedEntry): string {
    T.Encode(T.Object(
      Unsigned(e) + [T.Field("digest", T.String(e.digest)), T.Field("signature", T.String(e.signature))]))
  }

  // ----- Cryptography, as far as the chain needs it -----

  /** SHA-256 in hexadecimal, signing under a key ID, and verification with a public key. */
  datatype Crypto = Crypto(
    hash: string -> string, sign: (string, string) -> string, verify: (string, string, string) -> bool)

  predicate IsHexDigest(s: string) {
    |s| == 64 && forall c | c in s :: '0' <= c <= '9' || 'a' <= c <= 'f'
  }

  predicate IsSignature(s: string) {
    |s| == 86 &&
    forall c | c in s :: 'A' <= c <= 'Z' || 'a' <= c <= 'z' || '0' <= c <= '9' || c == '_' || c == '-'
  }

  /** Digests and signatures have their format. */
  ghost predicate WellFormedCrypto(c: Crypto) {
    (forall x :: IsHexDigest(c.hash(x))) && (forall k, d :: IsSignature(c.sign(k, d)))
  }

  /** The public keys verify what the signing keys sign. */
  ghost predicate Trusts(c: Crypto, keys: map<string, string>, keyId: string) {
    keyId in keys && forall d :: c.verify(keys[keyId], d, c.sign(keyId, d))
  }

  // ----- The verifier -----

  /** One entry continues the chain after a checkpoint. */
  predicate EntryAccepted(c: Crypto, keys: map<string, string>, prior: Checkpoint, e: SignedEntry) {
    && e.sequence == prior.sequence + 1 && e.previousSequence == prior.sequence
    && e.previousDigest == prior.digest
    && IsHexDigest(e.digest) && IsSignature(e.signature) && e.keyId in keys
    && Utf8Length(Material(e)) <= MAX_EVENT_BYTES
    && c.hash(Material(e)) == e.digest
    && c.verify(keys[e.keyId], e.digest, e.signature)
  }

  function After(e: SignedEntry): Checkpoint {
    Checkpoint(e.sequence, e.digest)
  }

  /** The checkpoint entry `i` has to continue. */
  function PriorOf(from: Checkpoint, entries: seq<SignedEntry>, i: nat): Checkpoint
    requires i <= |entries|
  {
    if i == 0 then from else After(entries[i - 1])
  }

  function LastCheckpoint(from: Checkpoint, entries: seq<SignedEntry>): Checkpoint {
    PriorOf(from, entries, |entries|)
  }

  /** The entries form a chain after the checkpoint. */
  predicate ChainAccepted(c: Crypto, keys: map<string, string>, from: Checkpoint, entries: seq<SignedEntry>)
    decreases |entries|
  {
    entries == [] ||
    (ChainAccepted(c, keys, from, entries[..|entries| - 1]) &&
     EntryAccepted(c, keys, LastCheckpoint(from, entries[..|entries| - 1]), entries[|entries| - 1]))
  }

  /** Every entry of a chain continues the one before it. */
  lemma {:induction false} LinkAccepted(
    c: Crypto, keys: map<string, string>, from: Checkpoint, entries: seq<SignedEntry>, i: nat)
    requires ChainAccepted(c, keys, from, entries) && i < |entries|
    ensures EntryAccepted(c, keys, PriorOf(from, entries, i), entries[i])
    decreases |entries|
  {
    var n := |entries| - 1;
    assert PriorOf(from, entries, i) == PriorOf(from, entries[..n], i);
    if i < n {
      LinkAccepted(c, keys, from, entries[..n], i);
    }
  }

  lemma {:induction false} LinksAccepted(
    c: Crypto, keys: map<string, string>, from: Checkpoint, entries: seq<SignedEntry>)
    requires forall i | 0 <= i < |entries| :: EntryAccepted(c, keys, PriorOf(from, entries, i), entries[i])
    ensures ChainAccepted(c, keys, from, entries)
    decreases |entries|
  {
    if entries != [] {
      var n := |entries| - 1;
      var front := entries[..n];
      forall i | 0 <= i < n ensures EntryAccepted(c, keys, PriorOf(from, front, i), front[i]) {
        assert PriorOf(from, front, i) == PriorOf(from, entries, i);
      }
      LinksAccepted(c, keys, from, front);
      assert LastCheckpoint(from, front) == PriorOf(from, entries, n);
    }
  }

  lemma ChainExtends(
    c: Crypto, keys: map<string, string>, from: Checkpoint, entries: seq<SignedEntry>, e: SignedEntry)
    ensures ChainAccepted(c, keys, from, entries + [e])
      <==> ChainAccepted(c, keys, from, entries) && EntryAccepted(c, keys, LastCheckpoint(from, entries), e)
  {
    var longer := entries + [e];
    assert longer[..|longer| - 1] == entries;
  }

  lemma RejectedAt(c: Crypto, keys: map<string, string>, from: Checkpoint, entries: seq<SignedEntry>, i: nat)
    requires i < |entries| && !EntryAccepted(c, keys, PriorOf(from, entries, i), entries[i])
    ensures !ChainAccepted(c, keys, from, entries)
  {
    if ChainAccepted(c, keys, from, entries) {
      LinkAccepted(c, keys, from, entries, i);
    }
  }

  predicate InputsOk(entries: seq<SignedEntry>, from: Checkpoint) {
    |entries| <= 1000 && IsHexDigest(from.digest)
  }

  /** The checks on one entry, in the verifier's order. */
  method VerifyEntry(c: Crypto, keys: map<string, string>, prior: Checkpoint, e: SignedEntry)
    returns (r: Outcome<string>)
    ensures r.Pass? <==> EntryAccepted(c, keys, prior, e)
  {
    if e.sequence != prior.sequence + 1 || e.previousSequence != prior.sequence || e.previousDigest != prior.digest
       || !IsHexDigest(e.digest) || !IsSignature(e.signature) || e.keyId !in keys {
      return Fail("Audit export has missing, reordered, or untrusted entries.");
    }
    var encoded := Material(e);
    if Utf8Length(encoded) > MAX_EVENT_BYTES || c.hash(encoded) != e.digest
       || !c.verify(keys[e.keyId], e.digest, e.signature) {
      return Fail("Audit export signature or content verification failed.");
    }
    return Pass;
  }

  lemma AcceptedNext(
    c: Crypto, keys: map<string, string>, from: Checkpoint, entries: seq<SignedEntry>, i: nat)
    requires i < |entries| && ChainAccepted(c, keys, from, entries[..i])
    requires EntryAccepted(c, keys, PriorOf(from, entries, i), entries[i])
    ensures ChainAccepted(c, keys, from, entries[..i + 1])
  {
    ChainExtends(c, keys, from, entries[..i], entries[i]);
    assert entries[..i + 1] == entries[..i] + [entries[i]];
  }

  /** Accepts exactly the chains that continue the checkpoint, and returns the next checkpoint. */
  method VerifyAuditExport(c: Crypto, keys: map<string, string>, from: Checkpoint, entries: seq<SignedEntry>)
    returns (r: Result<Checkpoint, string>)
    ensures r.Ok? <==> InputsOk(entries, from) && ChainAccepted(c, keys, from, entries)
    ensures r.Ok? ==> r.value == LastCheckpoint(from, entries)
  {
    if !InputsOk(entries, from) {
      return Err("Invalid audit verification inputs.");
    }
    var prior := from;
    for i := 0 to |entries|
      invariant ChainAccepted(c, keys, from, entries[..i])
      invariant prior == PriorOf(from, entries, i)
    {
      var verdict := VerifyEntry(c, keys, prior, entries[i]);
      if verdict.Fail? {
        RejectedAt(c, keys, from, entries, i);
        return Err(verdict.error);
      }
      AcceptedNext(c, keys, from, entries, i);
      prior := After(entries[i]);
    }
    assert entries[..|entries|] == entries;
    return Ok(prior);
  }
}
