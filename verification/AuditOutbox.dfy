/** Capture, delivery and acknowledgement of src/audit-export.ts (`flush`, `status`), on values. */
module AuditOutbox {
  import opened Wrappers
  import opened AuditExport
  import T = CanonicalText

  /** A row of the platform audit log: its columns form the event. */
  datatype LogRow = LogRow(id: nat, event: T.Value, metadataBytes: nat)

  /** The state row and the outbox table; the table is kept in the order of its primary key. */
  datatype Outbox = Outbox(captured: Checkpoint, exported: Checkpoint, entries: seq<SignedEntry>)

  const EMPTY: Outbox := Outbox(START, START, [])

  datatype Settings = Settings(batchSize: nat, maxEntries: nat, maxBytes: nat)

  /** The option checks of `openAuditExporter`. */
  predicate SettingsOk(s: Settings) {
    1 <= s.batchSize <= 1000 && 1 <= s.maxEntries <= 100_000 && 1024 <= s.maxBytes <= 128 * 1024 * 1024
  }

  function EnvelopeBytes(e: SignedEntry): nat {
    Utf8Length(Envelope(e))
  }

  function Total(entries: seq<SignedEntry>, size: SignedEntry -> nat): nat {
    if entries == [] then 0 else Total(entries[..|entries| - 1], size) + size(entries[|entries| - 1])
  }

  function TotalBytes(entries: seq<SignedEntry>): nat {
    Total(entries, EnvelopeBytes)
  }

  function Min(a: nat, b: nat): nat {
    if a < b then a else b
  }

  function Take<A>(s: seq<A>, n: nat): seq<A> {
    s[..Min(n, |s|)]
  }

  // ----- Capture -----

  predicate Ascending(log: seq<LogRow>) {
    forall i, j | 0 <= i < j < |log| :: log[i].id < log[j].id
  }

  /** `WHERE id > ? ORDER BY id` over a log in ID order. */
  function RowsAfter(log: seq<LogRow>, id: nat): seq<LogRow> {
    if log == [] then []
    else if log[0].id > id then [log[0]] + RowsAfter(log[1..], id)
    else RowsAfter(log[1..], id)
  }

  function Bare(prior: Checkpoint, keyId: string, row: LogRow): SignedEntry {
    SignedEntry(row.id, prior.sequence, prior.digest, keyId, row.event, "", "")
  }

  function Sign(c: Crypto, prior: Checkpoint, keyId: string, row: LogRow): SignedEntry {
    var bare := Bare(prior, keyId, row);
    var digest := c.hash(Material(bare));
    bare.(digest := digest, signature := c.sign(keyId, digest))
  }

  datatype CaptureResult =
    | Captured(outbox: Outbox, blocked: bool)
    | CaptureFailed(error: string)

  /** What the capture loop does with one row. */
  datatype Verdict = Store(entry: SignedEntry) | Full | Reject(error: string)

  function Judge(c: Crypto, s: Settings, keyId: string, row: LogRow, o: Outbox): Verdict {
    var e := Sign(c, o.captured, keyId, row);
    if row.metadataBytes > MAX_EVENT_BYTES then Reject("Audit event exceeds export size bound.")
    else if row.id != o.captured.sequence + 1 then Reject("Audit export detected missing events.")
    else if Utf8Length(Material(e)) > MAX_EVENT_BYTES then Reject("Audit event exceeds export size bound.")
    else if |o.entries| >= s.maxEntries || TotalBytes(o.entries) + EnvelopeBytes(e) > s.maxBytes then Full
    else Store(e)
  }

  function Stored(o: Outbox, e: SignedEntry): Outbox {
    o.(entries := o.entries + [e], captured := After(e))
  }

  /** The capture loop over the selected rows. */
  function CaptureRows(c: Crypto, s: Settings, keyId: string, rows: seq<LogRow>, o: Outbox): CaptureResult {
    if rows == [] then Captured(o, false)
    else
      match Judge(c, s, keyId, rows[0], o)
      case Reject(error) => CaptureFailed(error)
      case Full => Captured(o, true)
      case Store(e) => CaptureRows(c, s, keyId, rows[1..], Stored(o, e))
  }

  /** The whole capture transaction: a failure leaves the tables as they were. */
  function Capture(c: Crypto, s: Settings, keyId: string, log: seq<LogRow>, o: Outbox): CaptureResult {
    CaptureRows(c, s, keyId, Take(RowsAfter(log, o.captured.sequence), s.batchSize), o)
  }

  function AfterCapture(c: Crypto, s: Settings, keyId: string, log: seq<LogRow>, o: Outbox): Outbox {
    var r := Capture(c, s, keyId, log, o);
    if r.Captured? then r.outbox else o
  }

  // ----- Delivery -----

  /** Entries above a sequence number. */
  function Above(entries: seq<SignedEntry>, sequence: nat): seq<SignedEntry> {
    if entries == [] then []
    else if entries[0].sequence > sequence then [entries[0]] + Above(entries[1..], sequence)
    else Above(entries[1..], sequence)
  }

  /** The batch a flush delivers. */
  function Pending(o: Outbox, n: nat): seq<SignedEntry> {
    Take(Above(o.entries, o.exported.sequence), n)
  }

  // ----- Acknowledgement -----

  /** `DELETE ... WHERE sequence = ?`. */
  function Without(entries: seq<SignedEntry>, sequence: nat): seq<SignedEntry> {
    if entries == [] then []
    else if entries[0].sequence == sequence then Without(entries[1..], sequence)
    else [entries[0]] + Without(entries[1..], sequence)
  }

  /** Deletes the entries of a batch that no hold protects. */
  function Retire(entries: seq<SignedEntry>, batch: seq<SignedEntry>, held: set<nat>): seq<SignedEntry>
    decreases |batch|
  {
    if batch == [] then entries
    else if batch[0].sequence in held then Retire(entries, batch[1..], held)
    else Retire(Without(entries, batch[0].sequence), batch[1..], held)
  }

  function Acknowledge(o: Outbox, batch: seq<SignedEntry>, held: set<nat>): Outbox
    requires batch != []
  {
    var last := batch[|batch| - 1];
    Outbox(
      o.captured,
      if o.exported.sequence < last.sequence then After(last) else o.exported,
      Retire(o.entries, batch, held))
  }

  // ----- Facts about the table operations -----

  lemma {:induction false} RowsAfterFacts(log: seq<LogRow>, id: nat)
    ensures forall r :: r in RowsAfter(log, id) <==> r in log && r.id > id
  {
    if log != [] {
      RowsAfterFacts(log[1..], id);
      forall r ensures r in log <==> r == log[0] || r in log[1..] {
        assert log == [log[0]] + log[1..];
      }
    }
  }

  predicate Ordered(entries: seq<SignedEntry>) {
    forall i, j | 0 <= i < j < |entries| :: entries[i].sequence < entries[j].sequence
  }

  lemma TailMembers(entries: seq<SignedEntry>)
    requires entries != []
    ensures forall x :: x in entries <==> x == entries[0] || x in entries[1..]
    ensures Ordered(entries) ==> Ordered(entries[1..])
    ensures Ordered(entries) ==> forall x | x in entries[1..] :: x.sequence > entries[0].sequence
  {
    var tail := entries[1..];
    assert entries == [entries[0]] + tail;
    if Ordered(entries) {
      forall x | x in tail ensures x.sequence > entries[0].sequence {
        var i :| 0 <= i < |tail| && tail[i] == x;
        assert entries[i + 1] == x;
      }
    }
  }

  lemma ConsOrdered(x: SignedEntry, tail: seq<SignedEntry>)
    requires Ordered(tail) && forall y | y in tail :: y.sequence > x.sequence
    ensures Ordered([x] + tail)
  {
    var s := [x] + tail;
    forall i, j | 0 <= i < j < |s| ensures s[i].sequence < s[j].sequence {
      assert s[j] == tail[j - 1] && s[j] in tail;
    }
  }

  lemma {:induction false} AboveFacts(entries: seq<SignedEntry>, sequence: nat)
    ensures forall x :: x in Above(entries, sequence) <==> x in entries && x.sequence > sequence
    ensures Ordered(entries) ==> Ordered(Above(entries, sequence))
  {
    if entries != [] {
      TailMembers(entries);
      AboveFacts(entries[1..], sequence);
      if Ordered(entries) && entries[0].sequence > sequence {
        ConsOrdered(entries[0], Above(entries[1..], sequence));
      }
    }
  }

  lemma EmptyTogether(a: seq<SignedEntry>, b: seq<SignedEntry>)
    requires forall x :: x in a <==> x in b
    ensures a == [] <==> b == []
  {
    if a != [] {
      assert a[0] in b;
    }
    if b != [] {
      assert b[0] in a;
    }
  }

  lemma {:induction false} OrderedUnique(a: seq<SignedEntry>, b: seq<SignedEntry>)
    requires Ordered(a) && Ordered(b) && forall x :: x in a <==> x in b
    ensures a == b
    decreases |a|
  {
    EmptyTogether(a, b);
    if a != [] {
      TailMembers(a);
      TailMembers(b);
      assert a[0] in b && b[0] in a;
      assert a[0] == b[0];
      OrderedUnique(a[1..], b[1..]);
      assert a == [a[0]] + a[1..] && b == [b[0]] + b[1..];
    }
  }

  lemma {:induction false} TotalCons(x: SignedEntry, s: seq<SignedEntry>, size: SignedEntry -> nat)
    ensures Total([x] + s, size) == size(x) + Total(s, size)
  {
    var t := [x] + s;
    if s == [] {
      assert t[..0] == [];
    } else {
      var n := |s| - 1;
      assert t[..|t| - 1] == [x] + s[..n];
      TotalCons(x, s[..n], size);
    }
  }

  lemma TotalAppend(s: seq<SignedEntry>, x: SignedEntry, size: SignedEntry -> nat)
    ensures Total(s + [x], size) == Total(s, size) + size(x)
  {
    var t := s + [x];
    assert t[..|t| - 1] == s;
  }

  lemma {:induction false} WithoutMembers(entries: seq<SignedEntry>, sequence: nat)
    ensures forall x :: x in Without(entries, sequence) <==> x in entries && x.sequence != sequence
  {
    if entries != [] {
      TailMembers(entries);
      WithoutMembers(entries[1..], sequence);
    }
  }

  lemma {:induction false} WithoutOrdered(entries: seq<SignedEntry>, sequence: nat)
    requires Ordered(entries)
    ensures Ordered(Without(entries, sequence))
  {
    if entries != [] {
      TailMembers(entries);
      WithoutOrdered(entries[1..], sequence);
      WithoutMembers(entries[1..], sequence);
      ConsOrdered(entries[0], Without(entries[1..], sequence));
    }
  }

  lemma {:induction false} WithoutSize(entries: seq<SignedEntry>, sequence: nat, size: SignedEntry -> nat)
    ensures |Without(entries, sequence)| <= |entries|
    ensures Total(Without(entries, sequence), size) <= Total(entries, size)
  {
    if entries != [] {
      var tail := entries[1..];
      WithoutSize(tail, sequence, size);
      assert entries == [entries[0]] + tail;
      TotalCons(entries[0], tail, size);
      TotalCons(entries[0], Without(tail, sequence), size);
    }
  }

  /** Some entry of the batch has this sequence number and no hold protects it. */
  predicate Retired(batch: seq<SignedEntry>, held: set<nat>, sequence: nat) {
    sequence !in held && exists b :: b in batch && b.sequence == sequence
  }

  function RetireOne(entries: seq<SignedEntry>, sequence: nat, held: set<nat>): seq<SignedEntry> {
    if sequence in held then entries else Without(entries, sequence)
  }

  lemma {:induction false} RetireMembers(entries: seq<SignedEntry>, batch: seq<SignedEntry>, held: set<nat>)
    ensures forall x :: x in Retire(entries, batch, held) <==> x in entries && !Retired(batch, held, x.sequence)
    decreases |batch|
  {
    if batch != [] {
      WithoutMembers(entries, batch[0].sequence);
      RetireMembers(RetireOne(entries, batch[0].sequence, held), batch[1..], held);
      forall q: nat ensures Retired(batch, held, q)
        <==> (q == batch[0].sequence && q !in held) || Retired(batch[1..], held, q)
      {
        RetiredCons(batch, held, q);
      }
    }
  }

  lemma {:induction false} RetireSize(entries: seq<SignedEntry>, batch: seq<SignedEntry>, held: set<nat>)
    ensures Ordered(entries) ==> Ordered(Retire(entries, batch, held))
    ensures |Retire(entries, batch, held)| <= |entries|
    ensures TotalBytes(Retire(entries, batch, held)) <= TotalBytes(entries)
    decreases |batch|
  {
    if batch != [] {
      if Ordered(entries) {
        WithoutOrdered(entries, batch[0].sequence);
      }
      WithoutSize(entries, batch[0].sequence, EnvelopeBytes);
      RetireSize(RetireOne(entries, batch[0].sequence, held), batch[1..], held);
    }
  }

  lemma RetiredCons(batch: seq<SignedEntry>, held: set<nat>, q: nat)
    requires batch != []
    ensures Retired(batch, held, q) <==> (q == batch[0].sequence && q !in held) || Retired(batch[1..], held, q)
  {
    TailMembers(batch);
    if q == batch[0].sequence && q !in held {
      assert batch[0] in batch;
    }
  }
}
