/** The exporter of src/audit-export.ts, step by step: `flush` with its capture loop, its delivery and its
    acknowledgement, and `status`. */
module AuditExporter {
  import opened Wrappers
  import opened AuditExport
  import opened AuditOutbox
  import T = CanonicalText

  const CAPACITY_REACHED: string := "Audit export retention capacity reached."
  const DELIVERY_FAILED: string := "Audit destination failed."
  const CLOSED: string := "Audit exporter is closed."

  lemma AboveAppend(s: seq<SignedEntry>, x: SignedEntry, sequence: nat)
    ensures Above(s + [x], sequence) == Above(s, sequence) + (if x.sequence > sequence then [x] else [])
  {
    if s == [] {
      assert [x] + Above([], sequence) == [x];
      assert s + [x] == [x];
    } else {
      assert (s + [x])[1..] == s[1..] + [x];
      AboveAppend(s[1..], x, sequence);
    }
  }

  lemma RowsAfterAppend(s: seq<LogRow>, x: LogRow, id: nat)
    ensures RowsAfter(s + [x], id) == RowsAfter(s, id) + (if x.id > id then [x] else [])
  {
    if s == [] {
      assert s + [x] == [x];
      assert [x] + RowsAfter([], id) == [x];
    } else {
      assert (s + [x])[1..] == s[1..] + [x];
      RowsAfterAppend(s[1..], x, id);
    }
  }

  lemma RetireAppend(entries: seq<SignedEntry>, batch: seq<SignedEntry>, x: SignedEntry, held: set<nat>)
    ensures Retire(entries, batch + [x], held)
      == if x.sequence in held then Retire(entries, batch, held)
         else Without(Retire(entries, batch, held), x.sequence)
    decreases |batch|
  {
    if batch == [] {
      assert batch + [x] == [x] && [x][1..] == [];
    } else {
      assert (batch + [x])[1..] == batch[1..] + [x];
      var kept := if batch[0].sequence in held then entries else Without(entries, batch[0].sequence);
      RetireAppend(kept, batch[1..], x, held);
    }
  }

  lemma PrefixPlus<A>(s: seq<A>, i: nat)
    requires i < |s|
    ensures s[..i + 1] == s[..i] + [s[i]]
  {
  }

  lemma {:induction false} WithoutShrinks(entries: seq<SignedEntry>, x: SignedEntry)
    requires x in entries
    ensures |Without(entries, x.sequence)| < |entries|
  {
    WithoutSize(entries[1..], x.sequence, EnvelopeBytes);
    if entries[0].sequence != x.sequence {
      assert x in entries[1..];
      WithoutShrinks(entries[1..], x);
    }
  }

  /** Without holds, acknowledging the pending batch makes room in the outbox. */
  lemma AcknowledgementFreesCapacity(o: Outbox, n: nat)
    requires Pending(o, n) != []
    ensures |Acknowledge(o, Pending(o, n), {}).entries| < |o.entries|
  {
    var batch := Pending(o, n);
    AboveFacts(o.entries, o.exported.sequence);
    assert batch[0] in Above(o.entries, o.exported.sequence);
    WithoutShrinks(o.entries, batch[0]);
    RetireSize(Without(o.entries, batch[0].sequence), batch[1..], {});
  }

  class Exporter {
    const crypto: Crypto
    const settings: Settings
    const keyId: string
    var captured: Checkpoint
    var exported: Checkpoint
    var entries: seq<SignedEntry>
    var closed: bool

    function Tables(): Outbox
      reads this
    {
      Outbox(captured, exported, entries)
    }

    constructor (c: Crypto, s: Settings, k: string)
      ensures Tables() == EMPTY && !closed && crypto == c && settings == s && keyId == k
    {
      crypto, settings, keyId := c, s, k;
      captured, exported, entries, closed := START, START, [], false;
    }

    method SelectRows(log: seq<LogRow>) returns (rows: seq<LogRow>)
      ensures rows == Take(RowsAfter(log, captured.sequence), settings.batchSize)
    {
      rows := [];
      for i := 0 to |log|
        invariant rows == Take(RowsAfter(log[..i], captured.sequence), settings.batchSize)
      {
        PrefixPlus(log, i);
        RowsAfterAppend(log[..i], log[i], captured.sequence);
        if log[i].id > captured.sequence && |rows| < settings.batchSize {
          rows := rows + [log[i]];
        }
      }
      assert log[..|log|] == log;
    }

    /** Builds and judges the entry for a row, given the running counts. */
    method JudgeRow(row: LogRow, count: nat, bytes: nat) returns (v: Verdict)
      requires count == |entries| && bytes == TotalBytes(entries)
      ensures v == Judge(crypto, settings, keyId, row, Tables())
    {
      if row.metadataBytes > MAX_EVENT_BYTES {
        return Reject("Audit event exceeds export size bound.");
      }
      if row.id != captured.sequence + 1 {
        return Reject("Audit export detected missing events.");
      }
      var e := Sign(crypto, captured, keyId, row);
      if Utf8Length(Material(e)) > MAX_EVENT_BYTES {
        return Reject("Audit event exceeds export size bound.");
      }
      if count >= settings.maxEntries || bytes + EnvelopeBytes(e) > settings.maxBytes {
        return Full;
      }
      return Store(e);
    }

    /** The capture transaction: every row is stored, or the capacity ends the loop, or everything is undone. */
    method CaptureTransaction(log: seq<LogRow>) returns (r: CaptureResult)
      modifies this`captured, this`entries
      ensures r == Capture(crypto, settings, keyId, log, old(Tables()))
      ensures Tables() == AfterCapture(crypto, settings, keyId, log, old(Tables()))
    {
      var before := Tables();
      var count, bytes := |entries|, TotalBytes(entries);
      var rows := SelectRows(log);
      for i := 0 to |rows|
        invariant exported == before.exported && count == |entries| && bytes == TotalBytes(entries)
        invariant CaptureRows(crypto, settings, keyId, rows, before)
          == CaptureRows(crypto, settings, keyId, rows[i..], Tables())
      {
        assert rows[i..][0] == rows[i] && rows[i..][1..] == rows[i + 1..];
        var verdict := JudgeRow(rows[i], count, bytes);
        match verdict
        case Reject(error) =>
          captured, entries := before.captured, before.entries;
          return CaptureFailed(error);
        case Full =>
          return Captured(Tables(), true);
        case Store(e) =>
          TotalAppend(entries, e, EnvelopeBytes);
          entries, captured := entries + [e], After(e);
          count, bytes := count + 1, bytes + EnvelopeBytes(e);
      }
      return Captured(Tables(), false);
    }

    method ReadBatch() returns (batch: seq<SignedEntry>)
      ensures batch == Pending(Tables(), settings.batchSize)
    {
      batch := [];
      for i := 0 to |entries|
        invariant batch == Take(Above(entries[..i], exported.sequence), settings.batchSize)
      {
        PrefixPlus(entries, i);
        AboveAppend(entries[..i], entries[i], exported.sequence);
        if entries[i].sequence > exported.sequence && |batch| < settings.batchSize {
          batch := batch + [entries[i]];
        }
      }
      assert entries[..|entries|] == entries;
    }

    method AcknowledgeBatch(batch: seq<SignedEntry>, held: set<nat>)
      requires batch != []
      modifies this`exported, this`entries
      ensures Tables() == Acknowledge(old(Tables()), batch, held)
    {
      var last := batch[|batch| - 1];
      if exported.sequence < last.sequence {
        exported := After(last);
      }
      for i := 0 to |batch|
        invariant entries == Retire(old(entries), batch[..i], held)
        invariant captured == old(captured)
        invariant exported == if old(exported).sequence < last.sequence then After(last) else old(exported)
      {
        PrefixPlus(batch, i);
        RetireAppend(old(entries), batch[..i], batch[i], held);
        if batch[i].sequence !in held {
          entries := Without(entries, batch[i].sequence);
        }
      }
      assert batch[..|batch|] == batch;
    }

    /** One flush: whatever the capture did, what is pending is offered to the destination, and acknowledged only
        when the destination took it. */
    method Flush(log: seq<LogRow>, accepts: seq<SignedEntry> -> bool, held: set<nat>)
      returns (r: Result<nat, string>, offered: seq<SignedEntry>)
      modifies this`captured, this`exported, this`entries
      ensures old(closed) ==> r == Err(CLOSED) && offered == [] && Tables() == old(Tables())
      ensures !old(closed) ==>
        var capture := Capture(crypto, settings, keyId, log, old(Tables()));
        var middle := AfterCapture(crypto, settings, keyId, log, old(Tables()));
        && offered == Pending(middle, settings.batchSize)
        && (Tables() == if offered != [] && accepts(offered) then Acknowledge(middle, offered, held) else middle)
        && (r == if offered != [] && !accepts(offered) then Err(DELIVERY_FAILED)
                 else if capture.CaptureFailed? then Err(capture.error)
                 else if offered == [] && capture.blocked then Err(CAPACITY_REACHED)
                 else Ok(|offered|))
    {
      if closed {
        return Err(CLOSED), [];
      }
      var capture := CaptureTransaction(log);
      offered := ReadBatch();
      if offered == [] {
        if capture.CaptureFailed? {
          return Err(capture.error), offered;
        }
        if capture.blocked {
          return Err(CAPACITY_REACHED), offered;
        }
        return Ok(0), offered;
      }
      if !accepts(offered) {
        return Err(DELIVERY_FAILED), offered;
      }
      AcknowledgeBatch(offered, held);
      if capture.CaptureFailed? {
        return Err(capture.error), offered;
      }
      return Ok(|offered|), offered;
    }

    /** The counts split the outbox at the checkpoint. */
    method Status() returns (through: Checkpoint, pending: nat, retained: nat)
      ensures through == exported && pending == |Above(entries, exported.sequence)|
      ensures pending + retained == |entries|
    {
      through, pending, retained := exported, 0, 0;
      for i := 0 to |entries|
        invariant pending == |Above(entries[..i], exported.sequence)| && pending + retained == i
      {
        PrefixPlus(entries, i);
        AboveAppend(entries[..i], entries[i], exported.sequence);
        if entries[i].sequence > exported.sequence {
          pending := pending + 1;
        } else {
          retained := retained + 1;
        }
      }
      assert entries[..|entries|] == entries;
    }

    method Close()
      modifies this`closed
      ensures closed
    {
      closed := true;
    }
  }
}
