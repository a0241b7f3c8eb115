/** What one capture stores: the next log rows in order, until a row must not be exported or does not fit. */
module AuditCapture {
  import opened Wrappers
  import opened AuditExport
  import opened AuditOutbox

  /** A row that makes the whole capture fail: it is too large, or does not follow what is captured. */
  predicate Refused(c: Crypto, keyId: string, row: LogRow, o: Outbox) {
    || row.metadataBytes > 262144 || row.id != o.captured.sequence + 1
    || Utf8Length(Material(Bare(o.captured, keyId, row))) > 262144
  }

  predicate Fits(s: Settings, entries: seq<SignedEntry>) {
    |entries| <= s.maxEntries && TotalBytes(entries) <= s.maxBytes
  }

  /** The entry tells of the row and is signed for its text. */
  predicate Carries(c: Crypto, keyId: string, e: SignedEntry, row: LogRow) {
    && e.sequence == row.id && e.event == row.event && e.keyId == keyId
    && e.digest == c.hash(Material(e)) && e.signature == c.sign(keyId, e.digest)
  }

  lemma JudgeExact(c: Crypto, s: Settings, keyId: string, row: LogRow, o: Outbox)
    requires Fits(s, o.entries)
    ensures var v, e := Judge(c, s, keyId, row, o), Sign(c, o.captured, keyId, row);
            && (v.Reject? <==> Refused(c, keyId, row, o))
            && (v.Store? ==> v.entry == e && Carries(c, keyId, e, row))
            && (v.Store? <==> !Refused(c, keyId, row, o) && Fits(s, o.entries + [e]))
  {
    var e := Sign(c, o.captured, keyId, row);
    assert Unsigned(e) == Unsigned(Bare(o.captured, keyId, row));
    TotalAppend(o.entries, e, EnvelopeBytes);
  }

  /** The entries stored for the rows before the first one that is not stored. */
  function NewEntries(c: Crypto, s: Settings, keyId: string, rows: seq<LogRow>, o: Outbox): seq<SignedEntry>
    decreases |rows|
  {
    if rows == [] || !Judge(c, s, keyId, rows[0], o).Store? then []
    else
      var e := Judge(c, s, keyId, rows[0], o).entry;
      [e] + NewEntries(c, s, keyId, rows[1..], Stored(o, e))
  }

  /** An outbox with more entries, captured up to the last of them. */
  function Extended(o: Outbox, more: seq<SignedEntry>): Outbox {
    o.(entries := o.entries + more, captured := if more == [] then o.captured else After(more[|more| - 1]))
  }

  lemma ExtendedCons(o: Outbox, e: SignedEntry, more: seq<SignedEntry>)
    ensures Extended(Stored(o, e), more) == Extended(o, [e] + more)
  {
    assert o.entries + [e] + more == o.entries + ([e] + more);
  }

  lemma ExtendedNothing(o: Outbox)
    ensures Extended(o, []) == o
  {
    assert o.entries + [] == o.entries;
  }

  predicate AllCarry(c: Crypto, keyId: string, entries: seq<SignedEntry>, rows: seq<LogRow>) {
    |entries| <= |rows| &&
    forall i | 0 <= i < |entries| :: Carries(c, keyId, entries[i], rows[i])
  }

  lemma AllCarryCons(c: Crypto, keyId: string, e: SignedEntry, more: seq<SignedEntry>, rows: seq<LogRow>)
    requires |more| < |rows| && Carries(c, keyId, e, rows[0]) && AllCarry(c, keyId, more, rows[1..])
    ensures AllCarry(c, keyId, [e] + more, rows)
  {
    var all := [e] + more;
    forall i | 0 <= i < |all| ensures Carries(c, keyId, all[i], rows[i]) {
      ConsAt(e, more, rows, i);
      assert i > 0 ==> Carries(c, keyId, more[i - 1], rows[1..][i - 1]);
    }
  }

  lemma ConsAt(e: SignedEntry, more: seq<SignedEntry>, rows: seq<LogRow>, i: nat)
    requires i <= |more| < |rows|
    ensures i == 0 ==> ([e] + more)[i] == e
    ensures i > 0 ==> ([e] + more)[i] == more[i - 1] && rows[i] == rows[1..][i - 1]
  {
  }

  lemma {:induction false} EntriesCarry(c: Crypto, s: Settings, keyId: string, rows: seq<LogRow>, o: Outbox)
    requires Fits(s, o.entries)
    ensures AllCarry(c, keyId, NewEntries(c, s, keyId, rows, o), rows)
    decreases |rows|
  {
    if rows != [] && Judge(c, s, keyId, rows[0], o).Store? {
      JudgeExact(c, s, keyId, rows[0], o);
      var e := Judge(c, s, keyId, rows[0], o).entry;
      EntriesCarry(c, s, keyId, rows[1..], Stored(o, e));
      AllCarryCons(c, keyId, e, NewEntries(c, s, keyId, rows[1..], Stored(o, e)), rows);
    }
  }

  lemma {:induction false} EntriesFit(c: Crypto, s: Settings, keyId: string, rows: seq<LogRow>, o: Outbox)
    requires Fits(s, o.entries)
    ensures Fits(s, Extended(o, NewEntries(c, s, keyId, rows, o)).entries)
    decreases |rows|
  {
    ExtendedNothing(o);
    if rows != [] && Judge(c, s, keyId, rows[0], o).Store? {
      JudgeExact(c, s, keyId, rows[0], o);
      var e := Judge(c, s, keyId, rows[0], o).entry;
      EntriesFit(c, s, keyId, rows[1..], Stored(o, e));
      ExtendedCons(o, e, NewEntries(c, s, keyId, rows[1..], Stored(o, e)));
    }
  }

  /** What becomes of a capture that stores the first `m` rows. */
  predicate Ends(c: Crypto, s: Settings, keyId: string, rows: seq<LogRow>, m: nat, now: Outbox, r: CaptureResult) {
    if m >= |rows| then r == Captured(now, false)
    else
      match Judge(c, s, keyId, rows[m], now)
      case Store(_) => false
      case Full => r == Captured(now, true)
      case Reject(error) => r == CaptureFailed(error)
  }

  lemma {:induction false} CaptureEnds(c: Crypto, s: Settings, keyId: string, rows: seq<LogRow>, o: Outbox)
    ensures var more := NewEntries(c, s, keyId, rows, o);
            Ends(c, s, keyId, rows, |more|, Extended(o, more), CaptureRows(c, s, keyId, rows, o))
    decreases |rows|
  {
    ExtendedNothing(o);
    if rows != [] && Judge(c, s, keyId, rows[0], o).Store? {
      var e := Judge(c, s, keyId, rows[0], o).entry;
      CaptureEnds(c, s, keyId, rows[1..], Stored(o, e));
      var more := NewEntries(c, s, keyId, rows[1..], Stored(o, e));
      ExtendedCons(o, e, more);
      EndsCons(c, s, keyId, rows, |more|, Extended(Stored(o, e), more), CaptureRows(c, s, keyId, rows, o));
    }
  }

  lemma EndsCons(
    c: Crypto, s: Settings, keyId: string, rows: seq<LogRow>, m: nat, now: Outbox, r: CaptureResult)
    requires rows != [] && Ends(c, s, keyId, rows[1..], m, now, r)
    ensures Ends(c, s, keyId, rows, m + 1, now, r)
  {
    if m + 1 < |rows| {
      assert rows[1..][m] == rows[m + 1];
    }
  }

  /** All rows are stored, or the capture stops at one that does not fit, or fails at one that must not be exported. */
  predicate StopsRightly(
    c: Crypto, s: Settings, keyId: string, rows: seq<LogRow>, stored: nat, now: Outbox, r: CaptureResult)
  {
    if stored >= |rows| then r == Captured(now, false)
    else if Refused(c, keyId, rows[stored], now) then r.CaptureFailed?
    else r == Captured(now, true) && !Fits(s, now.entries + [Sign(c, now.captured, keyId, rows[stored])])
  }

  /** A capture stores rows, one signed entry for each in their order, as long as they may be exported and fit: it
      stops early only at a row that does not fit, and fails only at one that must not be exported. */
  lemma CaptureExact(c: Crypto, s: Settings, keyId: string, rows: seq<LogRow>, o: Outbox)
    returns (more: seq<SignedEntry>)
    requires Fits(s, o.entries)
    ensures AllCarry(c, keyId, more, rows) && Fits(s, o.entries + more)
    ensures StopsRightly(c, s, keyId, rows, |more|, Extended(o, more), CaptureRows(c, s, keyId, rows, o))
  {
    more := NewEntries(c, s, keyId, rows, o);
    EntriesCarry(c, s, keyId, rows, o);
    EntriesFit(c, s, keyId, rows, o);
    CaptureEnds(c, s, keyId, rows, o);
    if |more| < |rows| {
      JudgeExact(c, s, keyId, rows[|more|], Extended(o, more));
    }
  }

  lemma {:induction false} FirstRow(log: seq<LogRow>, row: LogRow, id: nat)
    requires Ascending(log) && row in log && row.id == id + 1
    ensures RowsAfter(log, id) != [] && RowsAfter(log, id)[0] == row
  {
    if log[0].id > id {
      var i :| 0 <= i < |log| && log[i] == row;
      assert i > 0 ==> log[0].id < log[i].id;
    } else {
      assert log == [log[0]] + log[1..];
      assert Ascending(log[1..]);
      FirstRow(log[1..], row, id);
    }
  }

  /** If the next audit row is there, may be exported and fits, a capture that does not fail captures it. */
  lemma CaptureAdvances(c: Crypto, s: Settings, keyId: string, log: seq<LogRow>, row: LogRow, o: Outbox)
    requires SettingsOk(s) && Ascending(log) && row in log && Fits(s, o.entries)
    requires !Refused(c, keyId, row, o) && Fits(s, o.entries + [Sign(c, o.captured, keyId, row)])
    ensures var r := Capture(c, s, keyId, log, o);
            r.Captured? ==>
              && |r.outbox.entries| > |o.entries| && r.outbox.entries[..|o.entries|] == o.entries
              && Carries(c, keyId, r.outbox.entries[|o.entries|], row)
              && r.outbox.captured.sequence > o.captured.sequence
  {
    FirstRow(log, row, o.captured.sequence);
    var rows := Take(RowsAfter(log, o.captured.sequence), s.batchSize);
    var more := CaptureExact(c, s, keyId, rows, o);
    assert rows[0] == row;
    ExtendedNothing(o);
    if Capture(c, s, keyId, log, o).Captured? {
      assert more != [];
      assert Carries(c, keyId, more[0], row);
      StoredRises(c, s, keyId, rows, o);
    }
  }

  /** What is captured moves forward with every stored row. */
  lemma {:induction false} StoredRises(c: Crypto, s: Settings, keyId: string, rows: seq<LogRow>, o: Outbox)
    ensures var r := CaptureRows(c, s, keyId, rows, o);
            r.Captured? ==>
              r.outbox.captured.sequence - o.captured.sequence == |r.outbox.entries| - |o.entries|
    decreases |rows|
  {
    if rows != [] && Judge(c, s, keyId, rows[0], o).Store? {
      StoredRises(c, s, keyId, rows[1..], Stored(o, Judge(c, s, keyId, rows[0], o).entry));
    }
  }
}
