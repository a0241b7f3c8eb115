/** `synchronizeChanges` of src/backend.ts: catching up with other processes through the change journal. */
module ChangeJournal {
  import opened Wrappers
  import opened DocumentStore
  import opened ChangeMatcher

  // ----- Reading the journal -----

  /** SELECT ... WHERE revision > from AND revision <= target ORDER BY revision, sequence */
  function Select(journal: seq<JournalRow>, from: nat, target: nat): seq<JournalRow> {
    if journal == [] then []
    else
      var last := journal[|journal| - 1];
      Select(journal[..|journal| - 1], from, target) + if from < last.revision <= target then [last] else []
  }

  predicate Ordered(rows: seq<JournalRow>) {
    forall i, j | 0 <= i <= j < |rows| :: rows[i].revision <= rows[j].revision
  }

  predicate Within(rows: seq<JournalRow>, from: nat, target: nat) {
    forall i | 0 <= i < |rows| :: from < rows[i].revision <= target
  }

  /** Every revision after `from` up to `target` has a row among the first `n`. */
  predicate Complete(rows: seq<JournalRow>, n: nat, from: nat, target: nat)
    requires n <= |rows|
  {
    forall r | from < r <= target :: HasRevision(rows, n, r)
  }

  predicate HasRevision(rows: seq<JournalRow>, n: nat, r: nat)
    requires n <= |rows|
  {
    exists i | 0 <= i < n :: rows[i].revision == r
  }

  function RecordsOf(rows: seq<JournalRow>): (records: seq<Record>)
    ensures |records| == |rows| && forall i | 0 <= i < |rows| :: records[i] == rows[i].record
  {
    seq(|rows|, i requires 0 <= i < |rows| => rows[i].record)
  }

  /** Scans the selected rows: reports their records, and full invalidation exactly when a revision is missing. */
  method ReadChanges(version: nat, target: nat, rows: seq<JournalRow>) returns (r: Result<Change, string>)
    requires version <= target && Within(rows, version, target)
    ensures r.Ok? <==> Ordered(rows)
    ensures r.Ok? ==> r.value == Change(target, RecordsOf(rows), !Complete(rows, |rows|, version, target))
  {
    var records: seq<Record> := [];
    var expected, observed, full := version + 1, version, false;
    for i := 0 to |rows|
      invariant Ordered(rows[..i]) && records == RecordsOf(rows[..i])
      invariant version <= observed <= target && expected == observed + 1
      invariant observed == if i == 0 then version else rows[i - 1].revision
      invariant full <==> !Complete(rows, i, version, observed)
    {
      var revision := rows[i].revision;
      if revision < observed {
        assert !Ordered(rows);
        return Err("SQLite change journal is not ordered.");
      }
      ghost var before := observed;
      if revision > observed {
        if revision != expected {
          full := true;
        }
        observed := revision;
        expected := revision + 1;
      }
      CompleteStep(rows, i, version, before);
      records := records + [rows[i].record];
    }
    assert rows[..|rows|] == rows;
    CompleteEnd(rows, version, observed, target);
    if observed != target {
      full := true;
    }
    return Ok(Change(target, records, full));
  }

  lemma HasRevisionStep(rows: seq<JournalRow>, i: nat, r: nat)
    requires i < |rows|
    ensures HasRevision(rows, i + 1, r) <==> HasRevision(rows, i, r) || r == rows[i].revision
  {
    if HasRevision(rows, i + 1, r) && r != rows[i].revision {
      var j :| 0 <= j < i + 1 && rows[j].revision == r;
      assert j < i;
    }
  }

  lemma NothingAfter(rows: seq<JournalRow>, i: nat, observed: nat, r: nat)
    requires i <= |rows| && Ordered(rows[..i]) && observed < r
    requires i > 0 ==> rows[i - 1].revision <= observed
    ensures !HasRevision(rows, i, r)
  {
    assert forall j | 0 <= j < i :: rows[..i][j] == rows[j];
  }

  lemma CompleteStep(rows: seq<JournalRow>, i: nat, version: nat, observed: nat)
    requires i < |rows| && Ordered(rows[..i]) && version <= observed <= rows[i].revision
    requires observed == if i == 0 then version else rows[i - 1].revision
    ensures Complete(rows, i + 1, version, rows[i].revision) <==>
      Complete(rows, i, version, observed) && rows[i].revision <= observed + 1
  {
    var next := rows[i].revision;
    if Complete(rows, i + 1, version, next) {
      forall r | version < r <= observed ensures HasRevision(rows, i, r) {
        HasRevisionStep(rows, i, r);
        assert i > 0 ==> HasRevision(rows, i, rows[i - 1].revision);
      }
      if next > observed + 1 {
        HasRevisionStep(rows, i, observed + 1);
        NothingAfter(rows, i, observed, observed + 1);
      }
    }
    if Complete(rows, i, version, observed) && next <= observed + 1 {
      var m := i + 1;
      forall r | version < r <= next ensures HasRevision(rows, m, r) {
        HasRevisionStep(rows, i, r);
      }
    }
  }

  lemma CompleteEnd(rows: seq<JournalRow>, version: nat, observed: nat, target: nat)
    requires Ordered(rows) && version <= observed <= target
    requires observed == if rows == [] then version else rows[|rows| - 1].revision
    ensures Complete(rows, |rows|, version, target) <==>
      Complete(rows, |rows|, version, observed) && observed == target
  {
    assert rows[..|rows|] == rows;
    if observed < target {
      NothingAfter(rows, |rows|, observed, target);
    }
  }

  // ----- The journal and the full log -----

  /** Everything ever announced: `log[i]` belongs to revision `i + 1`. */
  type Log = seq<seq<Record>>

  predicate NoEmptyRevision(log: Log) {
    forall i | 0 <= i < |log| :: log[i] != []
  }

  /** The journal rows of the revisions from `from` up to `upTo`. */
  function LogRows(log: Log, from: nat, upTo: nat): seq<JournalRow>
    requires from >= 1 && upTo <= |log|
  {
    if upTo < from then [] else LogRows(log, from, upTo - 1) + JournalRows(log[upTo - 1], upTo)
  }

  /** The records of the revisions after `from` up to `upTo`, in order. */
  function LogRecords(log: Log, from: nat, upTo: nat): seq<Record>
    requires upTo <= |log|
  {
    if upTo <= from then [] else LogRecords(log, from, upTo - 1) + log[upTo - 1]
  }

  lemma {:induction false} SelectAppend(a: seq<JournalRow>, b: seq<JournalRow>, from: nat, target: nat)
    ensures Select(a + b, from, target) == Select(a, from, target) + Select(b, from, target)
  {
    if b == [] {
      assert a + b == a;
    } else {
      assert (a + b)[..|a + b| - 1] == a + b[..|b| - 1];
      SelectAppend(a, b[..|b| - 1], from, target);
    }
  }

  lemma {:induction false} SelectRevision(rows: seq<JournalRow>, revision: nat, from: nat, target: nat)
    requires forall i | 0 <= i < |rows| :: rows[i].revision == revision
    ensures Select(rows, from, target) == if from < revision <= target then rows else []
  {
    if rows != [] {
      SelectRevision(rows[..|rows| - 1], revision, from, target);
    }
  }

  function Max(a: nat, b: nat): nat {
    if a >= b then a else b
  }

  /** Selecting from a journal whose oldest revision is `floor`, while `upTo` revisions are committed. */
  lemma {:induction false} SelectLog(log: Log, floor: nat, upTo: nat, from: nat, target: nat)
    requires floor >= 1 && target <= upTo <= |log|
    ensures Select(LogRows(log, floor, upTo), from, target) == LogRows(log, Max(floor, from + 1), target)
    decreases upTo
  {
    if upTo >= floor {
      SelectAppend(LogRows(log, floor, upTo - 1), JournalRows(log[upTo - 1], upTo), from, target);
      SelectRevision(JournalRows(log[upTo - 1], upTo), upTo, from, target);
      if target < upTo {
        SelectLog(log, floor, upTo - 1, from, target);
      } else {
        SelectLogWhole(log, floor, upTo - 1, from, target);
      }
    }
  }

  /** The same while the target lies beyond the rows at hand. */
  lemma {:induction false} SelectLogWhole(log: Log, floor: nat, upTo: nat, from: nat, target: nat)
    requires floor >= 1 && upTo <= target && upTo <= |log|
    ensures Select(LogRows(log, floor, upTo), from, target) == LogRows(log, Max(floor, from + 1), upTo)
    decreases upTo
  {
    if floor <= upTo {
      SelectAppend(LogRows(log, floor, upTo - 1), JournalRows(log[upTo - 1], upTo), from, target);
      SelectRevision(JournalRows(log[upTo - 1], upTo), upTo, from, target);
      SelectLogWhole(log, floor, upTo - 1, from, target);
    }
  }

  lemma {:induction false} LogRowsFacts(log: Log, from: nat, upTo: nat)
    requires from >= 1 && upTo <= |log| && NoEmptyRevision(log)
    ensures var rows := LogRows(log, from, upTo);
            && Ordered(rows) && Within(rows, from - 1, upTo)
            && RecordsOf(rows) == LogRecords(log, from - 1, upTo)
            && forall r | from <= r <= upTo :: HasRevision(rows, |rows|, r)
    decreases upTo
  {
    if from <= upTo {
      LogRowsFacts(log, from, upTo - 1);
      var front, last := LogRows(log, from, upTo - 1), JournalRows(log[upTo - 1], upTo);
      var rows := front + last;
      assert RecordsOf(rows) == RecordsOf(front) + RecordsOf(last);
      assert RecordsOf(last) == log[upTo - 1];
      forall r | from <= r <= upTo ensures HasRevision(rows, |rows|, r) {
        if r < upTo {
          assert HasRevision(front, |front|, r);
          var i :| 0 <= i < |front| && front[i].revision == r;
          assert rows[i].revision == r;
        } else {
          assert log[upTo - 1] != [] && rows[|front|].revision == upTo;
        }
      }
    } else {
      assert RecordsOf([]) == [];
    }
  }

  /** A reader at `version` that scans towards `target`, while the journal has lost every revision before
      `floor` and holds `upTo` revisions, learns either all records in between or that it must start over;
      and it starts over exactly when a revision it needed was pruned. */
  lemma SynchronizationComplete(log: Log, floor: nat, upTo: nat, version: nat, target: nat)
    requires floor >= 1 && NoEmptyRevision(log) && version <= target <= upTo <= |log|
    ensures var rows := Select(LogRows(log, floor, upTo), version, target);
            && Ordered(rows) && Within(rows, version, target)
            && (Complete(rows, |rows|, version, target) <==> floor <= version + 1 || version == target)
            && (Complete(rows, |rows|, version, target) ==> RecordsOf(rows) == LogRecords(log, version, target))
  {
    SelectLog(log, floor, upTo, version, target);
    var from := Max(floor, version + 1);
    LogRowsFacts(log, from, target);
    var rows := Select(LogRows(log, floor, upTo), version, target);
    if version < target && version + 1 < floor {
      assert !HasRevision(rows, |rows|, version + 1);
    }
  }

  // ----- Committing -----

  lemma {:induction false} JournalFromAppend(a: seq<JournalRow>, b: seq<JournalRow>, cutoff: nat)
    ensures JournalFrom(a + b, cutoff) == JournalFrom(a, cutoff) + JournalFrom(b, cutoff)
  {
    if a == [] {
      assert a + b == b;
    } else {
      assert (a + b)[1..] == a[1..] + b;
      JournalFromAppend(a[1..], b, cutoff);
    }
  }

  lemma {:induction false} JournalFromRevision(rows: seq<JournalRow>, revision: nat, cutoff: nat)
    requires forall i | 0 <= i < |rows| :: rows[i].revision == revision
    ensures JournalFrom(rows, cutoff) == if cutoff <= revision then rows else []
  {
    if rows != [] {
      JournalFromRevision(rows[1..], revision, cutoff);
    }
  }

  lemma {:induction false} PruneLog(log: Log, floor: nat, upTo: nat, cutoff: nat)
    requires floor >= 1 && cutoff >= 1 && upTo <= |log|
    ensures JournalFrom(LogRows(log, floor, upTo), cutoff) == LogRows(log, Max(floor, cutoff), upTo)
    decreases upTo
  {
    if floor <= upTo {
      PruneLog(log, floor, upTo - 1, cutoff);
      JournalFromAppend(LogRows(log, floor, upTo - 1), JournalRows(log[upTo - 1], upTo), cutoff);
      JournalFromRevision(JournalRows(log[upTo - 1], upTo), upTo, cutoff);
    }
  }

  lemma {:induction false} LogRowsPrefix(log: Log, more: seq<Record>, from: nat, upTo: nat)
    requires from >= 1 && upTo <= |log|
    ensures LogRows(log + [more], from, upTo) == LogRows(log, from, upTo)
    decreases upTo
  {
    if from <= upTo {
      LogRowsPrefix(log, more, from, upTo - 1);
    }
  }

  lemma {:induction false} LogRecordsPrefix(log: Log, more: seq<Record>, from: nat, upTo: nat)
    requires upTo <= |log|
    ensures LogRecords(log + [more], from, upTo) == LogRecords(log, from, upTo)
    decreases upTo
  {
    if from < upTo {
      LogRecordsPrefix(log, more, from, upTo - 1);
    }
  }

  /** A commit appends one revision to the journal and drops the oldest ones. */
  lemma CommitJournal(log: Log, floor: nat, records: seq<Record>, cutoff: nat)
    requires 1 <= floor <= |log| + 1 && cutoff >= 1
    ensures JournalFrom(LogRows(log, floor, |log|) + JournalRows(records, |log| + 1), cutoff)
         == LogRows(log + [records], Max(floor, cutoff), |log| + 1)
  {
    var n := |log| + 1;
    LogRowsPrefix(log, records, floor, |log|);
    assert LogRows(log + [records], floor, n) == LogRows(log, floor, |log|) + JournalRows(records, n);
    PruneLog(log + [records], floor, n, cutoff);
  }

  lemma {:induction false} JournalFromMembers(rows: seq<JournalRow>, cutoff: nat)
    ensures forall row :: row in JournalFrom(rows, cutoff) <==> row in rows && row.revision >= cutoff
  {
    if rows != [] {
      JournalFromMembers(rows[1..], cutoff);
      assert rows == [rows[0]] + rows[1..];
    }
  }

  /** A commit drops no more of the journal than it may: exactly the rows of the newest `changes` revisions stay, the
      new ones among them. */
  lemma JournalKeepsNewest(s: State, tx: Tx, keep: Retention, row: JournalRow)
    requires RetentionOk(keep) && tx.records != []
    requires forall r | r in s.journal :: 1 <= r.revision <= s.revision
    ensures row in Commit(s, tx, keep).journal <==>
      && s.revision + 1 - row.revision < keep.changes
      && (row in s.journal || (row.revision == s.revision + 1 && row.record in tx.records))
  {
    var rows := s.journal + JournalRows(tx.records, s.revision + 1);
    JournalFromMembers(rows, Cutoff(s.revision + 1, keep.changes));
    var added := JournalRows(tx.records, s.revision + 1);
    if row.revision == s.revision + 1 && row.record in tx.records {
      var i :| 0 <= i < |tx.records| && tx.records[i] == row.record;
      assert added[i] == row;
    }
    if row in added {
      var i :| 0 <= i < |added| && added[i] == row;
      assert tx.records[i] == row.record;
    }
    assert row in rows <==> row in s.journal || row in added;
  }
}
