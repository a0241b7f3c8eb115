/** The writer and `runTransaction` of src/backend.ts as they run: tables, history and journal are updated in
    place, and a failed transaction is rolled back. */
module DocumentWriter {
  import opened Wrappers
  import opened DocumentStore

  class Database {
    const owned: set<string>
    const keep: Retention

    var docs: Documents
    var history: History
    var revision: nat
    var journal: seq<JournalRow>

    // The changes of the open transaction.
    var records: seq<Record>
    var pending: seq<Pending>

    constructor (owned: set<string>, keep: Retention)
      ensures this.owned == owned && this.keep == keep
      ensures Committed() == State(map[], map[], 0, [])
    {
      this.owned, this.keep := owned, keep;
      docs, history, revision, journal := map[], map[], 0, [];
      records, pending := [], [];
    }

    function Committed(): State
      reads this
    {
      State(docs, history, revision, journal)
    }

    function Open(): Tx
      reads this
    {
      Tx(docs, history, records, pending)
    }

    /** `changes.records.set`: replaces the record of a document in place, or adds one at the end. */
    method RecordChange(r: Record)
      modifies this`records
      ensures records == Announce(old(records), r)
    {
      var i := 0;
      while i < |records| && records[i].key != r.key
        invariant 0 <= i <= |records|
        invariant Announce(records, r) == records[..i] + Announce(records[i..], r)
      {
        assert records[i..][1..] == records[i + 1..];
        assert records[..i] + [records[i]] == records[..i + 1];
        i := i + 1;
      }
      if i < |records| {
        assert records[i..][1..] == records[i + 1..];
        assert records[i := r] == records[..i] + ([r] + records[i + 1..]);
        records := records[i := r];
      } else {
        assert records[i..] == [];
        records := records + [r];
      }
    }

    method RecordDocumentRevision(key: DocKey, entry: Entry)
      modifies this`pending
      ensures pending == old(pending) + [Pending(key, entry)]
    {
      pending := pending + [Pending(key, entry)];
    }

    method Insert(scope: Scope, key: DocKey, now: nat, content: string) returns (reply: Option<Why>)
      modifies this`docs, this`records, this`pending
      ensures Open() == Perform(old(Open()), key, InsertEffect(owned, scope, old(Open()), key, now, content))
      ensures reply == Reply(InsertEffect(owned, scope, old(Open()), key, now, content))
    {
      if key.table in owned && !scope.User? {
        return Some(Denied);
      }
      if key in docs {
        return Some(Exhausted);
      }
      var owner := if key.table in owned then Some(scope.id) else None;
      docs := docs[key := Doc(owner, now, 1, content)];
      RecordChange(Record(key, owner));
      RecordDocumentRevision(key, Entry(owner, 1, now, Create, content, None));
      return None;
    }

    method Update(scope: Scope, key: DocKey, ifVersion: Option<nat>, change: string -> string)
      returns (reply: Option<Why>)
      modifies this`docs, this`records, this`pending
      ensures Open() == Perform(old(Open()), key, UpdateEffect(owned, scope, old(Open()), key, ifVersion, change))
      ensures reply == Reply(UpdateEffect(owned, scope, old(Open()), key, ifVersion, change))
    {
      if Refused(owned, key.table, scope) {
        return Some(Denied);
      }
      var previous := GetDocument(owned, scope, docs, key);
      if Conflicts(previous, ifVersion) {
        return Some(Conflict);
      }
      if previous.None? {
        return Some(Missing);
      }
      var doc := previous.value;
      var content := change(doc.content);
      if content == doc.content {
        return Some(Unchanged);
      }
      if doc.version >= MAX_VERSION {
        return Some(Exhausted);
      }
      var version := doc.version + 1;
      docs := docs[key := doc.(version := version, content := content)];
      RecordChange(Record(key, doc.owner));
      RecordDocumentRevision(key, Entry(doc.owner, version, doc.created, Operation.Update, content, None));
      return None;
    }

    method Delete(scope: Scope, key: DocKey, ifVersion: Option<nat>) returns (reply: Option<Why>)
      modifies this`docs, this`records, this`pending
      ensures Open() == Perform(old(Open()), key, DeleteEffect(owned, scope, old(Open()), key, ifVersion))
      ensures reply == Reply(DeleteEffect(owned, scope, old(Open()), key, ifVersion))
    {
      if Refused(owned, key.table, scope) {
        return Some(Denied);
      }
      var previous := GetDocument(owned, scope, docs, key);
      if Conflicts(previous, ifVersion) {
        return Some(Conflict);
      }
      if previous.None? {
        return Some(Missing);
      }
      var doc := previous.value;
      docs := docs - {key};
      RecordChange(Record(key, doc.owner));
      RecordDocumentRevision(key, Entry(doc.owner, doc.version, doc.created, Operation.Delete, doc.content, None));
      return None;
    }

    method PurgeDeleted(scope: Scope, key: DocKey, cursor: Cursor) returns (reply: Option<Why>)
      modifies this`history, this`records
      ensures Open() == Perform(old(Open()), key, PurgeEffect(owned, scope, old(Open()), key, cursor))
      ensures reply == Reply(PurgeEffect(owned, scope, old(Open()), key, cursor))
    {
      if Refused(owned, key.table, scope) {
        return Some(Denied);
      }
      var rows := VisibleRows(owned, scope, key, RowsOf(history, key));
      if rows == [] {
        return Some(Missing);
      }
      var latest := rows[|rows| - 1];
      if GetDocument(owned, scope, docs, key).Some?
         || latest.entry.operation != Operation.Delete || latest.cursor != cursor {
        return Some(Conflict);
      }
      var owner := latest.entry.owner;
      history := history[key := WithoutOwner(RowsOf(history, key), owner)];
      RecordChange(Record(key, owner));
      return None;
    }

    method Restore(scope: Scope, key: DocKey, cursor: Cursor, ifVersion: Option<Option<nat>>)
      returns (reply: Option<Why>)
      modifies this`docs, this`records, this`pending
      ensures Open() == Perform(old(Open()), key, RestoreEffect(owned, scope, old(Open()), key, cursor, ifVersion))
      ensures reply == Reply(RestoreEffect(owned, scope, old(Open()), key, cursor, ifVersion))
    {
      if Refused(owned, key.table, scope) {
        return Some(Denied);
      }
      var current := GetDocument(owned, scope, docs, key);
      if ifVersion.Some? && VersionDiffers(current, ifVersion.value) {
        return Some(Conflict);
      }
      if key.table in owned && !scope.User? {
        return Some(Denied);
      }
      var source := FindRow(VisibleRows(owned, scope, key, RowsOf(history, key)), cursor);
      if source.None? {
        return Some(Missing);
      }
      var origin := source.value.entry;
      if current.Some? && current.value.content == origin.content {
        return Some(Unchanged);
      }
      var highest := MaxVersion(RowsOf(history, key));
      var base := if current.Some? && current.value.version >= highest then current.value.version else highest;
      if base >= MAX_VERSION {
        return Some(Exhausted);
      }
      if current.None? && key in docs {
        return Some(Conflict);
      }
      var owner := if key.table in owned then origin.owner else None;
      var created := if current.Some? then current.value.created else origin.created;
      if current.Some? {
        docs := docs[key := current.value.(version := base + 1, content := origin.content)];
      } else {
        docs := docs[key := Doc(owner, created, base + 1, origin.content)];
      }
      RecordChange(Record(key, owner));
      RecordDocumentRevision(key, Entry(owner, base + 1, created, Operation.Restore, origin.content, Some(cursor)));
      return None;
    }

    method Invoke(call: Call)
      modifies this`docs, this`history, this`records, this`pending
      ensures Open() == Perform(old(Open()), call.key, EffectOf(owned, old(Open()), call))
    {
      match call.op
      case InsertOp(now, content) => var _ := Insert(call.scope, call.key, now, content);
      case UpdateOp(ifVersion, change) => var _ := Update(call.scope, call.key, ifVersion, change);
      case DeleteOp(ifVersion) => var _ := Delete(call.scope, call.key, ifVersion);
      case PurgeOp(cursor) => var _ := PurgeDeleted(call.scope, call.key, cursor);
      case RestoreOp(cursor, ifRestore) => var _ := Restore(call.scope, call.key, cursor, ifRestore);
    }

    method InsertRevisions(next: nat)
      modifies this`history
      ensures history == AddRows(old(history), pending, |pending|, next)
    {
      var sequence := 0;
      while sequence < |pending|
        invariant 0 <= sequence <= |pending|
        invariant history == AddRows(old(history), pending, sequence, next)
      {
        var p := pending[sequence];
        history := history[p.key := RowsOf(history, p.key) + [Row(Cursor(next, sequence), p.entry)]];
        sequence := sequence + 1;
      }
    }

    method InsertChanges(next: nat)
      modifies this`journal
      ensures journal == old(journal) + JournalRows(records, next)
    {
      var sequence := 0;
      while sequence < |records|
        invariant 0 <= sequence <= |records|
        invariant journal == old(journal) + JournalRows(records, next)[..sequence]
      {
        journal := journal + [JournalRow(next, records[sequence])];
        sequence := sequence + 1;
      }
    }

    method PruneDocuments()
      modifies this`history
      ensures history == TrimDocuments(old(history), records, |records|, keep.perDocument)
    {
      var i := 0;
      while i < |records|
        invariant 0 <= i <= |records|
        invariant history == TrimDocuments(old(history), records, i, keep.perDocument)
      {
        var k := records[i].key;
        if k in history {
          history := history[k := Newest(history[k], keep.perDocument)];
        }
        i := i + 1;
      }
    }

    /** Commits all calls, or with `abort` (the handler threw) none of them. */
    method RunTransaction(calls: seq<Call>, abort: bool)
      modifies this
      ensures Committed() == if abort then old(Committed()) else Transact(owned, old(Committed()), calls, keep)
    {
      var savedDocs, savedHistory := docs, history;
      records, pending := [], [];
      ghost var start := Begin(Committed());
      for i := 0 to |calls|
        invariant Open() == RunCalls(owned, start, calls[..i])
        invariant revision == old(revision) && journal == old(journal)
      {
        assert calls[..i + 1][..i] == calls[..i];
        Invoke(calls[i]);
      }
      assert calls[..|calls|] == calls;
      if abort {
        docs, history := savedDocs, savedHistory;
        return;
      }
      if records != [] {
        revision := revision + 1;
        InsertChanges(revision);
        InsertRevisions(revision);
        journal := JournalFrom(journal, Cutoff(revision, keep.changes));
        history := DropOld(history, Cutoff(revision, keep.history));
        PruneDocuments();
      }
    }
  }
}
