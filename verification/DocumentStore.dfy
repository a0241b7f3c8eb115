/** The versioned document table of src/backend.ts: writer operations, the revision history and commits.
    Tables are maps; a transaction works on a copy and either commits or leaves no trace. */
module DocumentStore {
  import opened Wrappers

  datatype DocKey = DocKey(table: string, id: string)

  /** The caller a reader or writer is bound to: server code, nobody, or one user. */
  datatype Scope = Server | Anonymous | User(id: string)

  datatype Doc = Doc(owner: Option<string>, created: nat, version: nat, content: string)

  datatype Operation = Create | Update | Delete | Restore

  datatype Cursor = Cursor(revision: nat, sequence: nat)

  /** A recorded revision of a document: what it was and how it came about. */
  datatype Entry = Entry(
    owner: Option<string>, version: nat, created: nat, operation: Operation, content: string, source: Option<Cursor>)

  datatype Row = Row(cursor: Cursor, entry: Entry)

  datatype Pending = Pending(key: DocKey, entry: Entry)

  /** One changed document in a change notice. */
  datatype Record = Record(key: DocKey, owner: Option<string>)

  datatype JournalRow = JournalRow(revision: nat, record: Record)

  type Documents = map<DocKey, Doc>
  type History = map<DocKey, seq<Row>>

  datatype State = State(docs: Documents, history: History, revision: nat, journal: seq<JournalRow>)

  /** A transaction in progress: the tables it sees and the changes it will announce. */
  datatype Tx = Tx(docs: Documents, history: History, records: seq<Record>, pending: seq<Pending>)

  const MAX_VERSION: nat := 9007199254740991

  function RowsOf(history: History, key: DocKey): seq<Row> {
    if key in history then history[key] else []
  }

  function PendingOf(pending: seq<Pending>, key: DocKey): seq<Entry> {
    if pending == [] then []
    else
      var last := pending[|pending| - 1];
      PendingOf(pending[..|pending| - 1], key) + if last.key == key then [last.entry] else []
  }

  // ----- Reading -----

  predicate Scoped(owned: set<string>, table: string, scope: Scope) {
    table in owned && scope.User?
  }

  predicate Visible(owned: set<string>, table: string, scope: Scope, owner: Option<string>) {
    Scoped(owned, table, scope) ==> owner == Some(scope.id)
  }

  /** Reads of an owned table need a caller. */
  predicate Refused(owned: set<string>, table: string, scope: Scope) {
    table in owned && scope.Anonymous?
  }

  function GetDocument(owned: set<string>, scope: Scope, docs: Documents, key: DocKey): Option<Doc> {
    if key in docs && Visible(owned, key.table, scope, docs[key].owner) then Some(docs[key]) else None
  }

  // ----- Writing -----

  /** Why an operation changes nothing. */
  datatype Why = Denied | Conflict | Missing | Unchanged | Exhausted

  /** What an operation does to one document: nothing, a new content with its history entry, or the removal
      of the retained history. */
  datatype Effect =
    | Skip(why: Why)
    | Put(doc: Option<Doc>, entry: Entry)
    | Clear(owner: Option<string>)

  predicate VersionDiffers(found: Option<Doc>, expected: Option<nat>) {
    if found.Some? && expected.Some? then found.value.version != expected.value else found.Some? || expected.Some?
  }

  /** A guard `ifVersion` that does not hold. */
  predicate Conflicts(found: Option<Doc>, ifVersion: Option<nat>) {
    ifVersion.Some? && VersionDiffers(found, ifVersion)
  }

  function InsertEffect(
    owned: set<string>, scope: Scope, tx: Tx, key: DocKey, now: nat, content: string): Effect
  {
    if key.table in owned && !scope.User? then Skip(Denied)
    else if key in tx.docs then Skip(Exhausted)
    else
      var owner := if key.table in owned then Some(scope.id) else None;
      Put(Some(Doc(owner, now, 1, content)), Entry(owner, 1, now, Create, content, None))
  }

  /** `patch` and `replace`: the new content is computed from the old one. */
  function UpdateEffect(
    owned: set<string>, scope: Scope, tx: Tx, key: DocKey, ifVersion: Option<nat>, change: string -> string): Effect
  {
    var previous := GetDocument(owned, scope, tx.docs, key);
    if Refused(owned, key.table, scope) then Skip(Denied)
    else if Conflicts(previous, ifVersion) then Skip(Conflict)
    else if previous.None? then Skip(Missing)
    else
      var doc := previous.value;
      var content := change(doc.content);
      if content == doc.content then Skip(Unchanged)
      else if doc.version >= MAX_VERSION then Skip(Exhausted)
      else
        var next := doc.(version := doc.version + 1, content := content);
        Put(Some(next), Entry(doc.owner, next.version, doc.created, Update, content, None))
  }

  function DeleteEffect(owned: set<string>, scope: Scope, tx: Tx, key: DocKey, ifVersion: Option<nat>): Effect {
    var previous := GetDocument(owned, scope, tx.docs, key);
    if Refused(owned, key.table, scope) then Skip(Denied)
    else if Conflicts(previous, ifVersion) then Skip(Conflict)
    else if previous.None? then Skip(Missing)
    else
      var doc := previous.value;
      Put(None, Entry(doc.owner, doc.version, doc.created, Delete, doc.content, None))
  }

  function VisibleRows(owned: set<string>, scope: Scope, key: DocKey, rows: seq<Row>): seq<Row> {
    if rows == [] then []
    else
      var last := rows[|rows| - 1];
      VisibleRows(owned, scope, key, rows[..|rows| - 1])
      + if Visible(owned, key.table, scope, last.entry.owner) then [last] else []
  }

  /** `purgeDeleted`: forgets a deleted document whose deletion is the newest committed revision. */
  function PurgeEffect(owned: set<string>, scope: Scope, tx: Tx, key: DocKey, cursor: Cursor): Effect {
    var rows := VisibleRows(owned, scope, key, RowsOf(tx.history, key));
    if Refused(owned, key.table, scope) then Skip(Denied)
    else if rows == [] then Skip(Missing)
    else
      var latest := rows[|rows| - 1];
      if GetDocument(owned, scope, tx.docs, key).Some? || latest.entry.operation != Delete || latest.cursor != cursor
      then Skip(Conflict)
      else Clear(latest.entry.owner)
  }

  function MaxVersion(rows: seq<Row>): nat {
    if rows == [] then 0
    else
      var front, last := MaxVersion(rows[..|rows| - 1]), rows[|rows| - 1].entry.version;
      if front >= last then front else last
  }

  function FindRow(rows: seq<Row>, cursor: Cursor): Option<Row> {
    if rows == [] then None
    else if rows[|rows| - 1].cursor == cursor then Some(rows[|rows| - 1])
    else FindRow(rows[..|rows| - 1], cursor)
  }

  /** `restore`: brings back the content of a committed revision under a version above all recorded ones.
      `ifVersion` of Some(None) demands that the document is absent. */
  function RestoreEffect(
    owned: set<string>, scope: Scope, tx: Tx, key: DocKey, cursor: Cursor, ifVersion: Option<Option<nat>>): Effect
  {
    var current := GetDocument(owned, scope, tx.docs, key);
    var source := FindRow(VisibleRows(owned, scope, key, RowsOf(tx.history, key)), cursor);
    if Refused(owned, key.table, scope) then Skip(Denied)
    else if ifVersion.Some? && VersionDiffers(current, ifVersion.value) then Skip(Conflict)
    else if key.table in owned && !scope.User? then Skip(Denied)
    else if source.None? then Skip(Missing)
    else if current.Some? && current.value.content == source.value.entry.content then Skip(Unchanged)
    else
      var origin := source.value.entry;
      var highest := MaxVersion(RowsOf(tx.history, key));
      var base := if current.Some? && current.value.version >= highest then current.value.version else highest;
      if base >= MAX_VERSION then Skip(Exhausted)
      else if current.None? && key in tx.docs then Skip(Conflict)
      else
        var owner := if key.table in owned then origin.owner else None;
        var created := if current.Some? then current.value.created else origin.created;
        Put(Some(Doc(if current.Some? then current.value.owner else owner, created, base + 1, origin.content)),
            Entry(owner, base + 1, created, Restore, origin.content, Some(cursor)))
  }

  datatype Op =
    | InsertOp(now: nat, content: string)
    | UpdateOp(ifVersion: Option<nat>, change: string -> string)
    | DeleteOp(ifVersion: Option<nat>)
    | PurgeOp(cursor: Cursor)
    | RestoreOp(cursor: Cursor, ifRestore: Option<Option<nat>>)

  datatype Call = Call(scope: Scope, key: DocKey, op: Op)

  /** What the caller learns: nothing on success, or why nothing changed. */
  function Reply(effect: Effect): Option<Why> {
    if effect.Skip? then Some(effect.why) else None
  }

  function EffectOf(owned: set<string>, tx: Tx, call: Call): Effect {
    match call.op
    case InsertOp(now, content) => InsertEffect(owned, call.scope, tx, call.key, now, content)
    case UpdateOp(ifVersion, change) => UpdateEffect(owned, call.scope, tx, call.key, ifVersion, change)
    case DeleteOp(ifVersion) => DeleteEffect(owned, call.scope, tx, call.key, ifVersion)
    case PurgeOp(cursor) => PurgeEffect(owned, call.scope, tx, call.key, cursor)
    case RestoreOp(cursor, ifRestore) => RestoreEffect(owned, call.scope, tx, call.key, cursor, ifRestore)
  }

  /** A document is announced once per transaction, with the owner last recorded. */
  function Announce(records: seq<Record>, r: Record): seq<Record> {
    if records == [] then [r]
    else if records[0].key == r.key then [r] + records[1..]
    else [records[0]] + Announce(records[1..], r)
  }

  function WithoutOwner(rows: seq<Row>, owner: Option<string>): seq<Row> {
    if rows == [] then []
    else
      var last := rows[|rows| - 1];
      WithoutOwner(rows[..|rows| - 1], owner) + if owner.Some? && last.entry.owner != owner then [last] else []
  }

  function Perform(tx: Tx, key: DocKey, effect: Effect): Tx {
    match effect
    case Skip(_) => tx
    case Put(doc, entry) =>
      Tx(if doc.Some? then tx.docs[key := doc.value] else tx.docs - {key},
         tx.history,
         Announce(tx.records, Record(key, entry.owner)),
         tx.pending + [Pending(key, entry)])
    case Clear(owner) =>
      Tx(tx.docs,
         tx.history[key := WithoutOwner(RowsOf(tx.history, key), owner)],
         Announce(tx.records, Record(key, owner)),
         tx.pending)
  }

  function Begin(s: State): Tx {
    Tx(s.docs, s.history, [], [])
  }

  function RunCalls(owned: set<string>, tx: Tx, calls: seq<Call>): Tx {
    if calls == [] then tx
    else
      var before := RunCalls(owned, tx, calls[..|calls| - 1]);
      var last := calls[|calls| - 1];
      Perform(before, last.key, EffectOf(owned, before, last))
  }

  // ----- Committing -----

  datatype Retention = Retention(changes: nat, history: nat, perDocument: nat)

  predicate RetentionOk(r: Retention) {
    r.changes >= 1 && r.history >= 1 && r.perDocument >= 1
  }

  /** The oldest revision kept when `kept` revisions are retained. */
  function Cutoff(revision: nat, kept: nat): nat {
    if revision >= kept then revision - kept + 1 else 1
  }

  function JournalRows(records: seq<Record>, revision: nat): (rows: seq<JournalRow>)
    ensures |rows| == |records|
    ensures forall i | 0 <= i < |rows| :: rows[i] == JournalRow(revision, records[i])
  {
    seq(|records|, i requires 0 <= i < |records| => JournalRow(revision, records[i]))
  }

  function JournalFrom(journal: seq<JournalRow>, cutoff: nat): seq<JournalRow> {
    if journal == [] then []
    else if journal[0].revision < cutoff then JournalFrom(journal[1..], cutoff)
    else [journal[0]] + JournalFrom(journal[1..], cutoff)
  }

  /** The history after the first `n` pending entries were added as rows of `revision`. */
  function AddRows(history: History, pending: seq<Pending>, n: nat, revision: nat): History
    requires n <= |pending|
  {
    if n == 0 then history
    else
      var before := AddRows(history, pending, n - 1, revision);
      var p := pending[n - 1];
      before[p.key := RowsOf(before, p.key) + [Row(Cursor(revision, n - 1), p.entry)]]
  }

  function RowsFrom(rows: seq<Row>, cutoff: nat): seq<Row> {
    if rows == [] then []
    else if rows[0].cursor.revision < cutoff then RowsFrom(rows[1..], cutoff)
    else [rows[0]] + RowsFrom(rows[1..], cutoff)
  }

  function DropOld(history: History, cutoff: nat): History {
    map k | k in history :: RowsFrom(history[k], cutoff)
  }

  function Newest(rows: seq<Row>, limit: nat): seq<Row> {
    if |rows| <= limit then rows else rows[|rows| - limit..]
  }

  /** The history after the documents of the first `n` records were cut to the per-document limit. */
  function TrimDocuments(history: History, records: seq<Record>, n: nat, limit: nat): History
    requires n <= |records|
  {
    if n == 0 then history
    else
      var before := TrimDocuments(history, records, n - 1, limit);
      var k := records[n - 1].key;
      if k in before then before[k := Newest(before[k], limit)] else before
  }

  function Commit(s: State, tx: Tx, keep: Retention): State {
    if tx.records == [] then s.(docs := tx.docs, history := tx.history)
    else
      var revision := s.revision + 1;
      var added := AddRows(tx.history, tx.pending, |tx.pending|, revision);
      State(
        tx.docs,
        TrimDocuments(DropOld(added, Cutoff(revision, keep.history)), tx.records, |tx.records|, keep.perDocument),
        revision,
        JournalFrom(s.journal + JournalRows(tx.records, revision), Cutoff(revision, keep.changes)))
  }

  function Transact(owned: set<string>, s: State, calls: seq<Call>, keep: Retention): State {
    Commit(s, RunCalls(owned, Begin(s), calls), keep)
  }
}
