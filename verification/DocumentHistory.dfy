/** What every transaction keeps about documents, their versions and their retained history. */
module DocumentHistory {
  import opened Wrappers
  import opened DocumentStore

  /** A committed state together with everything that ever happened: the highest version each document was
      committed with, its owner, and its full history since the last purge. */
  datatype World = World(
    state: State, top: map<DocKey, nat>, owners: map<DocKey, Option<string>>, log: map<DocKey, seq<Row>>)

  function Top(w: World, k: DocKey): nat {
    if k in w.top then w.top[k] else 0
  }

  predicate Suffix(a: seq<Row>, b: seq<Row>) {
    |a| <= |b| && a == b[|b| - |a|..]
  }

  predicate Before(a: Cursor, b: Cursor) {
    a.revision < b.revision || (a.revision == b.revision && a.sequence < b.sequence)
  }

  /** Later rows have later cursors, up to those of the given revision. */
  predicate CursorsRise(rows: seq<Row>, revision: nat) {
    && (forall i, j | 0 <= i < j < |rows| :: Before(rows[i].cursor, rows[j].cursor))
    && (forall i | 0 <= i < |rows| :: 1 <= rows[i].cursor.revision <= revision)
  }

  predicate OwnedBy(rows: seq<Row>, owner: Option<string>) {
    forall i | 0 <= i < |rows| :: rows[i].entry.owner == owner
  }

  /** The entry says what the table holds: the live document, or a deletion. */
  predicate Describes(e: Entry, docs: Documents, k: DocKey) {
    if k in docs then
      && e.operation != Delete
      && docs[k] == Doc(e.owner, e.created, e.version, e.content)
    else e.operation == Delete
  }

  predicate LiveOk(w: World, k: DocKey) {
    k in w.state.docs ==>
      && k in w.owners && w.state.docs[k].owner == w.owners[k]
      && k in w.top && w.state.docs[k].version == w.top[k]
  }

  predicate RowsOk(w: World, k: DocKey) {
    var rows := RowsOf(w.state.history, k);
    rows != [] ==>
      && k in w.owners && OwnedBy(rows, w.owners[k])
      && Describes(rows[|rows| - 1].entry, w.state.docs, k)
      && rows[|rows| - 1].entry.version >= Top(w, k)
  }

  predicate RetainedOk(w: World, k: DocKey, keep: Retention) {
    && |RowsOf(w.state.history, k)| <= keep.perDocument
    && Suffix(RowsOf(w.state.history, k), RowsOf(w.log, k))
    && CursorsRise(RowsOf(w.state.history, k), w.state.revision)
  }

  predicate OwnerOk(w: World, owned: set<string>, k: DocKey) {
    && (k in w.top ==> k in w.owners)
    && (k in w.owners && k.table !in owned ==> w.owners[k] == None)
  }

  ghost predicate DocumentOk(owned: set<string>, keep: Retention, w: World, k: DocKey) {
    LiveOk(w, k) && RowsOk(w, k) && RetainedOk(w, k, keep) && OwnerOk(w, owned, k)
  }

  ghost predicate WorldOk(owned: set<string>, keep: Retention, w: World) {
    forall k :: DocumentOk(owned, keep, w, k)
  }

  // ----- Inside a transaction -----

  predicate EntriesOk(w: World, owner: Option<string>, entries: seq<Entry>, k: DocKey) {
    forall i | 0 <= i < |entries| :: entries[i].owner == owner && entries[i].version >= Top(w, k)
  }

  predicate TouchedOk(w: World, reg: map<DocKey, Option<string>>, tx: Tx, k: DocKey) {
    var entries := PendingOf(tx.pending, k);
    if entries == [] then
      if k in tx.docs then k in w.state.docs && tx.docs[k] == w.state.docs[k] else k !in w.state.docs
    else
      && k in reg && EntriesOk(w, reg[k], entries, k)
      && Describes(entries[|entries| - 1], tx.docs, k)
      && (k in tx.docs ==> tx.docs[k].version > Top(w, k))
  }

  predicate AnnouncedOk(w: World, reg: map<DocKey, Option<string>>, tx: Tx, k: DocKey) {
    && (forall i | 0 <= i < |tx.records| && tx.records[i].key == k :: k in reg && tx.records[i].owner == reg[k])
    && (PendingOf(tx.pending, k) != [] || RowsOf(tx.history, k) != RowsOf(w.state.history, k) ==>
          exists i | 0 <= i < |tx.records| :: tx.records[i].key == k)
  }

  predicate RegisteredOk(owned: set<string>, w: World, reg: map<DocKey, Option<string>>, k: DocKey) {
    && (k in w.owners ==> k in reg && reg[k] == w.owners[k])
    && (k in reg && k.table !in owned ==> reg[k] == None)
  }

  ghost predicate KeyOk(owned: set<string>, w: World, reg: map<DocKey, Option<string>>, tx: Tx, k: DocKey) {
    && RegisteredOk(owned, w, reg, k)
    && (k in tx.docs ==> k in reg && tx.docs[k].owner == reg[k])
    && (RowsOf(tx.history, k) == RowsOf(w.state.history, k) || RowsOf(tx.history, k) == [])
    && TouchedOk(w, reg, tx, k)
    && AnnouncedOk(w, reg, tx, k)
  }

  ghost predicate TxOk(owned: set<string>, w: World, reg: map<DocKey, Option<string>>, tx: Tx) {
    forall k :: KeyOk(owned, w, reg, tx, k)
  }

  // ----- Announcing -----

  lemma {:induction false} AnnounceMembers(records: seq<Record>, r: Record)
    ensures forall x | x in Announce(records, r) :: x == r || x in records
    ensures r in Announce(records, r)
    ensures forall x | x in records && x.key != r.key :: x in Announce(records, r)
  {
    if records != [] {
      assert records == [records[0]] + records[1..];
      if records[0].key != r.key {
        AnnounceMembers(records[1..], r);
      }
    }
  }

  lemma AnnouncedElsewhere(records: seq<Record>, r: Record, k: DocKey)
    requires k != r.key
    ensures (exists i | 0 <= i < |records| :: records[i].key == k) ==>
              exists i | 0 <= i < |Announce(records, r)| :: Announce(records, r)[i].key == k
    ensures forall i | 0 <= i < |Announce(records, r)| && Announce(records, r)[i].key == k ::
              Announce(records, r)[i] in records
  {
    AnnounceMembers(records, r);
    forall i | 0 <= i < |Announce(records, r)| && Announce(records, r)[i].key == k
      ensures Announce(records, r)[i] in records
    {
      assert Announce(records, r)[i] in Announce(records, r);
    }
    if i :| 0 <= i < |records| && records[i].key == k {
      assert records[i] in records && records[i] in Announce(records, r);
    }
  }

  lemma AnnouncedHere(records: seq<Record>, r: Record, owner: Option<string>)
    requires r.owner == owner && forall i | 0 <= i < |records| && records[i].key == r.key :: records[i].owner == owner
    ensures exists i | 0 <= i < |Announce(records, r)| :: Announce(records, r)[i].key == r.key
    ensures forall i | 0 <= i < |Announce(records, r)| && Announce(records, r)[i].key == r.key ::
              Announce(records, r)[i].owner == owner
  {
    AnnounceMembers(records, r);
    var i :| 0 <= i < |Announce(records, r)| && Announce(records, r)[i] == r;
    forall j | 0 <= j < |Announce(records, r)| && Announce(records, r)[j].key == r.key
      ensures Announce(records, r)[j].owner == owner
    {
      assert Announce(records, r)[j] in Announce(records, r);
    }
  }

  // ----- One operation -----

  /** What a Put must satisfy to keep the transaction consistent. */
  predicate PutOk(w: World, reg: map<DocKey, Option<string>>, key: DocKey, doc: Option<Doc>, e: Entry) {
    && key in reg && e.owner == reg[key] && e.version >= Top(w, key)
    && if doc.Some? then
         && doc.value == Doc(e.owner, e.created, e.version, e.content)
         && e.operation != Delete && e.version > Top(w, key)
       else e.operation == Delete
  }

  lemma PendingAppend(pending: seq<Pending>, p: Pending, k: DocKey)
    ensures PendingOf(pending + [p], k) == PendingOf(pending, k) + if p.key == k then [p.entry] else []
  {
    assert (pending + [p])[..|pending|] == pending;
  }

  lemma PutKeepsOther(
    owned: set<string>, w: World, reg: map<DocKey, Option<string>>, tx: Tx, key: DocKey, doc: Option<Doc>, e: Entry,
    k: DocKey)
    requires KeyOk(owned, w, reg, tx, k) && k != key
    ensures KeyOk(owned, w, reg, Perform(tx, key, Put(doc, e)), k)
  {
    var after := Perform(tx, key, Put(doc, e));
    PendingAppend(tx.pending, Pending(key, e), k);
    assert PendingOf(after.pending, k) == PendingOf(tx.pending, k);
    assert TouchedOk(w, reg, after, k);
    AnnouncedElsewhere(tx.records, Record(key, e.owner), k);
  }

  lemma PutTouches(
    w: World, reg: map<DocKey, Option<string>>, tx: Tx, key: DocKey, doc: Option<Doc>, e: Entry)
    requires TouchedOk(w, reg, tx, key) && PutOk(w, reg, key, doc, e)
    ensures TouchedOk(w, reg, Perform(tx, key, Put(doc, e)), key)
    ensures PendingOf(Perform(tx, key, Put(doc, e)).pending, key) != []
  {
    var after := Perform(tx, key, Put(doc, e));
    PendingAppend(tx.pending, Pending(key, e), key);
    var entries := PendingOf(tx.pending, key);
    assert PendingOf(after.pending, key) == entries + [e];
    assert EntriesOk(w, reg[key], entries, key);
    assert EntriesOk(w, reg[key], entries + [e], key);
  }

  lemma PutAnnounces(reg: map<DocKey, Option<string>>, w: World, tx: Tx, key: DocKey, doc: Option<Doc>, e: Entry)
    requires AnnouncedOk(w, reg, tx, key) && key in reg && e.owner == reg[key]
    ensures AnnouncedOk(w, reg, Perform(tx, key, Put(doc, e)), key)
  {
    var after := Perform(tx, key, Put(doc, e));
    assert after.records == Announce(tx.records, Record(key, e.owner));
    AnnouncedHere(tx.records, Record(key, e.owner), reg[key]);
  }

  lemma PutKeepsSame(
    owned: set<string>, w: World, reg: map<DocKey, Option<string>>, tx: Tx, key: DocKey, doc: Option<Doc>, e: Entry)
    requires KeyOk(owned, w, reg, tx, key) && PutOk(w, reg, key, doc, e)
    ensures KeyOk(owned, w, reg, Perform(tx, key, Put(doc, e)), key)
  {
    PutTouches(w, reg, tx, key, doc, e);
    PutAnnounces(reg, w, tx, key, doc, e);
  }

  lemma PutKeeps(
    owned: set<string>, w: World, reg: map<DocKey, Option<string>>, tx: Tx, key: DocKey, doc: Option<Doc>, e: Entry)
    requires TxOk(owned, w, reg, tx) && PutOk(w, reg, key, doc, e)
    ensures TxOk(owned, w, reg, Perform(tx, key, Put(doc, e)))
  {
    forall k ensures KeyOk(owned, w, reg, Perform(tx, key, Put(doc, e)), k) {
      assert KeyOk(owned, w, reg, tx, k);
      if k == key {
        PutKeepsSame(owned, w, reg, tx, key, doc, e);
      } else {
        PutKeepsOther(owned, w, reg, tx, key, doc, e, k);
      }
    }
  }

  lemma {:induction false} WithoutOwnerEmpty(rows: seq<Row>, owner: Option<string>)
    requires OwnedBy(rows, owner)
    ensures WithoutOwner(rows, owner) == []
  {
    if rows != [] {
      WithoutOwnerEmpty(rows[..|rows| - 1], owner);
    }
  }

  lemma ClearKeeps(
    owned: set<string>, w: World, reg: map<DocKey, Option<string>>, tx: Tx, key: DocKey, owner: Option<string>)
    requires TxOk(owned, w, reg, tx) && key in reg && owner == reg[key]
    requires OwnedBy(RowsOf(tx.history, key), owner)
    ensures TxOk(owned, w, reg, Perform(tx, key, Clear(owner)))
  {
    var after := Perform(tx, key, Clear(owner));
    WithoutOwnerEmpty(RowsOf(tx.history, key), owner);
    forall k ensures KeyOk(owned, w, reg, after, k) {
      assert KeyOk(owned, w, reg, tx, k);
      if k == key {
        AnnouncedHere(tx.records, Record(key, owner), owner);
      } else {
        AnnouncedElsewhere(tx.records, Record(key, owner), k);
      }
    }
  }

  // ----- Each writer operation -----

  lemma {:induction false} VisibleRowsOwned(
    owned: set<string>, scope: Scope, key: DocKey, rows: seq<Row>, owner: Option<string>)
    requires OwnedBy(rows, owner)
    ensures VisibleRows(owned, scope, key, rows) == if Visible(owned, key.table, scope, owner) then rows else []
  {
    if rows != [] {
      VisibleRowsOwned(owned, scope, key, rows[..|rows| - 1], owner);
    }
  }

  /** The row found has the cursor looked for, and nothing is found only if no row has it. */
  lemma {:induction false} FindRowExact(rows: seq<Row>, cursor: Cursor)
    ensures var found := FindRow(rows, cursor);
            if found.Some? then found.value in rows && found.value.cursor == cursor
            else forall row | row in rows :: row.cursor != cursor
  {
    if rows != [] {
      FindRowExact(rows[..|rows| - 1], cursor);
      assert rows == rows[..|rows| - 1] + [rows[|rows| - 1]];
    }
  }

  lemma {:induction false} MaxVersionBounds(rows: seq<Row>)
    ensures forall i | 0 <= i < |rows| :: rows[i].entry.version <= MaxVersion(rows)
  {
    if rows != [] {
      MaxVersionBounds(rows[..|rows| - 1]);
    }
  }

  lemma UpdateKeeps(
    owned: set<string>, keep: Retention, w: World, reg: map<DocKey, Option<string>>, tx: Tx,
    scope: Scope, key: DocKey, ifVersion: Option<nat>, change: string -> string)
    requires DocumentOk(owned, keep, w, key) && TxOk(owned, w, reg, tx)
    ensures TxOk(owned, w, reg, Perform(tx, key, UpdateEffect(owned, scope, tx, key, ifVersion, change)))
  {
    var effect := UpdateEffect(owned, scope, tx, key, ifVersion, change);
    assert KeyOk(owned, w, reg, tx, key);
    if effect.Put? {
      PutKeeps(owned, w, reg, tx, key, effect.doc, effect.entry);
    }
  }

  lemma DeleteKeeps(
    owned: set<string>, keep: Retention, w: World, reg: map<DocKey, Option<string>>, tx: Tx,
    scope: Scope, key: DocKey, ifVersion: Option<nat>)
    requires DocumentOk(owned, keep, w, key) && TxOk(owned, w, reg, tx)
    ensures TxOk(owned, w, reg, Perform(tx, key, DeleteEffect(owned, scope, tx, key, ifVersion)))
  {
    var effect := DeleteEffect(owned, scope, tx, key, ifVersion);
    assert KeyOk(owned, w, reg, tx, key);
    if effect.Put? {
      PutKeeps(owned, w, reg, tx, key, effect.doc, effect.entry);
    }
  }

  /** The history rows a transaction still sees belong to the document's owner. */
  lemma RowsSeen(owned: set<string>, keep: Retention, w: World, reg: map<DocKey, Option<string>>, tx: Tx, key: DocKey)
    requires DocumentOk(owned, keep, w, key) && KeyOk(owned, w, reg, tx, key)
    requires RowsOf(tx.history, key) != []
    ensures RowsOf(tx.history, key) == RowsOf(w.state.history, key)
    ensures key in reg && OwnedBy(RowsOf(tx.history, key), reg[key])
    ensures MaxVersion(RowsOf(tx.history, key)) >= Top(w, key)
  {
    MaxVersionBounds(RowsOf(tx.history, key));
  }

  /** A purge clears only rows it has seen, and names their owner. */
  lemma PurgeNamesOwner(owned: set<string>, tx: Tx, scope: Scope, key: DocKey, cursor: Cursor, owner: Option<string>)
    requires RowsOf(tx.history, key) != [] ==> OwnedBy(RowsOf(tx.history, key), owner)
    ensures var effect := PurgeEffect(owned, scope, tx, key, cursor);
            effect.Put? || (effect.Clear? ==> RowsOf(tx.history, key) != [] && effect.owner == owner)
    ensures !PurgeEffect(owned, scope, tx, key, cursor).Put?
  {
    if RowsOf(tx.history, key) != [] {
      VisibleRowsOwned(owned, scope, key, RowsOf(tx.history, key), owner);
    }
  }

  lemma PurgeKeeps(
    owned: set<string>, keep: Retention, w: World, reg: map<DocKey, Option<string>>, tx: Tx,
    scope: Scope, key: DocKey, cursor: Cursor)
    requires DocumentOk(owned, keep, w, key) && TxOk(owned, w, reg, tx)
    ensures TxOk(owned, w, reg, Perform(tx, key, PurgeEffect(owned, scope, tx, key, cursor)))
  {
    assert KeyOk(owned, w, reg, tx, key);
    if RowsOf(tx.history, key) != [] {
      RowsSeen(owned, keep, w, reg, tx, key);
    }
    var owner := if key in reg then reg[key] else None;
    PurgeNamesOwner(owned, tx, scope, key, cursor, owner);
    var effect := PurgeEffect(owned, scope, tx, key, cursor);
    if effect.Clear? {
      ClearKeeps(owned, w, reg, tx, key, effect.owner);
    }
  }

  /** A restored document gets a version above every version ever committed. */
  lemma RestorePutOk(
    owned: set<string>, keep: Retention, w: World, reg: map<DocKey, Option<string>>, tx: Tx,
    scope: Scope, key: DocKey, cursor: Cursor, ifVersion: Option<Option<nat>>)
    requires KeyOk(owned, w, reg, tx, key) && key in reg
    requires OwnedBy(RowsOf(tx.history, key), reg[key]) && MaxVersion(RowsOf(tx.history, key)) >= Top(w, key)
    ensures var effect := RestoreEffect(owned, scope, tx, key, cursor, ifVersion);
            effect.Skip? || (effect.Put? && PutOk(w, reg, key, effect.doc, effect.entry))
  {
    var rows := RowsOf(tx.history, key);
    VisibleRowsOwned(owned, scope, key, rows, reg[key]);
    FindRowExact(VisibleRows(owned, scope, key, rows), cursor);
    var effect := RestoreEffect(owned, scope, tx, key, cursor, ifVersion);
    if effect.Put? {
      var source := FindRow(VisibleRows(owned, scope, key, rows), cursor).value;
      assert source in rows && source.entry.owner == reg[key];
    }
  }

  lemma RestoreKeeps(
    owned: set<string>, keep: Retention, w: World, reg: map<DocKey, Option<string>>, tx: Tx,
    scope: Scope, key: DocKey, cursor: Cursor, ifVersion: Option<Option<nat>>)
    requires DocumentOk(owned, keep, w, key) && TxOk(owned, w, reg, tx)
    ensures TxOk(owned, w, reg, Perform(tx, key, RestoreEffect(owned, scope, tx, key, cursor, ifVersion)))
  {
    assert KeyOk(owned, w, reg, tx, key);
    RestoreNeedsRows(owned, tx, scope, key, cursor, ifVersion);
    var effect := RestoreEffect(owned, scope, tx, key, cursor, ifVersion);
    if effect.Put? {
      RowsSeen(owned, keep, w, reg, tx, key);
      RestorePutOk(owned, keep, w, reg, tx, scope, key, cursor, ifVersion);
      PutKeeps(owned, w, reg, tx, key, effect.doc, effect.entry);
    }
  }

  lemma RestoreNeedsRows(
    owned: set<string>, tx: Tx, scope: Scope, key: DocKey, cursor: Cursor, ifVersion: Option<Option<nat>>)
    ensures var effect := RestoreEffect(owned, scope, tx, key, cursor, ifVersion);
            effect.Skip? || (effect.Put? && RowsOf(tx.history, key) != [])
  {
  }

  /** An insert registers a document never seen before. */
  lemma InsertKeeps(
    owned: set<string>, keep: Retention, w: World, reg: map<DocKey, Option<string>>, tx: Tx,
    scope: Scope, key: DocKey, now: nat, content: string)
    requires WorldOk(owned, keep, w) && TxOk(owned, w, reg, tx) && key !in reg
    ensures var effect := InsertEffect(owned, scope, tx, key, now, content);
            effect.Put? ==> TxOk(owned, w, reg[key := effect.entry.owner], Perform(tx, key, effect))
  {
    var effect := InsertEffect(owned, scope, tx, key, now, content);
    if effect.Put? {
      var wider := reg[key := effect.entry.owner];
      assert DocumentOk(owned, keep, w, key) && KeyOk(owned, w, reg, tx, key);
      assert Top(w, key) == 0;
      forall k ensures KeyOk(owned, w, wider, tx, k) {
        assert KeyOk(owned, w, reg, tx, k);
      }
      PutKeeps(owned, w, wider, tx, key, effect.doc, effect.entry);
    }
  }

  // ----- A whole transaction -----

  /** Inserted IDs are fresh: never used before, and not twice in one transaction. */
  predicate FreshInserts(used: map<DocKey, Option<string>>, calls: seq<Call>) {
    && (forall i | 0 <= i < |calls| && calls[i].op.InsertOp? :: calls[i].key !in used)
    && (forall i, j | 0 <= i < j < |calls| && calls[i].op.InsertOp? && calls[j].op.InsertOp? ::
          calls[i].key != calls[j].key)
  }

  /** The owners known after the calls. */
  function Register(owned: set<string>, s: State, used: map<DocKey, Option<string>>, calls: seq<Call>)
    : map<DocKey, Option<string>>
  {
    if calls == [] then used
    else
      var front, last := calls[..|calls| - 1], calls[|calls| - 1];
      var reg := Register(owned, s, used, front);
      var effect := EffectOf(owned, RunCalls(owned, Begin(s), front), last);
      if last.op.InsertOp? && effect.Put? then reg[last.key := effect.entry.owner] else reg
  }

  lemma {:induction false} RegisterKeys(
    owned: set<string>, s: State, used: map<DocKey, Option<string>>, calls: seq<Call>, k: DocKey)
    requires k in Register(owned, s, used, calls)
    ensures k in used || exists i | 0 <= i < |calls| :: calls[i].op.InsertOp? && calls[i].key == k
  {
    if calls != [] {
      var front, last := calls[..|calls| - 1], calls[|calls| - 1];
      if k in Register(owned, s, used, front) {
        RegisterKeys(owned, s, used, front, k);
        if k !in used {
          var i :| 0 <= i < |front| && front[i].op.InsertOp? && front[i].key == k;
          assert calls[i] == front[i];
        }
      } else {
        assert calls[|calls| - 1].op.InsertOp? && calls[|calls| - 1].key == k;
      }
    }
  }

  lemma BeginOk(owned: set<string>, keep: Retention, w: World)
    requires WorldOk(owned, keep, w)
    ensures TxOk(owned, w, w.owners, Begin(w.state))
  {
    forall k ensures KeyOk(owned, w, w.owners, Begin(w.state), k) {
      assert DocumentOk(owned, keep, w, k);
    }
  }

  lemma CallKeeps(
    owned: set<string>, keep: Retention, w: World, reg: map<DocKey, Option<string>>, tx: Tx, call: Call)
    requires WorldOk(owned, keep, w) && TxOk(owned, w, reg, tx)
    requires call.op.InsertOp? ==> call.key !in reg
    ensures var effect := EffectOf(owned, tx, call);
            TxOk(owned, w,
                 if call.op.InsertOp? && effect.Put? then reg[call.key := effect.entry.owner] else reg,
                 Perform(tx, call.key, effect))
  {
    assert DocumentOk(owned, keep, w, call.key);
    match call.op
    case InsertOp(now, content) => InsertKeeps(owned, keep, w, reg, tx, call.scope, call.key, now, content);
    case UpdateOp(ifVersion, change) =>
      UpdateKeeps(owned, keep, w, reg, tx, call.scope, call.key, ifVersion, change);
    case DeleteOp(ifVersion) => DeleteKeeps(owned, keep, w, reg, tx, call.scope, call.key, ifVersion);
    case PurgeOp(cursor) => PurgeKeeps(owned, keep, w, reg, tx, call.scope, call.key, cursor);
    case RestoreOp(cursor, ifRestore) =>
      RestoreKeeps(owned, keep, w, reg, tx, call.scope, call.key, cursor, ifRestore);
  }

  lemma {:induction false} CallsKeep(owned: set<string>, keep: Retention, w: World, calls: seq<Call>)
    requires WorldOk(owned, keep, w) && FreshInserts(w.owners, calls)
    ensures TxOk(owned, w, Register(owned, w.state, w.owners, calls), RunCalls(owned, Begin(w.state), calls))
  {
    if calls == [] {
      BeginOk(owned, keep, w);
    } else {
      var front, last := calls[..|calls| - 1], calls[|calls| - 1];
      CallsKeep(owned, keep, w, front);
      var reg := Register(owned, w.state, w.owners, front);
      if last.op.InsertOp? && last.key in reg {
        RegisterKeys(owned, w.state, w.owners, front, last.key);
      }
      CallKeeps(owned, keep, w, reg, RunCalls(owned, Begin(w.state), front), last);
    }
  }

  // ----- Committing, document by document -----

  function NewRows(pending: seq<Pending>, n: nat, revision: nat, k: DocKey): seq<Row>
    requires n <= |pending|
  {
    if n == 0 then []
    else
      NewRows(pending, n - 1, revision, k)
      + if pending[n - 1].key == k then [Row(Cursor(revision, n - 1), pending[n - 1].entry)] else []
  }

  lemma {:induction false} NewRowsEntries(pending: seq<Pending>, n: nat, revision: nat, k: DocKey)
    requires n <= |pending|
    ensures var rows, entries := NewRows(pending, n, revision, k), PendingOf(pending[..n], k);
            && |rows| == |entries|
            && forall i | 0 <= i < |rows| :: rows[i].entry == entries[i] && rows[i].cursor.revision == revision
    ensures revision >= 1 ==> CursorsRise(NewRows(pending, n, revision, k), revision)
    ensures forall row | row in NewRows(pending, n, revision, k) :: row.cursor.sequence < n
  {
    if n > 0 {
      NewRowsEntries(pending, n - 1, revision, k);
      assert pending[..n][..n - 1] == pending[..n - 1];
    }
  }

  lemma {:induction false} AddRowsAt(history: History, pending: seq<Pending>, n: nat, revision: nat, k: DocKey)
    requires n <= |pending|
    ensures RowsOf(AddRows(history, pending, n, revision), k)
         == RowsOf(history, k) + NewRows(pending, n, revision, k)
  {
    if n > 0 {
      AddRowsAt(history, pending, n - 1, revision, k);
    }
  }

  predicate Mentions(records: seq<Record>, n: nat, k: DocKey)
    requires n <= |records|
  {
    exists i | 0 <= i < n :: records[i].key == k
  }

  lemma {:induction false} TrimAt(history: History, records: seq<Record>, n: nat, limit: nat, k: DocKey)
    requires n <= |records|
    ensures RowsOf(TrimDocuments(history, records, n, limit), k)
         == if Mentions(records, n, k) then Newest(RowsOf(history, k), limit) else RowsOf(history, k)
  {
    if n > 0 {
      TrimAt(history, records, n - 1, limit, k);
      assert Mentions(records, n, k) <==> Mentions(records, n - 1, k) || records[n - 1].key == k;
    }
  }

  lemma {:induction false} RowsFromRising(rows: seq<Row>, cutoff: nat, revision: nat)
    requires CursorsRise(rows, revision)
    ensures Suffix(RowsFrom(rows, cutoff), rows)
    ensures forall i | 0 <= i < |rows| ::
              cutoff <= rows[i].cursor.revision <==> i >= |rows| - |RowsFrom(rows, cutoff)|
  {
    if rows != [] {
      if rows[0].cursor.revision < cutoff {
        RowsFromRising(rows[1..], cutoff, revision);
        SuffixTransitive(RowsFrom(rows[1..], cutoff), rows[1..], rows);
        forall i | 0 <= i < |rows|
          ensures cutoff <= rows[i].cursor.revision <==> i >= |rows| - |RowsFrom(rows, cutoff)|
        {
          assert i > 0 ==> rows[i] == rows[1..][i - 1];
        }
      } else {
        RowsFromAll(rows, cutoff);
      }
    }
  }

  lemma {:induction false} RowsFromAll(rows: seq<Row>, cutoff: nat)
    requires forall i | 0 <= i < |rows| :: cutoff <= rows[i].cursor.revision
    ensures RowsFrom(rows, cutoff) == rows
  {
    if rows != [] {
      RowsFromAll(rows[1..], cutoff);
    }
  }

  lemma SuffixTransitive(a: seq<Row>, b: seq<Row>, c: seq<Row>)
    requires Suffix(a, b) && Suffix(b, c)
    ensures Suffix(a, c)
  {
  }

  lemma SuffixAppend(a: seq<Row>, b: seq<Row>, more: seq<Row>)
    requires Suffix(a, b)
    ensures Suffix(a + more, b + more)
  {
    var n := |b| - |a|;
    assert (b + more)[n..] == b[n..] + more;
  }

  /** The rows of a document after a commit, before retention. */
  function CommittedRows(s: State, tx: Tx, k: DocKey): seq<Row> {
    RowsOf(tx.history, k) + NewRows(tx.pending, |tx.pending|, s.revision + 1, k)
  }

  /** A commit keeps a suffix of each document's rows, at most `perDocument` of a changed document. */
  lemma CommitRows(s: State, tx: Tx, keep: Retention, k: DocKey)
    requires tx.records != [] && RetentionOk(keep)
    requires CursorsRise(CommittedRows(s, tx, k), s.revision + 1)
    ensures var rows := RowsOf(Commit(s, tx, keep).history, k);
            && Suffix(rows, CommittedRows(s, tx, k))
            && (Mentions(tx.records, |tx.records|, k) ==> |rows| <= keep.perDocument)
            && |rows| <= |CommittedRows(s, tx, k)|
  {
    var revision := s.revision + 1;
    var cutoff := Cutoff(revision, keep.history);
    var rows := CommittedRows(s, tx, k);
    var kept := RowsFrom(rows, cutoff);
    CommitTrims(s, tx, keep, k);
    RowsFromRising(rows, cutoff, revision);
    SuffixTransitive(Newest(kept, keep.perDocument), kept, rows);
  }

  /** The two cleanups of a commit, seen from one document. */
  lemma CommitTrims(s: State, tx: Tx, keep: Retention, k: DocKey)
    requires tx.records != []
    ensures var kept := RowsFrom(CommittedRows(s, tx, k), Cutoff(s.revision + 1, keep.history));
            RowsOf(Commit(s, tx, keep).history, k)
            == if Mentions(tx.records, |tx.records|, k) then Newest(kept, keep.perDocument) else kept
  {
    var revision := s.revision + 1;
    var added := AddRows(tx.history, tx.pending, |tx.pending|, revision);
    AddRowsAt(tx.history, tx.pending, |tx.pending|, revision, k);
    var cutoff := Cutoff(revision, keep.history);
    assert RowsOf(DropOld(added, cutoff), k) == RowsFrom(RowsOf(added, k), cutoff);
    TrimAt(DropOld(added, cutoff), tx.records, |tx.records|, keep.perDocument, k);
  }

  /** Retention drops nothing that its limits allow: a row stays exactly if its revision is one of the newest
      `history` ones and, in a changed document, it is one of the newest `perDocument` rows. */
  lemma RetentionExact(s: State, tx: Tx, keep: Retention, k: DocKey, i: nat)
    requires tx.records != [] && RetentionOk(keep) && i < |CommittedRows(s, tx, k)|
    requires CursorsRise(CommittedRows(s, tx, k), s.revision + 1)
    ensures var rows, row := CommittedRows(s, tx, k), CommittedRows(s, tx, k)[i];
            row in RowsOf(Commit(s, tx, keep).history, k) <==>
              && s.revision + 1 - row.cursor.revision < keep.history
              && (Mentions(tx.records, |tx.records|, k) ==> |rows| - i <= keep.perDocument)
  {
    var rows, revision := CommittedRows(s, tx, k), s.revision + 1;
    CommitTrims(s, tx, keep, k);
    RowsKept(rows, revision, keep, i);
  }

  lemma RowsKept(rows: seq<Row>, revision: nat, keep: Retention, i: nat)
    requires RetentionOk(keep) && i < |rows| && CursorsRise(rows, revision)
    ensures var kept, recent := RowsFrom(rows, Cutoff(revision, keep.history)),
                                revision - rows[i].cursor.revision < keep.history;
            && (rows[i] in kept <==> recent)
            && (rows[i] in Newest(kept, keep.perDocument) <==> recent && |rows| - i <= keep.perDocument)
  {
    var kept := RowsFrom(rows, Cutoff(revision, keep.history));
    RowsFromRising(rows, Cutoff(revision, keep.history), revision);
    SuffixMembers(kept, rows, revision, i);
    SuffixTransitive(Newest(kept, keep.perDocument), kept, rows);
    SuffixMembers(Newest(kept, keep.perDocument), rows, revision, i);
  }

  lemma SuffixMembers(a: seq<Row>, b: seq<Row>, revision: nat, i: nat)
    requires Suffix(a, b) && CursorsRise(b, revision) && i < |b|
    ensures b[i] in a <==> i >= |b| - |a|
  {
    var d := |b| - |a|;
    if i >= d {
      assert a[i - d] == b[i];
    }
    if b[i] in a {
      var j :| 0 <= j < |a| && a[j] == b[i];
      assert a[j] == b[d + j];
      assert d + j < i ==> Before(b[d + j].cursor, b[i].cursor);
      assert i < d + j ==> Before(b[i].cursor, b[d + j].cursor);
    }
  }

  // ----- One committed step -----

  function TxOf(owned: set<string>, w: World, calls: seq<Call>): Tx {
    RunCalls(owned, Begin(w.state), calls)
  }

  function PendingKeys(pending: seq<Pending>): set<DocKey> {
    set p | p in pending :: p.key
  }

  function NextTop(w: World, docs: Documents): map<DocKey, nat> {
    map k | k in w.top.Keys + docs.Keys :: if k in docs then docs[k].version else w.top[k]
  }

  function Added(w: World, pending: seq<Pending>, k: DocKey): seq<Row> {
    NewRows(pending, |pending|, w.state.revision + 1, k)
  }

  function NextLog(w: World, pending: seq<Pending>): map<DocKey, seq<Row>> {
    map k | k in w.log.Keys + PendingKeys(pending) :: RowsOf(w.log, k) + Added(w, pending, k)
  }

  function Next(owned: set<string>, keep: Retention, w: World, calls: seq<Call>): World {
    var tx := TxOf(owned, w, calls);
    World(Commit(w.state, tx, keep), NextTop(w, tx.docs), Register(owned, w.state, w.owners, calls),
          NextLog(w, tx.pending))
  }

  lemma {:induction false} NoPendingNoRows(pending: seq<Pending>, n: nat, revision: nat, k: DocKey)
    requires n <= |pending| && k !in PendingKeys(pending)
    ensures NewRows(pending, n, revision, k) == []
  {
    if n > 0 {
      NoPendingNoRows(pending, n - 1, revision, k);
      assert pending[n - 1] in pending;
    }
  }

  lemma NextLogAt(w: World, pending: seq<Pending>, k: DocKey)
    ensures RowsOf(NextLog(w, pending), k) == RowsOf(w.log, k) + Added(w, pending, k)
  {
    if k !in PendingKeys(pending) {
      NoPendingNoRows(pending, |pending|, w.state.revision + 1, k);
    }
    assert k in w.log.Keys + PendingKeys(pending) <==> k in NextLog(w, pending);
  }

  lemma AddedEntries(w: World, tx: Tx, k: DocKey)
    ensures var rows, entries := Added(w, tx.pending, k), PendingOf(tx.pending, k);
            && |rows| == |entries|
            && forall i | 0 <= i < |rows| ::
                 rows[i].entry == entries[i] && rows[i].cursor.revision == w.state.revision + 1
    ensures CursorsRise(Added(w, tx.pending, k), w.state.revision + 1)
  {
    NewRowsEntries(tx.pending, |tx.pending|, w.state.revision + 1, k);
    assert tx.pending[..|tx.pending|] == tx.pending;
  }

  /** The entry says what the table holds, under the owner and above every committed version. */
  predicate LastOk(w: World, reg: map<DocKey, Option<string>>, docs: Documents, rows: seq<Row>, k: DocKey) {
    rows != [] ==>
      && k in reg && OwnedBy(rows, reg[k])
      && Describes(rows[|rows| - 1].entry, docs, k)
      && rows[|rows| - 1].entry.version >= Top(w, k)
  }

  lemma RiseAppend(rows: seq<Row>, more: seq<Row>, revision: nat)
    requires CursorsRise(rows, revision)
    requires CursorsRise(more, revision + 1) && forall i | 0 <= i < |more| :: more[i].cursor.revision == revision + 1
    ensures CursorsRise(rows + more, revision + 1)
  {
  }

  /** What the document's rows look like before retention. */
  lemma CommittedRowsRise(
    owned: set<string>, keep: Retention, w: World, reg: map<DocKey, Option<string>>, tx: Tx, k: DocKey)
    requires RetainedOk(w, k, keep) && KeyOk(owned, w, reg, tx, k)
    ensures CursorsRise(CommittedRows(w.state, tx, k), w.state.revision + 1)
    ensures Suffix(CommittedRows(w.state, tx, k), RowsOf(NextLog(w, tx.pending), k))
  {
    var rows, more := RowsOf(tx.history, k), Added(w, tx.pending, k);
    assert CommittedRows(w.state, tx, k) == rows + more;
    AddedEntries(w, tx, k);
    RiseAppend(rows, more, w.state.revision);
    NextLogAt(w, tx.pending, k);
    EmptySuffix(RowsOf(w.log, k));
    SuffixAppend(rows, RowsOf(w.log, k), more);
  }

  lemma EmptySuffix(rows: seq<Row>)
    ensures Suffix([], rows)
  {
  }

  lemma CommittedRowsLast(
    owned: set<string>, w: World, reg: map<DocKey, Option<string>>, tx: Tx, k: DocKey)
    requires RowsOk(w, k) && KeyOk(owned, w, reg, tx, k)
    ensures LastOk(w, reg, tx.docs, CommittedRows(w.state, tx, k), k)
  {
    AddedEntries(w, tx, k);
    var more := Added(w, tx.pending, k);
    assert CommittedRows(w.state, tx, k) == RowsOf(tx.history, k) + more;
    if more == [] {
      assert CommittedRows(w.state, tx, k) == RowsOf(tx.history, k);
    }
  }

  lemma UnannouncedSame(owned: set<string>, w: World, reg: map<DocKey, Option<string>>, tx: Tx, k: DocKey)
    requires KeyOk(owned, w, reg, tx, k) && !Mentions(tx.records, |tx.records|, k)
    ensures Added(w, tx.pending, k) == []
    ensures RowsOf(tx.history, k) == RowsOf(w.state.history, k) == CommittedRows(w.state, tx, k)
  {
    AddedEntries(w, tx, k);
    assert CommittedRows(w.state, tx, k) == RowsOf(tx.history, k) + Added(w, tx.pending, k);
  }

  /** Retention keeps a suffix of the full history, within the limit. */
  lemma NextRetained(owned: set<string>, keep: Retention, w: World, reg: map<DocKey, Option<string>>, tx: Tx, k: DocKey)
    requires RetentionOk(keep) && RetainedOk(w, k, keep) && KeyOk(owned, w, reg, tx, k)
    ensures var rows := RowsOf(Commit(w.state, tx, keep).history, k);
            && |rows| <= keep.perDocument
            && Suffix(rows, CommittedRows(w.state, tx, k))
            && Suffix(rows, RowsOf(NextLog(w, tx.pending), k))
            && CursorsRise(rows, Commit(w.state, tx, keep).revision)
  {
    var rows := RowsOf(Commit(w.state, tx, keep).history, k);
    CommittedRowsRise(owned, keep, w, reg, tx, k);
    if !Mentions(tx.records, |tx.records|, k) {
      UnannouncedSame(owned, w, reg, tx, k);
    }
    if tx.records != [] {
      CommitRows(w.state, tx, keep, k);
      SuffixTransitive(rows, CommittedRows(w.state, tx, k), RowsOf(NextLog(w, tx.pending), k));
      SuffixRises(rows, CommittedRows(w.state, tx, k), w.state.revision + 1);
    }
  }

  lemma NextLive(owned: set<string>, keep: Retention, w: World, calls: seq<Call>, k: DocKey)
    requires LiveOk(w, k) && OwnerOk(w, owned, k)
    requires KeyOk(owned, w, Register(owned, w.state, w.owners, calls), TxOf(owned, w, calls), k)
    ensures LiveOk(Next(owned, keep, w, calls), k) && OwnerOk(Next(owned, keep, w, calls), owned, k)
  {
  }

  /** Retention leaves the newest of a document's rows. */
  lemma NextRows(owned: set<string>, keep: Retention, w: World, calls: seq<Call>, k: DocKey)
    requires RowsOk(w, k)
    requires KeyOk(owned, w, Register(owned, w.state, w.owners, calls), TxOf(owned, w, calls), k)
    requires Suffix(RowsOf(Commit(w.state, TxOf(owned, w, calls), keep).history, k),
                    CommittedRows(w.state, TxOf(owned, w, calls), k))
    ensures RowsOk(Next(owned, keep, w, calls), k)
  {
    var tx, reg, n := TxOf(owned, w, calls), Register(owned, w.state, w.owners, calls), Next(owned, keep, w, calls);
    CommittedRowsLast(owned, w, reg, tx, k);
    var rows, all := RowsOf(n.state.history, k), CommittedRows(w.state, tx, k);
    if rows != [] {
      assert rows[|rows| - 1] == all[|all| - 1];
      SuffixOwned(rows, all, reg[k]);
      assert n.state.docs == tx.docs;
    }
  }

  lemma SuffixOwned(a: seq<Row>, b: seq<Row>, owner: Option<string>)
    requires Suffix(a, b) && OwnedBy(b, owner)
    ensures OwnedBy(a, owner)
  {
    var d := |b| - |a|;
    assert forall i | 0 <= i < |a| :: a[i] == b[d + i];
  }

  lemma NextDocumentOk(
    owned: set<string>, keep: Retention, w: World, calls: seq<Call>, k: DocKey)
    requires RetentionOk(keep) && DocumentOk(owned, keep, w, k)
    requires KeyOk(owned, w, Register(owned, w.state, w.owners, calls), TxOf(owned, w, calls), k)
    ensures DocumentOk(owned, keep, Next(owned, keep, w, calls), k)
  {
    NextRetained(owned, keep, w, Register(owned, w.state, w.owners, calls), TxOf(owned, w, calls), k);
    NextLive(owned, keep, w, calls, k);
    NextRows(owned, keep, w, calls, k);
  }

  lemma SuffixRises(a: seq<Row>, b: seq<Row>, revision: nat)
    requires Suffix(a, b) && CursorsRise(b, revision)
    ensures CursorsRise(a, revision)
  {
    var d := |b| - |a|;
    assert forall i | 0 <= i < |a| :: a[i] == b[d + i];
  }

  /** Every committed transaction keeps the document invariant. */
  lemma NextOk(owned: set<string>, keep: Retention, w: World, calls: seq<Call>)
    requires RetentionOk(keep) && WorldOk(owned, keep, w) && FreshInserts(w.owners, calls)
    ensures WorldOk(owned, keep, Next(owned, keep, w, calls))
  {
    CallsKeep(owned, keep, w, calls);
    forall k ensures DocumentOk(owned, keep, Next(owned, keep, w, calls), k) {
      assert DocumentOk(owned, keep, w, k);
      assert KeyOk(owned, w, Register(owned, w.state, w.owners, calls), TxOf(owned, w, calls), k);
      NextDocumentOk(owned, keep, w, calls, k);
    }
  }
}
