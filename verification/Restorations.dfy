/** Which revision a restoration brings back, and when it is refused, in every reachable state. */
module Restorations {
  import opened Wrappers
  import opened DocumentStore
  import opened DocumentHistory
  import R = DocumentRuns
  import T = TransactionEffects

  // ----- Cursors name rows -----

  predicate CursorsIdentify(rows: seq<Row>) {
    forall a, b | a in rows && b in rows && a.cursor == b.cursor :: a == b
  }

  lemma RisingIdentify(rows: seq<Row>, revision: nat)
    requires CursorsRise(rows, revision)
    ensures CursorsIdentify(rows)
  {
    forall a, b | a in rows && b in rows && a.cursor == b.cursor ensures a == b {
      var i :| 0 <= i < |rows| && rows[i] == a;
      var j :| 0 <= j < |rows| && rows[j] == b;
      assert i < j ==> Before(a.cursor, b.cursor);
      assert j < i ==> Before(b.cursor, a.cursor);
    }
  }

  /** In every reachable state, and in every transaction on it, a cursor names at most one revision of a document. */
  lemma CursorsAreDistinct(
    owned: set<string>, keep: Retention, ws: seq<World>, txs: seq<seq<Call>>, i: nat, calls: seq<Call>, k: DocKey)
    requires RetentionOk(keep) && R.IsRun(owned, keep, ws, txs) && i < |ws| && FreshInserts(ws[i].owners, calls)
    ensures CursorsIdentify(RowsOf(TxOf(owned, ws[i], calls).history, k))
  {
    R.RunOk(owned, keep, ws, txs, i);
    CursorsDistinctIn(owned, keep, ws[i], calls, k);
  }

  lemma CursorsDistinctIn(owned: set<string>, keep: Retention, w: World, calls: seq<Call>, k: DocKey)
    requires WorldOk(owned, keep, w) && FreshInserts(w.owners, calls)
    ensures CursorsIdentify(RowsOf(TxOf(owned, w, calls).history, k))
  {
    CallsKeep(owned, keep, w, calls);
    assert DocumentOk(owned, keep, w, k);
    assert KeyOk(owned, w, Register(owned, w.state, w.owners, calls), TxOf(owned, w, calls), k);
    RisingIdentify(RowsOf(w.state.history, k), w.state.revision);
  }

  // ----- The outcome of a restoration -----

  /** The version under which the caller sees a document, if any. */
  function SeenVersion(owned: set<string>, scope: Scope, docs: Documents, k: DocKey): Option<nat> {
    var found := GetDocument(owned, scope, docs, k);
    if found.Some? then Some(found.value.version) else None
  }

  /** What is asked of a restoration before its revision is looked up. */
  predicate Admitted(owned: set<string>, scope: Scope, docs: Documents, k: DocKey, guard: Option<Option<nat>>) {
    && (k.table in owned ==> scope.User?)
    && (guard.Some? ==> SeenVersion(owned, scope, docs, k) == guard.value)
  }

  predicate HasRow(owned: set<string>, scope: Scope, rows: seq<Row>, k: DocKey, cursor: Cursor) {
    exists row :: row in rows && row.cursor == cursor && Visible(owned, k.table, scope, row.entry.owner)
  }

  /** A restoration is refused as missing exactly if it is admitted and the caller sees no revision with its
      cursor. */
  lemma MissingExact(
    owned: set<string>, scope: Scope, tx: Tx, k: DocKey, cursor: Cursor, guard: Option<Option<nat>>)
    ensures RestoreEffect(owned, scope, tx, k, cursor, guard) == Skip(Missing) <==>
      Admitted(owned, scope, tx.docs, k, guard) && !HasRow(owned, scope, RowsOf(tx.history, k), k, cursor)
  {
    T.VisibleRowsIn(owned, scope, k, RowsOf(tx.history, k));
    FindRowExact(VisibleRows(owned, scope, k, RowsOf(tx.history, k)), cursor);
  }

  /** An admitted restoration of a visible row stores the content of that very row, under a version above all
      recorded ones, or finds it in place. */
  lemma RestoresTheRow(
    owned: set<string>, scope: Scope, tx: Tx, k: DocKey, row: Row, guard: Option<Option<nat>>)
    requires CursorsIdentify(RowsOf(tx.history, k)) && row in RowsOf(tx.history, k)
    requires Visible(owned, k.table, scope, row.entry.owner)
    ensures var effect := RestoreEffect(owned, scope, tx, k, row.cursor, guard);
            var current := GetDocument(owned, scope, tx.docs, k);
            && (effect == Skip(Unchanged) <==>
                  Admitted(owned, scope, tx.docs, k, guard) &&
                  current.Some? && current.value.content == row.entry.content)
            && (effect.Put? ==>
                  && Admitted(owned, scope, tx.docs, k, guard)
                  && effect.doc.Some? && effect.doc.value.content == row.entry.content
                  && effect.doc.value.created == (if current.Some? then current.value.created else row.entry.created)
                  && effect.doc.value.owner == (if current.Some? then current.value.owner
                                                else if k.table in owned then row.entry.owner else None)
                  && effect.entry.source == Some(row.cursor)
                  && effect.doc.value.version > row.entry.version)
  {
    var visible := VisibleRows(owned, scope, k, RowsOf(tx.history, k));
    T.VisibleRowsIn(owned, scope, k, RowsOf(tx.history, k));
    FindRowExact(visible, row.cursor);
    assert FindRow(visible, row.cursor) == Some(row);
    MaxVersionBounds(RowsOf(tx.history, k));
  }

  // ----- Committed restorations -----

  predicate VersionsBelow(rows: seq<Row>, bound: nat) {
    forall r | r in rows :: r.entry.version < bound
  }

  lemma {:induction false} MaxVersionBelow(rows: seq<Row>, bound: nat)
    requires bound > 0 && VersionsBelow(rows, bound)
    ensures MaxVersion(rows) < bound
  {
    if rows != [] {
      assert rows[|rows| - 1] in rows;
      MaxVersionBelow(rows[..|rows| - 1], bound);
    }
  }

  lemma TransactOne(owned: set<string>, s: State, call: Call, keep: Retention)
    ensures Transact(owned, s, [call], keep)
         == Commit(s, Perform(Begin(s), call.key, EffectOf(owned, Begin(s), call)), keep)
  {
    assert [call][..0] == [];
    assert RunCalls(owned, Begin(s), [call][..0]) == Begin(s);
  }

  /** The live document of a visible row is visible, and its version is recorded. */
  lemma LiveSeen(owned: set<string>, keep: Retention, w: World, scope: Scope, k: DocKey, row: Row)
    requires WorldOk(owned, keep, w) && row in RowsOf(w.state.history, k)
    requires Visible(owned, k.table, scope, row.entry.owner)
    ensures k in w.state.docs ==>
      && GetDocument(owned, scope, w.state.docs, k) == Some(w.state.docs[k])
      && w.state.docs[k].owner == row.entry.owner
      && exists r :: r in RowsOf(w.state.history, k) && r.entry.version == w.state.docs[k].version
    ensures k.table !in owned ==> row.entry.owner == None
  {
    assert DocumentOk(owned, keep, w, k);
    var rows := RowsOf(w.state.history, k);
    assert rows[|rows| - 1] in rows;
  }

  lemma RestoreSucceeds(owned: set<string>, keep: Retention, w: World, scope: Scope, k: DocKey, row: Row)
    requires WorldOk(owned, keep, w) && row in RowsOf(w.state.history, k)
    requires Visible(owned, k.table, scope, row.entry.owner) && (k.table in owned ==> scope.User?)
    requires VersionsBelow(RowsOf(w.state.history, k), MAX_VERSION)
    ensures var effect := RestoreEffect(owned, scope, Begin(w.state), k, row.cursor, None);
            && (k in w.state.docs && w.state.docs[k].content == row.entry.content <==> effect == Skip(Unchanged))
            && (effect != Skip(Unchanged) ==>
                  effect.Put? && effect.doc.Some? && effect.doc.value.owner == row.entry.owner)
  {
    var rows := RowsOf(w.state.history, k);
    assert DocumentOk(owned, keep, w, k);
    RisingIdentify(rows, w.state.revision);
    LiveSeen(owned, keep, w, scope, k, row);
    MaxVersionBelow(rows, MAX_VERSION);
    RestoresTheRow(owned, scope, Begin(w.state), k, row, None);
    MissingExact(owned, scope, Begin(w.state), k, row.cursor, None);
    assert HasRow(owned, scope, rows, k, row.cursor);
    if k in w.state.docs {
      var r :| r in rows && r.entry.version == w.state.docs[k].version;
      assert w.state.docs[k].version < MAX_VERSION;
    }
  }

  /** From every reachable state, restoring any retained revision the caller sees leaves a document with exactly its
      content and owner: the live one if nothing changes, or one above every recorded version. */
  lemma RestoreBringsBack(owned: set<string>, keep: Retention, w: World, scope: Scope, k: DocKey, row: Row)
    requires WorldOk(owned, keep, w) && row in RowsOf(w.state.history, k)
    requires Visible(owned, k.table, scope, row.entry.owner) && (k.table in owned ==> scope.User?)
    requires VersionsBelow(RowsOf(w.state.history, k), MAX_VERSION)
    ensures var live := w.state.docs;
            var restored := Transact(owned, w.state, [Call(scope, k, RestoreOp(row.cursor, None))], keep).docs;
            && k in restored
            && restored[k].content == row.entry.content && restored[k].owner == row.entry.owner
            && restored[k].created == (if k in live then live[k].created else row.entry.created)
            && if k in live && live[k].content == row.entry.content then restored == live
               else forall r | r in RowsOf(w.state.history, k) :: r.entry.version < restored[k].version
  {
    var call := Call(scope, k, RestoreOp(row.cursor, None));
    TransactOne(owned, w.state, call, keep);
    assert DocumentOk(owned, keep, w, k);
    RisingIdentify(RowsOf(w.state.history, k), w.state.revision);
    RestoreSucceeds(owned, keep, w, scope, k, row);
    LiveSeen(owned, keep, w, scope, k, row);
    RestoresTheRow(owned, scope, Begin(w.state), k, row, None);
    T.VersionsStep(owned, Begin(w.state), call);
  }

  // ----- Delete and restore -----

  predicate MayWrite(owned: set<string>, scope: Scope, k: DocKey, doc: Doc) {
    k.table in owned ==> scope.User? && doc.owner == Some(scope.id)
  }

  function DeleteEntry(doc: Doc): Entry {
    Entry(doc.owner, doc.version, doc.created, Delete, doc.content, None)
  }

  lemma DeletedRows(owned: set<string>, w: World, scope: Scope, k: DocKey)
    requires k in w.state.docs && MayWrite(owned, scope, k, w.state.docs[k])
    ensures var tx := TxOf(owned, w, [Call(scope, k, DeleteOp(None))]);
            && tx.records == [Record(k, w.state.docs[k].owner)] && k !in tx.docs
            && CommittedRows(w.state, tx, k) ==
                 RowsOf(w.state.history, k) + [Row(Cursor(w.state.revision + 1, 0), DeleteEntry(w.state.docs[k]))]
  {
    var call, entry := Call(scope, k, DeleteOp(None)), DeleteEntry(w.state.docs[k]);
    var s := w.state;
    assert EffectOf(owned, Begin(s), call) == Put(None, entry);
    assert [call][..0] == [];
    assert RunCalls(owned, Begin(s), [call][..0]) == Begin(s);
    var tx := TxOf(owned, w, [call]);
    assert tx == Perform(Begin(s), k, Put(None, entry));
    assert tx.pending == [Pending(k, entry)];
    assert NewRows(tx.pending, 0, s.revision + 1, k) == [];
  }

  function DeleteRow(w: World, doc: Doc): Row {
    Row(Cursor(w.state.revision + 1, 0), DeleteEntry(doc))
  }

  lemma DeletedSuffix(owned: set<string>, keep: Retention, w: World, scope: Scope, k: DocKey)
    requires RetentionOk(keep) && WorldOk(owned, keep, w)
    requires k in w.state.docs && MayWrite(owned, scope, k, w.state.docs[k])
    ensures var tx := TxOf(owned, w, [Call(scope, k, DeleteOp(None))]);
            var all := RowsOf(w.state.history, k) + [DeleteRow(w, w.state.docs[k])];
            && CommittedRows(w.state, tx, k) == all && CursorsRise(all, w.state.revision + 1)
            && Suffix(RowsOf(Commit(w.state, tx, keep).history, k), all)
  {
    CommitKeepsSuffix(owned, keep, w, [Call(scope, k, DeleteOp(None))], k);
    DeletedRows(owned, w, scope, k);
  }

  lemma DeletedRowStays(owned: set<string>, keep: Retention, w: World, scope: Scope, k: DocKey)
    returns (kept: seq<Row>)
    requires RetentionOk(keep) && WorldOk(owned, keep, w)
    requires k in w.state.docs && MayWrite(owned, scope, k, w.state.docs[k])
    ensures kept == RowsOf(Commit(w.state, TxOf(owned, w, [Call(scope, k, DeleteOp(None))]), keep).history, k)
    ensures Suffix(kept, RowsOf(w.state.history, k) + [DeleteRow(w, w.state.docs[k])])
    ensures DeleteRow(w, w.state.docs[k]) in kept
  {
    var tx := TxOf(owned, w, [Call(scope, k, DeleteOp(None))]);
    kept := RowsOf(Commit(w.state, tx, keep).history, k);
    DeletedSuffix(owned, keep, w, scope, k);
    var old_, row := RowsOf(w.state.history, k), DeleteRow(w, w.state.docs[k]);
    assert tx.records != [] by {
      DeletedRows(owned, w, scope, k);
    }
    NewestStays(w.state, tx, keep, k, old_, row);
  }

  lemma DeletedNewest(owned: set<string>, keep: Retention, w: World, scope: Scope, k: DocKey)
    returns (kept: seq<Row>)
    requires RetentionOk(keep) && WorldOk(owned, keep, w)
    requires k in w.state.docs && MayWrite(owned, scope, k, w.state.docs[k])
    requires w.state.docs[k].version < MAX_VERSION && VersionsBelow(RowsOf(w.state.history, k), MAX_VERSION)
    ensures kept == RowsOf(Commit(w.state, TxOf(owned, w, [Call(scope, k, DeleteOp(None))]), keep).history, k)
    ensures kept != [] && kept[|kept| - 1] == DeleteRow(w, w.state.docs[k]) && VersionsBelow(kept, MAX_VERSION)
  {
    kept := DeletedRowStays(owned, keep, w, scope, k);
    SuffixTail(kept, RowsOf(w.state.history, k), DeleteRow(w, w.state.docs[k]), MAX_VERSION);
  }

  /** What a deletion leaves: its own row is the newest, and all rows have the owner of the document. */
  lemma DeletedState(owned: set<string>, keep: Retention, w: World, scope: Scope, k: DocKey)
    requires RetentionOk(keep) && WorldOk(owned, keep, w)
    requires k in w.state.docs && MayWrite(owned, scope, k, w.state.docs[k])
    requires w.state.docs[k].version < MAX_VERSION && VersionsBelow(RowsOf(w.state.history, k), MAX_VERSION)
    ensures var n := Next(owned, keep, w, [Call(scope, k, DeleteOp(None))]);
            var rows := RowsOf(n.state.history, k);
            && WorldOk(owned, keep, n) && k !in n.state.docs
            && rows != [] && rows[|rows| - 1].entry == DeleteEntry(w.state.docs[k])
            && VersionsBelow(rows, MAX_VERSION) && OwnedBy(rows, w.state.docs[k].owner)
  {
    var calls := [Call(scope, k, DeleteOp(None))];
    NextOk(owned, keep, w, calls);
    DeletedRows(owned, w, scope, k);
    var kept := DeletedNewest(owned, keep, w, scope, k);
    OneOwner(owned, keep, Next(owned, keep, w, calls), k);
  }

  lemma OneOwner(owned: set<string>, keep: Retention, w: World, k: DocKey)
    requires WorldOk(owned, keep, w) && RowsOf(w.state.history, k) != []
    ensures var rows := RowsOf(w.state.history, k); OwnedBy(rows, rows[|rows| - 1].entry.owner)
  {
    assert DocumentOk(owned, keep, w, k);
  }

  lemma CommitKeepsSuffix(owned: set<string>, keep: Retention, w: World, calls: seq<Call>, k: DocKey)
    requires RetentionOk(keep) && WorldOk(owned, keep, w) && FreshInserts(w.owners, calls)
    ensures var tx := TxOf(owned, w, calls);
            && Suffix(RowsOf(Commit(w.state, tx, keep).history, k), CommittedRows(w.state, tx, k))
            && CursorsRise(CommittedRows(w.state, tx, k), w.state.revision + 1)
  {
    CallsKeep(owned, keep, w, calls);
    var reg, tx := Register(owned, w.state, w.owners, calls), TxOf(owned, w, calls);
    assert DocumentOk(owned, keep, w, k) && KeyOk(owned, w, reg, tx, k);
    CommittedRowsRise(owned, keep, w, reg, tx, k);
    NextRetained(owned, keep, w, reg, tx, k);
  }

  /** A row of the revision that is committed survives retention. */
  lemma NewestStays(s: State, tx: Tx, keep: Retention, k: DocKey, old_: seq<Row>, row: Row)
    requires tx.records != [] && RetentionOk(keep) && CommittedRows(s, tx, k) == old_ + [row]
    requires CursorsRise(old_ + [row], s.revision + 1) && row.cursor.revision == s.revision + 1
    ensures row in RowsOf(Commit(s, tx, keep).history, k)
  {
    RetentionExact(s, tx, keep, k, |old_|);
  }

  lemma SuffixTail(a: seq<Row>, old_: seq<Row>, row: Row, bound: nat)
    requires Suffix(a, old_ + [row]) && row in a && VersionsBelow(old_, bound) && row.entry.version < bound
    ensures a != [] && a[|a| - 1] == row && VersionsBelow(a, bound)
  {
    assert forall r | r in a :: r in old_ || r == row;
  }

  /** Deleting a document and restoring any revision that is still retained brings back that revision's content and
      creation time under a higher version.  The newest one is the document as it was. */
  lemma DeleteThenRestore(owned: set<string>, keep: Retention, w: World, scope: Scope, k: DocKey, row: Row)
    requires RetentionOk(keep) && WorldOk(owned, keep, w)
    requires k in w.state.docs && MayWrite(owned, scope, k, w.state.docs[k])
    requires w.state.docs[k].version < MAX_VERSION && VersionsBelow(RowsOf(w.state.history, k), MAX_VERSION)
    requires row in RowsOf(Transact(owned, w.state, [Call(scope, k, DeleteOp(None))], keep).history, k)
    ensures var deleted := Transact(owned, w.state, [Call(scope, k, DeleteOp(None))], keep);
            var restored := Transact(owned, deleted, [Call(scope, k, RestoreOp(row.cursor, None))], keep).docs;
            var rows := RowsOf(deleted.history, k);
            && k !in deleted.docs && k in restored
            && restored[k].content == row.entry.content && restored[k].created == row.entry.created
            && restored[k].owner == w.state.docs[k].owner
            && restored[k].version > w.state.docs[k].version
            && (row == rows[|rows| - 1] ==> restored[k] == w.state.docs[k].(version := restored[k].version))
  {
    var calls := [Call(scope, k, DeleteOp(None))];
    DeletedState(owned, keep, w, scope, k);
    var n := Next(owned, keep, w, calls);
    var rows := RowsOf(n.state.history, k);
    assert n.state == Transact(owned, w.state, calls, keep);
    assert row.entry.owner == w.state.docs[k].owner;
    assert rows[|rows| - 1] in rows;
    RestoreBringsBack(owned, keep, n, scope, k, row);
  }

  // ----- Purging -----

  /** In every reachable state a purge goes through exactly if the document is deleted, the caller may see it, and the
      cursor is that of its deletion. */
  lemma PurgeExact(owned: set<string>, keep: Retention, w: World, scope: Scope, k: DocKey, cursor: Cursor)
    requires WorldOk(owned, keep, w)
    ensures var rows, effect := RowsOf(w.state.history, k), PurgeEffect(owned, scope, Begin(w.state), k, cursor);
            && (effect.Clear? <==>
                  && !Refused(owned, k.table, scope) && k !in w.state.docs && rows != []
                  && Visible(owned, k.table, scope, rows[|rows| - 1].entry.owner)
                  && rows[|rows| - 1].cursor == cursor)
            && (effect == Skip(Missing) <==>
                  && !Refused(owned, k.table, scope)
                  && forall row | row in rows :: !Visible(owned, k.table, scope, row.entry.owner))
  {
    var rows := RowsOf(w.state.history, k);
    if rows != [] {
      OneOwner(owned, keep, w, k);
      VisibleRowsOwned(owned, scope, k, rows, rows[|rows| - 1].entry.owner);
      LiveSeenIfOwned(owned, keep, w, scope, k);
      PurgeOfRows(owned, Begin(w.state), scope, k, cursor);
    }
  }

  /** Inside a transaction that may have deleted the document itself, its newest revision must be a deletion that was
      committed. */
  lemma PurgeOfRows(owned: set<string>, tx: Tx, scope: Scope, k: DocKey, cursor: Cursor)
    requires RowsOf(tx.history, k) != []
    requires var rows := RowsOf(tx.history, k);
             var owner := rows[|rows| - 1].entry.owner;
             && OwnedBy(rows, owner)
             && (Visible(owned, k.table, scope, owner) && k in tx.docs ==> GetDocument(owned, scope, tx.docs, k).Some?)
             && VisibleRows(owned, scope, k, rows) == if Visible(owned, k.table, scope, owner) then rows else []
    ensures var rows, effect := RowsOf(tx.history, k), PurgeEffect(owned, scope, tx, k, cursor);
            && (effect.Clear? <==>
                  && !Refused(owned, k.table, scope) && k !in tx.docs
                  && Visible(owned, k.table, scope, rows[|rows| - 1].entry.owner)
                  && rows[|rows| - 1].entry.operation == Delete && rows[|rows| - 1].cursor == cursor)
            && (effect == Skip(Missing) <==>
                  && !Refused(owned, k.table, scope)
                  && forall row | row in rows :: !Visible(owned, k.table, scope, row.entry.owner))
  {
    var rows := RowsOf(tx.history, k);
    assert rows[|rows| - 1] in rows;
  }

  lemma LiveSeenIfOwned(owned: set<string>, keep: Retention, w: World, scope: Scope, k: DocKey)
    requires WorldOk(owned, keep, w) && RowsOf(w.state.history, k) != []
    ensures var rows := RowsOf(w.state.history, k);
            Visible(owned, k.table, scope, rows[|rows| - 1].entry.owner) && k in w.state.docs ==>
              GetDocument(owned, scope, w.state.docs, k).Some?
    ensures var rows := RowsOf(w.state.history, k);
            rows[|rows| - 1].entry.operation == Delete <==> k !in w.state.docs
  {
    assert DocumentOk(owned, keep, w, k);
    var rows := RowsOf(w.state.history, k);
    assert rows[|rows| - 1] in rows;
    if Visible(owned, k.table, scope, rows[|rows| - 1].entry.owner) {
      LiveSeen(owned, keep, w, scope, k, rows[|rows| - 1]);
    }
  }

  /** After a purge no revision of the document is left to restore, under whatever cursor. */
  lemma PurgeForgets(
    owned: set<string>, keep: Retention, w: World, scope: Scope, k: DocKey, cursor: Cursor, reader: Scope, any: Cursor)
    requires RetentionOk(keep) && WorldOk(owned, keep, w)
    requires PurgeEffect(owned, scope, Begin(w.state), k, cursor).Clear?
    ensures var purged := Transact(owned, w.state, [Call(scope, k, PurgeOp(cursor))], keep);
            && purged.docs == w.state.docs && RowsOf(purged.history, k) == []
            && RestoreEffect(owned, reader, Begin(purged), k, any, None).Skip?
  {
    var calls := [Call(scope, k, PurgeOp(cursor))];
    TransactOne(owned, w.state, calls[0], keep);
    var tx := Perform(Begin(w.state), k, PurgeEffect(owned, scope, Begin(w.state), k, cursor));
    PurgedRows(owned, keep, w, scope, k, cursor);
    CommitTrims(w.state, tx, keep, k);
    assert RowsOf(Commit(w.state, tx, keep).history, k) == [];
    RestoreNeedsRows(owned, Begin(Commit(w.state, tx, keep)), reader, k, any, None);
  }

  lemma PurgedRows(owned: set<string>, keep: Retention, w: World, scope: Scope, k: DocKey, cursor: Cursor)
    requires WorldOk(owned, keep, w) && PurgeEffect(owned, scope, Begin(w.state), k, cursor).Clear?
    ensures var tx := Perform(Begin(w.state), k, PurgeEffect(owned, scope, Begin(w.state), k, cursor));
            tx.records != [] && tx.docs == w.state.docs && CommittedRows(w.state, tx, k) == []
  {
    var rows := RowsOf(w.state.history, k);
    PurgeExact(owned, keep, w, scope, k, cursor);
    OneOwner(owned, keep, w, k);
    VisibleRowsOwned(owned, scope, k, rows, rows[|rows| - 1].entry.owner);
    WithoutOwnerEmpty(rows, rows[|rows| - 1].entry.owner);
  }
}
