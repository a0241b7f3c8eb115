/** What transactions cannot do, whatever calls they make: touch documents they do not address, or documents of
    another user. */
module TransactionEffects {
  import opened Wrappers
  import opened DocumentStore
  import opened QueryHandlers
  import H = DocumentHistory

  /** A document, or a recorded revision of one, that belongs to someone else than the user. */
  predicate Foreign(owned: set<string>, user: string, table: string, owner: Option<string>) {
    table in owned && owner != Some(user)
  }

  /** A step that touches nothing foreign: not the live document, nor a recorded revision, and makes nothing
      foreign. */
  ghost predicate Isolated(owned: set<string>, user: string, a: Tx, b: Tx, k: DocKey) {
    && (k in a.docs && Foreign(owned, user, k.table, a.docs[k].owner) ==> k in b.docs && b.docs[k] == a.docs[k])
    && (k in b.docs && Foreign(owned, user, k.table, b.docs[k].owner) ==> k in a.docs && b.docs[k] == a.docs[k])
    && (forall row | row in RowsOf(a.history, k) && Foreign(owned, user, k.table, row.entry.owner) ::
          row in RowsOf(b.history, k))
  }

  lemma {:induction false} VisibleRowsIn(owned: set<string>, scope: Scope, key: DocKey, rows: seq<Row>)
    ensures forall row :: row in VisibleRows(owned, scope, key, rows) <==>
              row in rows && Visible(owned, key.table, scope, row.entry.owner)
  {
    if rows != [] {
      VisibleRowsIn(owned, scope, key, rows[..|rows| - 1]);
      assert rows == rows[..|rows| - 1] + [rows[|rows| - 1]];
    }
  }

  lemma {:induction false} OtherRowsStay(rows: seq<Row>, owner: Option<string>)
    ensures forall row | row in rows && owner.Some? && row.entry.owner != owner :: row in WithoutOwner(rows, owner)
  {
    if rows != [] {
      OtherRowsStay(rows[..|rows| - 1], owner);
      assert rows == rows[..|rows| - 1] + [rows[|rows| - 1]];
    }
  }

  lemma RestoresOwn(
    owned: set<string>, user: string, tx: Tx, key: DocKey, cursor: Cursor, guard: Option<Option<nat>>)
    ensures var effect := RestoreEffect(owned, User(user), tx, key, cursor, guard);
            effect.Put? && key.table in owned ==> effect.doc.Some? && effect.doc.value.owner == Some(user)
  {
    var rows := VisibleRows(owned, User(user), key, RowsOf(tx.history, key));
    VisibleRowsIn(owned, User(user), key, RowsOf(tx.history, key));
    H.FindRowExact(rows, cursor);
  }

  lemma PurgesOwn(owned: set<string>, user: string, tx: Tx, key: DocKey, cursor: Cursor)
    ensures var effect := PurgeEffect(owned, User(user), tx, key, cursor);
            effect.Clear? && key.table in owned ==> effect.owner == Some(user)
  {
    var rows := VisibleRows(owned, User(user), key, RowsOf(tx.history, key));
    VisibleRowsIn(owned, User(user), key, RowsOf(tx.history, key));
    if rows != [] {
      assert rows[|rows| - 1] in rows;
    }
  }

  /** Whatever the call and its outcome. */
  lemma CallIsolated(owned: set<string>, user: string, tx: Tx, call: Call, k: DocKey)
    requires call.scope == User(user)
    ensures Isolated(owned, user, tx, Perform(tx, call.key, EffectOf(owned, tx, call)), k)
  {
    match call.op
    case RestoreOp(cursor, guard) => RestoresOwn(owned, user, tx, call.key, cursor, guard);
    case PurgeOp(cursor) =>
      PurgesOwn(owned, user, tx, call.key, cursor);
      OtherRowsStay(RowsOf(tx.history, call.key), Some(user));
    case _ =>
  }

  lemma {:induction false} CallsIsolated(owned: set<string>, user: string, tx: Tx, calls: seq<Call>, k: DocKey)
    requires forall i | 0 <= i < |calls| :: calls[i].scope == User(user)
    ensures Isolated(owned, user, tx, RunCalls(owned, tx, calls), k)
  {
    if calls != [] {
      var n := |calls| - 1;
      CallsIsolated(owned, user, tx, calls[..n], k);
      CallIsolated(owned, user, RunCalls(owned, tx, calls[..n]), calls[n], k);
    }
  }

  /** A user's transaction, whatever its calls, changes nothing that another user reads of an owned table, and
      erases none of the others' recorded revisions. */
  lemma UsersAreIsolated(
    owned: set<string>, s: State, calls: seq<Call>, keep: Retention, user: string, other: string, table: string)
    requires forall i | 0 <= i < |calls| :: calls[i].scope == User(user)
    requires table in owned && other != user
    ensures VisibleDocs(owned, User(other), Transact(owned, s, calls, keep).docs, table)
         == VisibleDocs(owned, User(other), s.docs, table)
    ensures forall id, row | row in RowsOf(s.history, DocKey(table, id)) && row.entry.owner == Some(other) ::
              row in RowsOf(RunCalls(owned, Begin(s), calls).history, DocKey(table, id))
  {
    var tx := RunCalls(owned, Begin(s), calls);
    forall k ensures Isolated(owned, user, Begin(s), tx, k) {
      CallsIsolated(owned, user, Begin(s), calls, k);
    }
    var x, y := VisibleDocs(owned, User(other), tx.docs, table), VisibleDocs(owned, User(other), s.docs, table);
    forall k ensures k in x <==> k in y {
      assert Isolated(owned, user, Begin(s), tx, k);
    }
    forall k | k in x ensures x[k] == y[k] {
      assert Isolated(owned, user, Begin(s), tx, k);
    }
    forall id, row | row in RowsOf(s.history, DocKey(table, id)) && row.entry.owner == Some(other)
      ensures row in RowsOf(tx.history, DocKey(table, id))
    {
      assert Isolated(owned, user, Begin(s), tx, DocKey(table, id));
    }
  }

  /** A transaction by nobody changes no owned table at all. */
  lemma {:induction false} NobodyWritesOwned(owned: set<string>, tx: Tx, calls: seq<Call>, k: DocKey)
    requires k.table in owned && forall i | 0 <= i < |calls| :: calls[i].scope == Anonymous
    ensures var n := RunCalls(owned, tx, calls);
            && (k in n.docs <==> k in tx.docs) && (k in tx.docs ==> n.docs[k] == tx.docs[k])
            && RowsOf(n.history, k) == RowsOf(tx.history, k)
  {
    if calls != [] {
      NobodyWritesOwned(owned, tx, calls[..|calls| - 1], k);
    }
  }

  predicate Addresses(calls: seq<Call>, k: DocKey) {
    exists i | 0 <= i < |calls| :: calls[i].key == k
  }

  lemma {:induction false} AnnouncedKeys(records: seq<Record>, r: Record, k: DocKey)
    requires k != r.key && forall i | 0 <= i < |records| :: records[i].key != k
    ensures forall i | 0 <= i < |Announce(records, r)| :: Announce(records, r)[i].key != k
  {
    if records != [] && records[0].key != r.key {
      AnnouncedKeys(records[1..], r, k);
    }
  }

  predicate AnnouncedOnce(records: seq<Record>) {
    forall i, j | 0 <= i < j < |records| :: records[i].key != records[j].key
  }

  /** A new document is announced last, and one announced before in its place. */
  lemma {:induction false} AnnouncedInPlace(records: seq<Record>, r: Record)
    requires AnnouncedOnce(records)
    ensures forall i | 0 <= i < |records| ::
              i < |Announce(records, r)| && Announce(records, r)[i] == if records[i].key == r.key then r else records[i]
    ensures (forall x | x in records :: x.key != r.key) ==> Announce(records, r) == records + [r]
  {
    if records != [] && records[0].key != r.key {
      assert AnnouncedOnce(records[1..]);
      assert records == [records[0]] + records[1..];
      AnnouncedInPlace(records[1..], r);
      assert [records[0]] + (records[1..] + [r]) == records + [r];
    }
  }

  lemma {:induction false} AnnounceOnce(records: seq<Record>, r: Record)
    requires AnnouncedOnce(records)
    ensures AnnouncedOnce(Announce(records, r)) && r in Announce(records, r)
  {
    if records != [] && records[0].key != r.key {
      assert records == [records[0]] + records[1..];
      AnnounceOnce(records[1..], r);
      H.AnnounceMembers(records[1..], r);
      FirstOnce(records[0], records[1..], Announce(records[1..], r), r);
    }
  }

  lemma FirstOnce(first: Record, before: seq<Record>, after: seq<Record>, r: Record)
    requires AnnouncedOnce([first] + before) && AnnouncedOnce(after) && first.key != r.key
    requires forall x | x in after :: x == r || x in before
    ensures AnnouncedOnce([first] + after)
  {
    forall j | 0 <= j < |after| ensures after[j].key != first.key {
      assert after[j] in after;
      if after[j] != r {
        var i :| 0 <= i < |before| && before[i] == after[j];
        assert ([first] + before)[0] == first && ([first] + before)[i + 1] == before[i];
      }
    }
  }

  /** A transaction announces each document at most once, however often it changes it. */
  lemma {:induction false} EachAnnouncedOnce(owned: set<string>, s: State, calls: seq<Call>)
    ensures AnnouncedOnce(RunCalls(owned, Begin(s), calls).records)
  {
    if calls != [] {
      var n := |calls| - 1;
      EachAnnouncedOnce(owned, s, calls[..n]);
      var before := RunCalls(owned, Begin(s), calls[..n]);
      var effect := EffectOf(owned, before, calls[n]);
      if !effect.Skip? {
        AnnounceOnce(before.records, Record(calls[n].key, if effect.Put? then effect.entry.owner else effect.owner));
      }
    }
  }

  /** A document that no call of a transaction addresses keeps its content, its version and its history, and is not
      announced. */
  lemma {:induction false} UnaddressedStays(owned: set<string>, s: State, calls: seq<Call>, k: DocKey)
    requires !Addresses(calls, k)
    ensures var tx := RunCalls(owned, Begin(s), calls);
            && (k in tx.docs <==> k in s.docs) && (k in s.docs ==> tx.docs[k] == s.docs[k])
            && RowsOf(tx.history, k) == RowsOf(s.history, k)
            && forall i | 0 <= i < |tx.records| :: tx.records[i].key != k
  {
    if calls != [] {
      var n := |calls| - 1;
      assert calls[n].key != k;
      assert !Addresses(calls[..n], k) by {
        assert forall i | 0 <= i < n :: calls[..n][i] == calls[i];
      }
      UnaddressedStays(owned, s, calls[..n], k);
      var before := RunCalls(owned, Begin(s), calls[..n]);
      var effect := EffectOf(owned, before, calls[n]);
      if !effect.Skip? {
        var owner := if effect.Put? then effect.entry.owner else effect.owner;
        AnnouncedKeys(before.records, Record(calls[n].key, owner), k);
      }
    }
  }

  // ----- One call -----

  /** A call that leaves a document behind gives it a new version: 1 to a new one, the next one to a changed one, and
      to a restored one a version above all recorded ones.  A change and a restoration keep when and by whom it was
      created, and what is recorded is what is stored. */
  lemma VersionsStep(owned: set<string>, tx: Tx, call: Call)
    ensures var k, effect := call.key, EffectOf(owned, tx, call);
            effect.Put? && effect.doc.Some? ==>
              var doc, entry := effect.doc.value, effect.entry;
              && entry.version == doc.version && entry.content == doc.content && entry.created == doc.created
              && (entry.operation.Create? <==> call.op.InsertOp?)
              && (call.op.InsertOp? ==> k !in tx.docs && doc.version == 1)
              && (k in tx.docs ==>
                    && doc.owner == tx.docs[k].owner && doc.created == tx.docs[k].created
                    && doc.content != tx.docs[k].content && doc.version > tx.docs[k].version)
              && (call.op.UpdateOp? ==> k in tx.docs && doc.version == tx.docs[k].version + 1)
              && (call.op.RestoreOp? ==>
                    forall row | row in RowsOf(tx.history, k) :: row.entry.version < doc.version)
  {
    H.MaxVersionBounds(RowsOf(tx.history, call.key));
  }
}
