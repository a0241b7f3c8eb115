/** Documents over whole runs: versions identify contents, and retained history is exact. */
module DocumentRuns {
  import opened Wrappers
  import opened DocumentStore
  import opened DocumentHistory

  const EMPTY: World := World(State(map[], map[], 0, []), map[], map[], map[])

  /** A run from the empty database: each step is one committed transaction. */
  ghost predicate IsRun(owned: set<string>, keep: Retention, ws: seq<World>, txs: seq<seq<Call>>) {
    && |ws| == |txs| + 1
    && ws[0] == EMPTY
    && forall i | 0 <= i < |txs| :: FreshInserts(ws[i].owners, txs[i]) && ws[i + 1] == Next(owned, keep, ws[i], txs[i])
  }

  lemma {:induction false} RunOk(owned: set<string>, keep: Retention, ws: seq<World>, txs: seq<seq<Call>>, i: nat)
    requires RetentionOk(keep) && IsRun(owned, keep, ws, txs) && i < |ws|
    ensures WorldOk(owned, keep, ws[i])
  {
    if i == 0 {
      forall k ensures DocumentOk(owned, keep, EMPTY, k) {}
    } else {
      RunOk(owned, keep, ws, txs, i - 1);
      NextOk(owned, keep, ws[i - 1], txs[i - 1]);
    }
  }

  // ----- Versions -----

  /** A step leaves a document alone or commits it under a version above all earlier ones. */
  lemma StepVersions(owned: set<string>, keep: Retention, w: World, calls: seq<Call>, k: DocKey)
    requires WorldOk(owned, keep, w) && FreshInserts(w.owners, calls)
    ensures var n := Next(owned, keep, w, calls);
            && Top(n, k) >= Top(w, k)
            && (k in n.state.docs ==>
                  || (k in w.state.docs && n.state.docs[k] == w.state.docs[k])
                  || n.state.docs[k].version > Top(w, k))
  {
    CallsKeep(owned, keep, w, calls);
    var tx := TxOf(owned, w, calls);
    assert KeyOk(owned, w, Register(owned, w.state, w.owners, calls), tx, k);
    assert DocumentOk(owned, keep, w, k);
  }

  lemma {:induction false} VersionsRise(
    owned: set<string>, keep: Retention, ws: seq<World>, txs: seq<seq<Call>>, i: nat, j: nat, k: DocKey)
    requires RetentionOk(keep) && IsRun(owned, keep, ws, txs) && i <= j < |ws|
    ensures Top(ws[i], k) <= Top(ws[j], k)
  {
    if i < j {
      VersionsRise(owned, keep, ws, txs, i, j - 1, k);
      RunStep(owned, keep, ws, txs, j - 1, k);
    }
  }

  /** A document that has its old version again never changed in the last step. */
  lemma SameBeforeStep(
    owned: set<string>, keep: Retention, ws: seq<World>, txs: seq<seq<Call>>, i: nat, j: nat, k: DocKey)
    requires RetentionOk(keep) && IsRun(owned, keep, ws, txs) && i < j < |ws|
    requires k in ws[i].state.docs && k in ws[j].state.docs
    requires ws[i].state.docs[k].version == ws[j].state.docs[k].version
    ensures k in ws[j - 1].state.docs && ws[j - 1].state.docs[k] == ws[j].state.docs[k]
  {
    var version := ws[j].state.docs[k].version;
    VersionBelowTop(owned, keep, ws, txs, i, k);
    VersionsRise(owned, keep, ws, txs, i, j - 1, k);
    assert version <= Top(ws[j - 1], k);
    RunStep(owned, keep, ws, txs, j - 1, k);
  }

  lemma RunStep(owned: set<string>, keep: Retention, ws: seq<World>, txs: seq<seq<Call>>, i: nat, k: DocKey)
    requires RetentionOk(keep) && IsRun(owned, keep, ws, txs) && i < |txs|
    ensures Top(ws[i], k) <= Top(ws[i + 1], k)
    ensures k in ws[i + 1].state.docs ==>
      || (k in ws[i].state.docs && ws[i + 1].state.docs[k] == ws[i].state.docs[k])
      || ws[i + 1].state.docs[k].version > Top(ws[i], k)
  {
    RunOk(owned, keep, ws, txs, i);
    StepVersions(owned, keep, ws[i], txs[i], k);
  }

  lemma VersionBelowTop(
    owned: set<string>, keep: Retention, ws: seq<World>, txs: seq<seq<Call>>, i: nat, k: DocKey)
    requires RetentionOk(keep) && IsRun(owned, keep, ws, txs) && i < |ws| && k in ws[i].state.docs
    ensures ws[i].state.docs[k].version <= Top(ws[i], k)
  {
    RunOk(owned, keep, ws, txs, i);
    assert DocumentOk(owned, keep, ws[i], k);
  }

  /** Two committed states that hold a document at the same version hold the same document, and so does
      every state between them. */
  lemma {:induction false} VersionsIdentify(
    owned: set<string>, keep: Retention, ws: seq<World>, txs: seq<seq<Call>>, i: nat, m: nat, j: nat, k: DocKey)
    requires RetentionOk(keep) && IsRun(owned, keep, ws, txs) && i <= m <= j < |ws|
    requires k in ws[i].state.docs && k in ws[j].state.docs
    requires ws[i].state.docs[k].version == ws[j].state.docs[k].version
    ensures ws[i].state.docs[k] == ws[j].state.docs[k]
    ensures k in ws[m].state.docs && ws[m].state.docs[k] == ws[i].state.docs[k]
    decreases j
  {
    if i < j {
      SameBeforeStep(owned, keep, ws, txs, i, j, k);
      VersionsIdentify(owned, keep, ws, txs, i, if m < j then m else i, j - 1, k);
    }
  }

  /** A guarded write that succeeds finds exactly the document its caller saw: nothing happened to it since.  A
      restore may instead be guarded by the document's absence. */
  lemma GuardedWrite(
    owned: set<string>, keep: Retention, ws: seq<World>, txs: seq<seq<Call>>, i: nat, j: nat,
    calls: seq<Call>, scope: Scope, k: DocKey, change: string -> string, cursor: Cursor)
    requires RetentionOk(keep) && IsRun(owned, keep, ws, txs) && i <= j < |ws| && FreshInserts(ws[j].owners, calls)
    requires k in ws[i].state.docs
    requires PendingOf(TxOf(owned, ws[j], calls).pending, k) == []
    ensures var tx, seen := TxOf(owned, ws[j], calls), ws[i].state.docs[k];
            var patched := UpdateEffect(owned, scope, tx, k, Some(seen.version), change);
            var deleted := DeleteEffect(owned, scope, tx, k, Some(seen.version));
            && (patched.Put? ==>
                  && k in ws[j].state.docs && ws[j].state.docs[k] == seen
                  && patched.doc == Some(seen.(version := seen.version + 1, content := change(seen.content))))
            && (deleted.Put? ==> k in ws[j].state.docs && ws[j].state.docs[k] == seen)
    ensures var tx, seen := TxOf(owned, ws[j], calls), ws[i].state.docs[k];
            var restored := RestoreEffect(owned, scope, tx, k, cursor, Some(Some(seen.version)));
            var revived := RestoreEffect(owned, scope, tx, k, cursor, Some(None));
            && (restored.Put? ==>
                  && k in ws[j].state.docs && ws[j].state.docs[k] == seen
                  && restored.doc == Some(Doc(seen.owner, seen.created, restored.entry.version, restored.entry.content))
                  && restored.entry.version > seen.version)
            && (revived.Put? ==> k !in ws[j].state.docs)
  {
    var tx, seen := TxOf(owned, ws[j], calls), ws[i].state.docs[k];
    RunOk(owned, keep, ws, txs, j);
    CallsKeep(owned, keep, ws[j], calls);
    assert KeyOk(owned, ws[j], Register(owned, ws[j].state, ws[j].owners, calls), tx, k);
    if k in tx.docs && tx.docs[k].version == seen.version {
      VersionsIdentify(owned, keep, ws, txs, i, j, j, k);
    }
  }

  // ----- Retained history -----

  /** At every commit: the newest retained revision is the live document or its deletion, retained revisions
      are the newest ones of the full history, and no document keeps more than its limit. */
  lemma RetainedHistory(
    owned: set<string>, keep: Retention, ws: seq<World>, txs: seq<seq<Call>>, i: nat, k: DocKey)
    requires RetentionOk(keep) && IsRun(owned, keep, ws, txs) && i < |ws|
    ensures var rows, docs := RowsOf(ws[i].state.history, k), ws[i].state.docs;
            && |rows| <= keep.perDocument
            && Suffix(rows, RowsOf(ws[i].log, k))
            && (rows != [] && k in docs ==>
                  var e := rows[|rows| - 1].entry;
                  e.operation != Delete && e.version == docs[k].version && e.content == docs[k].content)
            && (rows != [] && k !in docs ==> rows[|rows| - 1].entry.operation == Delete)
  {
    RunOk(owned, keep, ws, txs, i);
    assert DocumentOk(owned, keep, ws[i], k);
  }
}
