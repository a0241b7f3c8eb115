/** What readers see of what writers wrote: reads return the stored documents, one by one or as a table, and a
    committed write is what its caller reads back. */
module DocumentReads {
  import opened Wrappers
  import opened DocumentStore
  import opened QueryHandlers
  import T = TransactionEffects

  // ----- The two reads -----

  /** What the caller may see of a document: anything of a shared table, and of an owned one what is theirs unless
      the caller is server code. */
  predicate MaySee(owned: set<string>, scope: Scope, k: DocKey, doc: Doc) {
    k.table in owned && scope.User? ==> doc.owner == Some(scope.id)
  }

  /** `collect` returns exactly the documents that `get` finds one by one, each as it is stored, and no others. */
  lemma CollectExact(owned: set<string>, scope: Scope, docs: Documents, table: string, k: DocKey)
    ensures var rows, found := VisibleDocs(owned, scope, docs, table), GetDocument(owned, scope, docs, k);
            && (k in rows <==> k.table == table && found.Some?)
            && (k in rows ==> found == Some(rows[k]))
            && (found.Some? <==> k in docs && MaySee(owned, scope, k, docs[k]))
            && (found.Some? ==> found.value == docs[k])
  {
  }

  /** The answers a handler gets are those of the tables: a run that returns has asked the questions that its own
      answers led to, and received what is stored. */
  ghost predicate Truthful(owned: set<string>, scope: Scope, docs: Documents, h: Handler, answers: seq<Answer>) {
    forall i | 0 <= i < |answers| ::
      var r := h.next(answers[..i]);
      && !r.Return? && !Unreadable(owned, scope, r.table)
      && (r.Get? ==> answers[i] == Found(GetDocument(owned, scope, docs, DocKey(r.table, r.id))))
      && (r.Collect? ==> answers[i].Rows? && IsTable(owned, scope, docs, r.table, answers[i].rows))
  }

  /** The rows are the documents of the table that the caller finds one by one. */
  ghost predicate IsTable(owned: set<string>, scope: Scope, docs: Documents, table: string, rows: Documents) {
    && (forall k :: k in rows <==> k.table == table && GetDocument(owned, scope, docs, k).Some?)
    && (forall k | k in rows :: GetDocument(owned, scope, docs, k) == Some(rows[k]))
  }

  lemma TruthfulAppend(owned: set<string>, scope: Scope, docs: Documents, h: Handler, answers: seq<Answer>)
    requires Truthful(owned, scope, docs, h, answers)
    requires !h.next(answers).Return? && !Unreadable(owned, scope, h.next(answers).table)
    ensures Truthful(owned, scope, docs, h, answers + [AnswerTo(owned, scope, docs, h.next(answers))])
  {
    var more := answers + [AnswerTo(owned, scope, docs, h.next(answers))];
    assert more[..|answers|] == answers;
    assert forall i | 0 <= i < |answers| :: more[..i] == answers[..i];
  }

  /** A run continued from truthful answers ends with truthful answers: it returns exactly if the handler returns on
      them, and throws exactly at a read it may not make or one too many. */
  lemma {:induction false} RunIsTruthful(
    owned: set<string>, scope: Scope, docs: Documents, h: Handler, answers: seq<Answer>, tracked: seq<Tracked>)
    returns (all: seq<Answer>)
    requires Truthful(owned, scope, docs, h, answers) && |answers| <= h.bound
    ensures answers <= all && |all| <= h.bound && Truthful(owned, scope, docs, h, all)
    ensures var run, r := Run(owned, scope, docs, h, answers, tracked), h.next(all);
            if run.Done? then r == Return(run.value)
            else !r.Return? && (Unreadable(owned, scope, r.table) || |all| == h.bound)
    decreases h.bound - |answers|
  {
    var r := h.next(answers);
    if r.Return? || Unreadable(owned, scope, r.table) || |answers| >= h.bound {
      all := answers;
    } else {
      var more := answers + [AnswerTo(owned, scope, docs, r)];
      TruthfulAppend(owned, scope, docs, h, answers);
      all := RunIsTruthful(owned, scope, docs, h, more, SetDependency(tracked, RequestDep(owned, scope, r)));
    }
  }

  // ----- Reading back what was written -----

  lemma {:induction false} RunCallsAppend(owned: set<string>, tx: Tx, a: seq<Call>, b: seq<Call>)
    ensures RunCalls(owned, tx, a + b) == RunCalls(owned, RunCalls(owned, tx, a), b)
  {
    if b == [] {
      assert a + b == a;
    } else {
      var n := |b| - 1;
      RunCallsAppend(owned, tx, a, b[..n]);
      assert (a + b)[..|a + b| - 1] == a + b[..n];
    }
  }

  lemma {:induction false} UnaddressedKeeps(owned: set<string>, tx: Tx, calls: seq<Call>, k: DocKey)
    requires !T.Addresses(calls, k)
    ensures var n := RunCalls(owned, tx, calls);
            (k in n.docs <==> k in tx.docs) && (k in tx.docs ==> n.docs[k] == tx.docs[k])
  {
    if calls != [] {
      var n := |calls| - 1;
      assert calls[n].key != k;
      assert !T.Addresses(calls[..n], k) by {
        assert forall i | 0 <= i < n :: calls[..n][i] == calls[i];
      }
      UnaddressedKeeps(owned, tx, calls[..n], k);
    }
  }

  /** What a transaction leaves of a document that is last addressed by one of its calls. */
  lemma LastCallDecides(
    owned: set<string>, s: State, before: seq<Call>, call: Call, after: seq<Call>, keep: Retention)
    requires !T.Addresses(after, call.key)
    ensures var tx := RunCalls(owned, Begin(s), before);
            var next := Perform(tx, call.key, EffectOf(owned, tx, call));
            var docs := Transact(owned, s, before + [call] + after, keep).docs;
            && (call.key in docs <==> call.key in next.docs)
            && (call.key in docs ==> docs[call.key] == next.docs[call.key])
  {
    var tx := RunCalls(owned, Begin(s), before);
    RunCallsAppend(owned, Begin(s), before + [call], after);
    RunCallsAppend(owned, Begin(s), before, [call]);
    assert [call][..0] == [];
    UnaddressedKeeps(owned, RunCalls(owned, Begin(s), before + [call]), after, call.key);
  }

  /** Both reads of the caller return the document, and the whole-table read does so under no other key. */
  predicate ReadsBack(owned: set<string>, scope: Scope, docs: Documents, k: DocKey, doc: Doc) {
    && GetDocument(owned, scope, docs, k) == Some(doc)
    && k in VisibleDocs(owned, scope, docs, k.table) && VisibleDocs(owned, scope, docs, k.table)[k] == doc
  }

  predicate ReadsNothing(owned: set<string>, scope: Scope, docs: Documents, k: DocKey) {
    GetDocument(owned, scope, docs, k).None? && k !in VisibleDocs(owned, scope, docs, k.table)
  }

  /** An insert under a fresh ID, by a user if the table is owned, is read back as inserted. */
  lemma InsertIsReadBack(
    owned: set<string>, s: State, before: seq<Call>, call: Call, after: seq<Call>, keep: Retention)
    requires call.op.InsertOp? && !T.Addresses(after, call.key)
    requires call.key !in RunCalls(owned, Begin(s), before).docs && (call.key.table in owned ==> call.scope.User?)
    ensures var owner := if call.key.table in owned then Some(call.scope.id) else None;
            ReadsBack(owned, call.scope, Transact(owned, s, before + [call] + after, keep).docs, call.key,
                      Doc(owner, call.op.now, 1, call.op.content))
  {
    LastCallDecides(owned, s, before, call, after, keep);
  }

  /** The guard of a write names the version its caller sees. */
  predicate GuardHolds(found: Option<Doc>, ifVersion: Option<nat>) {
    ifVersion.Some? ==> found.Some? && found.value.version == ifVersion.value
  }

  /** A patch or replacement of a document the caller sees is read back as the changed content under the next
      version; everything else about the document stays. */
  lemma UpdateIsReadBack(
    owned: set<string>, s: State, before: seq<Call>, call: Call, after: seq<Call>, keep: Retention, doc: Doc)
    requires call.op.UpdateOp? && !T.Addresses(after, call.key)
    requires !Refused(owned, call.key.table, call.scope)
    requires GetDocument(owned, call.scope, RunCalls(owned, Begin(s), before).docs, call.key) == Some(doc)
    requires GuardHolds(Some(doc), call.op.ifVersion) && doc.version < MAX_VERSION
    ensures var content := call.op.change(doc.content);
            ReadsBack(owned, call.scope, Transact(owned, s, before + [call] + after, keep).docs, call.key,
                      if content == doc.content then doc
                      else Doc(doc.owner, doc.created, doc.version + 1, content))
  {
    var tx := RunCalls(owned, Begin(s), before);
    LastCallDecides(owned, s, before, call, after, keep);
    UpdateLeaves(owned, call.scope, tx, call.key, call.op.ifVersion, call.op.change, doc);
    var content := call.op.change(doc.content);
    var next := if content == doc.content then doc else Doc(doc.owner, doc.created, doc.version + 1, content);
    StoredIsRead(owned, call.scope, Transact(owned, s, before + [call] + after, keep).docs, call.key, next);
  }

  lemma UpdateLeaves(
    owned: set<string>, scope: Scope, tx: Tx, k: DocKey, ifVersion: Option<nat>, change: string -> string, doc: Doc)
    requires !Refused(owned, k.table, scope) && GetDocument(owned, scope, tx.docs, k) == Some(doc)
    requires GuardHolds(Some(doc), ifVersion) && doc.version < MAX_VERSION
    ensures var next := Perform(tx, k, UpdateEffect(owned, scope, tx, k, ifVersion, change));
            var content := change(doc.content);
            && k in next.docs
            && next.docs[k] == if content == doc.content then doc
                               else Doc(doc.owner, doc.created, doc.version + 1, content)
    ensures Visible(owned, k.table, scope, doc.owner)
  {
  }

  lemma StoredIsRead(owned: set<string>, scope: Scope, docs: Documents, k: DocKey, doc: Doc)
    requires k in docs && docs[k] == doc && Visible(owned, k.table, scope, doc.owner)
    ensures ReadsBack(owned, scope, docs, k, doc)
  {
  }

  /** A deleted document is read by nobody. */
  lemma DeleteIsReadBack(
    owned: set<string>, s: State, before: seq<Call>, call: Call, after: seq<Call>, keep: Retention, doc: Doc,
    reader: Scope)
    requires call.op.DeleteOp? && !T.Addresses(after, call.key)
    requires !Refused(owned, call.key.table, call.scope)
    requires GetDocument(owned, call.scope, RunCalls(owned, Begin(s), before).docs, call.key) == Some(doc)
    requires GuardHolds(Some(doc), call.op.ifVersion)
    ensures ReadsNothing(owned, reader, Transact(owned, s, before + [call] + after, keep).docs, call.key)
  {
    LastCallDecides(owned, s, before, call, after, keep);
  }

  // ----- Refused writes -----

  /** A refused call leaves no trace: the transaction is the one without it. */
  lemma RefusedLeavesNoTrace(
    owned: set<string>, s: State, before: seq<Call>, call: Call, after: seq<Call>, keep: Retention)
    requires EffectOf(owned, RunCalls(owned, Begin(s), before), call).Skip?
    ensures Transact(owned, s, before + [call] + after, keep) == Transact(owned, s, before + after, keep)
  {
    RunCallsAppend(owned, Begin(s), before + [call], after);
    RunCallsAppend(owned, Begin(s), before, [call]);
    RunCallsAppend(owned, Begin(s), before, after);
    assert [call][..0] == [];
  }

  /** When patches, replacements and deletions are refused, and why. */
  lemma RefusalsExact(
    owned: set<string>, scope: Scope, tx: Tx, k: DocKey, ifVersion: Option<nat>, change: string -> string)
    ensures var found := GetDocument(owned, scope, tx.docs, k);
            var denied := k.table in owned && scope == Anonymous;
            var update, delete := UpdateEffect(owned, scope, tx, k, ifVersion, change),
                                  DeleteEffect(owned, scope, tx, k, ifVersion);
            && (update == Skip(Denied) <==> denied) && (delete == Skip(Denied) <==> denied)
            && (update == Skip(Conflict) <==> !denied && !GuardHolds(found, ifVersion))
            && (delete == Skip(Conflict) <==> !denied && !GuardHolds(found, ifVersion))
            && (update == Skip(Missing) <==> !denied && found.None? && ifVersion.None?)
            && (delete == Skip(Missing) <==> !denied && found.None? && ifVersion.None?)
            && (delete.Put? <==> !denied && found.Some? && GuardHolds(found, ifVersion))
            && (update == Skip(Unchanged) <==>
                  && !denied && found.Some? && GuardHolds(found, ifVersion)
                  && change(found.value.content) == found.value.content)
            && (update == Skip(Exhausted) <==>
                  && !denied && found.Some? && GuardHolds(found, ifVersion)
                  && change(found.value.content) != found.value.content
                  && found.value.version >= 9_007_199_254_740_991)
            && (update.Put? ==> !denied && found.Some? && GuardHolds(found, ifVersion))
  {
  }
}
