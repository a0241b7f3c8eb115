/** Several processes on one database: commits with journal pruning, polling, queries and live subscriptions,
    interleaved in any order.  Reading the target revision and reading the journal are separate steps, and so
    is each notification. */
module Cluster {
  import opened Wrappers
  import opened DocumentStore
  import opened ChangeMatcher
  import opened ChangeJournal
  import opened QueryHandlers
  import opened QueryCache
  import opened CacheCoherence
  import H = DocumentHistory

  /** The shared database and its processes.  `docs[n]` are the tables after revision n and `log` the records
      announced since the beginning; the journal has lost every revision before `floor`. */
  datatype System = System(
    world: H.World, docs: seq<Documents>, log: Log, floor: nat, procs: map<nat, Process>)

  function Revision(g: System): nat {
    g.world.state.revision
  }

  /** The tables as they were after revision n. */
  function TablesAt(g: System, n: nat): Documents {
    if n < |g.docs| then g.docs[n] else g.world.state.docs
  }

  const EMPTY_WORLD: H.World := H.World(State(map[], map[], 0, []), map[], map[], map[])

  const START: System := System(EMPTY_WORLD, [map[]], [], 1, map[])

  datatype Event =
    | Open(id: nat)
    | Commit(id: nat, calls: seq<Call>)
    | BeginSync(id: nat)
    | FinishSync(id: nat)
    | NotifyNext(id: nat)
    | Query(id: nat, query: QueryCall)
    | SubscribeTo(id: nat, query: QueryCall, listener: nat)
    | UnsubscribeFrom(id: nat, handle: Handle)

  // ----- Steps -----

  /** A read transaction succeeds only if no other process has committed since the last synchronization. */
  function Snapshot(g: System, p: Process): Option<Documents> {
    if p.version == Revision(g) then Some(g.world.state.docs) else None
  }

  function CommitShared(app: App, keep: Retention, g: System, calls: seq<Call>): System {
    var tx, next := H.TxOf(app.owned, g.world, calls), H.Next(app.owned, keep, g.world, calls);
    if tx.records == [] then g.(world := next)
    else
      System(next, g.docs + [next.state.docs], g.log + [tx.records],
             Max(g.floor, Cutoff(Revision(g) + 1, keep.changes)), g.procs)
  }

  /** What a synchronization finds in the journal as it is now. */
  function JournalChange(g: System, version: nat, target: nat): Change {
    var rows := Select(g.world.state.journal, version, target);
    Change(target, RecordsOf(rows), !Complete(rows, |rows|, version, target))
  }

  function Put(g: System, id: nat, p: Process): System {
    g.(procs := g.procs[id := p])
  }

  predicate Enabled(g: System, e: Event) {
    match e
    case Open(id) => id !in g.procs
    case Commit(id, calls) => id in g.procs && Idle(g.procs[id]) && H.FreshInserts(g.world.owners, calls)
    case BeginSync(id) => id in g.procs && Idle(g.procs[id])
    case FinishSync(id) => id in g.procs && g.procs[id].target.Some?
    case NotifyNext(id) => id in g.procs && g.procs[id].target.None? && g.procs[id].queue != []
    case Query(id, query) => id in g.procs && Idle(g.procs[id]) && CallOk(query)
    case SubscribeTo(id, query, _) => id in g.procs && Idle(g.procs[id]) && CallOk(query)
    case UnsubscribeFrom(id, handle) => id in g.procs && Idle(g.procs[id]) && handle in g.procs[id].handles
  }

  /** One step; an event that is not enabled does nothing. */
  function Step(app: App, keep: Retention, g: System, e: Event): System {
    if !Enabled(g, e) then g
    else
      match e
      case Open(id) => Put(g, id, NewProcess(Revision(g)))
      case Commit(id, calls) =>
        var next := CommitShared(app, keep, g, calls);
        // A commit that changed something continues with its own synchronization.
        if Revision(next) == Revision(g) then next
        else Put(next, id, g.procs[id].(target := Some(Revision(next))))
      case BeginSync(id) =>
        if g.procs[id].version == Revision(g) then g
        else Put(g, id, g.procs[id].(target := Some(Revision(g))))
      case FinishSync(id) =>
        var p := g.procs[id];
        Put(g, id, Publish(p, JournalChange(g, p.version, p.target.value)))
      case NotifyNext(id) => Put(g, id, Notify(app, g.procs[id], Snapshot(g, g.procs[id])))
      case Query(id, query) => Put(g, id, InvokeQuery(app, g.procs[id], query, Snapshot(g, g.procs[id])).0)
      case SubscribeTo(id, query, listener) =>
        Put(g, id, Subscribe(app, g.procs[id], query, listener, Snapshot(g, g.procs[id])))
      case UnsubscribeFrom(id, handle) => Put(g, id, Unsubscribe(g.procs[id], handle))
  }

  function RunEvents(app: App, keep: Retention, events: seq<Event>): System {
    if events == [] then START
    else Step(app, keep, RunEvents(app, keep, events[..|events| - 1]), events[|events| - 1])
  }

  // ----- The shared invariant -----

  ghost predicate SharedOk(app: App, keep: Retention, g: System) {
    && H.WorldOk(app.owned, keep, g.world)
    && Revision(g) == |g.log| && |g.docs| == |g.log| + 1 && g.docs[|g.log|] == g.world.state.docs
    && NoEmptyRevision(g.log) && 1 <= g.floor <= |g.log| + 1
    && g.world.state.journal == LogRows(g.log, g.floor, |g.log|)
    && forall i | 0 <= i < |g.log| :: Covers(g.docs[i], g.docs[i + 1], g.log[i])
  }

  ghost predicate MemberOk(app: App, g: System, p: Process)
    requires |g.docs| == |g.log| + 1
  {
    && p.version <= |g.log|
    && (p.target.Some? ==> p.version < p.target.value <= |g.log| && p.queue == [])
    && ProcessOk(app, g.docs, g.docs[p.version], p)
  }

  ghost predicate SystemOk(app: App, keep: Retention, g: System) {
    SharedOk(app, keep, g) && forall id | id in g.procs :: MemberOk(app, g, g.procs[id])
  }

  // ----- Commits -----

  /** A transaction announces every document it changes, under its owner. */
  lemma TransactionCovers(owned: set<string>, keep: Retention, w: H.World, calls: seq<Call>)
    requires H.WorldOk(owned, keep, w) && H.FreshInserts(w.owners, calls)
    ensures Covers(w.state.docs, H.TxOf(owned, w, calls).docs, H.TxOf(owned, w, calls).records)
  {
    var tx, reg := H.TxOf(owned, w, calls), H.Register(owned, w.state, w.owners, calls);
    H.CallsKeep(owned, keep, w, calls);
    forall k ensures SameDoc(w.state.docs, tx.docs, k) ||
                     (AnnouncedIn(tx.records, w.state.docs, k) && AnnouncedIn(tx.records, tx.docs, k))
    {
      assert H.KeyOk(owned, w, reg, tx, k) && H.DocumentOk(owned, keep, w, k);
      KeyCovered(owned, w, reg, tx, k);
    }
  }

  lemma KeyCovered(owned: set<string>, w: H.World, reg: map<DocKey, Option<string>>, tx: Tx, k: DocKey)
    requires H.KeyOk(owned, w, reg, tx, k) && H.LiveOk(w, k)
    ensures SameDoc(w.state.docs, tx.docs, k) ||
            (AnnouncedIn(tx.records, w.state.docs, k) && AnnouncedIn(tx.records, tx.docs, k))
  {
    if PendingOf(tx.pending, k) != [] {
      var i :| 0 <= i < |tx.records| && tx.records[i].key == k;
      assert k in reg && tx.records[i].owner == reg[k];
      if k in w.state.docs { assert w.state.docs[k].owner == reg[k]; }
    }
  }

  lemma NothingAnnounced(a: Documents, b: Documents)
    requires Covers(a, b, [])
    ensures a == b
  {
    forall k ensures SameDoc(a, b, k) {}
    assert forall k | k in a :: SameDoc(a, b, k);
    assert forall k | k in b :: SameDoc(a, b, k);
  }

  lemma CommitSharedOk(app: App, keep: Retention, g: System, calls: seq<Call>)
    requires RetentionOk(keep) && SharedOk(app, keep, g) && H.FreshInserts(g.world.owners, calls)
    ensures var n := CommitShared(app, keep, g, calls);
            && SharedOk(app, keep, n) && g.docs <= n.docs && n.procs == g.procs
            && Revision(g) <= Revision(n)
  {
    var tx, n := H.TxOf(app.owned, g.world, calls), CommitShared(app, keep, g, calls);
    H.NextOk(app.owned, keep, g.world, calls);
    TransactionCovers(app.owned, keep, g.world, calls);
    if tx.records == [] {
      NothingAnnounced(g.world.state.docs, tx.docs);
    } else {
      CommitAdds(app, keep, g, tx, n.world);
    }
  }

  /** A transaction that announces something adds its tables and records as one revision. */
  lemma CommitAdds(app: App, keep: Retention, g: System, tx: Tx, next: H.World)
    requires RetentionOk(keep) && SharedOk(app, keep, g) && tx.records != []
    requires H.WorldOk(app.owned, keep, next) && next.state == DocumentStore.Commit(g.world.state, tx, keep)
    requires Covers(g.world.state.docs, tx.docs, tx.records)
    ensures var n := System(next, g.docs + [next.state.docs], g.log + [tx.records],
                            Max(g.floor, Cutoff(Revision(g) + 1, keep.changes)), g.procs);
            SharedOk(app, keep, n) && g.docs <= n.docs && Revision(g) <= Revision(n)
  {
    CommitJournal(g.log, g.floor, tx.records, Cutoff(Revision(g) + 1, keep.changes));
    CoversOneMore(g.docs, g.log, tx.docs, tx.records);
  }

  /** The revisions so far and one more. */
  lemma CoversOneMore(docs: seq<Documents>, log: Log, next: Documents, records: seq<Record>)
    requires |docs| == |log| + 1 && forall i | 0 <= i < |log| :: Covers(docs[i], docs[i + 1], log[i])
    requires Covers(docs[|log|], next, records)
    ensures var more, longer := docs + [next], log + [records];
            forall i | 0 <= i < |longer| :: Covers(more[i], more[i + 1], longer[i])
  {
    var more, longer := docs + [next], log + [records];
    forall i | 0 <= i < |longer| ensures Covers(more[i], more[i + 1], longer[i]) {
      if i < |log| { assert Covers(docs[i], docs[i + 1], log[i]); }
    }
  }

  // ----- Synchronization -----

  lemma {:induction false} CoversRange(g: System, from: nat, target: nat)
    requires |g.docs| == |g.log| + 1 && from <= target <= |g.log|
    requires forall i | 0 <= i < |g.log| :: Covers(g.docs[i], g.docs[i + 1], g.log[i])
    ensures Covers(g.docs[from], g.docs[target], LogRecords(g.log, from, target))
    decreases target
  {
    if from < target {
      CoversRange(g, from, target - 1);
      assert Covers(g.docs[target - 1], g.docs[target], g.log[target - 1]);
      CoversAppend(g.docs[from], g.docs[target - 1], g.docs[target],
                   LogRecords(g.log, from, target - 1), g.log[target - 1]);
    }
  }

  /** A synchronization reports exactly the records of the revisions it catches up with, or asks for full
      invalidation, whatever was committed and pruned after it read its target. */
  lemma SynchronizationReports(app: App, keep: Retention, g: System, version: nat, target: nat)
    requires SharedOk(app, keep, g) && version <= target <= Revision(g)
    ensures var change := JournalChange(g, version, target);
            && (change.all || change.records == LogRecords(g.log, version, target))
            && (change.all <==> version + 1 < g.floor && version < target)
            && Reports(g.docs[version], g.docs[target], change)
  {
    SynchronizationComplete(g.log, g.floor, |g.log|, version, target);
    CoversRange(g, version, target);
  }

  // ----- Every step keeps the system coherent -----

  lemma OpenedOk(app: App, past: seq<Documents>, docs: Documents, version: nat)
    ensures ProcessOk(app, past, docs, NewProcess(version))
  {
  }

  /** Members that do not take part in a step are not disturbed by a commit. */
  lemma MemberStays(app: App, g: System, n: System, p: Process)
    requires |g.docs| == |g.log| + 1 && |n.docs| == |n.log| + 1 && g.docs <= n.docs
    requires MemberOk(app, g, p)
    ensures MemberOk(app, n, p)
  {
    assert n.docs[p.version] == g.docs[p.version];
    PastGrows(app, g.docs, n.docs, g.docs[p.version], p);
  }

  lemma PutOk(app: App, keep: Retention, g: System, id: nat, p: Process)
    requires SystemOk(app, keep, g) && MemberOk(app, g, p)
    ensures SystemOk(app, keep, Put(g, id, p))
  {
    var n := Put(g, id, p);
    forall i | i in n.procs ensures MemberOk(app, n, n.procs[i]) {
      assert i != id ==> MemberOk(app, g, g.procs[i]);
    }
  }

  lemma CommitStepOk(app: App, keep: Retention, g: System, id: nat, calls: seq<Call>)
    requires RetentionOk(keep) && SystemOk(app, keep, g) && Enabled(g, Commit(id, calls))
    ensures SystemOk(app, keep, Step(app, keep, g, Commit(id, calls)))
    ensures g.docs <= Step(app, keep, g, Commit(id, calls)).docs
  {
    var n := CommitShared(app, keep, g, calls);
    CommitSharedOk(app, keep, g, calls);
    forall i | i in n.procs ensures MemberOk(app, n, n.procs[i]) {
      assert MemberOk(app, g, g.procs[i]);
      MemberStays(app, g, n, g.procs[i]);
    }
    if Revision(n) != Revision(g) {
      var p := g.procs[id].(target := Some(Revision(n)));
      assert MemberOk(app, n, g.procs[id]);
      TargetKeeps(app, n.docs, n.docs[p.version], g.procs[id], Some(Revision(n)));
      PutOk(app, keep, n, id, p);
    }
  }

  /** The invariant does not look at the pending target. */
  lemma TargetKeeps(app: App, past: seq<Documents>, docs: Documents, p: Process, target: Option<nat>)
    requires ProcessOk(app, past, docs, p)
    ensures ProcessOk(app, past, docs, p.(target := target))
  {
    forall k | k in p.subs ensures SubOk(app, past, docs, p.(target := target), k, p.subs[k]) {
      assert SubOk(app, past, docs, p, k, p.subs[k]);
    }
  }

  lemma FinishSyncOk(app: App, keep: Retention, g: System, id: nat)
    requires SystemOk(app, keep, g) && Enabled(g, FinishSync(id))
    ensures SystemOk(app, keep, Step(app, keep, g, FinishSync(id)))
  {
    var p := g.procs[id];
    assert MemberOk(app, g, p);
    SynchronizationReports(app, keep, g, p.version, p.target.value);
    PublishKeeps(
      app, g.docs, g.docs[p.version], g.docs[p.target.value], p, JournalChange(g, p.version, p.target.value));
    PutOk(app, keep, g, id, Publish(p, JournalChange(g, p.version, p.target.value)));
  }

  predicate SamePlace(p: Process, q: Process) {
    q.version == p.version && q.target == p.target && (p.queue == [] ==> q.queue == [])
  }

  lemma InvokeSamePlace(app: App, p: Process, call: QueryCall, snapshot: Option<Documents>)
    ensures SamePlace(p, InvokeQuery(app, p, call, snapshot).0)
  {
  }

  lemma NotifySamePlace(app: App, p: Process, snapshot: Option<Documents>)
    requires p.queue != []
    ensures SamePlace(p, Notify(app, p, snapshot))
  {
  }

  lemma SubscribeSamePlace(app: App, p: Process, call: QueryCall, listener: nat, snapshot: Option<Documents>)
    ensures SamePlace(p, Subscribe(app, p, call, listener, snapshot))
  {
    InvokeSamePlace(app, AddSubscription(p, call), call, snapshot);
  }

  lemma UnsubscribeSamePlace(p: Process, h: Handle)
    ensures SamePlace(p, Unsubscribe(p, h))
  {
  }

  /** A process that stays at its version and is still coherent with it is a member as before. */
  lemma ReplaceOk(app: App, keep: Retention, g: System, id: nat, q: Process)
    requires SystemOk(app, keep, g) && id in g.procs && SamePlace(g.procs[id], q)
    requires g.procs[id].version <= |g.log| ==> ProcessOk(app, g.docs, g.docs[g.procs[id].version], q)
    ensures SystemOk(app, keep, Put(g, id, q))
  {
    assert MemberOk(app, g, g.procs[id]);
    PutOk(app, keep, g, id, q);
  }

  lemma NotifyStepOk(app: App, keep: Retention, g: System, id: nat)
    requires SystemOk(app, keep, g) && Enabled(g, NotifyNext(id))
    ensures SystemOk(app, keep, Put(g, id, Notify(app, g.procs[id], Snapshot(g, g.procs[id]))))
  {
    var p := g.procs[id];
    assert MemberOk(app, g, p);
    NotifyKeeps(app, g.docs, g.docs[p.version], p, Snapshot(g, p));
    NotifySamePlace(app, p, Snapshot(g, p));
    ReplaceOk(app, keep, g, id, Notify(app, p, Snapshot(g, p)));
  }

  lemma QueryStepOk(app: App, keep: Retention, g: System, id: nat, query: QueryCall)
    requires SystemOk(app, keep, g) && Enabled(g, Query(id, query))
    ensures SystemOk(app, keep, Put(g, id, InvokeQuery(app, g.procs[id], query, Snapshot(g, g.procs[id])).0))
  {
    var p := g.procs[id];
    assert MemberOk(app, g, p);
    QueryKeeps(app, g.docs, g.docs[p.version], p, query, Snapshot(g, p));
    InvokeSamePlace(app, p, query, Snapshot(g, p));
    ReplaceOk(app, keep, g, id, InvokeQuery(app, p, query, Snapshot(g, p)).0);
  }

  lemma SubscribeStepOk(app: App, keep: Retention, g: System, id: nat, query: QueryCall, listener: nat)
    requires SystemOk(app, keep, g) && Enabled(g, SubscribeTo(id, query, listener))
    ensures SystemOk(app, keep, Put(g, id, Subscribe(app, g.procs[id], query, listener, Snapshot(g, g.procs[id]))))
  {
    var p := g.procs[id];
    assert MemberOk(app, g, p);
    SubscribeKeeps(app, g.docs, g.docs[p.version], p, query, listener, Snapshot(g, p));
    SubscribeSamePlace(app, p, query, listener, Snapshot(g, p));
    ReplaceOk(app, keep, g, id, Subscribe(app, p, query, listener, Snapshot(g, p)));
  }

  lemma UnsubscribeStepOk(app: App, keep: Retention, g: System, id: nat, h: Handle)
    requires SystemOk(app, keep, g) && Enabled(g, UnsubscribeFrom(id, h))
    ensures SystemOk(app, keep, Put(g, id, Unsubscribe(g.procs[id], h)))
  {
    var p := g.procs[id];
    assert MemberOk(app, g, p);
    UnsubscribeKeeps(app, g.docs, g.docs[p.version], p, h);
    UnsubscribeSamePlace(p, h);
    ReplaceOk(app, keep, g, id, Unsubscribe(p, h));
  }

  /** Only commits change the database; they add a revision to it. */
  lemma SharedStepOk(app: App, keep: Retention, g: System, e: Event)
    requires RetentionOk(keep) && SharedOk(app, keep, g)
    ensures SharedOk(app, keep, Step(app, keep, g, e)) && g.docs <= Step(app, keep, g, e).docs
  {
    if e.Commit? && Enabled(g, e) {
      CommitSharedOk(app, keep, g, e.calls);
    }
  }

  lemma StepOk(app: App, keep: Retention, g: System, e: Event)
    requires RetentionOk(keep) && SystemOk(app, keep, g)
    ensures SystemOk(app, keep, Step(app, keep, g, e))
  {
    if Enabled(g, e) {
      match e
      case Open(id) =>
        OpenedOk(app, g.docs, g.docs[Revision(g)], Revision(g));
        PutOk(app, keep, g, id, NewProcess(Revision(g)));
      case Commit(id, calls) => CommitStepOk(app, keep, g, id, calls);
      case BeginSync(id) =>
        var p := g.procs[id];
        assert MemberOk(app, g, p);
        if p.version != Revision(g) {
          TargetKeeps(app, g.docs, g.docs[p.version], p, Some(Revision(g)));
          PutOk(app, keep, g, id, p.(target := Some(Revision(g))));
        }
      case FinishSync(id) => FinishSyncOk(app, keep, g, id);
      case NotifyNext(id) => NotifyStepOk(app, keep, g, id);
      case Query(id, query) => QueryStepOk(app, keep, g, id, query);
      case SubscribeTo(id, query, listener) => SubscribeStepOk(app, keep, g, id, query, listener);
      case UnsubscribeFrom(id, handle) => UnsubscribeStepOk(app, keep, g, id, handle);
    }
  }

  lemma EmptyWorldOk(app: App, keep: Retention)
    ensures SystemOk(app, keep, START)
  {
    forall k ensures H.DocumentOk(app.owned, keep, EMPTY_WORLD, k) {}
  }

  /** Every run keeps the database as it should be, and only adds to its revisions. */
  lemma {:induction false} RunShared(app: App, keep: Retention, events: seq<Event>)
    requires RetentionOk(keep)
    ensures SharedOk(app, keep, RunEvents(app, keep, events))
    ensures events != [] ==>
              RunEvents(app, keep, events[..|events| - 1]).docs <= RunEvents(app, keep, events).docs
  {
    if events == [] {
      EmptyWorldOk(app, keep);
    } else {
      var front := events[..|events| - 1];
      RunShared(app, keep, front);
      SharedStepOk(app, keep, RunEvents(app, keep, front), events[|events| - 1]);
    }
  }

  /** Every run keeps every process coherent. */
  lemma {:induction false} RunEventsOk(app: App, keep: Retention, events: seq<Event>)
    requires RetentionOk(keep)
    ensures SystemOk(app, keep, RunEvents(app, keep, events))
  {
    if events == [] {
      EmptyWorldOk(app, keep);
    } else {
      var front := events[..|events| - 1];
      RunEventsOk(app, keep, front);
      StepOk(app, keep, RunEvents(app, keep, front), events[|events| - 1]);
    }
  }

  // ----- Main results: every reachable state of every interleaving -----

  /** A query served by an idle process, from the cache or not, returns what its handler computes on the tables
      as they were at the revision the process last synchronized with.  A query served from the cache must not have
      lost a read on the revisions of the run. */
  lemma ServedQueriesAreCurrent(app: App, keep: Retention, events: seq<Event>, id: nat, call: QueryCall)
    requires RetentionOk(keep) && CallOk(call)
    requires id in RunEvents(app, keep, events).procs && Idle(RunEvents(app, keep, events).procs[id])
    requires Cached(RunEvents(app, keep, events).procs[id], KeyOf(call)) ==>
               ReadsKept(app, RunEvents(app, keep, events).docs, call)
    ensures var g := RunEvents(app, keep, events);
            var p := g.procs[id];
            var served := InvokeQuery(app, p, call, Snapshot(g, p)).1;
            && p.version <= Revision(g) && TablesAt(g, Revision(g)) == g.world.state.docs
            && (Cached(p, KeyOf(call)) ==> served.Some?)
            && (served.Some? ==> Evaluate(app, TablesAt(g, p.version), call).Done?
                                 && served.value == Evaluate(app, TablesAt(g, p.version), call).value)
  {
    var g := RunEvents(app, keep, events);
    RunEventsOk(app, keep, events);
    assert MemberOk(app, g, g.procs[id]);
    InvokeServes(app, g.docs, g.docs[g.procs[id].version], g.procs[id], call, Snapshot(g, g.procs[id]));
  }

  /** In every reachable state the journal holds exactly the newest `changes` revisions. */
  lemma {:induction false} FloorExact(app: App, keep: Retention, events: seq<Event>)
    requires RetentionOk(keep)
    ensures var g := RunEvents(app, keep, events);
            g.floor == if Revision(g) >= keep.changes then Revision(g) - keep.changes + 1 else 1
  {
    if events != [] {
      FloorExact(app, keep, events[..|events| - 1]);
      FloorStep(app, keep, RunEvents(app, keep, events[..|events| - 1]), events[|events| - 1]);
    }
  }

  lemma FloorStep(app: App, keep: Retention, g: System, e: Event)
    requires RetentionOk(keep)
    requires g.floor == if Revision(g) >= keep.changes then Revision(g) - keep.changes + 1 else 1
    ensures var n := Step(app, keep, g, e);
            n.floor == if Revision(n) >= keep.changes then Revision(n) - keep.changes + 1 else 1
  {
  }

  /** A process that is no more than `changes` revisions behind is told exactly what changed, and need not start
      over. */
  lemma RecentIsReported(app: App, keep: Retention, events: seq<Event>, version: nat, target: nat)
    requires RetentionOk(keep)
    requires version <= target <= Revision(RunEvents(app, keep, events))
    requires Revision(RunEvents(app, keep, events)) - version <= keep.changes
    ensures var g := RunEvents(app, keep, events);
            && target <= |g.log|
            && JournalChange(g, version, target) == Change(target, LogRecords(g.log, version, target), false)
  {
    FloorExact(app, keep, events);
    RunEventsOk(app, keep, events);
    SynchronizationReports(app, keep, RunEvents(app, keep, events), version, target);
  }

  function StepAll(app: App, keep: Retention, g: System, events: seq<Event>): System
    decreases |events|
  {
    if events == [] then g else StepAll(app, keep, Step(app, keep, g, events[0]), events[1..])
  }

  lemma {:induction false} OthersLeaveAlone(app: App, keep: Retention, g: System, events: seq<Event>, id: nat)
    requires RetentionOk(keep) && SharedOk(app, keep, g) && id in g.procs
    requires forall i | 0 <= i < |events| :: events[i].id != id
    ensures var n := StepAll(app, keep, g, events);
            id in n.procs && n.procs[id] == g.procs[id] && g.docs <= n.docs
    decreases |events|
  {
    if events != [] {
      SharedStepOk(app, keep, g, events[0]);
      if events[0].Commit? && Enabled(g, events[0]) {
        CommitSharedOk(app, keep, g, events[0].calls);
      }
      OthersLeaveAlone(app, keep, Step(app, keep, g, events[0]), events[1..], id);
    }
  }

  /** After a synchronization begun at revision r has finished, the process is at revision r, whatever other
      processes did in between: a query that follows sees everything committed before it was asked. */
  lemma SynchronizationCatchesUp(app: App, keep: Retention, g: System, id: nat, others: seq<Event>)
    requires RetentionOk(keep) && SharedOk(app, keep, g) && Enabled(g, BeginSync(id))
    requires forall i | 0 <= i < |others| :: others[i].id != id
    ensures var n := StepAll(app, keep, Step(app, keep, g, BeginSync(id)), others);
            var done := Step(app, keep, n, FinishSync(id));
            && id in done.procs && done.procs[id].version == Revision(g)
            && g.docs <= done.docs
  {
    SharedStepOk(app, keep, g, BeginSync(id));
    var begun := Step(app, keep, g, BeginSync(id));
    OthersLeaveAlone(app, keep, begun, others, id);
    FinishReaches(app, keep, StepAll(app, keep, begun, others), id);
  }

  lemma FinishReaches(app: App, keep: Retention, n: System, id: nat)
    requires id in n.procs
    ensures var done := Step(app, keep, n, FinishSync(id));
            && id in done.procs && done.docs == n.docs
            && done.procs[id].version
               == if n.procs[id].target.Some? then n.procs[id].target.value else n.procs[id].version
  {
  }

  // ----- Both runners, and queries after a synchronization -----

  lemma {:induction false} RunSplit(app: App, keep: Retention, events: seq<Event>, later: seq<Event>)
    ensures RunEvents(app, keep, events + later) == StepAll(app, keep, RunEvents(app, keep, events), later)
    decreases |later|
  {
    if later == [] {
      assert events + [] == events;
    } else {
      var longer := events + [later[0]];
      assert longer[..|longer| - 1] == events;
      assert longer + later[1..] == events + later;
      RunSplit(app, keep, longer, later[1..]);
    }
  }

  lemma OtherStep(app: App, keep: Retention, g: System, e: Event, id: nat)
    requires id in g.procs && e.id != id
    ensures id in Step(app, keep, g, e).procs && Step(app, keep, g, e).procs[id] == g.procs[id]
  {
    if e.Commit? && Enabled(g, e) {
      assert CommitShared(app, keep, g, e.calls).procs == g.procs;
    }
  }

  lemma OwnStepForward(app: App, keep: Retention, g: System, e: Event)
    requires e.id in g.procs && Enabled(g, e)
    requires g.procs[e.id].target.Some? ==> g.procs[e.id].version < g.procs[e.id].target.value
    ensures var n := Step(app, keep, g, e);
            e.id in n.procs && n.procs[e.id].version >= g.procs[e.id].version
  {
    var p := g.procs[e.id];
    match e
    case NotifyNext(_) => NotifySamePlace(app, p, Snapshot(g, p));
    case Query(_, query) => InvokeSamePlace(app, p, query, Snapshot(g, p));
    case SubscribeTo(_, query, listener) => SubscribeSamePlace(app, p, query, listener, Snapshot(g, p));
    case UnsubscribeFrom(_, handle) => UnsubscribeSamePlace(p, handle);
    case _ =>
  }

  /** A process never goes back to an older revision. */
  lemma StepForward(app: App, keep: Retention, g: System, e: Event, id: nat)
    requires SystemOk(app, keep, g) && id in g.procs
    ensures var n := Step(app, keep, g, e);
            && id in n.procs && n.procs[id].version >= g.procs[id].version
  {
    assert MemberOk(app, g, g.procs[id]);
    if e.id != id {
      OtherStep(app, keep, g, e, id);
    } else if Enabled(g, e) {
      OwnStepForward(app, keep, g, e);
    }
  }

  lemma {:induction false} RunForward(app: App, keep: Retention, g: System, later: seq<Event>, id: nat)
    requires RetentionOk(keep) && SystemOk(app, keep, g) && id in g.procs
    ensures var n := StepAll(app, keep, g, later);
            && SystemOk(app, keep, n) && g.docs <= n.docs
            && id in n.procs && n.procs[id].version >= g.procs[id].version
    decreases |later|
  {
    if later != [] {
      StepOk(app, keep, g, later[0]);
      SharedStepOk(app, keep, g, later[0]);
      StepForward(app, keep, g, later[0], id);
      RunForward(app, keep, Step(app, keep, g, later[0]), later[1..], id);
    }
  }

  /** End to end: a query asked after a synchronization has finished is answered as on the tables of a revision at least
      as new as the newest one when the synchronization began, whatever others and the process itself did in
      between. */
  lemma QueriesSeeWhatWasCommitted(
    app: App, keep: Retention, before: seq<Event>, id: nat, others: seq<Event>, later: seq<Event>, call: QueryCall)
    requires RetentionOk(keep) && CallOk(call) && Enabled(RunEvents(app, keep, before), BeginSync(id))
    requires forall i | 0 <= i < |others| :: others[i].id != id
    requires var g := RunEvents(app, keep, before + [BeginSync(id)] + others + [FinishSync(id)] + later);
             && id in g.procs && Idle(g.procs[id])
             && (Cached(g.procs[id], KeyOf(call)) ==> ReadsKept(app, g.docs, call))
    ensures var g := RunEvents(app, keep, before + [BeginSync(id)] + others + [FinishSync(id)] + later);
            var p := g.procs[id];
            var served := InvokeQuery(app, p, call, Snapshot(g, p)).1;
            && Revision(RunEvents(app, keep, before)) <= p.version <= Revision(g)
            && (served.Some? ==> Evaluate(app, TablesAt(g, p.version), call).Done?
                                 && served.value == Evaluate(app, TablesAt(g, p.version), call).value)
  {
    var g0 := RunEvents(app, keep, before);
    var whole := before + [BeginSync(id)] + others + [FinishSync(id)] + later;
    RunEventsOk(app, keep, before);
    SynchronizationCatchesUp(app, keep, g0, id, others);
    RunPieces(app, keep, before, id, others);
    var done := before + [BeginSync(id)] + others + [FinishSync(id)];
    RunEventsOk(app, keep, done);
    RunSplit(app, keep, done, later);
    RunForward(app, keep, RunEvents(app, keep, done), later, id);
    assert done + later == whole;
    ServedQueriesAreCurrent(app, keep, whole, id, call);
  }

  lemma RunPieces(app: App, keep: Retention, before: seq<Event>, id: nat, others: seq<Event>)
    ensures RunEvents(app, keep, before + [BeginSync(id)] + others + [FinishSync(id)])
         == Step(app, keep,
                 StepAll(app, keep, Step(app, keep, RunEvents(app, keep, before), BeginSync(id)), others),
                 FinishSync(id))
  {
    var begun := before + [BeginSync(id)];
    var done := begun + others + [FinishSync(id)];
    assert begun[..|begun| - 1] == before;
    assert done[..|done| - 1] == begun + others;
    RunSplit(app, keep, begun, others);
  }

  // ----- Registered listeners -----

  /** A registered listener of a subscription that has missed no notification is up to date with its idle process, if
      the call lost no read on the revisions of the run. */
  lemma RegisteredAreCurrent(app: App, keep: Retention, g: System, id: nat, key: string)
    requires SystemOk(app, keep, g) && id in g.procs && Idle(g.procs[id])
    requires key in g.procs[id].subs && !g.procs[id].subs[key].missed
    requires ReadsKept(app, g.docs, g.procs[id].subs[key].call)
    ensures var p := g.procs[id];
            var sub := p.subs[key];
            var o := Evaluate(app, TablesAt(g, p.version), sub.call);
            && CallOk(sub.call) && KeyOf(sub.call) == key
            && o.Done? && forall l | l in sub.listeners :: sub.listeners[l] == o.value
  {
    assert MemberOk(app, g, g.procs[id]);
    assert SubOk(app, g.docs, g.docs[g.procs[id].version], g.procs[id], key, g.procs[id].subs[key]);
  }

  // ----- When a notification is missed -----

  /** A notification is missed exactly when its entry is not cached and either another process has committed
      since the change was published, or the handler throws. */
  lemma MissedExactly(app: App, keep: Retention, g: System, id: nat)
    requires SystemOk(app, keep, g) && Enabled(g, NotifyNext(id))
    requires g.procs[id].queue[0] in g.procs[id].subs
    ensures var p := g.procs[id];
            var key, n := p.queue[0], Step(app, keep, g, NotifyNext(id)).procs[id];
            && key in n.subs
            && (n.subs[key].missed <==>
                  && !Cached(p, KeyOf(p.subs[key].call))
                  && (p.version != Revision(g) || Evaluate(app, g.world.state.docs, p.subs[key].call).Threw?))
            && (n.subs[key].missed ==> n.subs[key].listeners == p.subs[key].listeners)
  {
    assert MemberOk(app, g, g.procs[id]);
  }

  /** A missed notification is not repaired by later changes the subscription does not depend on: the process
      becomes idle and current while the listeners keep their old value. */
  lemma MissedStaysMissed(app: App, p: Process, key: string, change: Change)
    requires p.queue == [key] && key in p.subs && KeyOf(p.subs[key].call) == key && !Cached(p, key)
    requires OrderOk(p.order, p.cache.Keys) && OrderOk(p.subOrder, p.subs.Keys)
    requires key in p.cache ==> !AnyAffected(change, p.cache[key].deps)
    requires !AnyAffected(change, p.subs[key].deps)
    ensures var n := Publish(Notify(app, p, None), change);
            && key !in n.queue && key in n.subs && n.version == change.version
            && n.subs[key].missed && n.subs[key].listeners == p.subs[key].listeners
  {
    QueueMembers(Notify(app, p, None), change);
  }

  // ----- One process alone -----

  ghost predicate AloneOk(app: App, g: System) {
    forall id | id in g.procs ::
      && g.procs.Keys == {id}
      && (if g.procs[id].target.Some? then g.procs[id].target.value == Revision(g)
          else g.procs[id].version == Revision(g))
      && NoneMissed(app, g.docs, g.procs[id])
  }

  predicate EventsOf(events: seq<Event>, id: nat) {
    forall i | 0 <= i < |events| :: events[i].id == id
  }

  /** No subscription whose call always answers has missed a notification. */
  ghost predicate NoneMissed(app: App, past: seq<Documents>, p: Process) {
    forall k | k in p.subs && AlwaysAnswers(app, past, p.subs[k].call) :: !p.subs[k].missed
  }

  lemma NotifyMissesNothing(app: App, past: seq<Documents>, p: Process, docs: Documents)
    requires NoneMissed(app, past, p) && p.queue != [] && docs in past
    ensures NoneMissed(app, past, Notify(app, p, Some(docs)))
  {
    var key, rest := p.queue[0], p.(queue := p.queue[1..]);
    if key in p.subs {
      var call := p.subs[key].call;
      ServingMissesNothing(app, past, rest, call, Some(docs));
      var (after, value) := InvokeQuery(app, rest, call, Some(docs));
      assert value.None? ==> Evaluate(app, docs, call).Threw?;
      assert value.None? ==> !AlwaysAnswers(app, past, call);
      MarkingMissesNothing(app, past, after, key, value);
    }
  }

  lemma MarkingMissesNothing(app: App, past: seq<Documents>, p: Process, key: string, value: Option<Value>)
    requires NoneMissed(app, past, p) && key in p.subs
    requires value.None? ==> !AlwaysAnswers(app, past, p.subs[key].call)
    ensures NoneMissed(app, past, p.(
      subs := p.subs[key := if value.Some? then Deliver(p.subs[key], value.value) else p.subs[key].(missed := true)]))
  {
  }

  lemma AlonePut(app: App, g: System, id: nat, q: Process)
    requires AloneOk(app, g) && g.procs.Keys <= {id} && NoneMissed(app, g.docs, q)
    requires if q.target.Some? then q.target.value == Revision(g) else q.version == Revision(g)
    ensures AloneOk(app, Put(g, id, q)) && Put(g, id, q).procs.Keys <= {id}
  {
  }

  lemma ServingMissesNothing(
    app: App, past: seq<Documents>, p: Process, call: QueryCall, snapshot: Option<Documents>)
    requires NoneMissed(app, past, p)
    ensures NoneMissed(app, past, InvokeQuery(app, p, call, snapshot).0)
  {
  }

  lemma RemovingMissesNothing(app: App, past: seq<Documents>, p: Process, key: string, listener: nat)
    requires NoneMissed(app, past, p)
    ensures NoneMissed(app, past, RemoveListener(p, key, listener))
  {
  }

  lemma SubscribingMissesNothing(
    app: App, past: seq<Documents>, p: Process, call: QueryCall, listener: nat, snapshot: Option<Documents>)
    requires NoneMissed(app, past, p)
    ensures NoneMissed(app, past, Subscribe(app, p, call, listener, snapshot))
  {
    var wide := AddSubscription(p, call);
    ServingMissesNothing(app, past, wide, call, snapshot);
    RemovingMissesNothing(app, past, InvokeQuery(app, wide, call, snapshot).0, KeyOf(call), listener);
  }

  lemma UnsubscribingMissesNothing(app: App, past: seq<Documents>, p: Process, h: Handle)
    requires NoneMissed(app, past, p)
    ensures NoneMissed(app, past, Unsubscribe(p, h))
  {
    RemovingMissesNothing(app, past, p, h.key, h.listener);
  }

  lemma AloneCommit(app: App, keep: Retention, g: System, id: nat, calls: seq<Call>)
    requires AloneOk(app, g) && Enabled(g, Commit(id, calls)) && g.procs.Keys <= {id}
    ensures AloneOk(app, Step(app, keep, g, Commit(id, calls)))
    ensures Step(app, keep, g, Commit(id, calls)).procs.Keys <= {id}
  {
    var n := CommitShared(app, keep, g, calls);
    assert n.procs == g.procs;
    var p := g.procs[id];
    forall k | k in p.subs ensures AlwaysAnswers(app, n.docs, p.subs[k].call) ==>
                                     AlwaysAnswers(app, g.docs, p.subs[k].call) {
      KeptBefore(app, g.docs, n.docs, p.subs[k].call);
    }
    if Revision(n) != Revision(g) {
      assert NoneMissed(app, n.docs, p.(target := Some(Revision(n))));
    }
  }

  lemma AloneStep(app: App, keep: Retention, g: System, e: Event)
    requires AloneOk(app, g) && g.procs.Keys <= {e.id} && g.world.state.docs in g.docs
    ensures AloneOk(app, Step(app, keep, g, e)) && Step(app, keep, g, e).procs.Keys <= {e.id}
  {
    if Enabled(g, e) {
      match e
      case Open(id) => AlonePut(app, g, id, NewProcess(Revision(g)));
      case Commit(id, calls) => AloneCommit(app, keep, g, id, calls);
      case BeginSync(id) =>
      case FinishSync(id) =>
        var p := g.procs[id];
        AlonePut(app, g, id, Publish(p, JournalChange(g, p.version, p.target.value)));
      case NotifyNext(id) =>
        var p := g.procs[id];
        NotifySamePlace(app, p, Snapshot(g, p));
        AloneNotify(app, g, id);
      case Query(id, query) =>
        var p := g.procs[id];
        InvokeSamePlace(app, p, query, Snapshot(g, p));
        ServingMissesNothing(app, g.docs, p, query, Snapshot(g, p));
        AlonePut(app, g, id, InvokeQuery(app, p, query, Snapshot(g, p)).0);
      case SubscribeTo(id, query, listener) =>
        var p := g.procs[id];
        SubscribeSamePlace(app, p, query, listener, Snapshot(g, p));
        SubscribingMissesNothing(app, g.docs, p, query, listener, Snapshot(g, p));
        AlonePut(app, g, id, Subscribe(app, p, query, listener, Snapshot(g, p)));
      case UnsubscribeFrom(id, handle) =>
        var p := g.procs[id];
        UnsubscribingMissesNothing(app, g.docs, p, handle);
        AlonePut(app, g, id, Unsubscribe(p, handle));
    }
  }

  lemma AloneNotify(app: App, g: System, id: nat)
    requires AloneOk(app, g) && Enabled(g, NotifyNext(id)) && g.procs.Keys <= {id} && g.world.state.docs in g.docs
    requires SamePlace(g.procs[id], Notify(app, g.procs[id], Snapshot(g, g.procs[id])))
    ensures AloneOk(app, Put(g, id, Notify(app, g.procs[id], Snapshot(g, g.procs[id]))))
  {
    var p := g.procs[id];
    NotifyMissesNothing(app, g.docs, p, g.world.state.docs);
    AlonePut(app, g, id, Notify(app, p, Snapshot(g, p)));
  }

  /** In a single process, no subscription misses a notification unless its own handler threw. */
  lemma {:induction false} AloneRun(app: App, keep: Retention, events: seq<Event>, id: nat)
    requires RetentionOk(keep) && EventsOf(events, id)
    ensures AloneOk(app, RunEvents(app, keep, events)) && RunEvents(app, keep, events).procs.Keys <= {id}
  {
    if events != [] {
      var front := events[..|events| - 1];
      AloneRun(app, keep, front, id);
      RunShared(app, keep, front);
      assert events[|events| - 1].id == id;
      AloneStep(app, keep, RunEvents(app, keep, front), events[|events| - 1]);
    }
  }
}
