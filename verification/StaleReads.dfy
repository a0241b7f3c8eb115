/** Three ways in which a subscriber goes stale, as runs from the start.  The first needs one process: a handler that
    collects a table and then reads the ID "*" of it.  The second needs two: a commit of one of them between the
    publication of a change and its notification in the other, for an entry that is not cached.  The third needs one
    process again: an unsubscribe that is called twice. */
module StaleReads {
  import opened Wrappers
  import opened DocumentStore
  import opened ChangeMatcher
  import opened ChangeJournal
  import opened QueryHandlers
  import opened QueryReads
  import opened QueryCache
  import opened Cluster
  import H = DocumentHistory

  const KEEP: Retention := Retention(10, 10, 10)

  const NO_ITEMS: Answer := Rows(map[])

  /** An application without owned tables whose queries all make the given reads, and tell whether the first of them
      found an empty table. */
  function ReplayApp(asked: seq<Request>, capacity: nat): App
    requires asked != []
  {
    App({}, (path, args) => Replay(asked, 0, NO_ITEMS), partition => Server, capacity)
  }

  function InsertInto(table: string): Call {
    Call(Server, DocKey(table, "a"), InsertOp(0, ""))
  }

  const DOC: Doc := Doc(None, 0, 1, "")

  predicate ReadsItemsFirst(asked: seq<Request>) {
    asked != [] && asked[0] == Collect("items") && AllReads({}, Server, asked)
  }

  function DepsOf(asked: seq<Request>): seq<Dependency>
    requires ReadsItemsFirst(asked)
  {
    Values(TrackAll({}, Server, asked))
  }

  lemma NoItems(docs: Documents)
    ensures VisibleDocs({}, Server, docs, "items") == map[] <==> forall k | k in docs :: k.table != "items"
  {
    var rows := VisibleDocs({}, Server, docs, "items");
    if rows == map[] {
      forall k | k in docs ensures k.table != "items" {
        assert k !in rows;
      }
    } else {
      var k :| k in rows;
    }
  }

  lemma ReplayEvaluates(asked: seq<Request>, capacity: nat, docs: Documents, call: QueryCall)
    requires ReadsItemsFirst(asked)
    ensures var o := Evaluate(ReplayApp(asked, capacity), docs, call);
            && o.Done? && o.deps == DepsOf(asked)
            && (o.value == "as expected" <==> forall k | k in docs :: k.table != "items")
  {
    ReplayRuns({}, Server, docs, asked, 0, NO_ITEMS);
    NoItems(docs);
    assert AnswerTo({}, Server, docs, asked[0]) == Rows(VisibleDocs({}, Server, docs, "items"));
  }

  lemma InsertRuns(w: H.World, table: string)
    requires DocKey(table, "a") !in w.state.docs
    ensures var key, calls := DocKey(table, "a"), [InsertInto(table)];
            && H.TxOf({}, w, calls).docs == w.state.docs[key := DOC]
            && H.TxOf({}, w, calls).records == [Record(key, None)]
            && H.Register({}, w.state, w.owners, calls) == w.owners[key := None]
  {
    var calls := [InsertInto(table)];
    assert calls[..0] == [];
    assert RunCalls({}, Begin(w.state), []) == Begin(w.state);
    assert EffectOf({}, Begin(w.state), calls[0]) == InsertEffect({}, Server, Begin(w.state), calls[0].key, 0, "");
    assert H.Register({}, w.state, w.owners, []) == w.owners;
  }

  // ----- Single steps -----

  /** A system with the given tables, log and processes. */
  ghost predicate AtPoint(app: App, g: System, docs: Documents, log: Log, procs: map<nat, Process>) {
    && SharedOk(app, KEEP, g) && g.floor == 1
    && g.world.state.docs == docs && g.log == log && g.procs == procs
    && (forall k | k in g.world.owners :: k in docs)
  }

  /** A run that ends at such a system. */
  ghost predicate Reaches(app: App, events: seq<Event>, docs: Documents, log: Log, procs: map<nat, Process>) {
    AtPoint(app, RunEvents(app, KEEP, events), docs, log, procs)
  }

  lemma RunSnoc(app: App, events: seq<Event>, e: Event)
    requires SharedOk(app, KEEP, RunEvents(app, KEEP, events))
    ensures RunEvents(app, KEEP, events + [e]) == Step(app, KEEP, RunEvents(app, KEEP, events), e)
    ensures SharedOk(app, KEEP, RunEvents(app, KEEP, events + [e]))
  {
    assert (events + [e])[..|events + [e]| - 1] == events;
    SharedStepOk(app, KEEP, RunEvents(app, KEEP, events), e);
  }

  lemma Starts(app: App)
    ensures Reaches(app, [], map[], [], map[])
  {
    EmptyWorldOk(app, KEEP);
  }

  lemma Opens(app: App, events: seq<Event>, docs: Documents, log: Log, procs: map<nat, Process>, id: nat)
    requires Reaches(app, events, docs, log, procs) && id !in procs
    ensures Reaches(app, events + [Open(id)], docs, log,
                    procs[id := NewProcess(|log|)])
  {
    RunSnoc(app, events, Open(id));
  }

  lemma Subscribes(
    app: App, events: seq<Event>, docs: Documents, log: Log, procs: map<nat, Process>, id: nat, call: QueryCall,
    listener: nat)
    requires Reaches(app, events, docs, log, procs) && id in procs && Idle(procs[id]) && CallOk(call)
    requires procs[id].version == |log|
    ensures Reaches(app, events + [SubscribeTo(id, call, listener)], docs, log,
                    procs[id := Subscribe(app, procs[id], call, listener, Some(docs))])
  {
    RunSnoc(app, events, SubscribeTo(id, call, listener));
  }

  lemma Unsubscribes(
    app: App, events: seq<Event>, docs: Documents, log: Log, procs: map<nat, Process>, id: nat, h: Handle)
    requires Reaches(app, events, docs, log, procs) && id in procs && Idle(procs[id]) && h in procs[id].handles
    ensures Reaches(app, events + [UnsubscribeFrom(id, h)], docs, log, procs[id := Unsubscribe(procs[id], h)])
  {
    RunSnoc(app, events, UnsubscribeFrom(id, h));
  }

  lemma Commits(
    app: App, events: seq<Event>, docs: Documents, log: Log, procs: map<nat, Process>, id: nat, table: string)
    requires Reaches(app, events, docs, log, procs) && id in procs && Idle(procs[id]) && app.owned == {}
    requires DocKey(table, "a") !in docs && |log| < 9
    ensures Reaches(app, events + [Commit(id, [InsertInto(table)])], docs[DocKey(table, "a") := DOC],
                    log + [[Record(DocKey(table, "a"), None)]], procs[id := procs[id].(target := Some(|log| + 1))])
  {
    InsertRuns(RunEvents(app, KEEP, events).world, table);
    RunSnoc(app, events, Commit(id, [InsertInto(table)]));
  }

  lemma Begins(app: App, events: seq<Event>, docs: Documents, log: Log, procs: map<nat, Process>, id: nat)
    requires Reaches(app, events, docs, log, procs) && id in procs && Idle(procs[id]) && procs[id].version != |log|
    ensures Reaches(app, events + [BeginSync(id)], docs, log, procs[id := procs[id].(target := Some(|log|))])
  {
    RunSnoc(app, events, BeginSync(id));
  }

  /** A synchronization with one revision that announced one document. */
  lemma Finishes(
    app: App, events: seq<Event>, docs: Documents, log: Log, procs: map<nat, Process>, id: nat, target: nat,
    r: Record)
    requires Reaches(app, events, docs, log, procs) && id in procs && procs[id].target == Some(target)
    requires procs[id].version + 1 == target <= |log| && log[target - 1] == [r]
    ensures Reaches(app, events + [FinishSync(id)], docs, log,
                    procs[id := Publish(procs[id], Change(target, [r], false))])
  {
    var g := RunEvents(app, KEEP, events);
    RunSnoc(app, events, FinishSync(id));
    SynchronizationReports(app, KEEP, g, target - 1, target);
    assert LogRecords(log, target - 1, target - 1) == [];
    assert LogRecords(log, target - 1, target) == [] + log[target - 1];
    assert JournalChange(g, target - 1, target) == Change(target, [r], false);
  }

  /** A notification after another commit, which leaves the process without a snapshot. */
  lemma Notifies(app: App, events: seq<Event>, docs: Documents, log: Log, procs: map<nat, Process>, id: nat)
    requires Reaches(app, events, docs, log, procs) && id in procs
    requires procs[id].target.None? && procs[id].queue != [] && procs[id].version != |log|
    ensures Reaches(app, events + [NotifyNext(id)], docs, log, procs[id := Notify(app, procs[id], None)])
  {
    RunSnoc(app, events, NotifyNext(id));
  }

  // ----- One subscription of one call -----

  /** The process that has subscribed to `call` while there were no items. */
  function Subscribed(
    asked: seq<Request>, capacity: nat, call: QueryCall, version: nat, target: Option<nat>, queue: seq<string>,
    missed: bool): Process
    requires ReadsItemsFirst(asked)
  {
    var key := KeyOf(call);
    Process(
      version,
      if capacity == 0 then map[] else map[key := CacheEntry(call, "as expected", DepsOf(asked), 0, false)],
      if capacity == 0 then [] else [key],
      map[key := Subscription(call, 0, DepsOf(asked), map[0 := "as expected"], missed)], [key], target, queue,
      1, map[], {Handle(key, 0, 0)})
  }

  const NEW: Process := NewProcess(0)

  /** Caching the first entry, and telling its subscription the dependencies. */
  lemma CachesFirst(app: App, p: Process, key: string, sub: Subscription, e: CacheEntry)
    requires p.cache == map[] && p.order == [] && p.subs == map[key := sub]
    ensures SetCache(app, p, key, e) == p.(
      cache := if app.capacity == 0 then map[] else map[key := e],
      order := if app.capacity == 0 then [] else [key],
      subs := map[key := sub.(deps := e.deps)])
  {
    assert MakeNewest([], key) == [key];
    assert Kept([key], app.capacity) == if app.capacity == 0 then [] else [key];
    assert Restrict(map[key := e], Kept([key], app.capacity)) == if app.capacity == 0 then map[] else map[key := e];
    assert map[key := sub][key := sub.(deps := e.deps)] == map[key := sub.(deps := e.deps)];
  }

  /** The first call is evaluated on empty tables and cached. */
  lemma ServesFirst(app: App, p: Process, call: QueryCall, sub: Subscription, deps: seq<Dependency>)
    requires p.cache == map[] && p.order == [] && p.subs == map[KeyOf(call) := sub]
    requires Evaluate(app, map[], call) == Done("as expected", deps)
    ensures InvokeQuery(app, p, call, Some(map[])) == (p.(
      cache := if app.capacity == 0 then map[]
               else map[KeyOf(call) := CacheEntry(call, "as expected", deps, p.version, false)],
      order := if app.capacity == 0 then [] else [KeyOf(call)],
      subs := map[KeyOf(call) := sub.(deps := deps)]), Some("as expected"))
  {
    CachesFirst(app, p, KeyOf(call), sub, CacheEntry(call, "as expected", deps, p.version, false));
  }

  /** The only subscription of a process with an empty cache, while there are no items. */
  lemma SubscribesFresh(app: App, p: Process, call: QueryCall, listener: nat, deps: seq<Dependency>)
    requires p.cache == map[] && p.order == [] && p.subs == map[] && p.subOrder == []
    requires Evaluate(app, map[], call) == Done("as expected", deps)
    ensures var key := KeyOf(call);
            Subscribe(app, p, call, listener, Some(map[])) == p.(
              cache := if app.capacity == 0 then map[]
                       else map[key := CacheEntry(call, "as expected", deps, p.version, false)],
              order := if app.capacity == 0 then [] else [key],
              subs := map[key := Subscription(call, p.made, deps, map[listener := "as expected"], false)],
              subOrder := [key], made := p.made + 1, handles := p.handles + {Handle(key, p.made, listener)})
  {
    var wide := AddSubscription(p, call);
    assert wide.subs == map[KeyOf(call) := Subscription(call, p.made, [], map[], false)];
    assert wide.subOrder == [KeyOf(call)];
    ServesFirst(app, wide, call, Subscription(call, p.made, [], map[], false), deps);
  }

  lemma SubscribesTo(asked: seq<Request>, capacity: nat, call: QueryCall)
    requires ReadsItemsFirst(asked)
    ensures Subscribe(ReplayApp(asked, capacity), NEW, call, 0, Some(map[]))
         == Subscribed(asked, capacity, call, 0, None, [], false)
  {
    ReplayEvaluates(asked, capacity, map[], call);
    SubscribesFresh(ReplayApp(asked, capacity), NEW, call, 0, DepsOf(asked));
  }

  /** A change that hits nothing the subscription depends on only moves its process to the new version. */
  lemma PublishesNothing(
    asked: seq<Request>, capacity: nat, call: QueryCall, version: nat, target: Option<nat>, missed: bool,
    change: Change)
    requires ReadsItemsFirst(asked) && !AnyAffected(change, DepsOf(asked))
    ensures Publish(Subscribed(asked, capacity, call, version, target, [], missed), change)
         == Subscribed(asked, capacity, call, change.version, None, [], missed)
  {
    var p, key := Subscribed(asked, capacity, call, version, target, [], missed), KeyOf(call);
    assert [key][1..] == [];
    assert AffectedEntries(p, [key], change) == AffectedEntries(p, [], change) == [];
    assert AffectedSubscriptions(p, [key], change) == AffectedSubscriptions(p, [], change) == [];
    assert MarkDirty(p.cache, change) == p.cache;
  }

  /** A change that hits it makes an uncached subscription wait for its notification. */
  lemma PublishesKey(asked: seq<Request>, call: QueryCall, version: nat, target: Option<nat>, change: Change)
    requires ReadsItemsFirst(asked) && AnyAffected(change, DepsOf(asked))
    ensures Publish(Subscribed(asked, 0, call, version, target, [], false), change)
         == Subscribed(asked, 0, call, change.version, None, [KeyOf(call)], false)
  {
    var p, key := Subscribed(asked, 0, call, version, target, [], false), KeyOf(call);
    assert [key][1..] == [];
    assert AffectedEntries(p, [], change) == [];
    assert AffectedSubscriptions(p, [key], change) == [key] + AffectedSubscriptions(p, [], change);
    assert AffectedSubscriptions(p, [], change) == [];
    assert MarkDirty(p.cache, change) == map[];
  }

  /** Without a snapshot the notification of an uncached subscription is missed. */
  lemma NotifyMisses(asked: seq<Request>, call: QueryCall, version: nat)
    requires ReadsItemsFirst(asked)
    ensures Notify(ReplayApp(asked, 0), Subscribed(asked, 0, call, version, None, [KeyOf(call)], false), None)
         == Subscribed(asked, 0, call, version, None, [], true)
  {
  }

  // ----- One process: a lost read -----

  const ITEM: DocKey := DocKey("items", "a")
  const NOTE: DocKey := DocKey("notes", "a")

  function FirstLog(): Log {
    [[Record(ITEM, None)]]
  }

  function FirstEvents(call: QueryCall): seq<Event> {
    [] + [Open(0)] + [SubscribeTo(0, call, 0)] + [Commit(0, [InsertInto("items")])]
  }

  function LosingEvents(call: QueryCall): seq<Event> {
    FirstEvents(call) + [FinishSync(0)]
  }

  lemma Replaced(p: Process, q: Process, other: Process)
    ensures map[0 := p][0 := q] == map[0 := q]
    ensures map[0 := p, 1 := other][0 := q] == map[0 := q, 1 := other]
    ensures map[0 := p][1 := other] == map[0 := p, 1 := other]
    ensures map[0 := p, 1 := other][1 := q] == map[0 := p, 1 := q]
  {
  }

  lemma OpensFirst(app: App)
    ensures Reaches(app, [] + [Open(0)], map[], [], map[0 := NEW])
  {
    Starts(app);
    Opens(app, [], map[], [], map[], 0);
    assert map[][0 := NEW] == map[0 := NEW];
  }

  /** A process `p` that subscribed at the start. */
  lemma SubscribesFirst(app: App, call: QueryCall, p: Process)
    requires CallOk(call) && p == Subscribe(app, NEW, call, 0, Some(map[]))
    ensures Reaches(app, [] + [Open(0)] + [SubscribeTo(0, call, 0)], map[], [], map[0 := p])
  {
    OpensFirst(app);
    Subscribes(app, [] + [Open(0)], map[], [], map[0 := NEW], 0, call, 0);
    Replaced(NEW, p, p);
  }

  lemma CommitsItem(app: App, events: seq<Event>, p: Process)
    requires app.owned == {} && Reaches(app, events, map[], [], map[0 := p]) && Idle(p)
    ensures Reaches(app, events + [Commit(0, [InsertInto("items")])], map[ITEM := DOC], FirstLog(),
                    map[0 := p.(target := Some(1))])
  {
    Commits(app, events, map[], [], map[0 := p], 0, "items");
    Replaced(p, p.(target := Some(1)), p);
    assert [] + [[Record(ITEM, None)]] == FirstLog();
  }

  lemma Publishes(app: App, events: seq<Event>, p: Process, q: Process)
    requires Reaches(app, events, map[ITEM := DOC], FirstLog(), map[0 := p])
    requires p.target == Some(1) && p.version == 0 && q == Publish(p, Change(1, [Record(ITEM, None)], false))
    ensures Reaches(app, events + [FinishSync(0)], map[ITEM := DOC], FirstLog(), map[0 := q])
  {
    Finishes(app, events, map[ITEM := DOC], FirstLog(), map[0 := p], 0, 1, Record(ITEM, None));
    Replaced(p, q, p);
  }

  /** The first item has been committed, and the process is about to learn of revision 1. */
  lemma FirstItem(asked: seq<Request>, capacity: nat, call: QueryCall)
    requires ReadsItemsFirst(asked) && CallOk(call)
    ensures Reaches(ReplayApp(asked, capacity), FirstEvents(call), map[ITEM := DOC], FirstLog(),
                    map[0 := Subscribed(asked, capacity, call, 0, Some(1), [], false)])
  {
    var app, p := ReplayApp(asked, capacity), Subscribed(asked, capacity, call, 0, None, [], false);
    SubscribesTo(asked, capacity, call);
    SubscribesFirst(app, call, p);
    CommitsItem(app, [] + [Open(0)] + [SubscribeTo(0, call, 0)], p);
  }

  /** What a caller sees of an idle process that is stale although it is current: the query is served from the
      cache, its listener was given the same value, and it is not the one computed from the tables. */
  predicate Stale(app: App, p: Process, call: QueryCall, docs: Documents) {
    var key, o := KeyOf(call), Evaluate(app, docs, call);
    && Idle(p) && o.Done? && o.value != "as expected"
    && Cached(p, key) && InvokeQuery(app, p, call, Some(docs)).1 == Some("as expected")
    && key in p.subs && !p.subs[key].missed && p.subs[key].listeners == map[0 := "as expected"]
  }

  lemma LeftStale(call: QueryCall, docs: Documents)
    requires CallOk(call) && ReadsItemsFirst(LOSING_READS) && ITEM in docs
    ensures Stale(ReplayApp(LOSING_READS, 1), Subscribed(LOSING_READS, 1, call, 1, None, [], false), call, docs)
  {
    ReplayEvaluates(LOSING_READS, 1, docs, call);
  }

  lemma LosingAlone(call: QueryCall)
    ensures EventsOf(LosingEvents(call), 0)
  {
  }

  lemma LosingRun(call: QueryCall)
    requires CallOk(call)
    ensures ReadsItemsFirst(LOSING_READS)
    ensures Reaches(ReplayApp(LOSING_READS, 1), LosingEvents(call), map[ITEM := DOC], FirstLog(),
                    map[0 := Subscribed(LOSING_READS, 1, call, 1, None, [], false)])
  {
    StarReadExample(Server);
    FirstItem(LOSING_READS, 1, call);
    PublishesNothing(LOSING_READS, 1, call, 0, Some(1), false, Change(1, [Record(ITEM, None)], false));
    Publishes(ReplayApp(LOSING_READS, 1), FirstEvents(call),
              Subscribed(LOSING_READS, 1, call, 0, Some(1), [], false),
              Subscribed(LOSING_READS, 1, call, 1, None, [], false));
  }

  /** A single process, no eviction, and no missed notification: after an item was inserted, the process still serves
      the query from its cache, and its listener still holds the value, as if there were none.  The handler collects
      the table and then reads the ID "*". */
  lemma LostReadGoesStale(call: QueryCall) returns (p: Process)
    requires CallOk(call)
    ensures Reaches(ReplayApp(LOSING_READS, 1), LosingEvents(call), map[ITEM := DOC], FirstLog(), map[0 := p])
    ensures EventsOf(LosingEvents(call), 0) && p.version == |FirstLog()|
    ensures Stale(ReplayApp(LOSING_READS, 1), p, call, map[ITEM := DOC])
  {
    p := Subscribed(LOSING_READS, 1, call, 1, None, [], false);
    LosingRun(call);
    LeftStale(call, map[ITEM := DOC]);
    LosingAlone(call);
  }

  // ----- Two processes: a missed notification -----

  const ITEMS: seq<Request> := [Collect("items")]

  function OvertakenEvents(call: QueryCall): seq<Event> {
    FirstEvents(call) + [FinishSync(0)] + [Open(1)] + [Commit(1, [InsertInto("notes")])]
  }

  function MissingEvents(call: QueryCall): seq<Event> {
    OvertakenEvents(call) + [NotifyNext(0)] + [BeginSync(0)] + [FinishSync(0)]
  }

  lemma ItemsDeps()
    ensures ReadsItemsFirst(ITEMS) && DepsOf(ITEMS) == [Dependency("items", None, None)]
  {
    assert ITEMS[..0] == [];
    assert TrackAll({}, Server, ITEMS) == SetDependency([], RequestDep({}, Server, ITEMS[0]));
  }

  function OtherProcess(): Process {
    NewProcess(1).(target := Some(2))
  }

  const BOTH: Documents := map[ITEM := DOC][NOTE := DOC]
  const BOTH_LOG: Log := [[Record(ITEM, None)]] + [[Record(NOTE, None)]]

  /** The first item is published, and the subscription waits to be notified. */
  lemma FirstPublished(call: QueryCall)
    requires CallOk(call) && ReadsItemsFirst(ITEMS) && DepsOf(ITEMS) == [Dependency("items", None, None)]
    ensures Reaches(ReplayApp(ITEMS, 0), FirstEvents(call) + [FinishSync(0)], map[ITEM := DOC], FirstLog(),
                    map[0 := Subscribed(ITEMS, 0, call, 1, None, [KeyOf(call)], false)])
  {
    var r := Record(ITEM, None);
    FirstItem(ITEMS, 0, call);
    assert Affects(Change(1, [r], false), DepsOf(ITEMS)[0]) by { assert Hits([r][0], DepsOf(ITEMS)[0]); }
    PublishesKey(ITEMS, call, 0, Some(1), Change(1, [r], false));
    Publishes(ReplayApp(ITEMS, 0), FirstEvents(call), Subscribed(ITEMS, 0, call, 0, Some(1), [], false),
              Subscribed(ITEMS, 0, call, 1, None, [KeyOf(call)], false));
  }

  /** A second process opens and commits a note. */
  lemma Overtakes(app: App, events: seq<Event>, p: Process)
    requires app.owned == {} && Reaches(app, events, map[ITEM := DOC], FirstLog(), map[0 := p])
    ensures Reaches(app, events + [Open(1)] + [Commit(1, [InsertInto("notes")])], BOTH, BOTH_LOG,
                    map[0 := p, 1 := OtherProcess()])
  {
    var second := NewProcess(1);
    Opens(app, events, map[ITEM := DOC], FirstLog(), map[0 := p], 1);
    Replaced(p, OtherProcess(), second);
    Commits(app, events + [Open(1)], map[ITEM := DOC], FirstLog(), map[0 := p, 1 := second], 1, "notes");
    assert FirstLog() + [[Record(NOTE, None)]] == BOTH_LOG;
  }

  /** The overtaken process misses its notification and begins another synchronization. */
  lemma Misses(app: App, events: seq<Event>, p: Process, q: Process)
    requires Reaches(app, events, BOTH, BOTH_LOG, map[0 := p, 1 := OtherProcess()])
    requires p.target.None? && p.queue != [] && p.version == 1
    requires q == Notify(app, p, None) && Idle(q) && q.version == 1
    ensures Reaches(app, events + [NotifyNext(0)] + [BeginSync(0)], BOTH, BOTH_LOG,
                    map[0 := q.(target := Some(2)), 1 := OtherProcess()])
  {
    var other, begun := OtherProcess(), q.(target := Some(2));
    Notifies(app, events, BOTH, BOTH_LOG, map[0 := p, 1 := other], 0);
    Replaced(p, q, other);
    Begins(app, events + [NotifyNext(0)], BOTH, BOTH_LOG, map[0 := q, 1 := other], 0);
    Replaced(q, begun, other);
  }

  lemma OvertakenRun(call: QueryCall)
    requires CallOk(call) && ReadsItemsFirst(ITEMS) && DepsOf(ITEMS) == [Dependency("items", None, None)]
    ensures Reaches(ReplayApp(ITEMS, 0), OvertakenEvents(call) + [NotifyNext(0)] + [BeginSync(0)], BOTH, BOTH_LOG,
                    map[0 := Subscribed(ITEMS, 0, call, 1, Some(2), [], true), 1 := OtherProcess()])
  {
    var app, waiting := ReplayApp(ITEMS, 0), Subscribed(ITEMS, 0, call, 1, None, [KeyOf(call)], false);
    FirstPublished(call);
    Overtakes(app, FirstEvents(call) + [FinishSync(0)], waiting);
    NotifyMisses(ITEMS, call, 1);
    Misses(app, OvertakenEvents(call), waiting, Subscribed(ITEMS, 0, call, 1, None, [], true));
  }

  /** The notification is missed, and the next synchronization publishes nothing to this subscription. */
  lemma MissingRun(call: QueryCall)
    requires CallOk(call) && ReadsItemsFirst(ITEMS) && DepsOf(ITEMS) == [Dependency("items", None, None)]
    ensures Reaches(ReplayApp(ITEMS, 0), MissingEvents(call), BOTH, BOTH_LOG,
                    map[0 := Subscribed(ITEMS, 0, call, 2, None, [], true), 1 := OtherProcess()])
  {
    var other, r := OtherProcess(), Record(NOTE, None);
    var begun := Subscribed(ITEMS, 0, call, 1, Some(2), [], true);
    var done := Subscribed(ITEMS, 0, call, 2, None, [], true);
    OvertakenRun(call);
    Finishes(ReplayApp(ITEMS, 0), OvertakenEvents(call) + [NotifyNext(0)] + [BeginSync(0)], BOTH, BOTH_LOG,
             map[0 := begun, 1 := other], 0, 2, r);
    PublishesNothing(ITEMS, 0, call, 1, Some(2), true, Change(2, [r], false));
    Replaced(begun, done, other);
  }

  /** The second process's commit costs the first its notification, and the next synchronization does not repair
      it: the process is idle and current, yet its listener holds the value from before the item was inserted. */
  lemma MissedIsReached(call: QueryCall)
    requires CallOk(call)
    ensures var app, key := ReplayApp(ITEMS, 0), KeyOf(call);
            var g := RunEvents(app, KEEP, MissingEvents(call));
            && 0 in g.procs
            && var p := g.procs[0];
               var o := Evaluate(app, g.world.state.docs, call);
               && Idle(p) && p.version == Revision(g) && o.Done?
               && key in p.subs && p.subs[key].missed && p.subs[key].listeners == map[0 := "as expected"]
               && o.value != "as expected"
  {
    ItemsDeps();
    MissingRun(call);
    ReplayEvaluates(ITEMS, 0, BOTH, call);
    assert ITEM in BOTH;
  }

  // ----- One process: a stray handle -----

  function TwiceEvents(call: QueryCall): seq<Event> {
    var first := Handle(KeyOf(call), 0, 1);
    [] + [Open(0)] + [SubscribeTo(0, call, 1)] + [UnsubscribeFrom(0, first)]
    + [SubscribeTo(0, call, 2)] + [UnsubscribeFrom(0, first)]
  }

  function StrayEvents(call: QueryCall): seq<Event> {
    TwiceEvents(call) + [Commit(0, [InsertInto("items")])] + [FinishSync(0)]
  }

  /** A process without cache: who subscribed to `call`, and whom the runtime has lost. */
  function Holding(
    call: QueryCall, deps: seq<Dependency>, listeners: map<nat, Value>, made: nat, loose: map<nat, map<nat, Value>>,
    handles: set<Handle>): Process
    requires made > 0
  {
    if listeners == map[] then NEW.(made := made, loose := loose, handles := handles)
    else
      NEW.(subs := map[KeyOf(call) := Subscription(call, made - 1, deps, listeners, false)], subOrder := [KeyOf(call)],
           made := made, loose := loose, handles := handles)
  }

  lemma HoldsOne(call: QueryCall, deps: seq<Dependency>, listener: nat, made: nat, handles: set<Handle>)
    requires made > 0
    ensures Holding(call, deps, map[listener := "as expected"], made, map[], handles)
      == NEW.(subs := map[KeyOf(call) := Subscription(call, made - 1, deps, map[listener := "as expected"], false)],
              subOrder := [KeyOf(call)], made := made, handles := handles)
  {
    var listeners: map<nat, Value> := map[listener := "as expected"];
    assert listener in listeners;
  }

  lemma DropsOnly(call: QueryCall, deps: seq<Dependency>, listener: nat, made: nat, handles: set<Handle>)
    requires made > 0
    ensures Unsubscribe(Holding(call, deps, map[listener := "as expected"], made, map[], handles),
                        Handle(KeyOf(call), made - 1, listener))
         == Holding(call, deps, map[], made, map[], handles)
  {
    var key := KeyOf(call);
    HoldsOne(call, deps, listener, made, handles);
    assert map[listener := "as expected"] - {listener} == map[];
    assert [key][1..] == [];
    assert Without([key], key) == [];
    var sub := Subscription(call, made - 1, deps, map[listener := "as expected"], false);
    assert map[key := sub][key := sub.(listeners := map[])] - {key} == map[];
  }

  lemma DropsAnother(call: QueryCall, deps: seq<Dependency>, handles: set<Handle>)
    ensures Unsubscribe(Holding(call, deps, map[2 := "as expected"], 2, map[], handles), Handle(KeyOf(call), 0, 1))
         == Holding(call, deps, map[], 2, map[0 := map[], 1 := map[2 := "as expected"]], handles)
  {
    var key := KeyOf(call);
    assert [key][1..] == [];
    assert Without([key], key) == [];
    var sub := Subscription(call, 1, deps, map[2 := "as expected"], false);
    assert map[key := sub] - {key} == map[];
    HoldsOne(call, deps, 2, 2, handles);
    var p := Holding(call, deps, map[2 := "as expected"], 2, map[], handles);
    assert LeftIn(p, 0) - {1} == map[];
    assert map[0 := map[]][1 := map[2 := "as expected"]] == map[0 := map[], 1 := map[2 := "as expected"]];
  }

  /** The first subscriber comes and goes. */
  lemma FirstLeaves(app: App, call: QueryCall, deps: seq<Dependency>)
    requires app.capacity == 0 && CallOk(call) && Evaluate(app, map[], call) == Done("as expected", deps)
    ensures var first := Handle(KeyOf(call), 0, 1);
            Reaches(app, [] + [Open(0)] + [SubscribeTo(0, call, 1)] + [UnsubscribeFrom(0, first)], map[], [],
                    map[0 := Holding(call, deps, map[], 1, map[], {first})])
  {
    var first := Handle(KeyOf(call), 0, 1);
    var p := Holding(call, deps, map[1 := "as expected"], 1, map[], {first});
    OpensFirst(app);
    Subscribes(app, [] + [Open(0)], map[], [], map[0 := NEW], 0, call, 1);
    SubscribesFresh(app, NEW, call, 1, deps);
    HoldsOne(call, deps, 1, 1, {first});
    assert NEW.handles + {first} == {first};
    assert Subscribe(app, NEW, call, 1, Some(map[])) == p;
    Replaced(NEW, p, p);
    Unsubscribes(app, [] + [Open(0)] + [SubscribeTo(0, call, 1)], map[], [], map[0 := p], 0, first);
    DropsOnly(call, deps, 1, 1, {first});
    Replaced(p, Holding(call, deps, map[], 1, map[], {first}), p);
  }

  /** The second subscriber comes, and the first one's handle is called again. */
  lemma SecondLost(app: App, events: seq<Event>, call: QueryCall, deps: seq<Dependency>)
    requires app.capacity == 0 && CallOk(call) && Evaluate(app, map[], call) == Done("as expected", deps)
    requires Reaches(app, events, map[], [],
                     map[0 := Holding(call, deps, map[], 1, map[], {Handle(KeyOf(call), 0, 1)})])
    ensures var first, second := Handle(KeyOf(call), 0, 1), Handle(KeyOf(call), 1, 2);
            Reaches(app, events + [SubscribeTo(0, call, 2)] + [UnsubscribeFrom(0, first)], map[], [],
                    map[0 := Holding(call, deps, map[], 2, map[0 := map[], 1 := map[2 := "as expected"]],
                                     {first, second})])
  {
    var first, second := Handle(KeyOf(call), 0, 1), Handle(KeyOf(call), 1, 2);
    var p := Holding(call, deps, map[], 1, map[], {first});
    var q := Holding(call, deps, map[2 := "as expected"], 2, map[], {first, second});
    var r := Holding(call, deps, map[], 2, map[0 := map[], 1 := map[2 := "as expected"]], {first, second});
    Subscribes(app, events, map[], [], map[0 := p], 0, call, 2);
    SubscribesFresh(app, p, call, 2, deps);
    assert {first} + {second} == {first, second};
    HoldsOne(call, deps, 2, 2, {first, second});
    Replaced(p, q, p);
    Unsubscribes(app, events + [SubscribeTo(0, call, 2)], map[], [], map[0 := q], 0, first);
    DropsAnother(call, deps, {first, second});
    Replaced(q, r, q);
  }

  lemma PublishesToNobody(p: Process, change: Change)
    requires p.cache == map[] && p.order == [] && p.subs == map[] && p.subOrder == []
    ensures Publish(p, change) == p.(version := change.version, target := None, queue := [])
  {
    assert MarkDirty(p.cache, change) == map[];
  }

  lemma NeverCalled(call: QueryCall)
    ensures UnsubscribeFrom(0, Handle(KeyOf(call), 1, 2)) !in StrayEvents(call)
  {
  }

  /** A single process, nothing evicted, lost or missed: the first subscriber calls its handle a second time, and the
      second subscriber, which never called its own, is told of nothing any more.  Its last value is the one from
      before the item was inserted, and the process is idle and current. */
  lemma StrayHandleGoesStale(call: QueryCall) returns (p: Process)
    requires CallOk(call)
    ensures Reaches(ReplayApp(ITEMS, 0), StrayEvents(call), map[ITEM := DOC], FirstLog(), map[0 := p])
    ensures Idle(p) && p.version == |FirstLog()| && p.subs == map[]
    ensures var second := Handle(KeyOf(call), 1, 2);
            second in p.handles && UnsubscribeFrom(0, second) !in StrayEvents(call)
    ensures LeftIn(p, 1) == map[2 := "as expected"]
    ensures var o := Evaluate(ReplayApp(ITEMS, 0), map[ITEM := DOC], call); o.Done? && o.value != "as expected"
  {
    var app := ReplayApp(ITEMS, 0);
    ItemsDeps();
    ReplayEvaluates(ITEMS, 0, map[], call);
    ReplayEvaluates(ITEMS, 0, map[ITEM := DOC], call);
    var r := Holding(call, DepsOf(ITEMS), map[], 2, map[0 := map[], 1 := map[2 := "as expected"]],
                     {Handle(KeyOf(call), 0, 1), Handle(KeyOf(call), 1, 2)});
    p := r.(version := 1);
    TwiceRun(call, r);
    CommitsItem(app, TwiceEvents(call), r);
    PublishesToNobody(r.(target := Some(1)), Change(1, [Record(ITEM, None)], false));
    Publishes(app, TwiceEvents(call) + [Commit(0, [InsertInto("items")])], r.(target := Some(1)), p);
    NeverCalled(call);
  }

  lemma TwiceRun(call: QueryCall, r: Process)
    requires CallOk(call) && ReadsItemsFirst(ITEMS)
    requires r == Holding(call, DepsOf(ITEMS), map[], 2, map[0 := map[], 1 := map[2 := "as expected"]],
                          {Handle(KeyOf(call), 0, 1), Handle(KeyOf(call), 1, 2)})
    ensures Reaches(ReplayApp(ITEMS, 0), TwiceEvents(call), map[], [], map[0 := r])
  {
    var app, first := ReplayApp(ITEMS, 0), Handle(KeyOf(call), 0, 1);
    ReplayEvaluates(ITEMS, 0, map[], call);
    FirstLeaves(app, call, DepsOf(ITEMS));
    SecondLost(app, [] + [Open(0)] + [SubscribeTo(0, call, 1)] + [UnsubscribeFrom(0, first)], call, DepsOf(ITEMS));
  }
}
