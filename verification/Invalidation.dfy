/** What a published change invalidates: exactly what depends on one of its records; and a change of an account reaches
    everything that was served to its user. */
module Invalidation {
  import opened Wrappers
  import opened DocumentStore
  import opened ChangeMatcher
  import opened QueryHandlers
  import opened QueryCache
  import opened CacheCoherence
  import opened Cluster
  import TP = CanonicalTextProofs

  // ----- Exactly what is affected -----

  /** A record of the change lies in the table, and under the ID and the owner, that some dependency names. */
  ghost predicate Touched(change: Change, deps: seq<Dependency>) {
    exists d :: d in deps && TouchedOne(change, d)
  }

  predicate TouchedOne(change: Change, d: Dependency) {
    || change.all
    || exists r :: r in change.records && r.key.table == d.table
                   && d.id in {None, Some(r.key.id)} && (d.owner == None || d.owner == r.owner)
  }

  lemma TouchedExact(change: Change, deps: seq<Dependency>)
    ensures AnyAffected(change, deps) <==> Touched(change, deps)
  {
    if AnyAffected(change, deps) {
      var i :| 0 <= i < |deps| && Affects(change, deps[i]);
      assert deps[i] in deps;
      if !change.all {
        var j :| 0 <= j < |change.records| && Hits(change.records[j], deps[i]);
        assert change.records[j] in change.records;
      }
    }
    if Touched(change, deps) {
      var d :| d in deps && TouchedOne(change, d);
      var i :| 0 <= i < |deps| && deps[i] == d;
      if !change.all {
        var r :| r in change.records && r.key.table == d.table && d.id in {None, Some(r.key.id)}
                 && (d.owner == None || d.owner == r.owner);
        var j :| 0 <= j < |change.records| && change.records[j] == r;
        assert Hits(change.records[j], deps[i]);
      }
    }
  }

  lemma {:induction false} EntriesQueued(p: Process, order: seq<string>, change: Change, k: string)
    ensures k in AffectedEntries(p, order, change) <==>
      k in order && k in p.cache && AnyAffected(change, p.cache[k].deps)
  {
    if order != [] {
      EntriesQueued(p, order[1..], change, k);
      assert order == [order[0]] + order[1..];
    }
  }

  lemma {:induction false} SubscriptionsQueued(p: Process, order: seq<string>, change: Change, k: string)
    ensures k in AffectedSubscriptions(p, order, change) <==>
      k in order && k !in p.cache && k in p.subs && AnyAffected(change, p.subs[k].deps)
  {
    if order != [] {
      SubscriptionsQueued(p, order[1..], change, k);
      assert order == [order[0]] + order[1..];
    }
  }

  /** Publishing a change takes exactly the touched results from the cache, spares all others, and notifies exactly
      the keys whose result, or whose subscription if there is no result, it touches. */
  lemma PublishExact(p: Process, change: Change, k: string)
    requires OrderOk(p.order, p.cache.Keys) && OrderOk(p.subOrder, p.subs.Keys)
    ensures var q := Publish(p, change);
            && q.version == change.version && q.subs == p.subs && q.cache.Keys == p.cache.Keys
            && (k in p.cache ==> q.cache[k] == p.cache[k].(dirty := q.cache[k].dirty))
            && (Cached(q, k) <==> Cached(p, k) && !Touched(change, p.cache[k].deps))
            && (k in q.queue <==> if k in p.cache then Touched(change, p.cache[k].deps)
                                  else k in p.subs && Touched(change, p.subs[k].deps))
  {
    EntriesQueued(p, p.order, change, k);
    SubscriptionsQueued(p, p.subOrder, change, k);
    if k in p.cache {
      TouchedExact(change, p.cache[k].deps);
    }
    if k in p.subs {
      TouchedExact(change, p.subs[k].deps);
    }
  }

  // ----- A change of an account -----

  function AccountOf(user: string): Dependency {
    Dependency("__auth", Some(user), Some(user))
  }

  /** What was served to a signed-in caller depends on the caller's account. */
  predicate Watches(app: App, call: QueryCall, deps: seq<Dependency>) {
    app.caller(call.partition).User? ==> AccountOf(app.caller(call.partition).id) in deps
  }

  predicate EntryWatches(app: App, k: string, e: CacheEntry) {
    CallOk(e.call) && KeyOf(e.call) == k && Watches(app, e.call, e.deps)
  }

  /** A subscription that was served once. */
  predicate SubWatches(app: App, k: string, s: Subscription) {
    CallOk(s.call) && KeyOf(s.call) == k && (s.deps != [] ==> Watches(app, s.call, s.deps))
  }

  predicate AllWatch(app: App, p: Process) {
    && (forall k | k in p.cache :: EntryWatches(app, k, p.cache[k]))
    && (forall k | k in p.subs :: SubWatches(app, k, p.subs[k]))
  }

  lemma EvaluatedWatches(app: App, docs: Documents, call: QueryCall)
    requires Evaluate(app, docs, call).Done?
    ensures Watches(app, call, Evaluate(app, docs, call).deps)
  {
    var o := Evaluate(app, docs, call);
    if app.caller(call.partition).User? {
      assert o.deps[|o.deps| - 1] == AccountOf(app.caller(call.partition).id);
    }
  }

  lemma SetDepsWatches(app: App, subs: map<string, Subscription>, key: string, call: QueryCall, deps: seq<Dependency>)
    requires forall k | k in subs :: SubWatches(app, k, subs[k])
    requires CallOk(call) && KeyOf(call) == key && Watches(app, call, deps)
    ensures forall k | k in SetDeps(subs, key, deps) :: SubWatches(app, k, SetDeps(subs, key, deps)[k])
  {
    if key in subs {
      assert SubWatches(app, key, subs[key]);
      var s := subs[key].call;
      TP.CacheKeyExact(s.partition, s.path, s.args, call.partition, call.path, call.args);
    }
  }

  lemma InvokeWatches(app: App, p: Process, call: QueryCall, snapshot: Option<Documents>)
    requires AllWatch(app, p) && CallOk(call)
    ensures AllWatch(app, InvokeQuery(app, p, call, snapshot).0)
  {
    var key := KeyOf(call);
    if Cached(p, key) {
      assert EntryWatches(app, key, p.cache[key]);
      SetDepsWatches(app, p.subs, key, p.cache[key].call, p.cache[key].deps);
    } else if snapshot.Some? && Evaluate(app, snapshot.value, call).Done? {
      EvaluatedWatches(app, snapshot.value, call);
      SetDepsWatches(app, p.subs, key, call, Evaluate(app, snapshot.value, call).deps);
    }
  }

  lemma DeliveredWatches(app: App, p: Process, key: string, s: Subscription)
    requires AllWatch(app, p) && key in p.subs && s.call == p.subs[key].call && s.deps == p.subs[key].deps
    ensures AllWatch(app, p.(subs := p.subs[key := s]))
  {
    assert SubWatches(app, key, p.subs[key]);
  }

  lemma NotifyWatches(app: App, p: Process, snapshot: Option<Documents>)
    requires AllWatch(app, p) && p.queue != []
    ensures AllWatch(app, Notify(app, p, snapshot))
  {
    var key, rest := p.queue[0], p.(queue := p.queue[1..]);
    if key in p.subs {
      assert SubWatches(app, key, p.subs[key]);
      InvokeWatches(app, rest, p.subs[key].call, snapshot);
      var (after, value) := InvokeQuery(app, rest, p.subs[key].call, snapshot);
      if key in after.subs && value.Some? {
        DeliveredWatches(app, after, key, Deliver(after.subs[key], value.value));
      } else if key in after.subs {
        DeliveredWatches(app, after, key, after.subs[key].(missed := true));
      }
    }
  }

  lemma AddWatches(app: App, p: Process, call: QueryCall)
    requires AllWatch(app, p) && CallOk(call)
    ensures AllWatch(app, AddSubscription(p, call))
  {
  }

  lemma SettledWatches(app: App, p: Process, key: string, listener: nat, value: Option<Value>)
    requires AllWatch(app, p)
    ensures AllWatch(app, if value.Some? then SetListener(p, key, listener, value.value)
                          else RemoveListener(p, key, listener))
  {
    if key in p.subs {
      var s := p.subs[key];
      DeliveredWatches(app, p, key, s.(listeners := if value.Some? then s.listeners[listener := value.value]
                                                    else s.listeners - {listener}));
    }
  }

  lemma SubscribeWatches(app: App, p: Process, call: QueryCall, listener: nat, snapshot: Option<Documents>)
    requires AllWatch(app, p) && CallOk(call)
    ensures AllWatch(app, Subscribe(app, p, call, listener, snapshot))
  {
    AddWatches(app, p, call);
    InvokeWatches(app, AddSubscription(p, call), call, snapshot);
    var (after, value) := InvokeQuery(app, AddSubscription(p, call), call, snapshot);
    SettledWatches(app, after, KeyOf(call), listener, value);
  }

  lemma UnsubscribeWatches(app: App, p: Process, h: Handle)
    requires AllWatch(app, p)
    ensures AllWatch(app, Unsubscribe(p, h))
  {
    if IsCurrent(p, h) {
      SettledWatches(app, p, h.key, h.listener, None);
    }
  }

  predicate AllProcsWatch(app: App, g: System) {
    forall id | id in g.procs :: AllWatch(app, g.procs[id])
  }

  lemma PutWatches(app: App, g: System, id: nat, p: Process)
    requires AllProcsWatch(app, g) && AllWatch(app, p)
    ensures AllProcsWatch(app, Cluster.Put(g, id, p))
  {
  }

  lemma ServeStepWatches(app: App, keep: Retention, g: System, e: Event)
    requires AllProcsWatch(app, g) && Enabled(g, e)
    requires e.NotifyNext? || e.Query? || e.SubscribeTo? || e.UnsubscribeFrom?
    ensures AllProcsWatch(app, Step(app, keep, g, e))
  {
    var p := g.procs[e.id];
    assert AllWatch(app, p);
    match e
    case NotifyNext(id) => NotifyWatches(app, p, Snapshot(g, p));
    case Query(id, query) => InvokeWatches(app, p, query, Snapshot(g, p));
    case SubscribeTo(id, query, listener) => SubscribeWatches(app, p, query, listener, Snapshot(g, p));
    case UnsubscribeFrom(id, handle) => UnsubscribeWatches(app, p, handle);
  }

  /** Opening, committing and synchronizing serve nothing. */
  lemma OtherStepWatches(app: App, keep: Retention, g: System, e: Event)
    requires AllProcsWatch(app, g) && Enabled(g, e)
    requires e.Open? || e.Commit? || e.BeginSync? || e.FinishSync?
    ensures AllProcsWatch(app, Step(app, keep, g, e))
  {
    if e.id in g.procs {
      assert AllWatch(app, g.procs[e.id]);
    }
  }

  lemma StepWatches(app: App, keep: Retention, g: System, e: Event)
    requires AllProcsWatch(app, g)
    ensures AllProcsWatch(app, Step(app, keep, g, e))
  {
    if Enabled(g, e) {
      if e.Open? || e.Commit? || e.BeginSync? || e.FinishSync? {
        OtherStepWatches(app, keep, g, e);
      } else {
        ServeStepWatches(app, keep, g, e);
      }
    }
  }

  lemma {:induction false} RunWatches(app: App, keep: Retention, events: seq<Event>)
    ensures AllProcsWatch(app, RunEvents(app, keep, events))
  {
    if events != [] {
      RunWatches(app, keep, events[..|events| - 1]);
      StepWatches(app, keep, RunEvents(app, keep, events[..|events| - 1]), events[|events| - 1]);
    }
  }

  predicate ServedTo(app: App, p: Process, k: string, user: string) {
    k in p.cache && app.caller(p.cache[k].call.partition) == User(user)
  }

  predicate SubscribedBy(app: App, p: Process, k: string, user: string) {
    k in p.subs && p.subs[k].deps != [] && app.caller(p.subs[k].call.partition) == User(user)
  }

  /** In every reachable state, a change with a record of a user's account takes every result that was served to this
      user from the cache, and notifies every subscription of the user that was ever served. */
  lemma AccountChangeReaches(
    app: App, keep: Retention, events: seq<Event>, id: nat, user: string, change: Change, k: string)
    requires RetentionOk(keep) && id in RunEvents(app, keep, events).procs
    requires Record(DocKey("__auth", user), Some(user)) in change.records
    ensures var p := RunEvents(app, keep, events).procs[id];
            var q := Publish(p, change);
            && (ServedTo(app, p, k, user) ==> !Cached(q, k) && k in q.queue)
            && (k !in p.cache && SubscribedBy(app, p, k, user) ==> k in q.queue)
  {
    var g := RunEvents(app, keep, events);
    var p := g.procs[id];
    RunWatches(app, keep, events);
    RunEventsOk(app, keep, events);
    assert MemberOk(app, g, p) && AllWatch(app, p);
    PublishExact(p, change, k);
    assert TouchedOne(change, AccountOf(user));
    if k in p.cache {
      assert EntryWatches(app, k, p.cache[k]);
    }
    if k in p.subs {
      assert SubWatches(app, k, p.subs[k]);
    }
  }
}
