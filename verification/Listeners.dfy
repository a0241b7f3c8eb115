/** What callers of the runtime observe: recently used results stay cached, a new listener holds the value at once,
    unsubscribing at once undoes subscribing, and no subscription outlives its last listener. */
module Listeners {
  import opened Wrappers
  import opened DocumentStore
  import opened ChangeMatcher
  import opened QueryHandlers
  import opened QueryCache
  import opened Cluster

  // ----- Recently used results -----

  /** How many keys were used after `key`. */
  function UsedAfter(order: seq<string>, key: string): nat {
    if order == [] then 0 else if order[0] == key then |order| - 1 else UsedAfter(order[1..], key)
  }

  lemma {:induction false} WithoutKeepsRank(order: seq<string>, other: string, key: string)
    requires key in order && key != other
    ensures key in Without(order, other) && UsedAfter(Without(order, other), key) <= UsedAfter(order, key)
  {
    WithoutMembers(order, other);
    if order[0] == key {
      WithoutShrinks(order, other);
    } else {
      assert order == [order[0]] + order[1..];
      WithoutKeepsRank(order[1..], other, key);
      var rest := Without(order[1..], other);
      assert order[0] != other ==> Without(order, other)[1..] == rest;
      assert order[0] == other ==> Without(order, other) == rest;
    }
  }

  lemma {:induction false} WithoutShrinks(order: seq<string>, other: string)
    ensures |Without(order, other)| <= |order|
  {
    if order != [] {
      WithoutShrinks(order[1..], other);
    }
  }

  lemma {:induction false} AppendRank(order: seq<string>, last: string, key: string)
    requires key in order
    ensures UsedAfter(order + [last], key) == UsedAfter(order, key) + 1
  {
    if order[0] != key {
      assert (order + [last])[1..] == order[1..] + [last];
      assert order == [order[0]] + order[1..];
      AppendRank(order[1..], last, key);
    }
  }

  lemma {:induction false} DropKeepsRank(order: seq<string>, n: nat, key: string)
    requires key in order && n + UsedAfter(order, key) < |order|
    ensures key in order[n..] && UsedAfter(order[n..], key) == UsedAfter(order, key)
    decreases n
  {
    if n > 0 {
      assert order == [order[0]] + order[1..];
      assert order[1..][n - 1..] == order[n..];
      DropKeepsRank(order[1..], n - 1, key);
    } else {
      assert order[0..] == order;
    }
  }

  lemma {:induction false} NewestRank(order: seq<string>, key: string)
    requires key !in order
    ensures UsedAfter(order + [key], key) == 0
  {
    if order != [] {
      assert (order + [key])[1..] == order[1..] + [key];
      NewestRank(order[1..], key);
    }
  }

  lemma {:induction false} RankBelow(order: seq<string>, key: string)
    requires key in order
    ensures UsedAfter(order, key) < |order|
  {
    if order[0] != key {
      assert order == [order[0]] + order[1..];
      RankBelow(order[1..], key);
    }
  }

  /** Among the `n` keys used last. */
  predicate AmongLast(order: seq<string>, key: string, n: nat) {
    key in order && UsedAfter(order, key) < n
  }

  lemma KeptRank(order: seq<string>, capacity: nat, key: string, n: nat)
    requires AmongLast(order, key, n) && n <= capacity
    ensures AmongLast(Kept(order, capacity), key, n)
  {
    if |order| > capacity {
      DropKeepsRank(order, |order| - capacity, key);
    }
  }

  lemma UseRank(order: seq<string>, used: string, key: string, n: nat)
    requires AmongLast(order, key, n) || key == used
    ensures AmongLast(MakeNewest(order, used), key, n + 1)
  {
    WithoutMembers(order, used);
    if key == used {
      NewestRank(Without(order, used), used);
    } else {
      WithoutKeepsRank(order, used, key);
      AppendRank(Without(order, used), used, key);
    }
  }

  /** Serving a call makes its key the newest, and any other key at most one place older. */
  lemma ServeRank(app: App, p: Process, call: QueryCall, snapshot: Option<Documents>, key: string, n: nat)
    requires OrderOk(p.order, p.cache.Keys) && n < app.capacity
    requires AmongLast(p.order, key, n)
      || (key == KeyOf(call) && InvokeQuery(app, p, call, snapshot).1.Some?)
    ensures var q := InvokeQuery(app, p, call, snapshot).0;
            AmongLast(q.order, key, n + 1) && OrderOk(q.order, q.cache.Keys)
  {
    var k := KeyOf(call);
    if InvokeQuery(app, p, call, snapshot).1.Some? {
      UseRank(p.order, k, key, n);
      MakeNewestOk(p.order, k, p.cache.Keys);
      if Cached(p, k) {
        assert p.cache.Keys + {k} == p.cache.Keys;
      } else {
        ServeMissRank(app, p, call, snapshot, key, n);
      }
    }
  }

  lemma ServeMissRank(app: App, p: Process, call: QueryCall, snapshot: Option<Documents>, key: string, n: nat)
    requires OrderOk(p.order, p.cache.Keys) && n < app.capacity && !Cached(p, KeyOf(call))
    requires AmongLast(MakeNewest(p.order, KeyOf(call)), key, n + 1)
    requires InvokeQuery(app, p, call, snapshot).1.Some?
    ensures var q := InvokeQuery(app, p, call, snapshot).0;
            AmongLast(q.order, key, n + 1) && OrderOk(q.order, q.cache.Keys)
  {
    var k, o := KeyOf(call), Evaluate(app, snapshot.value, call);
    var e := CacheEntry(call, o.value, o.deps, p.version, false);
    MakeNewestOk(p.order, k, p.cache.Keys);
    assert p.cache[k := e].Keys == p.cache.Keys + {k};
    KeptOk(MakeNewest(p.order, k), app.capacity, p.cache[k := e]);
    KeptRank(MakeNewest(p.order, k), app.capacity, key, n + 1);
  }

  datatype Asked = Asked(call: QueryCall, snapshot: Option<Documents>)

  function ServeAll(app: App, p: Process, asked: seq<Asked>): Process {
    if asked == [] then p
    else
      var last := asked[|asked| - 1];
      InvokeQuery(app, ServeAll(app, p, asked[..|asked| - 1]), last.call, last.snapshot).0
  }

  /** Least recently used eviction: a result stays cached while fewer than `capacity` calls are served after it was
      last used, whatever they are and whether or not they succeed. */
  lemma {:induction false} RecentStays(
    app: App, p: Process, call: QueryCall, snapshot: Option<Documents>, later: seq<Asked>)
    requires OrderOk(p.order, p.cache.Keys) && InvokeQuery(app, p, call, snapshot).1.Some?
    requires |later| < app.capacity
    ensures var q := ServeAll(app, InvokeQuery(app, p, call, snapshot).0, later);
            && KeyOf(call) in q.cache && OrderOk(q.order, q.cache.Keys)
            && AmongLast(q.order, KeyOf(call), |later| + 1)
    decreases |later|
  {
    if later == [] {
      ServeRank(app, p, call, snapshot, KeyOf(call), 0);
    } else {
      var n := |later| - 1;
      RecentStays(app, p, call, snapshot, later[..n]);
      var q := ServeAll(app, InvokeQuery(app, p, call, snapshot).0, later[..n]);
      ServeRank(app, q, later[n].call, later[n].snapshot, KeyOf(call), |later|);
    }
  }

  // ----- Listeners -----

  function ListenersAt(p: Process, key: string): map<nat, Value> {
    if key in p.subs then p.subs[key].listeners else map[]
  }

  /** The listeners and what they were given, per key. */
  predicate SameListeners(p: Process, q: Process, key: string) {
    (key in q.subs <==> key in p.subs) && ListenersAt(q, key) == ListenersAt(p, key)
  }

  /** Every subscription has a listener. */
  ghost predicate Attended(p: Process) {
    forall k | k in p.subs :: p.subs[k].listeners != map[]
  }

  lemma InvokeKeepsListeners(app: App, p: Process, call: QueryCall, snapshot: Option<Documents>, key: string)
    ensures SameListeners(p, InvokeQuery(app, p, call, snapshot).0, key)
    ensures InvokeQuery(app, p, call, snapshot).0.subOrder == p.subOrder
  {
  }

  /** Whether a call is served, and with what, does not depend on the subscriptions. */
  lemma SubscriptionsDoNotServe(app: App, p: Process, q: Process, call: QueryCall, snapshot: Option<Documents>)
    requires p.cache == q.cache
    ensures InvokeQuery(app, p, call, snapshot).1 == InvokeQuery(app, q, call, snapshot).1
  {
  }

  /** A notification gives the one value to all listeners of its key, or to none of them; no other listener hears of
      it. */
  lemma NotifyReachesAll(app: App, p: Process, snapshot: Option<Documents>)
    requires p.queue != [] && p.queue[0] in p.subs
    ensures var key, q := p.queue[0], Notify(app, p, snapshot);
            var value := InvokeQuery(app, p, p.subs[key].call, snapshot).1;
            && key in q.subs && q.subs[key].listeners.Keys == p.subs[key].listeners.Keys
            && (q.subs[key].missed <==> value.None?)
            && (value.Some? ==> forall l | l in q.subs[key].listeners :: q.subs[key].listeners[l] == value.value)
            && (value.None? ==> q.subs[key].listeners == p.subs[key].listeners)
            && forall k | k != key :: SameListeners(p, q, k)
  {
    var key, rest := p.queue[0], p.(queue := p.queue[1..]);
    SubscriptionsDoNotServe(app, p, rest, p.subs[key].call, snapshot);
    InvokeKeepsListeners(app, rest, p.subs[key].call, snapshot, key);
    forall k | k != key ensures SameListeners(p, Notify(app, p, snapshot), k) {
      NotifyLeavesOthers(app, p, snapshot, k);
    }
  }

  lemma NotifyLeavesOthers(app: App, p: Process, snapshot: Option<Documents>, k: string)
    requires p.queue != [] && k != p.queue[0]
    ensures SameListeners(p, Notify(app, p, snapshot), k)
  {
    var key, rest := p.queue[0], p.(queue := p.queue[1..]);
    if key in p.subs {
      InvokeKeepsListeners(app, rest, p.subs[key].call, snapshot, k);
    }
  }

  lemma AddKeepsOthers(p: Process, call: QueryCall, k: string)
    ensures k != KeyOf(call) ==> SameListeners(p, AddSubscription(p, call), k)
    ensures KeyOf(call) in AddSubscription(p, call).subs
    ensures ListenersAt(AddSubscription(p, call), KeyOf(call)) == ListenersAt(p, KeyOf(call))
  {
  }

  /** What becomes of the listeners at one key when a value arrives for them, or none does. */
  lemma SettlesListeners(p: Process, key: string, listener: nat, value: Option<Value>, k: string)
    requires key in p.subs
    ensures var q := if value.Some? then SetListener(p, key, listener, value.value)
                     else RemoveListener(p, key, listener);
            && (k != key ==> SameListeners(p, q, k))
            && (value.Some? ==> key in q.subs && ListenersAt(q, key) == ListenersAt(p, key)[listener := value.value])
            && (value.None? ==>
                  && ListenersAt(q, key) == ListenersAt(p, key) - {listener}
                  && (key in q.subs <==> ListenersAt(q, key) != map[]))
  {
  }

  lemma SubscribeAt(
    app: App, p: Process, call: QueryCall, listener: nat, snapshot: Option<Documents>, k: string)
    ensures var key, q := KeyOf(call), Subscribe(app, p, call, listener, snapshot);
            var value := InvokeQuery(app, p, call, snapshot).1;
            && (k != key ==> SameListeners(p, q, k))
            && (value.Some? ==> key in q.subs && ListenersAt(q, key) == ListenersAt(p, key)[listener := value.value])
            && (value.None? ==>
                  && ListenersAt(q, key) == ListenersAt(p, key) - {listener}
                  && (key in q.subs <==> ListenersAt(q, key) != map[]))
  {
    var key, wide := KeyOf(call), AddSubscription(p, call);
    var (after, value) := InvokeQuery(app, wide, call, snapshot);
    SubscriptionsDoNotServe(app, p, wide, call, snapshot);
    AddKeepsOthers(p, call, k);
    InvokeKeepsListeners(app, wide, call, snapshot, k);
    InvokeKeepsListeners(app, wide, call, snapshot, key);
    SettlesListeners(after, key, listener, value, k);
  }

  /** A new listener holds the value the query was served with, beside the others of its key; without a value it is
      not registered, not even if it was before. */
  lemma SubscribeHolds(app: App, p: Process, call: QueryCall, listener: nat, snapshot: Option<Documents>)
    requires Attended(p)
    ensures var key, q := KeyOf(call), Subscribe(app, p, call, listener, snapshot);
            var value := InvokeQuery(app, p, call, snapshot).1;
            && (value.Some? ==> key in q.subs && ListenersAt(q, key) == ListenersAt(p, key)[listener := value.value])
            && (value.None? ==>
                  && ListenersAt(q, key) == ListenersAt(p, key) - {listener}
                  && (key in q.subs <==> ListenersAt(q, key) != map[]))
            && Attended(q) && forall k | k != key :: SameListeners(p, q, k)
  {
    var key, q := KeyOf(call), Subscribe(app, p, call, listener, snapshot);
    forall k ensures k != key ==> SameListeners(p, q, k) {
      SubscribeAt(app, p, call, listener, snapshot, k);
    }
    SubscribeAt(app, p, call, listener, snapshot, key);
    forall k | k in q.subs ensures q.subs[k].listeners != map[] {
      assert k != key ==> SameListeners(p, q, k);
      assert listener in ListenersAt(p, key)[listener := ""];
      assert InvokeQuery(app, p, call, snapshot).1.Some? ==> listener in ListenersAt(q, key);
    }
  }

  /** A handle of the object under its key removes its listener alone, and the subscription with the last one.  Any
      other handle takes away the whole subscription under its key if its own object is left empty, and does nothing
      to it otherwise. */
  lemma UnsubscribeRemoves(p: Process, h: Handle)
    requires Attended(p)
    ensures var q := Unsubscribe(p, h);
            && (IsCurrent(p, h) ==>
                  && ListenersAt(q, h.key) == ListenersAt(p, h.key) - {h.listener}
                  && (h.key in q.subs <==> ListenersAt(q, h.key) != map[]))
            && (!IsCurrent(p, h) ==>
                  if LeftIn(p, h.entry) - {h.listener} == map[] then h.key !in q.subs else SameListeners(p, q, h.key))
            && Attended(q) && q.cache == p.cache && q.order == p.order
            && forall k | k != h.key :: SameListeners(p, q, k)
  {
  }

  lemma {:induction false} WithoutLast(order: seq<string>, key: string)
    requires key !in order
    ensures Without(order + [key], key) == order && Without(order, key) == order
  {
    if order == [] {
      assert [] + [key] == [key] && [key][1..] == [];
    } else {
      assert (order + [key])[1..] == order[1..] + [key];
      assert order == [order[0]] + order[1..];
      WithoutLast(order[1..], key);
    }
  }

  /** Unsubscribing undoes subscribing: the subscriptions, their order and their listeners are as before. */
  lemma UnsubscribeUndoes(app: App, p: Process, call: QueryCall, listener: nat, snapshot: Option<Documents>)
    requires Attended(p) && OrderOk(p.subOrder, p.subs.Keys)
    requires listener !in ListenersAt(p, KeyOf(call)) && InvokeQuery(app, p, call, snapshot).1.Some?
    ensures var key, held := KeyOf(call), Subscribe(app, p, call, listener, snapshot);
            && key in held.subs
            && var h := Handle(key, held.subs[key].entry, listener);
               var q := Unsubscribe(held, h);
               h in held.handles && q.subOrder == p.subOrder && forall k :: SameListeners(p, q, k)
  {
    var key, held := KeyOf(call), Subscribe(app, p, call, listener, snapshot);
    SubscribeHolds(app, p, call, listener, snapshot);
    var h := Handle(key, held.subs[key].entry, listener);
    var q := Unsubscribe(held, h);
    UnsubscribeRemoves(held, h);
    SubscribeHandle(app, p, call, listener, snapshot);
    AddedRemoved(ListenersAt(p, key), listener, InvokeQuery(app, p, call, snapshot).1.value);
    forall k ensures SameListeners(p, q, k) {
      assert k != key ==> SameListeners(p, held, k) && SameListeners(held, q, k);
    }
    UndoneOrder(app, p, call, listener, snapshot, h);
  }

  lemma AddedRemoved(listeners: map<nat, Value>, listener: nat, value: Value)
    requires listener !in listeners
    ensures listeners[listener := value] - {listener} == listeners
  {
  }

  /** Who subscribes with success gets a handle for the object now under the key: the one that was there, or a new
      one. */
  lemma SubscribeHandle(app: App, p: Process, call: QueryCall, listener: nat, snapshot: Option<Documents>)
    requires InvokeQuery(app, p, call, snapshot).1.Some?
    ensures var key, q := KeyOf(call), Subscribe(app, p, call, listener, snapshot);
            && key in q.subs && q.subs[key].entry == (if key in p.subs then p.subs[key].entry else p.made)
            && q.handles == p.handles + {Handle(key, q.subs[key].entry, listener)}
            && q.subOrder == AddSubscription(p, call).subOrder
  {
    SubscriptionsDoNotServe(app, p, AddSubscription(p, call), call, snapshot);
  }

  lemma RemovalOrder(p: Process, key: string, listener: nat)
    ensures RemoveListener(p, key, listener).subOrder
         == if key in p.subs && p.subs[key].listeners - {listener} == map[] then Without(p.subOrder, key)
            else p.subOrder
  {
  }

  lemma UndoneOrder(
    app: App, p: Process, call: QueryCall, listener: nat, snapshot: Option<Documents>, h: Handle)
    requires Attended(p) && OrderOk(p.subOrder, p.subs.Keys)
    requires listener !in ListenersAt(p, KeyOf(call)) && InvokeQuery(app, p, call, snapshot).1.Some?
    requires var held := Subscribe(app, p, call, listener, snapshot);
             KeyOf(call) in held.subs && h == Handle(KeyOf(call), held.subs[KeyOf(call)].entry, listener)
    ensures Unsubscribe(Subscribe(app, p, call, listener, snapshot), h).subOrder == p.subOrder
  {
    var key, held := KeyOf(call), Subscribe(app, p, call, listener, snapshot);
    SubscribeHandle(app, p, call, listener, snapshot);
    SubscribeAt(app, p, call, listener, snapshot, key);
    AddedRemoved(ListenersAt(p, key), listener, InvokeQuery(app, p, call, snapshot).1.value);
    assert held.subs[key].listeners - {listener} == ListenersAt(p, key);
    RemovalOrder(held, key, listener);
    assert Unsubscribe(held, h) == RemoveListener(held, key, listener);
    if key !in p.subs {
      WithoutLast(p.subOrder, key);
    }
  }

  // ----- In every run -----

  ghost predicate AllAttended(g: System) {
    forall id | id in g.procs :: Attended(g.procs[id])
  }

  lemma NotifyAttends(app: App, p: Process, snapshot: Option<Documents>)
    requires Attended(p) && p.queue != []
    ensures Attended(Notify(app, p, snapshot))
  {
    var q := Notify(app, p, snapshot);
    if p.queue[0] in p.subs {
      NotifyReachesAll(app, p, snapshot);
      forall k | k in q.subs ensures q.subs[k].listeners != map[] {
        if k != p.queue[0] {
          assert SameListeners(p, q, k);
        } else {
          var l :| l in p.subs[k].listeners;
          assert l in q.subs[k].listeners.Keys;
        }
      }
    }
  }

  lemma QueryAttends(app: App, p: Process, call: QueryCall, snapshot: Option<Documents>)
    requires Attended(p)
    ensures Attended(InvokeQuery(app, p, call, snapshot).0)
  {
    forall k ensures SameListeners(p, InvokeQuery(app, p, call, snapshot).0, k) {
      InvokeKeepsListeners(app, p, call, snapshot, k);
    }
  }

  lemma StepAttends(app: App, keep: Retention, g: System, e: Event)
    requires AllAttended(g)
    ensures AllAttended(Step(app, keep, g, e))
  {
    if Enabled(g, e) && e.id in g.procs {
      var p := g.procs[e.id];
      assert Attended(p);
      match e
      case NotifyNext(id) => NotifyAttends(app, p, Snapshot(g, p));
      case Query(id, query) => QueryAttends(app, p, query, Snapshot(g, p));
      case SubscribeTo(id, query, listener) => SubscribeHolds(app, p, query, listener, Snapshot(g, p));
      case UnsubscribeFrom(id, handle) => UnsubscribeRemoves(p, handle);
      case _ =>
    }
  }

  /** In every run no process keeps a subscription without listeners. */
  lemma {:induction false} NoneOutlivesItsListeners(app: App, keep: Retention, events: seq<Event>)
    ensures AllAttended(RunEvents(app, keep, events))
  {
    if events != [] {
      NoneOutlivesItsListeners(app, keep, events[..|events| - 1]);
      StepAttends(app, keep, RunEvents(app, keep, events[..|events| - 1]), events[|events| - 1]);
    }
  }
}
