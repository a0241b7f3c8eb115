/** The cache of one process stays coherent: every operation keeps it, whatever is evicted. */
module CacheCoherence {
  import opened Wrappers
  import opened DocumentStore
  import opened ChangeMatcher
  import opened QueryHandlers
  import opened QueryCache

  // ----- Invariant -----

  /** A clean entry holds what its call computes on the tables at the process's version, if the call lost no read on
      any revision of the `past`. */
  ghost predicate EntryOk(app: App, past: seq<Documents>, docs: Documents, key: string, e: CacheEntry) {
    && CallOk(e.call) && KeyOf(e.call) == key
    && (!e.dirty && ReadsKept(app, past, e.call) ==> Evaluate(app, docs, e.call) == Done(e.value, e.deps))
  }

  ghost predicate CacheOk(app: App, past: seq<Documents>, docs: Documents, p: Process) {
    && OrderOk(p.order, p.cache.Keys) && |p.order| <= app.capacity
    && forall k | k in p.cache :: EntryOk(app, past, docs, k, p.cache[k])
  }

  /** Every listener was last given what the call computes, and the dependencies are those of that run. */
  predicate FreshSub(app: App, docs: Documents, p: Process, key: string, sub: Subscription) {
    var o := Evaluate(app, docs, sub.call);
    && o.Done? && o.deps == sub.deps
    && (forall l | l in sub.listeners :: sub.listeners[l] == o.value)
    && (key in p.cache ==> !p.cache[key].dirty)
  }

  ghost predicate SubOk(app: App, past: seq<Documents>, docs: Documents, p: Process, key: string, sub: Subscription) {
    && CallOk(sub.call) && KeyOf(sub.call) == key
    && (!sub.missed && key !in p.queue && ReadsKept(app, past, sub.call) ==> FreshSub(app, docs, p, key, sub))
  }

  ghost predicate SubsOk(app: App, past: seq<Documents>, docs: Documents, p: Process) {
    && OrderOk(p.subOrder, p.subs.Keys)
    && forall k | k in p.subs :: SubOk(app, past, docs, p, k, p.subs[k])
  }

  ghost predicate ProcessOk(app: App, past: seq<Documents>, docs: Documents, p: Process) {
    CacheOk(app, past, docs, p) && SubsOk(app, past, docs, p)
  }

  // ----- Serving a query -----

  /** What serving `call` with `value` may change: the entry at its key becomes clean or goes away, other entries may
      be evicted, and the subscription at its key learns dependencies.  Value and dependencies are those of the call
      on the tables, if it lost no read. */
  ghost predicate Served(
    app: App, past: seq<Documents>, docs: Documents, p: Process, q: Process, call: QueryCall, value: Value)
  {
    var key, o := KeyOf(call), Evaluate(app, docs, call);
    && (forall k | k in q.cache && k != key :: k in p.cache && q.cache[k] == p.cache[k])
    && (key in q.cache ==> !q.cache[key].dirty)
    && SameButDeps(p, q, key)
    && (ReadsKept(app, past, call) ==> o.Done? && o.value == value && (key in q.subs ==> q.subs[key].deps == o.deps))
  }

  /** Outside the cache, at most the dependencies at one key differ. */
  ghost predicate SameButDeps(p: Process, q: Process, key: string) {
    && q.subs.Keys == p.subs.Keys
    && (forall k | k in p.subs && k != key :: q.subs[k] == p.subs[k])
    && (key in p.subs ==> q.subs[key] == p.subs[key].(deps := q.subs[key].deps))
    && q == p.(cache := q.cache, order := q.order, subs := q.subs)
  }

  lemma SetDepsSame(p: Process, q: Process, key: string, deps: seq<Dependency>)
    requires q == p.(cache := q.cache, order := q.order, subs := SetDeps(p.subs, key, deps))
    ensures SameButDeps(p, q, key) && (key in q.subs ==> q.subs[key].deps == deps)
  {
  }

  lemma HitServes(app: App, past: seq<Documents>, docs: Documents, p: Process, call: QueryCall)
    requires CacheOk(app, past, docs, p) && CallOk(call) && Cached(p, KeyOf(call))
    ensures var q := Hit(p, KeyOf(call));
            CacheOk(app, past, docs, q) && Served(app, past, docs, p, q, call, p.cache[KeyOf(call)].value)
  {
    var key := KeyOf(call);
    var e := p.cache[key];
    assert EntryOk(app, past, docs, key, e);
    SameKeySameResult(app, call, e.call, docs);
    SameKeySameConditions(app, call, e.call, past);
    MakeNewestOk(p.order, key, p.cache.Keys);
    assert p.cache.Keys + {key} == p.cache.Keys;
    NewestLength(p.order, key);
    SetDepsSame(p, Hit(p, key), key, e.deps);
  }

  lemma {:induction false} WithoutLength(order: seq<string>, key: string)
    ensures |Without(order, key)| <= |order|
    ensures key in order ==> |Without(order, key)| < |order|
  {
    if order != [] {
      WithoutLength(order[1..], key);
    }
  }

  lemma NewestLength(order: seq<string>, key: string)
    requires key in order
    ensures |MakeNewest(order, key)| <= |order|
  {
    WithoutLength(order, key);
  }

  lemma SetCacheServes(app: App, past: seq<Documents>, docs: Documents, p: Process, call: QueryCall)
    requires CacheOk(app, past, docs, p) && CallOk(call) && Evaluate(app, docs, call).Done?
    ensures var o := Evaluate(app, docs, call);
            var q := SetCache(app, p, KeyOf(call), CacheEntry(call, o.value, o.deps, p.version, false));
            CacheOk(app, past, docs, q) && Served(app, past, docs, p, q, call, o.value)
  {
    var key, o := KeyOf(call), Evaluate(app, docs, call);
    var e := CacheEntry(call, o.value, o.deps, p.version, false);
    var wide := p.cache[key := e];
    MakeNewestOk(p.order, key, p.cache.Keys);
    assert wide.Keys == p.cache.Keys + {key};
    KeptOk(MakeNewest(p.order, key), app.capacity, wide);
    var q := SetCache(app, p, key, e);
    SetDepsSame(p, q, key, e.deps);
    forall k | k in q.cache ensures EntryOk(app, past, docs, k, q.cache[k]) {
      assert k != key ==> EntryOk(app, past, docs, k, p.cache[k]);
    }
  }

  /** A query is answered with what it computes on the current tables, from the cache or from a snapshot, if it lost no
      read. */
  lemma InvokeServes(
    app: App, past: seq<Documents>, docs: Documents, p: Process, call: QueryCall, snapshot: Option<Documents>)
    requires CacheOk(app, past, docs, p) && CallOk(call) && (snapshot.Some? ==> snapshot.value == docs)
    ensures var (q, value) := InvokeQuery(app, p, call, snapshot);
            && CacheOk(app, past, docs, q)
            && (value.Some? ==> Served(app, past, docs, p, q, call, value.value))
            && (value.None? ==> q == p)
  {
    if Cached(p, KeyOf(call)) {
      HitServes(app, past, docs, p, call);
    } else if snapshot.Some? && Evaluate(app, docs, call).Done? {
      SetCacheServes(app, past, docs, p, call);
    }
  }

  /** Serving a call leaves every up-to-date subscription up to date. */
  lemma ServedKeepsSub(
    app: App, past: seq<Documents>, docs: Documents, p: Process, q: Process, call: QueryCall, value: Value, k: string)
    requires CallOk(call) && Served(app, past, docs, p, q, call, value)
    requires k in p.subs && SubOk(app, past, docs, p, k, p.subs[k])
    ensures k in q.subs && SubOk(app, past, docs, q, k, q.subs[k])
  {
    if k == KeyOf(call) {
      SameKeySameResult(app, call, p.subs[k].call, docs);
      SameKeySameConditions(app, call, p.subs[k].call, past);
    }
  }

  lemma ServedKeepsSubs(
    app: App, past: seq<Documents>, docs: Documents, p: Process, q: Process, call: QueryCall, value: Value)
    requires CallOk(call) && Served(app, past, docs, p, q, call, value) && SubsOk(app, past, docs, p)
    ensures SubsOk(app, past, docs, q)
  {
    assert q.subs.Keys == p.subs.Keys;
    forall k | k in q.subs ensures SubOk(app, past, docs, q, k, q.subs[k]) {
      ServedKeepsSub(app, past, docs, p, q, call, value, k);
    }
  }

  lemma QueryKeeps(
    app: App, past: seq<Documents>, docs: Documents, p: Process, call: QueryCall, snapshot: Option<Documents>)
    requires ProcessOk(app, past, docs, p) && CallOk(call) && (snapshot.Some? ==> snapshot.value == docs)
    ensures ProcessOk(app, past, docs, InvokeQuery(app, p, call, snapshot).0)
  {
    InvokeServes(app, past, docs, p, call, snapshot);
    var (q, value) := InvokeQuery(app, p, call, snapshot);
    if value.Some? {
      ServedKeepsSubs(app, past, docs, p, q, call, value.value);
    }
  }

  // ----- Publishing a change -----

  lemma {:induction false} AffectedEntriesMembers(p: Process, order: seq<string>, change: Change)
    ensures forall k :: k in AffectedEntries(p, order, change) <==>
              k in order && k in p.cache && AnyAffected(change, p.cache[k].deps)
  {
    if order != [] {
      AffectedEntriesMembers(p, order[1..], change);
      assert order == [order[0]] + order[1..];
    }
  }

  lemma {:induction false} AffectedSubscriptionsMembers(p: Process, order: seq<string>, change: Change)
    ensures forall k :: k in AffectedSubscriptions(p, order, change) <==>
              k in order && k !in p.cache && k in p.subs && AnyAffected(change, p.subs[k].deps)
  {
    if order != [] {
      AffectedSubscriptionsMembers(p, order[1..], change);
      assert order == [order[0]] + order[1..];
    }
  }

  /** The keys to notify: affected cache entries, and affected subscriptions whose entry was evicted. */
  lemma QueueMembers(p: Process, change: Change)
    requires OrderOk(p.order, p.cache.Keys) && OrderOk(p.subOrder, p.subs.Keys)
    ensures forall k :: k in Publish(p, change).queue <==>
              if k in p.cache then AnyAffected(change, p.cache[k].deps)
              else k in p.subs && AnyAffected(change, p.subs[k].deps)
  {
    AffectedEntriesMembers(p, p.order, change);
    AffectedSubscriptionsMembers(p, p.subOrder, change);
  }

  lemma PublishKeepsEntry(
    app: App, past: seq<Documents>, a: Documents, b: Documents, p: Process, change: Change, k: string)
    requires Reports(a, b, change) && a in past && k in p.cache && EntryOk(app, past, a, k, p.cache[k])
    ensures EntryOk(app, past, b, k, Publish(p, change).cache[k])
  {
    var e := p.cache[k];
    if !AnyAffected(change, e.deps) && !e.dirty && ReadsKept(app, past, e.call) {
      EvaluateUnaffected(app, a, b, change, e.call);
    }
  }

  lemma PublishKeepsSub(
    app: App, past: seq<Documents>, a: Documents, b: Documents, p: Process, change: Change, k: string)
    requires OrderOk(p.order, p.cache.Keys) && OrderOk(p.subOrder, p.subs.Keys)
    requires forall j | j in p.cache :: EntryOk(app, past, a, j, p.cache[j])
    requires Reports(a, b, change) && a in past
    requires p.queue == [] && k in p.subs && SubOk(app, past, a, p, k, p.subs[k])
    ensures SubOk(app, past, b, Publish(p, change), k, p.subs[k])
  {
    var sub, q := p.subs[k], Publish(p, change);
    QueueMembers(p, change);
    if !sub.missed && k !in q.queue && ReadsKept(app, past, sub.call) {
      if k in p.cache {
        assert EntryOk(app, past, a, k, p.cache[k]);
        SameKeySameResult(app, sub.call, p.cache[k].call, a);
        SameKeySameConditions(app, sub.call, p.cache[k].call, past);
      }
      assert !AnyAffected(change, sub.deps);
      EvaluateUnaffected(app, a, b, change, sub.call);
    }
  }

  /** A change that reports all differences leaves the process coherent with the new tables: every entry and every
      subscription whose own call lost no read. */
  lemma PublishKeeps(app: App, past: seq<Documents>, a: Documents, b: Documents, p: Process, change: Change)
    requires ProcessOk(app, past, a, p) && p.queue == [] && Reports(a, b, change) && a in past
    ensures ProcessOk(app, past, b, Publish(p, change))
  {
    var q := Publish(p, change);
    assert q.cache.Keys == p.cache.Keys;
    forall k | k in q.cache ensures EntryOk(app, past, b, k, q.cache[k]) {
      PublishKeepsEntry(app, past, a, b, p, change, k);
    }
    forall k | k in q.subs ensures SubOk(app, past, b, q, k, q.subs[k]) {
      PublishKeepsSub(app, past, a, b, p, change, k);
    }
  }

  /** A longer past asks for more reads to be kept, so it promises less. */
  lemma PastGrows(app: App, past: seq<Documents>, more: seq<Documents>, docs: Documents, p: Process)
    requires ProcessOk(app, past, docs, p) && past <= more
    ensures ProcessOk(app, more, docs, p)
  {
    forall k | k in p.cache ensures EntryOk(app, more, docs, k, p.cache[k]) {
      KeptBefore(app, past, more, p.cache[k].call);
      assert EntryOk(app, past, docs, k, p.cache[k]);
    }
    forall k | k in p.subs ensures SubOk(app, more, docs, p, k, p.subs[k]) {
      KeptBefore(app, past, more, p.subs[k].call);
      assert SubOk(app, past, docs, p, k, p.subs[k]);
    }
  }

  lemma KeptBefore(app: App, past: seq<Documents>, more: seq<Documents>, call: QueryCall)
    requires past <= more
    ensures ReadsKept(app, more, call) ==> ReadsKept(app, past, call)
    ensures AlwaysAnswers(app, more, call) ==> AlwaysAnswers(app, past, call)
  {
    assert forall n | 0 <= n < |past| :: past[n] == more[n];
  }

  // ----- Notifying -----

  lemma Dequeued(app: App, past: seq<Documents>, docs: Documents, p: Process, k: string)
    requires p.queue != [] && k in p.subs && SubOk(app, past, docs, p, k, p.subs[k]) && k != p.queue[0]
    ensures SubOk(app, past, docs, p.(queue := p.queue[1..]), k, p.subs[k])
  {
    assert p.queue == [p.queue[0]] + p.queue[1..];
  }

  lemma DeliveredOk(
    app: App, past: seq<Documents>, docs: Documents, p: Process, q: Process, call: QueryCall, value: Value)
    requires CallOk(call) && Served(app, past, docs, p, q, call, value)
    requires KeyOf(call) in p.subs && p.subs[KeyOf(call)].call == call
    ensures var key := KeyOf(call);
            key in q.subs && SubOk(app, past, docs, q, key, Deliver(q.subs[key], value))
  {
  }

  /** Subscriptions and cache do not look at each other's listeners. */
  lemma ReplaceSub(app: App, past: seq<Documents>, docs: Documents, p: Process, key: string, sub: Subscription)
    requires OrderOk(p.subOrder, p.subs.Keys) && key in p.subs
    requires forall k | k in p.subs && k != key :: SubOk(app, past, docs, p, k, p.subs[k])
    requires SubOk(app, past, docs, p, key, sub)
    ensures SubsOk(app, past, docs, p.(subs := p.subs[key := sub]))
  {
    var q := p.(subs := p.subs[key := sub]);
    assert q.subs.Keys == p.subs.Keys;
    forall k | k in q.subs ensures SubOk(app, past, docs, q, k, q.subs[k]) {
      assert k != key ==> SubOk(app, past, docs, p, k, p.subs[k]);
    }
  }

  lemma NotifyKeeps(app: App, past: seq<Documents>, docs: Documents, p: Process, snapshot: Option<Documents>)
    requires ProcessOk(app, past, docs, p) && p.queue != [] && (snapshot.Some? ==> snapshot.value == docs)
    ensures ProcessOk(app, past, docs, Notify(app, p, snapshot))
  {
    var key, rest := p.queue[0], p.(queue := p.queue[1..]);
    forall k | k in p.subs && k != key ensures SubOk(app, past, docs, rest, k, p.subs[k]) {
      Dequeued(app, past, docs, p, k);
    }
    if key in p.subs {
      assert SubOk(app, past, docs, p, key, p.subs[key]);
      var call := p.subs[key].call;
      InvokeServes(app, past, docs, rest, call, snapshot);
      var (after, value) := InvokeQuery(app, rest, call, snapshot);
      if value.Some? {
        NotifyDelivers(app, past, docs, rest, after, call, value.value);
      } else {
        ReplaceSub(app, past, docs, rest, key, rest.subs[key].(missed := true));
      }
    }
  }

  lemma NotifyDelivers(
    app: App, past: seq<Documents>, docs: Documents, rest: Process, after: Process, call: QueryCall, value: Value)
    requires CacheOk(app, past, docs, after) && CallOk(call) && Served(app, past, docs, rest, after, call, value)
    requires OrderOk(rest.subOrder, rest.subs.Keys)
    requires KeyOf(call) in rest.subs && rest.subs[KeyOf(call)].call == call
    requires forall k | k in rest.subs && k != KeyOf(call) :: SubOk(app, past, docs, rest, k, rest.subs[k])
    ensures var key := KeyOf(call);
            && key in after.subs
            && ProcessOk(app, past, docs, after.(subs := after.subs[key := Deliver(after.subs[key], value)]))
  {
    var key := KeyOf(call);
    assert after.subs.Keys == rest.subs.Keys;
    forall k | k in after.subs && k != key ensures SubOk(app, past, docs, after, k, after.subs[k]) {
      ServedKeepsSub(app, past, docs, rest, after, call, value, k);
    }
    DeliveredOk(app, past, docs, rest, after, call, value);
    ReplaceSub(app, past, docs, after, key, Deliver(after.subs[key], value));
  }

  // ----- Subscribing -----

  ghost predicate OthersOk(app: App, past: seq<Documents>, docs: Documents, p: Process, key: string) {
    forall k | k in p.subs && k != key :: SubOk(app, past, docs, p, k, p.subs[k])
  }

  lemma DropKeeps(app: App, past: seq<Documents>, docs: Documents, p: Process, key: string)
    requires OrderOk(p.subOrder, p.subs.Keys) && OthersOk(app, past, docs, p, key)
    requires key in p.subs && p.subs[key].listeners != map[] ==> SubOk(app, past, docs, p, key, p.subs[key])
    ensures SubsOk(app, past, docs, DropEmpty(p, key))
  {
    var q := DropEmpty(p, key);
    WithoutMembers(p.subOrder, key);
    forall k | k in q.subs ensures SubOk(app, past, docs, q, k, q.subs[k]) {
      assert k != key ==> SubOk(app, past, docs, p, k, p.subs[k]);
    }
  }

  lemma AddKeepsOrder(p: Process, call: QueryCall)
    requires OrderOk(p.subOrder, p.subs.Keys)
    ensures OrderOk(AddSubscription(p, call).subOrder, AddSubscription(p, call).subs.Keys)
  {
    var q := AddSubscription(p, call);
    if KeyOf(call) !in p.subs {
      assert forall i | 0 <= i < |p.subOrder| :: p.subOrder[i] in p.subs;
      assert forall k :: k in q.subOrder <==> k in p.subOrder || k == KeyOf(call);
    }
  }

  lemma SubscribedOk(
    app: App, past: seq<Documents>, docs: Documents, p: Process, after: Process, call: QueryCall, listener: nat,
    value: Value)
    requires SubsOk(app, past, docs, p) && p.queue == [] && CallOk(call)
    requires Served(app, past, docs, AddSubscription(p, call), after, call, value)
    ensures SubsOk(app, past, docs, SetListener(after, KeyOf(call), listener, value))
  {
    var key, wide := KeyOf(call), AddSubscription(p, call);
    AddKeepsOrder(p, call);
    assert after.subs.Keys == wide.subs.Keys;
    forall k | k in after.subs && k != key ensures SubOk(app, past, docs, after, k, after.subs[k]) {
      OtherSubscribed(app, past, docs, p, after, call, value, k);
    }
    OwnSubscribed(app, past, docs, p, after, call, listener, value);
    ReplaceSub(
      app, past, docs, after, key, after.subs[key].(listeners := after.subs[key].listeners[listener := value]));
  }

  lemma OtherSubscribed(
    app: App, past: seq<Documents>, docs: Documents, p: Process, after: Process, call: QueryCall, value: Value,
    k: string)
    requires SubsOk(app, past, docs, p) && CallOk(call)
    requires Served(app, past, docs, AddSubscription(p, call), after, call, value)
    requires k in after.subs && k != KeyOf(call)
    ensures SubOk(app, past, docs, after, k, after.subs[k])
  {
    var wide := AddSubscription(p, call);
    assert SubOk(app, past, docs, wide, k, wide.subs[k]) by { assert SubOk(app, past, docs, p, k, p.subs[k]); }
    ServedKeepsSub(app, past, docs, wide, after, call, value, k);
  }

  lemma OwnSubscribed(
    app: App, past: seq<Documents>, docs: Documents, p: Process, after: Process, call: QueryCall, listener: nat,
    value: Value)
    requires SubsOk(app, past, docs, p) && p.queue == [] && CallOk(call)
    requires Served(app, past, docs, AddSubscription(p, call), after, call, value)
    ensures var key := KeyOf(call);
            && key in after.subs
            && SubOk(app, past, docs, after, key,
                     after.subs[key].(listeners := after.subs[key].listeners[listener := value]))
  {
    var key := KeyOf(call);
    if key in p.subs {
      assert SubOk(app, past, docs, p, key, p.subs[key]);
      SameKeySameResult(app, call, p.subs[key].call, docs);
      SameKeySameConditions(app, call, p.subs[key].call, past);
    }
  }

  lemma SameCache(app: App, past: seq<Documents>, docs: Documents, p: Process, q: Process)
    requires CacheOk(app, past, docs, p) && q.cache == p.cache && q.order == p.order
    ensures CacheOk(app, past, docs, q)
  {
  }

  lemma ListenersLeaveCache(p: Process, call: QueryCall, key: string, listener: nat, value: Value)
    ensures var q := AddSubscription(p, call); q.cache == p.cache && q.order == p.order
    ensures var q := SetListener(p, key, listener, value); q.cache == p.cache && q.order == p.order
    ensures var q := RemoveListener(p, key, listener); q.cache == p.cache && q.order == p.order
  {
  }

  lemma SubscribeKeeps(
    app: App, past: seq<Documents>, docs: Documents, p: Process, call: QueryCall, listener: nat,
    snapshot: Option<Documents>)
    requires ProcessOk(app, past, docs, p) && p.queue == [] && CallOk(call)
    requires snapshot.Some? ==> snapshot.value == docs
    ensures ProcessOk(app, past, docs, Subscribe(app, p, call, listener, snapshot))
  {
    var key, wide := KeyOf(call), AddSubscription(p, call);
    ListenersLeaveCache(p, call, key, listener, "");
    SameCache(app, past, docs, p, wide);
    InvokeServes(app, past, docs, wide, call, snapshot);
    var (after, value) := InvokeQuery(app, wide, call, snapshot);
    var served := if value.Some? then value.value else "";
    var q := Subscribe(app, p, call, listener, snapshot);
    ListenersLeaveCache(after, call, key, listener, served);
    SameCache(app, past, docs, after, q);
    if value.Some? {
      SubscribedOk(app, past, docs, p, after, call, listener, served);
    } else {
      UnservedKeeps(app, past, docs, p, call, listener);
    }
  }

  lemma RemovalKeeps(app: App, past: seq<Documents>, docs: Documents, p: Process, key: string, listener: nat)
    requires SubsOk(app, past, docs, p)
    ensures SubsOk(app, past, docs, RemoveListener(p, key, listener))
  {
    if key in p.subs {
      assert SubOk(app, past, docs, p, key, p.subs[key]);
      var sub := p.subs[key].(listeners := p.subs[key].listeners - {listener});
      ReplaceSub(app, past, docs, p, key, sub);
      DropKeeps(app, past, docs, p.(subs := p.subs[key := sub]), key);
    }
  }

  /** A subscription that gets no value loses its listener, and is dropped again if it has no others. */
  lemma UnservedKeeps(
    app: App, past: seq<Documents>, docs: Documents, p: Process, call: QueryCall, listener: nat)
    requires SubsOk(app, past, docs, p)
    ensures SubsOk(app, past, docs, RemoveListener(AddSubscription(p, call), KeyOf(call), listener))
  {
    var key, wide := KeyOf(call), AddSubscription(p, call);
    if key in p.subs {
      RemovalKeeps(app, past, docs, p, key, listener);
    } else {
      var empty := wide.subs[key].(listeners := wide.subs[key].listeners - {listener});
      var q := wide.(subs := wide.subs[key := empty]);
      AddKeepsOrder(p, call);
      assert q.subs.Keys == wide.subs.Keys && empty.listeners == map[];
      forall k | k in q.subs && k != key ensures SubOk(app, past, docs, q, k, q.subs[k]) {
        assert SubOk(app, past, docs, p, k, p.subs[k]);
      }
      DropKeeps(app, past, docs, q, key);
    }
  }

  lemma EvictionKeeps(app: App, past: seq<Documents>, docs: Documents, p: Process, key: string)
    requires SubsOk(app, past, docs, p)
    ensures SubsOk(app, past, docs, Evict(p, key))
  {
    var q := Evict(p, key);
    WithoutMembers(p.subOrder, key);
    forall k | k in q.subs ensures SubOk(app, past, docs, q, k, q.subs[k]) {
      assert SubOk(app, past, docs, p, k, p.subs[k]);
    }
  }

  lemma UnsubscribeKeeps(app: App, past: seq<Documents>, docs: Documents, p: Process, h: Handle)
    requires ProcessOk(app, past, docs, p)
    ensures ProcessOk(app, past, docs, Unsubscribe(p, h))
  {
    if IsCurrent(p, h) {
      RemovalKeeps(app, past, docs, p, h.key, h.listener);
    } else {
      var q := p.(loose := p.loose[h.entry := LeftIn(p, h.entry) - {h.listener}]);
      forall k | k in q.subs ensures SubOk(app, past, docs, q, k, q.subs[k]) {
        assert SubOk(app, past, docs, p, k, p.subs[k]);
      }
      EvictionKeeps(app, past, docs, q, h.key);
    }
  }
}
