/** The runtime of `openBackend` in src/backend.ts as it runs: the cache and subscriber maps are updated in
    place, in loops. */
module QueryRuntime {
  import opened Wrappers
  import opened DocumentStore
  import opened ChangeMatcher
  import opened ChangeJournal
  import opened QueryHandlers
  import opened Q = QueryCache

  lemma {:induction false} AffectedEntriesAppend(p: Process, a: seq<string>, b: seq<string>, change: Change)
    ensures AffectedEntries(p, a + b, change) == AffectedEntries(p, a, change) + AffectedEntries(p, b, change)
  {
    if a == [] {
      assert a + b == b;
    } else {
      assert (a + b)[1..] == a[1..] + b;
      AffectedEntriesAppend(p, a[1..], b, change);
    }
  }

  lemma {:induction false} AffectedSubscriptionsAppend(p: Process, a: seq<string>, b: seq<string>, change: Change)
    ensures AffectedSubscriptions(p, a + b, change)
         == AffectedSubscriptions(p, a, change) + AffectedSubscriptions(p, b, change)
  {
    if a == [] {
      assert a + b == b;
    } else {
      assert (a + b)[1..] == a[1..] + b;
      AffectedSubscriptionsAppend(p, a[1..], b, change);
    }
  }

  lemma {:induction false} SameAffected(p: Process, q: Process, order: seq<string>, change: Change)
    requires p.cache == q.cache
    ensures AffectedEntries(p, order, change) == AffectedEntries(q, order, change)
  {
    if order != [] {
      SameAffected(p, q, order[1..], change);
    }
  }

  /** The cache with the affected entries among the first `n` keys marked. */
  ghost function Marked(p: Process, n: nat, change: Change): map<string, CacheEntry>
    requires n <= |p.order|
  {
    map k | k in p.cache ::
      if k in p.order[..n] && AnyAffected(change, p.cache[k].deps) then p.cache[k].(dirty := true) else p.cache[k]
  }

  lemma MarkedStep(p: Process, n: nat, change: Change)
    requires n < |p.order| && OrderOk(p.order, p.cache.Keys)
    ensures var k := p.order[n];
            && k in p.cache
            && Marked(p, n + 1, change)
               == (if AnyAffected(change, p.cache[k].deps)
                   then Marked(p, n, change)[k := p.cache[k].(dirty := true)] else Marked(p, n, change))
  {
    var k := p.order[n];
    assert k in p.order;
    assert p.order[..n + 1] == p.order[..n] + [k];
    assert k !in p.order[..n];
  }

  lemma AffectedStep(p: Process, n: nat, change: Change)
    requires n < |p.order| && OrderOk(p.order, p.cache.Keys)
    ensures p.order[n] in p.cache
    ensures AffectedEntries(p, p.order[..n + 1], change)
         == AffectedEntries(p, p.order[..n], change)
            + (if AnyAffected(change, p.cache[p.order[n]].deps) then [p.order[n]] else [])
  {
    var k := p.order[n];
    assert k in p.order;
    assert p.order[..n + 1] == p.order[..n] + [k];
    AffectedEntriesAppend(p, p.order[..n], [k], change);
    assert AffectedEntries(p, [k][1..], change) == [];
  }

  lemma NotYetMarked(p: Process, n: nat, change: Change)
    requires n < |p.order| && OrderOk(p.order, p.cache.Keys)
    ensures p.order[n] in p.cache && Marked(p, n, change)[p.order[n]] == p.cache[p.order[n]]
  {
    assert p.order[n] in p.order;
    assert p.order[n] !in p.order[..n];
  }

  lemma SubscriptionStep(p: Process, n: nat, change: Change)
    requires n < |p.subOrder| && OrderOk(p.subOrder, p.subs.Keys)
    ensures p.subOrder[n] in p.subs
    ensures AffectedSubscriptions(p, p.subOrder[..n + 1], change)
         == AffectedSubscriptions(p, p.subOrder[..n], change)
            + (if p.subOrder[n] !in p.cache && AnyAffected(change, p.subs[p.subOrder[n]].deps)
               then [p.subOrder[n]] else [])
  {
    var k := p.subOrder[n];
    assert k in p.subOrder;
    assert p.subOrder[..n + 1] == p.subOrder[..n] + [k];
    AffectedSubscriptionsAppend(p, p.subOrder[..n], [k], change);
    assert AffectedSubscriptions(p, [k][1..], change) == [];
  }

  lemma AllMarked(p: Process, change: Change)
    requires OrderOk(p.order, p.cache.Keys)
    ensures Marked(p, |p.order|, change) == MarkDirty(p.cache, change)
    ensures p.order[..|p.order|] == p.order
  {
    assert p.order[..|p.order|] == p.order;
  }

  lemma EvictStep(cache: map<string, CacheEntry>, order: seq<string>, n: nat)
    requires OrderOk(order, cache.Keys) && n < |order|
    ensures Restrict(cache, order[n..]) - {order[n]} == Restrict(cache, order[n + 1..])
  {
    assert order[n..] == [order[n]] + order[n + 1..];
    assert order[n] !in order[n + 1..];
  }

  lemma EmptyOrder(order: seq<string>, keys: set<string>)
    requires OrderOk(order, keys)
    ensures order == [] <==> keys == {}
  {
    if order != [] {
      assert order[0] in order;
    }
  }

  class Runtime {
    const app: App

    var version: nat
    var cache: map<string, CacheEntry>
    var order: seq<string>
    var subs: map<string, Subscription>
    var subOrder: seq<string>
    var target: Option<nat>
    var queue: seq<string>
    var made: nat
    var loose: map<nat, map<nat, Value>>
    var handles: set<Handle>

    constructor (app: App, version: nat)
      ensures this.app == app && View() == NewProcess(version) && Valid()
    {
      this.app, this.version := app, version;
      cache, order, subs, subOrder, target, queue := map[], [], map[], [], None, [];
      made, loose, handles := 0, map[], {};
    }

    function View(): Process
      reads this
    {
      Process(version, cache, order, subs, subOrder, target, queue, made, loose, handles)
    }

    ghost predicate Valid()
      reads this
    {
      OrderOk(order, cache.Keys) && OrderOk(subOrder, subs.Keys)
    }

    method SetCache(key: string, e: CacheEntry)
      requires Valid()
      modifies this`cache, this`order, this`subs
      ensures Valid() && View() == Q.SetCache(app, old(View()), key, e)
    {
      if key in subs {
        subs := subs[key := subs[key].(deps := e.deps)];
      }
      MakeNewestOk(order, key, cache.Keys);
      order := Without(order, key) + [key];
      cache := cache[key := e];
      assert cache.Keys == old(cache.Keys) + {key};
      Evict();
      assert subs.Keys == old(subs.Keys);
    }

    /** Deletes the oldest entries while there are more than the capacity. */
    method Evict()
      requires OrderOk(order, cache.Keys)
      modifies this`cache, this`order
      ensures OrderOk(order, cache.Keys)
      ensures order == Kept(old(order), app.capacity) && cache == Restrict(old(cache), order)
    {
      ghost var wide, all, n := cache, order, 0;
      assert Restrict(wide, all) == wide;
      while |order| > app.capacity
        invariant 0 <= n <= |all| && order == all[n..]
        invariant cache == Restrict(wide, order)
        invariant n > 0 ==> |order| >= app.capacity
        decreases |order|
      {
        EvictStep(wide, all, n);
        cache := cache - {order[0]};
        order := order[1..];
        n := n + 1;
      }
      KeptOk(all, app.capacity, wide);
    }

    /** `snapshot` is what a read transaction sees, if one can be opened at the current version. */
    method InvokeQuery(call: QueryCall, snapshot: Option<Documents>) returns (value: Option<Value>)
      requires Valid()
      modifies this`cache, this`order, this`subs
      ensures Valid() && (View(), value) == Q.InvokeQuery(app, old(View()), call, snapshot)
    {
      var key := KeyOf(call);
      if key in cache && !cache[key].dirty {
        if key in subs {
          subs := subs[key := subs[key].(deps := cache[key].deps)];
        }
        MakeNewestOk(order, key, cache.Keys);
        assert cache.Keys + {key} == cache.Keys;
        order := Without(order, key) + [key];
        return Some(cache[key].value);
      }
      if snapshot.None? {
        return None;
      }
      var scope := app.caller(call.partition);
      var ran := RunTracked(app.owned, scope, snapshot.value, HandlerOf(app, call));
      var outcome := WithUser(scope, ran);
      if outcome.Threw? {
        return None;
      }
      SetCache(key, CacheEntry(call, outcome.value, outcome.deps, version, false));
      return Some(outcome.value);
    }

    /** `dependencies.some(affects)` */
    method AnyMatches(m: Matcher, deps: seq<Dependency>) returns (found: bool)
      ensures found <==> exists i | 0 <= i < |deps| :: Matches(m, deps[i])
    {
      for i := 0 to |deps|
        invariant forall j | 0 <= j < i :: !Matches(m, deps[j])
      {
        if Matches(m, deps[i]) {
          return true;
        }
      }
      return false;
    }

    /** Whether the change behind a matcher affects some dependency. */
    method Touches(m: Matcher, ghost change: Change, deps: seq<Dependency>) returns (found: bool)
      requires forall d :: Matches(m, d) <==> Affects(change, d)
      ensures found <==> AnyAffected(change, deps)
    {
      found := AnyMatches(m, deps);
    }

    /** The change listener: marks affected entries, and queues affected keys, evicted ones included. */
    method OnChange(change: Change)
      requires Valid()
      modifies this
      ensures Valid() && View() == Publish(old(View()), change)
    {
      version, target, queue := change.version, None, [];
      ghost var p := old(View());
      if cache == map[] && subs == map[] {
        EmptyOrder(order, cache.Keys);
        EmptyOrder(subOrder, subs.Keys);
        return;
      }
      var m := BuildMatcher(change);
      MarkEntries(m, change);
      MarkSubscriptions(m, change, p);
      SameAffected(p.(version := change.version, target := None, queue := []), p, p.order, change);
    }

    method MarkEntries(m: Matcher, change: Change)
      requires Valid() && queue == [] && forall d :: Matches(m, d) <==> Affects(change, d)
      modifies this`cache, this`queue
      ensures Valid() && cache == MarkDirty(old(cache), change)
      ensures queue == AffectedEntries(old(View()), order, change)
    {
      ghost var p := View();
      assert Marked(p, 0, change) == cache;
      for i := 0 to |order|
        invariant cache == Marked(p, i, change) && queue == AffectedEntries(p, order[..i], change)
      {
        MarkEntry(m, change, p, i);
      }
      AllMarked(p, change);
    }

    /** Marks and queues the `i`th entry if the change affects it. */
    method MarkEntry(m: Matcher, change: Change, ghost p: Process, i: nat)
      requires forall d :: Matches(m, d) <==> Affects(change, d)
      requires p.order == order && OrderOk(p.order, p.cache.Keys) && i < |order|
      requires cache == Marked(p, i, change) && queue == AffectedEntries(p, order[..i], change)
      modifies this`cache, this`queue
      ensures cache == Marked(p, i + 1, change) && queue == AffectedEntries(p, order[..i + 1], change)
    {
      MarkedStep(p, i, change);
      AffectedStep(p, i, change);
      NotYetMarked(p, i, change);
      var key := order[i];
      var affected := Touches(m, change, cache[key].deps);
      if affected {
        cache := cache[key := cache[key].(dirty := true)];
        queue := queue + [key];
      }
    }

    method MarkSubscriptions(m: Matcher, change: Change, ghost p: Process)
      requires Valid() && forall d :: Matches(m, d) <==> Affects(change, d)
      requires p.cache.Keys == cache.Keys && p.subs == subs && p.subOrder == subOrder
      modifies this`queue
      ensures queue == old(queue) + AffectedSubscriptions(p, subOrder, change)
    {
      for i := 0 to |subOrder|
        invariant queue == old(queue) + AffectedSubscriptions(p, subOrder[..i], change)
      {
        SubscriptionStep(p, i, change);
        var key := subOrder[i];
        if key !in cache {
          var affected := Touches(m, change, subs[key].deps);
          if affected {
            queue := queue + [key];
          }
        }
      }
      assert subOrder[..|subOrder|] == subOrder;
    }

    method Notify(snapshot: Option<Documents>)
      requires Valid() && queue != []
      modifies this
      ensures Valid() && View() == Q.Notify(app, old(View()), snapshot)
    {
      var key := queue[0];
      queue := queue[1..];
      if key !in subs {
        return;
      }
      var value := InvokeQuery(subs[key].call, snapshot);
      if key !in subs {
        return;
      }
      if value.Some? {
        var given := subs[key].listeners;
        subs := subs[key := subs[key].(listeners := map l | l in given :: value.value, missed := false)];
      } else {
        subs := subs[key := subs[key].(missed := true)];
      }
      assert subs.Keys == old(subs.Keys);
    }

    /** `subscribers.delete` */
    method DropKey(key: string)
      requires Valid()
      modifies this`subs, this`subOrder
      ensures Valid() && View() == Q.DropKey(old(View()), key)
    {
      WithoutMembers(subOrder, key);
      subs := subs - {key};
      subOrder := Without(subOrder, key);
    }

    method RemoveListener(key: string, listener: nat)
      requires Valid()
      modifies this`subs, this`subOrder
      ensures Valid() && View() == Q.RemoveListener(old(View()), key, listener)
    {
      if key in subs {
        subs := subs[key := subs[key].(listeners := subs[key].listeners - {listener})];
        assert subs.Keys == old(subs.Keys);
        if subs[key].listeners == map[] {
          DropKey(key);
        }
      }
    }

    /** Registers a listener and gives it the current value and a handle; without a value it is removed again. */
    method Subscribe(call: QueryCall, listener: nat, snapshot: Option<Documents>) returns (handle: Option<Handle>)
      requires Valid()
      modifies this
      ensures Valid() && View() == Q.Subscribe(app, old(View()), call, listener, snapshot)
      ensures handle.Some? ==> handle.value in handles && IsCurrent(View(), handle.value)
    {
      var key := KeyOf(call);
      if key !in subs {
        assert forall i | 0 <= i < |subOrder| :: subOrder[i] in subs;
        subs := subs[key := Subscription(call, made, [], map[], false)];
        subOrder := subOrder + [key];
        made := made + 1;
      }
      assert View() == AddSubscription(old(View()), call);
      var value := InvokeQuery(call, snapshot);
      if value.None? {
        RemoveListener(key, listener);
        return None;
      }
      handle := SetListener(key, listener, value.value);
    }

    method SetListener(key: string, listener: nat, value: Value) returns (handle: Option<Handle>)
      requires Valid()
      modifies this`subs, this`handles
      ensures Valid() && View() == Q.SetListener(old(View()), key, listener, value)
      ensures handle.Some? ==> handle.value in handles && IsCurrent(View(), handle.value)
    {
      if key !in subs {
        return None;
      }
      var h := Handle(key, subs[key].entry, listener);
      subs := subs[key := subs[key].(listeners := subs[key].listeners[listener := value])];
      assert subs.Keys == old(subs.Keys);
      handles := handles + {h};
      return Some(h);
    }

    /** Calls a handle: the object it was made for loses the listener, and if that leaves it empty, whatever is under
        its key is dropped. */
    method Unsubscribe(h: Handle)
      requires Valid()
      modifies this`subs, this`subOrder, this`loose
      ensures Valid() && View() == Q.Unsubscribe(old(View()), h)
    {
      if h.key in subs && subs[h.key].entry == h.entry {
        RemoveListener(h.key, h.listener);
        return;
      }
      var left := (if h.entry in loose then loose[h.entry] else map[]) - {h.listener};
      loose := loose[h.entry := left];
      if left == map[] && h.key in subs {
        loose := loose[subs[h.key].entry := subs[h.key].listeners];
        DropKey(h.key);
      }
    }

    /** Catches up from the journal rows that were read.  A revision that moved backwards or an unordered
        journal is an error; a poll (not strict) answers it with full invalidation. */
    method SynchronizeChanges(through: nat, rows: seq<JournalRow>, strict: bool) returns (ok: bool)
      requires Valid() && Within(rows, version, through)
      modifies this
      ensures Valid() && (ok <==> Consistent(old(version), through, rows))
      ensures View() ==
        if through > old(version) && (ok || !strict) then
          Publish(old(View()),
            if ok then Change(through, RecordsOf(rows), !Complete(rows, |rows|, old(version), through))
            else Change(through, [], true))
        else old(View()).(target := None)
    {
      target := None;
      if through < version {
        return false;
      }
      if through == version {
        return true;
      }
      ghost var p := old(View());
      var change := ReadChanges(version, through, rows);
      if change.Ok? {
        OnChange(change.value);
        PublishIgnoresTarget(p, change.value);
        return true;
      }
      if !strict {
        OnChange(Change(through, [], true));
        PublishIgnoresTarget(p, Change(through, [], true));
      }
      return false;
    }
  }

  /** A synchronization that raises no error. */
  predicate Consistent(version: nat, through: nat, rows: seq<JournalRow>) {
    version <= through && (version == through || Ordered(rows))
  }

  lemma PublishIgnoresTarget(p: Process, change: Change)
    ensures Publish(p.(target := None), change) == Publish(p, change)
  {
    SameAffected(p.(target := None), p, p.order, change);
    SameAffectedSubscriptions(p.(target := None), p, p.subOrder, change);
  }

  lemma {:induction false} SameAffectedSubscriptions(p: Process, q: Process, order: seq<string>, change: Change)
    requires p.cache == q.cache && p.subs == q.subs
    ensures AffectedSubscriptions(p, order, change) == AffectedSubscriptions(q, order, change)
  {
    if order != [] {
      SameAffectedSubscriptions(p, q, order[1..], change);
    }
  }
}
