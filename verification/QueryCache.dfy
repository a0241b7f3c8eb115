/** The query cache and the live subscriptions of one process (`openBackend` in src/backend.ts).  The cache is
    a map with a recency order, oldest key first, as a JavaScript Map keeps it. */
module QueryCache {
  import opened Wrappers
  import opened DocumentStore
  import opened ChangeMatcher
  import opened QueryHandlers
  import opened QueryReads
  import J = Json
  import T = CanonicalText
  import TP = CanonicalTextProofs

  /** One call of a query: who asks (the session's partition), what, and with which arguments. */
  datatype QueryCall = QueryCall(partition: string, path: string, args: T.Value)

  /** The application: its owned tables, its query handlers, the caller behind each partition, and the
      capacity of the result cache. */
  datatype App = App(
    owned: set<string>, handler: (string, J.Json<T.Numeral>) -> Handler, caller: string -> Scope, capacity: nat)

  predicate CallOk(call: QueryCall) {
    T.WellFormed(call.args) && '\n' !in call.partition
  }

  function KeyOf(call: QueryCall): string {
    T.CacheKey(call.partition, call.path, call.args)
  }

  /** A signed-in caller also depends on the user's own record. */
  function WithUser(scope: Scope, o: RunResult): RunResult {
    if o.Done? && scope.User? then Done(o.value, o.deps + [Dependency("__auth", Some(scope.id), Some(scope.id))])
    else o
  }

  function HandlerOf(app: App, call: QueryCall): Handler {
    app.handler(call.path, TP.ArgumentsMeaning(call.args))
  }

  /** What a call computes on a state of the tables, and what it depends on. */
  function Evaluate(app: App, docs: Documents, call: QueryCall): RunResult {
    var scope := app.caller(call.partition);
    WithUser(scope, Run(app.owned, scope, docs, HandlerOf(app, call), [], []))
  }

  /** The reads of a call on a state of the tables. */
  function CallReads(app: App, docs: Documents, call: QueryCall): seq<Request> {
    Reads(app.owned, app.caller(call.partition), docs, HandlerOf(app, call), [])
  }

  /** The call loses no read on any of these tables: on none of them it collects a table, reads the ID "*" of it and
      leaves it at that. */
  ghost predicate ReadsKept(app: App, past: seq<Documents>, call: QueryCall) {
    forall n | 0 <= n < |past| :: NothingLost(CallReads(app, past[n], call))
  }

  /** The call's handler finishes on all of these tables. */
  ghost predicate AlwaysAnswers(app: App, past: seq<Documents>, call: QueryCall) {
    forall n | 0 <= n < |past| :: Evaluate(app, past[n], call).Done?
  }

  /** Calls that share a cache key are the same call, so they read and compute the same. */
  lemma SameKeySameResult(app: App, a: QueryCall, b: QueryCall, docs: Documents)
    requires CallOk(a) && CallOk(b) && KeyOf(a) == KeyOf(b)
    ensures Evaluate(app, docs, a) == Evaluate(app, docs, b)
    ensures CallReads(app, docs, a) == CallReads(app, docs, b)
  {
    TP.CacheKeyExact(a.partition, a.path, a.args, b.partition, b.path, b.args);
  }

  lemma SameKeySameConditions(app: App, a: QueryCall, b: QueryCall, past: seq<Documents>)
    requires CallOk(a) && CallOk(b) && KeyOf(a) == KeyOf(b)
    ensures ReadsKept(app, past, a) <==> ReadsKept(app, past, b)
    ensures AlwaysAnswers(app, past, a) <==> AlwaysAnswers(app, past, b)
  {
    forall n | 0 <= n < |past|
      ensures Evaluate(app, past[n], a) == Evaluate(app, past[n], b)
      ensures CallReads(app, past[n], a) == CallReads(app, past[n], b)
    {
      SameKeySameResult(app, a, b, past[n]);
    }
  }

  /** A call that lost no read, and none of whose dependencies is affected, computes the same before and after the
      change. */
  lemma EvaluateUnaffected(app: App, a: Documents, b: Documents, change: Change, call: QueryCall)
    requires Reports(a, b, change) && NothingLost(CallReads(app, a, call))
    requires Evaluate(app, a, call).Done? && Untouched(change, Evaluate(app, a, call).deps)
    ensures Evaluate(app, b, call) == Evaluate(app, a, call)
  {
    var scope, h := app.caller(call.partition), HandlerOf(app, call);
    var o := Run(app.owned, scope, a, h, [], []);
    forall i | 0 <= i < |o.deps| ensures !Affects(change, o.deps[i]) {
      assert Evaluate(app, a, call).deps[i] == o.deps[i];
    }
    RunUnaffected(app.owned, scope, a, b, change, h);
  }

  // ----- State -----

  datatype CacheEntry = CacheEntry(call: QueryCall, value: Value, deps: seq<Dependency>, version: nat, dirty: bool)

  /** Listeners with the value each of them was last given.  `entry` is the identity of the object that holds them.
      `missed` is a history variable: a change reached this subscription but could not be delivered. */
  datatype Subscription = Subscription(
    call: QueryCall, entry: nat, deps: seq<Dependency>, listeners: map<nat, Value>, missed: bool)

  /** What a successful `subscribe` returns: it can be called at any time and as often as one likes, and remembers
      the subscription object it was made for. */
  datatype Handle = Handle(key: string, entry: nat, listener: nat)

  datatype Process = Process(
    version: nat,
    cache: map<string, CacheEntry>, order: seq<string>,
    subs: map<string, Subscription>, subOrder: seq<string>,
    target: Option<nat>,     // a synchronization has read this revision and not yet the journal
    queue: seq<string>,      // keys still to be notified of the last published change
    made: nat,               // subscription objects made so far
    loose: map<nat, map<nat, Value>>,   // objects no longer under a key, with the listeners still in them
    handles: set<Handle>)    // what subscribers were given

  function NewProcess(version: nat): Process {
    Process(version, map[], [], map[], [], None, [], 0, map[], {})
  }

  predicate Idle(p: Process) {
    p.target.None? && p.queue == []
  }

  // ----- Recency order -----

  ghost predicate OrderOk(order: seq<string>, keys: set<string>) {
    && (forall i, j | 0 <= i < j < |order| :: order[i] != order[j])
    && (forall k :: k in order <==> k in keys)
  }

  function Without(order: seq<string>, key: string): seq<string> {
    if order == [] then []
    else (if order[0] == key then [] else [order[0]]) + Without(order[1..], key)
  }

  lemma {:induction false} WithoutMembers(order: seq<string>, key: string)
    ensures forall k :: k in Without(order, key) <==> k in order && k != key
    ensures (forall i, j | 0 <= i < j < |order| :: order[i] != order[j]) ==>
              forall i, j | 0 <= i < j < |Without(order, key)| :: Without(order, key)[i] != Without(order, key)[j]
  {
    if order != [] {
      WithoutMembers(order[1..], key);
      assert order == [order[0]] + order[1..];
      var rest := Without(order[1..], key);
      assert forall j | 0 <= j < |rest| :: rest[j] in rest;
    }
  }

  /** The key becomes the most recently used one. */
  function MakeNewest(order: seq<string>, key: string): seq<string> {
    Without(order, key) + [key]
  }

  lemma MakeNewestOk(order: seq<string>, key: string, keys: set<string>)
    requires OrderOk(order, keys)
    ensures OrderOk(MakeNewest(order, key), keys + {key})
  {
    WithoutMembers(order, key);
    var rest := Without(order, key);
    assert forall j | 0 <= j < |rest| :: rest[j] in rest;
  }

  /** Evicts the oldest keys beyond the capacity. */
  function Kept(order: seq<string>, capacity: nat): seq<string> {
    if |order| <= capacity then order else order[|order| - capacity..]
  }

  function Restrict(cache: map<string, CacheEntry>, order: seq<string>): map<string, CacheEntry> {
    map k | k in cache && k in order :: cache[k]
  }

  lemma KeptOk(order: seq<string>, capacity: nat, cache: map<string, CacheEntry>)
    requires OrderOk(order, cache.Keys)
    ensures OrderOk(Kept(order, capacity), Restrict(cache, Kept(order, capacity)).Keys)
    ensures |Kept(order, capacity)| <= capacity
  {
    var kept := Kept(order, capacity);
    forall k ensures k in kept <==> k in Restrict(cache, kept) {
      if k in kept { assert k in order; }
    }
  }

  // ----- Operations -----

  function SetDeps(subs: map<string, Subscription>, key: string, deps: seq<Dependency>): map<string, Subscription> {
    if key in subs then subs[key := subs[key].(deps := deps)] else subs
  }

  function SetCache(app: App, p: Process, key: string, e: CacheEntry): Process {
    var order := Kept(MakeNewest(p.order, key), app.capacity);
    p.(cache := Restrict(p.cache[key := e], order), order := order, subs := SetDeps(p.subs, key, e.deps))
  }

  /** A cache hit: the entry becomes the newest, and a subscription learns its dependencies. */
  function Hit(p: Process, key: string): Process
    requires key in p.cache
  {
    p.(order := MakeNewest(p.order, key), subs := SetDeps(p.subs, key, p.cache[key].deps))
  }

  predicate Cached(p: Process, key: string) {
    key in p.cache && !p.cache[key].dirty
  }

  /** Serves a call from the cache, or runs it on the snapshot; without a stable snapshot, or when the handler
      throws, there is no value and nothing changes. */
  function InvokeQuery(app: App, p: Process, call: QueryCall, snapshot: Option<Documents>): (Process, Option<Value>) {
    var key := KeyOf(call);
    if Cached(p, key) then (Hit(p, key), Some(p.cache[key].value))
    else if snapshot.None? then (p, None)
    else
      var o := Evaluate(app, snapshot.value, call);
      if o.Done? then (SetCache(app, p, key, CacheEntry(call, o.value, o.deps, p.version, false)), Some(o.value))
      else (p, None)
  }

  predicate AnyAffected(change: Change, deps: seq<Dependency>) {
    exists i | 0 <= i < |deps| :: Affects(change, deps[i])
  }

  function MarkDirty(cache: map<string, CacheEntry>, change: Change): map<string, CacheEntry> {
    map k | k in cache :: if AnyAffected(change, cache[k].deps) then cache[k].(dirty := true) else cache[k]
  }

  function AffectedEntries(p: Process, order: seq<string>, change: Change): seq<string> {
    if order == [] then []
    else
      (if order[0] in p.cache && AnyAffected(change, p.cache[order[0]].deps) then [order[0]] else [])
      + AffectedEntries(p, order[1..], change)
  }

  function AffectedSubscriptions(p: Process, order: seq<string>, change: Change): seq<string> {
    if order == [] then []
    else
      (if order[0] !in p.cache && order[0] in p.subs && AnyAffected(change, p.subs[order[0]].deps)
       then [order[0]] else [])
      + AffectedSubscriptions(p, order[1..], change)
  }

  /** The change listener: affected entries become dirty, and the affected keys wait for notification. */
  function Publish(p: Process, change: Change): Process {
    p.(version := change.version,
       cache := MarkDirty(p.cache, change),
       target := None,
       queue := AffectedEntries(p, p.order, change) + AffectedSubscriptions(p, p.subOrder, change))
  }

  function Deliver(sub: Subscription, value: Value): Subscription {
    sub.(listeners := map l | l in sub.listeners :: value, missed := false)
  }

  /** Notifies the next key. */
  function Notify(app: App, p: Process, snapshot: Option<Documents>): Process
    requires p.queue != []
  {
    var key, rest := p.queue[0], p.(queue := p.queue[1..]);
    if key !in p.subs then rest
    else
      var (after, value) := InvokeQuery(app, rest, p.subs[key].call, snapshot);
      if key !in after.subs then after
      else if value.Some? then after.(subs := after.subs[key := Deliver(after.subs[key], value.value)])
      else after.(subs := after.subs[key := after.subs[key].(missed := true)])
  }

  function AddSubscription(p: Process, call: QueryCall): Process {
    var key := KeyOf(call);
    if key in p.subs then p
    else
      p.(subs := p.subs[key := Subscription(call, p.made, [], map[], false)], subOrder := p.subOrder + [key],
         made := p.made + 1)
  }

  /** Takes the subscription object from its key. */
  function DropKey(p: Process, key: string): Process {
    p.(subs := p.subs - {key}, subOrder := Without(p.subOrder, key))
  }

  /** Drops a subscription that has no listener left. */
  function DropEmpty(p: Process, key: string): Process {
    if key in p.subs && p.subs[key].listeners == map[] then DropKey(p, key) else p
  }

  function SetListener(p: Process, key: string, listener: nat, value: Value): Process {
    if key in p.subs then
      p.(subs := p.subs[key := p.subs[key].(listeners := p.subs[key].listeners[listener := value])],
         handles := p.handles + {Handle(key, p.subs[key].entry, listener)})
    else p
  }

  /** Removes a listener, and its subscription with the last one. */
  function RemoveListener(p: Process, key: string, listener: nat): Process {
    if key in p.subs then
      DropEmpty(p.(subs := p.subs[key := p.subs[key].(listeners := p.subs[key].listeners - {listener})]), key)
    else p
  }

  /** A new listener gets the current value at once; if there is none, it is not registered, not even if it was
      before. */
  function Subscribe(app: App, p: Process, call: QueryCall, listener: nat, snapshot: Option<Documents>): Process {
    var key := KeyOf(call);
    var (after, value) := InvokeQuery(app, AddSubscription(p, call), call, snapshot);
    if value.Some? then SetListener(after, key, listener, value.value) else RemoveListener(after, key, listener)
  }

  /** The handle was made for the subscription object that is now under its key. */
  predicate IsCurrent(p: Process, h: Handle) {
    h.key in p.subs && p.subs[h.key].entry == h.entry
  }

  /** The listeners left in an object that is no longer under its key. */
  function LeftIn(p: Process, entry: nat): map<nat, Value> {
    if entry in p.loose then p.loose[entry] else map[]
  }

  /** Takes whatever is under the key from it; its listeners stay in the object. */
  function Evict(p: Process, key: string): Process {
    if key in p.subs then DropKey(p, key).(loose := p.loose[p.subs[key].entry := p.subs[key].listeners]) else p
  }

  /** Calls what `subscribe` returned.  An object that is left empty is dropped by its key, whichever object is under
      that key by now. */
  function Unsubscribe(p: Process, h: Handle): Process {
    if IsCurrent(p, h) then RemoveListener(p, h.key, h.listener)
    else
      var left := LeftIn(p, h.entry) - {h.listener};
      var q := p.(loose := p.loose[h.entry := left]);
      if left == map[] then Evict(q, h.key) else q
  }
}
