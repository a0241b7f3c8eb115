/** Subscribers over whole runs: how long a listener stays registered, and what it was last given meanwhile. */
module Subscribers {
  import opened Wrappers
  import opened DocumentStore
  import opened QueryHandlers
  import opened QueryCache
  import opened CacheCoherence
  import opened Cluster
  import opened Listeners

  // ----- Registered listeners -----

  /** The listener is in the object `entry`, and that object is under its key. */
  predicate HasListener(p: Process, key: string, entry: nat, listener: nat) {
    key in p.subs && p.subs[key].entry == entry && listener in p.subs[key].listeners
  }

  predicate Registered(g: System, id: nat, key: string, entry: nat, listener: nat) {
    id in g.procs && HasListener(g.procs[id], key, entry, listener)
  }

  /** The listener's own end: its handle is called, or it subscribes again and gets no value. */
  predicate Ends(app: App, g: System, e: Event, id: nat, h: Handle) {
    && e.id == id && Enabled(g, e)
    && (e == UnsubscribeFrom(id, h)
        || (e.SubscribeTo? && KeyOf(e.query) == h.key && e.listener == h.listener
            && InvokeQuery(app, g.procs[id], e.query, Snapshot(g, g.procs[id])).1.None?))
  }

  /** A handle is called that was made for another object than the one now under its key, and leaves its own object
      empty. */
  predicate Strays(g: System, e: Event, id: nat, key: string) {
    && e.UnsubscribeFrom? && e.id == id && Enabled(g, e) && e.handle.key == key
    && key in g.procs[id].subs && !IsCurrent(g.procs[id], e.handle)
    && LeftIn(g.procs[id], e.handle.entry) - {e.handle.listener} == map[]
  }

  lemma InvokeKeepsEntries(app: App, p: Process, call: QueryCall, snapshot: Option<Documents>)
    ensures var q := InvokeQuery(app, p, call, snapshot).0;
            && q.subs.Keys == p.subs.Keys && q.made == p.made && q.loose == p.loose && q.handles == p.handles
            && forall k | k in p.subs :: q.subs[k].entry == p.subs[k].entry && q.subs[k].call == p.subs[k].call
                                         && q.subs[k].listeners == p.subs[k].listeners
  {
  }

  lemma NotifyKeepsListener(
    app: App, p: Process, snapshot: Option<Documents>, key: string, entry: nat, listener: nat)
    requires p.queue != [] && HasListener(p, key, entry, listener)
    ensures HasListener(Notify(app, p, snapshot), key, entry, listener)
  {
    var k, rest := p.queue[0], p.(queue := p.queue[1..]);
    if k in p.subs {
      InvokeKeepsEntries(app, rest, p.subs[k].call, snapshot);
    }
  }

  lemma SubscribeKeepsListener(
    app: App, p: Process, call: QueryCall, other: nat, snapshot: Option<Documents>, key: string, entry: nat,
    listener: nat)
    requires HasListener(p, key, entry, listener)
    ensures HasListener(Subscribe(app, p, call, other, snapshot), key, entry, listener)
      <==> !(KeyOf(call) == key && other == listener && InvokeQuery(app, p, call, snapshot).1.None?)
  {
    var wide := AddSubscription(p, call);
    SubscriptionsDoNotServe(app, p, wide, call, snapshot);
    InvokeKeepsEntries(app, wide, call, snapshot);
    RemovalKeepsListener(InvokeQuery(app, wide, call, snapshot).0, KeyOf(call), other, key, entry, listener);
  }

  lemma RemovalKeepsListener(p: Process, k: string, other: nat, key: string, entry: nat, listener: nat)
    requires HasListener(p, key, entry, listener)
    ensures HasListener(RemoveListener(p, k, other), key, entry, listener) <==> !(k == key && other == listener)
  {
    if k == key && other != listener {
      assert listener in p.subs[key].listeners - {other};
    }
  }

  lemma UnsubscribeKeepsListener(p: Process, h: Handle, key: string, entry: nat, listener: nat)
    requires HasListener(p, key, entry, listener)
    ensures HasListener(Unsubscribe(p, h), key, entry, listener)
      <==> h != Handle(key, entry, listener)
           && !(h.key == key && !IsCurrent(p, h) && LeftIn(p, h.entry) - {h.listener} == map[])
  {
    if IsCurrent(p, h) {
      RemovalKeepsListener(p, h.key, h.listener, key, entry, listener);
    }
  }

  /** One step: a registered listener stays registered exactly when the step is neither its own end nor a stray. */
  lemma StepRegistered(
    app: App, keep: Retention, g: System, e: Event, id: nat, key: string, entry: nat, listener: nat)
    requires Registered(g, id, key, entry, listener)
    ensures Registered(Step(app, keep, g, e), id, key, entry, listener)
      <==> !Ends(app, g, e, id, Handle(key, entry, listener)) && !Strays(g, e, id, key)
  {
    if e.id != id {
      OtherStep(app, keep, g, e, id);
    } else if Enabled(g, e) {
      OwnStepRegistered(app, keep, g, e, key, entry, listener);
    }
  }

  lemma OwnStepRegistered(
    app: App, keep: Retention, g: System, e: Event, key: string, entry: nat, listener: nat)
    requires Registered(g, e.id, key, entry, listener) && Enabled(g, e)
    ensures Registered(Step(app, keep, g, e), e.id, key, entry, listener)
      <==> !Ends(app, g, e, e.id, Handle(key, entry, listener)) && !Strays(g, e, e.id, key)
  {
    var p := g.procs[e.id];
    match e
    case NotifyNext(_) => NotifyKeepsListener(app, p, Snapshot(g, p), key, entry, listener);
    case Query(_, query) => InvokeKeepsEntries(app, p, query, Snapshot(g, p));
    case SubscribeTo(_, query, other) =>
      SubscribeKeepsListener(app, p, query, other, Snapshot(g, p), key, entry, listener);
    case UnsubscribeFrom(_, handle) => UnsubscribeKeepsListener(p, handle, key, entry, listener);
    case Commit(id, calls) => assert CommitShared(app, keep, g, calls).procs == g.procs;
    case _ =>
  }

  // ----- Objects never come back -----

  /** The object was made and is not under the key. */
  predicate Gone(p: Process, key: string, entry: nat) {
    entry < p.made && !(key in p.subs && p.subs[key].entry == entry)
  }

  lemma RemovalStaysGone(p: Process, k: string, listener: nat, key: string, entry: nat)
    requires Gone(p, key, entry)
    ensures Gone(RemoveListener(p, k, listener), key, entry)
  {
  }

  lemma SubscribeStaysGone(
    app: App, p: Process, call: QueryCall, listener: nat, snapshot: Option<Documents>, key: string, entry: nat)
    requires Gone(p, key, entry)
    ensures Gone(Subscribe(app, p, call, listener, snapshot), key, entry)
  {
    var wide := AddSubscription(p, call);
    AddingStaysGone(p, call, key, entry);
    InvokeKeepsEntries(app, wide, call, snapshot);
    var (after, value) := InvokeQuery(app, wide, call, snapshot);
    assert Gone(after, key, entry);
    RemovalStaysGone(after, KeyOf(call), listener, key, entry);
    SettingStaysGone(after, KeyOf(call), listener, if value.Some? then value.value else "", key, entry);
  }

  lemma AddingStaysGone(p: Process, call: QueryCall, key: string, entry: nat)
    requires Gone(p, key, entry)
    ensures Gone(AddSubscription(p, call), key, entry)
  {
  }

  lemma SettingStaysGone(p: Process, k: string, listener: nat, value: Value, key: string, entry: nat)
    requires Gone(p, key, entry)
    ensures Gone(SetListener(p, k, listener, value), key, entry)
  {
  }

  lemma NotifyStaysGone(app: App, p: Process, snapshot: Option<Documents>, key: string, entry: nat)
    requires p.queue != [] && Gone(p, key, entry)
    ensures Gone(Notify(app, p, snapshot), key, entry)
  {
    var k, rest := p.queue[0], p.(queue := p.queue[1..]);
    if k in p.subs {
      InvokeKeepsEntries(app, rest, p.subs[k].call, snapshot);
    }
  }

  lemma StepGone(app: App, keep: Retention, g: System, e: Event, id: nat, key: string, entry: nat)
    requires id in g.procs && Gone(g.procs[id], key, entry)
    ensures var n := Step(app, keep, g, e); id in n.procs && Gone(n.procs[id], key, entry)
  {
    if e.id != id {
      OtherStep(app, keep, g, e, id);
    } else if Enabled(g, e) {
      OwnStepGone(app, keep, g, e, key, entry);
    }
  }

  lemma OwnStepGone(app: App, keep: Retention, g: System, e: Event, key: string, entry: nat)
    requires e.id in g.procs && Enabled(g, e) && Gone(g.procs[e.id], key, entry)
    ensures var n := Step(app, keep, g, e); e.id in n.procs && Gone(n.procs[e.id], key, entry)
  {
    var p := g.procs[e.id];
    match e
    case NotifyNext(_) => NotifyStaysGone(app, p, Snapshot(g, p), key, entry);
    case Query(_, query) => InvokeKeepsEntries(app, p, query, Snapshot(g, p));
    case SubscribeTo(_, query, other) => SubscribeStaysGone(app, p, query, other, Snapshot(g, p), key, entry);
    case UnsubscribeFrom(_, handle) => RemovalStaysGone(p, handle.key, handle.listener, key, entry);
    case Commit(id, calls) => assert CommitShared(app, keep, g, calls).procs == g.procs;
    case _ =>
  }

  lemma {:induction false} RunGone(
    app: App, keep: Retention, g: System, later: seq<Event>, id: nat, key: string, entry: nat)
    requires id in g.procs && Gone(g.procs[id], key, entry)
    ensures var n := StepAll(app, keep, g, later); id in n.procs && Gone(n.procs[id], key, entry)
    decreases |later|
  {
    if later != [] {
      StepGone(app, keep, g, later[0], id, key, entry);
      RunGone(app, keep, Step(app, keep, g, later[0]), later[1..], id, key, entry);
    }
  }

  // ----- How long a listener stays registered -----

  ghost predicate NeverEnds(app: App, keep: Retention, g: System, later: seq<Event>, id: nat, h: Handle)
    decreases |later|
  {
    later == [] ||
    (!Ends(app, g, later[0], id, h) && NeverEnds(app, keep, Step(app, keep, g, later[0]), later[1..], id, h))
  }

  ghost predicate NeverStrays(app: App, keep: Retention, g: System, later: seq<Event>, id: nat, key: string)
    decreases |later|
  {
    later == [] ||
    (!Strays(g, later[0], id, key) && NeverStrays(app, keep, Step(app, keep, g, later[0]), later[1..], id, key))
  }

  lemma StrayLosesAll(app: App, keep: Retention, g: System, e: Event, id: nat, key: string, entry: nat)
    requires Strays(g, e, id, key) && g.procs[id].subs[key].entry == entry < g.procs[id].made
    ensures var n := Step(app, keep, g, e); id in n.procs && Gone(n.procs[id], key, entry)
  {
  }

  /** A registered listener that does not end itself stays registered exactly when no stray handle of its key is
      called. */
  lemma {:induction false} StaysRegistered(
    app: App, keep: Retention, g: System, later: seq<Event>, id: nat, h: Handle)
    requires Registered(g, id, h.key, h.entry, h.listener) && h.entry < g.procs[id].made
    requires NeverEnds(app, keep, g, later, id, h)
    ensures Registered(StepAll(app, keep, g, later), id, h.key, h.entry, h.listener)
      <==> NeverStrays(app, keep, g, later, id, h.key)
    decreases |later|
  {
    if later != [] {
      var n := Step(app, keep, g, later[0]);
      StepRegistered(app, keep, g, later[0], id, h.key, h.entry, h.listener);
      if Strays(g, later[0], id, h.key) {
        StrayLosesAll(app, keep, g, later[0], id, h.key, h.entry);
        RunGone(app, keep, n, later[1..], id, h.key, h.entry);
      } else {
        StepMade(app, keep, g, later[0], id);
        StaysRegistered(app, keep, n, later[1..], id, h);
      }
    }
  }

  lemma NotifyKeepsEntries(app: App, p: Process, snapshot: Option<Documents>)
    requires p.queue != []
    ensures var q := Notify(app, p, snapshot);
            && q.subs.Keys == p.subs.Keys && q.made == p.made && q.loose == p.loose && q.handles == p.handles
            && forall k | k in p.subs :: q.subs[k].entry == p.subs[k].entry
  {
    var k, rest := p.queue[0], p.(queue := p.queue[1..]);
    if k in p.subs {
      InvokeKeepsEntries(app, rest, p.subs[k].call, snapshot);
    }
  }

  lemma SubscribeMakes(app: App, p: Process, call: QueryCall, listener: nat, snapshot: Option<Documents>)
    ensures Subscribe(app, p, call, listener, snapshot).made >= p.made
  {
    InvokeKeepsEntries(app, AddSubscription(p, call), call, snapshot);
  }

  lemma StepMade(app: App, keep: Retention, g: System, e: Event, id: nat)
    requires id in g.procs
    ensures var n := Step(app, keep, g, e); id in n.procs && n.procs[id].made >= g.procs[id].made
  {
    if e.id != id {
      OtherStep(app, keep, g, e, id);
    } else if Enabled(g, e) {
      var p := g.procs[id];
      match e
      case NotifyNext(_) => NotifyKeepsEntries(app, p, Snapshot(g, p));
      case Query(_, query) => InvokeKeepsEntries(app, p, query, Snapshot(g, p));
      case SubscribeTo(_, query, other) => SubscribeMakes(app, p, query, other, Snapshot(g, p));
      case Commit(_, calls) => assert CommitShared(app, keep, g, calls).procs == g.procs;
      case _ =>
    }
  }

  // ----- Which handles stray -----

  /** Objects under different keys differ, and handles are for the object now under their key or an older one. */
  ghost predicate EntriesOk(p: Process) {
    && (forall k | k in p.subs :: p.subs[k].entry < p.made)
    && (forall h | h in p.handles :: h.entry < p.made && (h.key in p.subs ==> h.entry <= p.subs[h.key].entry))
  }

  /** Every object that is no longer under a key is empty. */
  ghost predicate NoneLost(p: Process) {
    forall n | n in p.loose :: p.loose[n] == map[]
  }

  lemma AddingKeepsEntries(p: Process, call: QueryCall)
    requires EntriesOk(p)
    ensures EntriesOk(AddSubscription(p, call)) && AddSubscription(p, call).loose == p.loose
  {
  }

  lemma SettingKeepsEntries(p: Process, key: string, listener: nat, value: Value)
    requires EntriesOk(p)
    ensures EntriesOk(SetListener(p, key, listener, value)) && SetListener(p, key, listener, value).loose == p.loose
  {
  }

  lemma RemovalKeepsEntries(p: Process, key: string, listener: nat)
    requires EntriesOk(p)
    ensures EntriesOk(RemoveListener(p, key, listener)) && RemoveListener(p, key, listener).loose == p.loose
  {
  }

  lemma SubscribeKeepsEntries(app: App, p: Process, call: QueryCall, listener: nat, snapshot: Option<Documents>)
    requires EntriesOk(p)
    ensures var q := Subscribe(app, p, call, listener, snapshot); EntriesOk(q) && q.loose == p.loose
  {
    var wide := AddSubscription(p, call);
    AddingKeepsEntries(p, call);
    InvokeKeepsEntries(app, wide, call, snapshot);
    var (after, value) := InvokeQuery(app, wide, call, snapshot);
    assert EntriesOk(after);
    SettingKeepsEntries(after, KeyOf(call), listener, if value.Some? then value.value else "");
    RemovalKeepsEntries(after, KeyOf(call), listener);
  }

  lemma UnsubscribeKeepsEntries(p: Process, h: Handle)
    requires EntriesOk(p)
    ensures EntriesOk(Unsubscribe(p, h))
  {
    if IsCurrent(p, h) {
      RemovalKeepsEntries(p, h.key, h.listener);
    }
  }

  /** Only a stray handle leaves listeners behind in an object that is no longer under its key. */
  lemma UnsubscribeLosesNone(p: Process, h: Handle)
    requires EntriesOk(p) && NoneLost(p)
    requires IsCurrent(p, h) || h.key !in p.subs
    ensures NoneLost(Unsubscribe(p, h))
  {
    if IsCurrent(p, h) {
      RemovalKeepsEntries(p, h.key, h.listener);
    } else {
      assert LeftIn(p, h.entry) == map[];
    }
  }

  /** A process whose objects are in order, with nobody lost. */
  ghost predicate InOrder(g: System, id: nat) {
    id in g.procs ==> EntriesOk(g.procs[id]) && NoneLost(g.procs[id])
  }

  predicate StraysAnywhere(g: System, e: Event, id: nat) {
    e.UnsubscribeFrom? && Strays(g, e, id, e.handle.key)
  }

  ghost predicate NothingStrays(app: App, keep: Retention, g: System, later: seq<Event>, id: nat)
    decreases |later|
  {
    later == [] ||
    (!StraysAnywhere(g, later[0], id) && NothingStrays(app, keep, Step(app, keep, g, later[0]), later[1..], id))
  }

  lemma OwnStepInOrder(app: App, keep: Retention, g: System, e: Event)
    requires e.id in g.procs && InOrder(g, e.id) && !StraysAnywhere(g, e, e.id) && Enabled(g, e)
    ensures InOrder(Step(app, keep, g, e), e.id)
  {
    var p := g.procs[e.id];
    match e
    case NotifyNext(_) => NotifyKeepsEntries(app, p, Snapshot(g, p));
    case Query(_, query) => InvokeKeepsEntries(app, p, query, Snapshot(g, p));
    case SubscribeTo(_, query, other) => SubscribeKeepsEntries(app, p, query, other, Snapshot(g, p));
    case UnsubscribeFrom(_, h) =>
      UnsubscribeKeepsEntries(p, h);
      assert LeftIn(p, h.entry) - {h.listener} == map[];
      UnsubscribeLosesNone(p, h);
    case Commit(id, calls) => assert CommitShared(app, keep, g, calls).procs == g.procs;
    case _ =>
  }

  lemma StepInOrder(app: App, keep: Retention, g: System, e: Event, id: nat)
    requires InOrder(g, id) && !StraysAnywhere(g, e, id)
    ensures InOrder(Step(app, keep, g, e), id)
  {
    if id in g.procs {
      if e.id != id {
        OtherStep(app, keep, g, e, id);
      } else if Enabled(g, e) {
        OwnStepInOrder(app, keep, g, e);
      }
    } else if e.Commit? && Enabled(g, e) {
      assert CommitShared(app, keep, g, e.calls).procs == g.procs;
    }
  }

  lemma {:induction false} RunInOrder(app: App, keep: Retention, g: System, later: seq<Event>, id: nat)
    requires InOrder(g, id) && NothingStrays(app, keep, g, later, id)
    ensures InOrder(StepAll(app, keep, g, later), id)
    decreases |later|
  {
    if later != [] {
      StepInOrder(app, keep, g, later[0], id);
      RunInOrder(app, keep, Step(app, keep, g, later[0]), later[1..], id);
    }
  }

  /** As long as none has strayed, the stray handles are exactly those of earlier, emptied objects of a key that has a
      subscription again. */
  lemma StraysAreLate(app: App, keep: Retention, events: seq<Event>, id: nat, h: Handle)
    requires NothingStrays(app, keep, START, events, id)
    requires id in RunEvents(app, keep, events).procs && Idle(RunEvents(app, keep, events).procs[id])
    requires h in RunEvents(app, keep, events).procs[id].handles
    ensures var g := RunEvents(app, keep, events);
            var p := g.procs[id];
            && (Strays(g, UnsubscribeFrom(id, h), id, h.key) <==> h.key in p.subs && h.entry < p.subs[h.key].entry)
            && (h.key in p.subs && h.entry < p.subs[h.key].entry ==> LeftIn(p, h.entry) == map[])
  {
    RunSplit(app, keep, [], events);
    assert [] + events == events;
    RunInOrder(app, keep, START, events, id);
    StraysWhenLate(RunEvents(app, keep, events), id, h);
  }

  lemma StraysWhenLate(g: System, id: nat, h: Handle)
    requires id in g.procs && Idle(g.procs[id]) && h in g.procs[id].handles && InOrder(g, id)
    ensures var p := g.procs[id];
            && (Strays(g, UnsubscribeFrom(id, h), id, h.key) <==> h.key in p.subs && h.entry < p.subs[h.key].entry)
            && LeftIn(p, h.entry) == map[]
  {
    var p := g.procs[id];
    assert LeftIn(p, h.entry) == map[];
    assert LeftIn(p, h.entry) - {h.listener} == map[];
  }

  // ----- Main results: what subscribers were last given -----

  /** The handle that a subscriber is given after these events. */
  function HandleOf(app: App, keep: Retention, before: seq<Event>, id: nat, call: QueryCall, listener: nat): Handle {
    var g := Step(app, keep, RunEvents(app, keep, before), SubscribeTo(id, call, listener));
    var key := KeyOf(call);
    Handle(key, if id in g.procs && key in g.procs[id].subs then g.procs[id].subs[key].entry else 0, listener)
  }

  /** A call that a process serves at once. */
  predicate ServesNow(app: App, g: System, id: nat, call: QueryCall, listener: nat) {
    Enabled(g, SubscribeTo(id, call, listener)) && InvokeQuery(app, g.procs[id], call, Snapshot(g, g.procs[id])).1.Some?
  }

  lemma {:induction false} RunEntriesOk(app: App, keep: Retention, events: seq<Event>, id: nat)
    ensures var g := RunEvents(app, keep, events); id in g.procs ==> EntriesOk(g.procs[id])
  {
    if events != [] {
      var n := |events| - 1;
      RunEntriesOk(app, keep, events[..n], id);
      StepEntriesOk(app, keep, RunEvents(app, keep, events[..n]), events[n], id);
    }
  }

  lemma StepEntriesOk(app: App, keep: Retention, g: System, e: Event, id: nat)
    requires id in g.procs ==> EntriesOk(g.procs[id])
    ensures var n := Step(app, keep, g, e); id in n.procs ==> EntriesOk(n.procs[id])
  {
    if e.Commit? && Enabled(g, e) {
      assert CommitShared(app, keep, g, e.calls).procs == g.procs;
    } else if id in g.procs && e.id != id {
      OtherStep(app, keep, g, e, id);
    } else if id in g.procs && Enabled(g, e) {
      var p := g.procs[id];
      match e
      case NotifyNext(_) => NotifyKeepsEntries(app, p, Snapshot(g, p));
      case Query(_, query) => InvokeKeepsEntries(app, p, query, Snapshot(g, p));
      case SubscribeTo(_, query, other) => SubscribeKeepsEntries(app, p, query, other, Snapshot(g, p));
      case UnsubscribeFrom(_, h) => UnsubscribeKeepsEntries(p, h);
      case _ =>
    }
  }

  /** A subscriber that is served is registered. */
  lemma SubscriberRegistered(
    app: App, keep: Retention, before: seq<Event>, id: nat, call: QueryCall, listener: nat)
    requires ServesNow(app, RunEvents(app, keep, before), id, call, listener)
    ensures var g := Step(app, keep, RunEvents(app, keep, before), SubscribeTo(id, call, listener));
            var h := HandleOf(app, keep, before, id, call, listener);
            && Registered(g, id, h.key, h.entry, listener) && h.entry < g.procs[id].made && h in g.procs[id].handles
  {
    var g := RunEvents(app, keep, before);
    var p := g.procs[id];
    RunEntriesOk(app, keep, before, id);
    SubscribeHandle(app, p, call, listener, Snapshot(g, p));
    SubscribeAt(app, p, call, listener, Snapshot(g, p), KeyOf(call));
    SubscribeKeepsEntries(app, p, call, listener, Snapshot(g, p));
    assert listener in ListenersAt(p, KeyOf(call))[listener := ""];
  }

  /** The run goes on with a subscriber that is served at once and does not end itself. */
  ghost predicate SubscribesFor(
    app: App, keep: Retention, before: seq<Event>, id: nat, call: QueryCall, listener: nat, later: seq<Event>)
  {
    && ServesNow(app, RunEvents(app, keep, before), id, call, listener)
    && NeverEnds(app, keep, Subscribed(app, keep, before, id, call, listener), later, id,
                 HandleOf(app, keep, before, id, call, listener))
  }

  /** The system right after the subscription. */
  function Subscribed(app: App, keep: Retention, before: seq<Event>, id: nat, call: QueryCall, listener: nat): System {
    Step(app, keep, RunEvents(app, keep, before), SubscribeTo(id, call, listener))
  }

  /** The subscriber is registered, and was last given the value of its call on these tables. */
  predicate Holds(app: App, g: System, id: nat, h: Handle, call: QueryCall, docs: Documents) {
    && Registered(g, id, h.key, h.entry, h.listener)
    && Evaluate(app, docs, call).Done?
    && g.procs[id].subs[h.key].listeners[h.listener] == Evaluate(app, docs, call).value
  }

  lemma SubscriberStays(
    app: App, keep: Retention, before: seq<Event>, id: nat, call: QueryCall, listener: nat, later: seq<Event>)
    requires SubscribesFor(app, keep, before, id, call, listener, later)
    ensures var h := HandleOf(app, keep, before, id, call, listener);
            var n := RunEvents(app, keep, before + [SubscribeTo(id, call, listener)] + later);
            var g := Subscribed(app, keep, before, id, call, listener);
            Registered(n, id, h.key, h.entry, listener) <==> NeverStrays(app, keep, g, later, id, h.key)
  {
    var e := SubscribeTo(id, call, listener);
    SubscriberRegistered(app, keep, before, id, call, listener);
    StaysRegistered(app, keep, Subscribed(app, keep, before, id, call, listener), later, id,
                    HandleOf(app, keep, before, id, call, listener));
    assert (before + [e])[..|before + [e]| - 1] == before;
    RunSplit(app, keep, before + [e], later);
  }

  lemma RegisteredIsCurrent(app: App, keep: Retention, g: System, id: nat, call: QueryCall, h: Handle)
    requires SystemOk(app, keep, g) && CallOk(call) && h.key == KeyOf(call)
    requires Registered(g, id, h.key, h.entry, h.listener) && Idle(g.procs[id]) && !g.procs[id].subs[h.key].missed
    requires ReadsKept(app, g.docs, call)
    ensures Holds(app, g, id, h, call, TablesAt(g, g.procs[id].version))
  {
    var p, key := g.procs[id], KeyOf(call);
    assert MemberOk(app, g, p);
    assert SubOk(app, g.docs, g.docs[p.version], p, key, p.subs[key]);
    SameKeySameConditions(app, call, p.subs[key].call, g.docs);
    SameKeySameResult(app, call, p.subs[key].call, g.docs[p.version]);
    RegisteredAreCurrent(app, keep, g, id, key);
  }

  /** A registered subscriber of an idle process that missed no notification, and whose call lost no read. */
  ghost predicate Attentive(app: App, g: System, id: nat, h: Handle, call: QueryCall) {
    && Registered(g, id, h.key, h.entry, h.listener)
    && Idle(g.procs[id]) && !g.procs[id].subs[h.key].missed && ReadsKept(app, g.docs, call)
  }

  lemma AttentiveHolds(app: App, keep: Retention, events: seq<Event>, id: nat, call: QueryCall, h: Handle)
    requires RetentionOk(keep) && CallOk(call) && h.key == KeyOf(call)
    ensures var n := RunEvents(app, keep, events);
            Attentive(app, n, id, h, call) ==> Holds(app, n, id, h, call, TablesAt(n, n.procs[id].version))
  {
    RunEventsOk(app, keep, events);
    if Attentive(app, RunEvents(app, keep, events), id, h, call) {
      RegisteredIsCurrent(app, keep, RunEvents(app, keep, events), id, call, h);
    }
  }

  /** A subscriber that was served and does not end itself is registered exactly as long as no stray handle of its key
      was called.  While it is, its subscription has missed no notification, and the call lost no read, its idle
      process last gave it the value of the call on the tables of the process. */
  lemma SubscriptionsAreCurrent(
    app: App, keep: Retention, before: seq<Event>, id: nat, call: QueryCall, listener: nat, later: seq<Event>)
    requires RetentionOk(keep) && SubscribesFor(app, keep, before, id, call, listener, later)
    ensures var h := HandleOf(app, keep, before, id, call, listener);
            var n := RunEvents(app, keep, before + [SubscribeTo(id, call, listener)] + later);
            var g := Subscribed(app, keep, before, id, call, listener);
            && (Registered(n, id, h.key, h.entry, listener) <==> NeverStrays(app, keep, g, later, id, h.key))
            && (Attentive(app, n, id, h, call) ==> Holds(app, n, id, h, call, TablesAt(n, n.procs[id].version)))
  {
    var h := HandleOf(app, keep, before, id, call, listener);
    SubscriberStays(app, keep, before, id, call, listener, later);
    AttentiveHolds(app, keep, before + [SubscribeTo(id, call, listener)] + later, id, call, h);
  }

  /** In a single process a subscription whose call always answers misses nothing, and the process is up to date. */
  lemma AloneIsCurrent(app: App, keep: Retention, events: seq<Event>, id: nat, call: QueryCall)
    requires RetentionOk(keep) && EventsOf(events, id) && CallOk(call)
    requires var g := RunEvents(app, keep, events);
             && id in g.procs && Idle(g.procs[id]) && KeyOf(call) in g.procs[id].subs
             && AlwaysAnswers(app, g.docs, call)
    ensures var g := RunEvents(app, keep, events);
            && !g.procs[id].subs[KeyOf(call)].missed
            && TablesAt(g, g.procs[id].version) == g.world.state.docs
  {
    var g, key := RunEvents(app, keep, events), KeyOf(call);
    AloneRun(app, keep, events, id);
    RunEventsOk(app, keep, events);
    var p := g.procs[id];
    assert MemberOk(app, g, p);
    assert SubOk(app, g.docs, g.docs[p.version], p, key, p.subs[key]);
    SameKeySameConditions(app, call, p.subs[key].call, g.docs);
  }

  /** In a single process, for every cache capacity including zero: a subscriber that was served and does not end itself
      holds, once a commit is published, the value of its call on the current database, provided that no stray handle
      of its key was called, that its own call lost no read, and that its own handler finishes. */
  lemma SingleProcessSubscriptions(
    app: App, keep: Retention, before: seq<Event>, id: nat, call: QueryCall, listener: nat, later: seq<Event>)
    requires RetentionOk(keep) && SubscribesFor(app, keep, before, id, call, listener, later)
    requires EventsOf(before + [SubscribeTo(id, call, listener)] + later, id)
    requires NeverStrays(app, keep, Subscribed(app, keep, before, id, call, listener), later, id, KeyOf(call))
    requires var n := RunEvents(app, keep, before + [SubscribeTo(id, call, listener)] + later);
             && (id in n.procs ==> Idle(n.procs[id]))
             && ReadsKept(app, n.docs, call) && AlwaysAnswers(app, n.docs, call)
    ensures var n := RunEvents(app, keep, before + [SubscribeTo(id, call, listener)] + later);
            Holds(app, n, id, HandleOf(app, keep, before, id, call, listener), call, n.world.state.docs)
  {
    var whole := before + [SubscribeTo(id, call, listener)] + later;
    SubscriberStays(app, keep, before, id, call, listener, later);
    AloneIsCurrent(app, keep, whole, id, call);
    RunEventsOk(app, keep, whole);
    RegisteredIsCurrent(app, keep, RunEvents(app, keep, whole), id, call,
                        HandleOf(app, keep, before, id, call, listener));
  }
}
