/** What a served query returns, told by the documents that are stored: what its handler makes of the documents as
    they were at the revision its process last synchronized with. */
module ServedReads {
  import opened Wrappers
  import opened DocumentStore
  import opened QueryHandlers
  import opened QueryCache
  import opened Cluster
  import D = DocumentReads

  /** A query served by an idle process, from the cache or not, returns what its handler returns once it got answers
      that are all true of the tables at the process's revision. */
  lemma ServedIsTruthful(app: App, keep: Retention, events: seq<Event>, id: nat, call: QueryCall)
    returns (answers: seq<Answer>)
    requires RetentionOk(keep) && CallOk(call)
    requires id in RunEvents(app, keep, events).procs && Idle(RunEvents(app, keep, events).procs[id])
    requires Cached(RunEvents(app, keep, events).procs[id], KeyOf(call)) ==>
               ReadsKept(app, RunEvents(app, keep, events).docs, call)
    ensures var g := RunEvents(app, keep, events);
            var p := g.procs[id];
            var served, docs := InvokeQuery(app, p, call, Snapshot(g, p)).1, TablesAt(g, p.version);
            served.Some? ==>
              && D.Truthful(app.owned, app.caller(call.partition), docs, HandlerOf(app, call), answers)
              && HandlerOf(app, call).next(answers) == Return(served.value)
  {
    var g := RunEvents(app, keep, events);
    ServedQueriesAreCurrent(app, keep, events, id, call);
    answers := D.RunIsTruthful(
      app.owned, app.caller(call.partition), TablesAt(g, g.procs[id].version), HandlerOf(app, call), [], []);
  }
}
