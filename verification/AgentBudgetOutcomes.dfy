/** What an accepted operation did: the data it leaves and the cost on its receipt are those of the requests its action
    made, one after the other; and who is let in to begin with. */
module AgentBudgetOutcomes {
  import opened Wrappers
  import opened AgentBudgets
  import opened AgentBudgetProofs
  import T = CanonicalText

  // ----- What a run did -----

  /** One request of an action: what it worked on, whether it reached the database, and what came back. */
  datatype Step = Step(request: Request, performed: bool, before: Data, reply: Reply, after: Data)

  predicate StepTells(e: Engine, s: Step) {
    match s.request
    case Read(query) => !s.performed && s.after == s.before && s.reply == Returned(e.read(s.before, query))
    case Write(table, kind, arg) =>
      if s.performed then
        && !kind.PurgeDeleted? && s.after == e.write(s.before, table, kind, arg).0
        && match e.write(s.before, table, kind, arg).1
           case Failed(error) => s.reply == Threw(error)
           case NoId => s.reply.Threw?
           case Applied(_, _, result) => s.reply == Returned(result) || s.reply == Threw(EXCEEDED)
      else s.after == s.before && s.reply.Threw? && (kind.PurgeDeleted? || s.reply == Threw(EXCEEDED))
    case _ => false
  }

  /** The requests an action makes after some replies, each on what the one before left. */
  predicate Tells(e: Engine, p: Program, replies: seq<Reply>, data: Data, trace: seq<Step>)
    decreases |trace|
  {
    trace == [] ||
    (&& trace[0].request == p.next(replies) && trace[0].before == data && StepTells(e, trace[0])
     && Tells(e, p, replies + [trace[0].reply], trace[0].after, trace[1..]))
  }

  function Replies(trace: seq<Step>): seq<Reply> {
    if trace == [] then [] else [trace[0].reply] + Replies(trace[1..])
  }

  function Final(data: Data, trace: seq<Step>): Data {
    if trace == [] then data else trace[|trace| - 1].after
  }

  predicate Counts(s: Step) {
    s.request.Write? && !s.request.kind.PurgeDeleted?
  }

  function WriteCount(trace: seq<Step>): nat {
    if trace == [] then 0 else (if Counts(trace[0]) then 1 else 0) + WriteCount(trace[1..])
  }

  /** The record a step changed. */
  function ChangedBy(e: Engine, s: Step): set<(string, string)> {
    if s.performed && s.request.Write? then
      var applied := e.write(s.before, s.request.table, s.request.kind, s.request.arg).1;
      if applied.Applied? && applied.changed then {(s.request.table, applied.id)} else {}
    else {}
  }

  function Changed(e: Engine, trace: seq<Step>): set<(string, string)> {
    if trace == [] then {} else ChangedBy(e, trace[0]) + Changed(e, trace[1..])
  }

  /** No write was turned away or answered with the budget error. */
  predicate NoneExceeded(trace: seq<Step>) {
    forall s | s in trace && Counts(s) :: s.performed
  }

  function StepOf(e: Engine, left: Amounts, r: Request, data: Data, m: Meter): Step
    requires r.Write?
  {
    var s := MeteredWrite(e, left, r.table, r.kind, r.arg, data, m);
    Step(r, !r.kind.PurgeDeleted? && Within(CountWrite(m).cost, left), data, s.reply, s.data)
  }

  lemma WriteTells(e: Engine, left: Amounts, r: Request, data: Data, m: Meter)
    requires r.Write?
    ensures var s, n := StepOf(e, left, r, data, m), MeteredWrite(e, left, r.table, r.kind, r.arg, data, m).meter;
            && StepTells(e, s)
            && n.cost.writes == m.cost.writes + (if Counts(s) then 1 else 0)
            && n.records == m.records + ChangedBy(e, s)
            && (m.exceeded ==> n.exceeded) && (Counts(s) && !s.performed ==> n.exceeded)
  {
    assert m.records + {} == m.records;
    var s := StepOf(e, left, r, data, m);
    if s.performed {
      PerformedTells(e, left, r, data, m);
    }
  }

  lemma PerformedTells(e: Engine, left: Amounts, r: Request, data: Data, m: Meter)
    requires r.Write? && StepOf(e, left, r, data, m).performed
    ensures var s, n := StepOf(e, left, r, data, m), MeteredWrite(e, left, r.table, r.kind, r.arg, data, m).meter;
            && StepTells(e, s) && n.cost.writes == m.cost.writes + 1
            && n.records == m.records + ChangedBy(e, s) && (m.exceeded ==> n.exceeded)
  {
    assert m.records + {} == m.records;
  }

  lemma ConsNoneExceeded(s: Step, trace: seq<Step>)
    requires NoneExceeded(trace) && (Counts(s) ==> s.performed)
    ensures NoneExceeded([s] + trace)
  {
  }

  /** The steps of a run, and what its meter makes of them. */
  predicate RunTold(e: Engine, p: Program, replies: seq<Reply>, data: Data, m: Meter, r: RunEnd, trace: seq<Step>) {
    && Tells(e, p, replies, data, trace) && r.data == Final(data, trace)
    && (r.ending.Output? ==> p.next(replies + Replies(trace)) == Finish(r.ending.output))
    && r.meter.cost.writes == m.cost.writes + WriteCount(trace)
    && r.meter.records == m.records + Changed(e, trace)
    && (m.exceeded ==> r.meter.exceeded) && (!r.meter.exceeded ==> NoneExceeded(trace))
  }

  lemma PrependStep(
    e: Engine, p: Program, replies: seq<Reply>, s: Step, m: Meter, n: Meter, r: RunEnd, rest: seq<Step>)
    requires s.request == p.next(replies) && StepTells(e, s)
    requires n.cost.writes == m.cost.writes + (if Counts(s) then 1 else 0) && n.records == m.records + ChangedBy(e, s)
    requires (m.exceeded ==> n.exceeded) && (Counts(s) && !s.performed ==> n.exceeded)
    requires RunTold(e, p, replies + [s.reply], s.after, n, r, rest)
    requires n.exceeded ==> r.meter.exceeded
    ensures RunTold(e, p, replies, s.before, m, r, [s] + rest)
  {
    var trace := [s] + rest;
    assert trace[1..] == rest;
    assert replies + Replies(trace) == replies + [s.reply] + Replies(rest);
    assert Final(s.before, trace) == Final(s.after, rest);
    if !r.meter.exceeded {
      ConsNoneExceeded(s, rest);
    }
  }

  /** Every run is told by its steps: its data are what they leave, its output is what the action finished with on
      their replies, and the meter counts exactly the writes tried and the records changed. */
  lemma {:induction false} RunTells(
    e: Engine, left: Amounts, p: Program, fuel: nat, replies: seq<Reply>, data: Data, m: Meter)
    returns (trace: seq<Step>)
    ensures RunTold(e, p, replies, data, m, RunProgram(e, left, p, fuel, replies, data, m), trace)
    decreases fuel
  {
    trace := [];
    assert replies + Replies([]) == replies;
    if fuel > 0 {
      var request := p.next(replies);
      if request.Read? {
        var s := Step(request, false, data, Returned(e.read(data, request.query)), data);
        var rest := RunTells(e, left, p, fuel - 1, replies + [s.reply], data, m);
        ReadTold(e, left, p, fuel, replies, s, m, rest);
        trace := [s] + rest;
      } else if request.Write? {
        var s := StepOf(e, left, request, data, m);
        var n := MeteredWrite(e, left, request.table, request.kind, request.arg, data, m);
        var rest := RunTells(e, left, p, fuel - 1, replies + [s.reply], n.data, n.meter);
        WriteTold(e, left, p, fuel, replies, data, m, rest);
        trace := [s] + rest;
      }
    }
  }

  lemma ReadTold(
    e: Engine, left: Amounts, p: Program, fuel: nat, replies: seq<Reply>, s: Step, m: Meter, rest: seq<Step>)
    requires fuel > 0 && p.next(replies).Read? && s.request == p.next(replies)
    requires s == Step(s.request, false, s.before, Returned(e.read(s.before, s.request.query)), s.before)
    requires var r := RunProgram(e, left, p, fuel - 1, replies + [s.reply], s.before, m);
             RunTold(e, p, replies + [s.reply], s.before, m, r, rest)
    ensures RunTold(e, p, replies, s.before, m, RunProgram(e, left, p, fuel, replies, s.before, m), [s] + rest)
  {
    PrependStep(e, p, replies, s, m, m, RunProgram(e, left, p, fuel, replies, s.before, m), rest);
  }

  lemma WriteTold(
    e: Engine, left: Amounts, p: Program, fuel: nat, replies: seq<Reply>, data: Data, m: Meter, rest: seq<Step>)
    requires fuel > 0 && p.next(replies).Write?
    requires var s := StepOf(e, left, p.next(replies), data, m);
             var n := MeteredWrite(e, left, s.request.table, s.request.kind, s.request.arg, data, m);
             var r := RunProgram(e, left, p, fuel - 1, replies + [n.reply], n.data, n.meter);
             RunTold(e, p, replies + [n.reply], n.data, n.meter, r, rest)
    ensures RunTold(e, p, replies, data, m, RunProgram(e, left, p, fuel, replies, data, m),
                    [StepOf(e, left, p.next(replies), data, m)] + rest)
  {
    var s := StepOf(e, left, p.next(replies), data, m);
    var n := MeteredWrite(e, left, s.request.table, s.request.kind, s.request.arg, data, m);
    WriteTells(e, left, s.request, data, m);
    PrependStep(e, p, replies, s, m, n.meter, RunProgram(e, left, p, fuel, replies, data, m), rest);
  }

  // ----- Who is let in -----

  /** The grant is the caller's own, open, and for this action as it is. */
  predicate Entitled(c: Config, l: Ledger, caller: Caller, q: ExecuteInput, at: nat) {
    && IsToken(q.operationId) && IsToken(q.action) && IsToken(q.grantId)
    && caller.before.Some? && caller.inside == caller.before
    && q.grantId in l.grants
    && var g, who := l.grants[q.grantId], caller.before.value;
       && g.owner == who.owner && g.principal == who.principal
       && g.revoked == None && at < g.expires
       && q.action in g.actions && q.action in c.actions && g.actions[q.action] == c.actions[q.action].revision
  }

  /** Only entitled callers are admitted, and of those exactly the ones whose input the action takes and allows. */
  lemma AdmittedExactly(c: Config, l: Ledger, data: Data, caller: Caller, q: ExecuteInput, at: nat)
    ensures var a := Admit(c, l, data, caller, q, at);
            && (a.Ok? ==> Entitled(c, l, caller, q, at))
            && (Entitled(c, l, caller, q, at) ==>
                  var action := c.actions[q.action];
                  var args := action.parse(T.Normalize(q.input, T.EnumerationLeq));
                  a.Ok? <==>
                    && c.fits(q.input, c.maxValue) && args.Some?
                    && action.authorize(data, caller.before.value, args.value)
                    && c.fits(Described(q.action, action.revision, args.value), c.maxValue))
            && (a.Ok? ==> a.value.grant == l.grants[q.grantId] && a.value.action == c.actions[q.action])
  {
  }

  /** A revoked or expired grant is what makes an operation be refused as closed, and nothing else. */
  lemma ClosedExactly(c: Config, l: Ledger, data: Data, caller: Caller, q: ExecuteInput, at: nat)
    ensures Admit(c, l, data, caller, q, at) == Err(Closed) <==>
      && IsToken(q.operationId) && IsToken(q.action) && IsToken(q.grantId)
      && caller.before.Some? && caller.inside == caller.before && q.grantId in l.grants
      && l.grants[q.grantId].owner == caller.before.value.owner
      && l.grants[q.grantId].principal == caller.before.value.principal
      && (l.grants[q.grantId].revoked.Some? || l.grants[q.grantId].expires <= at)
  {
  }

  // ----- What an accepted operation did -----

  /** The receipt and the data are those of the action's steps. */
  predicate Accounts(
    c: Config, data: Data, q: ExecuteInput, at: nat, a: Admission, r: Executed, trace: seq<Step>)
  {
    && r.outcome.Ok?
    && var p, receipt := a.action.execute(a.args, q.grantId + "/" + q.operationId), r.outcome.value;
       && Tells(c.engine, p, [], data, trace) && NoneExceeded(trace)
       && r.data == Final(data, trace)
       && p.next(Replies(trace)).Finish?
       && receipt.output == T.Normalize(p.next(Replies(trace)).output, T.EnumerationLeq)
       && receipt.cost ==
            Amounts(1, WriteCount(trace), |Changed(c.engine, trace)|, a.action.externalOperations)
       && receipt.action == q.action && receipt.revision == a.action.revision && receipt.acceptedAt == at
  }

  /** An operation that goes through the first time is entitled, commits exactly what its action's steps left, and
      its receipt states their output and their cost. */
  lemma AcceptedOperation(c: Config, l: Ledger, data: Data, caller: Caller, q: ExecuteInput, at: nat)
    returns (trace: seq<Step>)
    requires Execute(c, l, data, caller, q, at).outcome.Ok?
    requires FindReceipt(l.receipts, q.grantId, q.operationId).None?
    ensures Entitled(c, l, caller, q, at) && Admit(c, l, data, caller, q, at).Ok?
    ensures Accounts(c, data, q, at, Admit(c, l, data, caller, q, at).value,
                     Execute(c, l, data, caller, q, at), trace)
  {
    AdmittedExactly(c, l, data, caller, q, at);
    var a := Admit(c, l, data, caller, q, at).value;
    trace := SpentOperation(c, data, q, a, Remaining(a.grant, at));
  }

  lemma SpentOperation(c: Config, data: Data, q: ExecuteInput, a: Admission, left: Amounts)
    returns (trace: seq<Step>)
    requires Spend(c, data, q, a, left).Ok?
    ensures var run, p := Spend(c, data, q, a, left).value, a.action.execute(a.args, q.grantId + "/" + q.operationId);
            && Tells(c.engine, p, [], data, trace) && NoneExceeded(trace) && run.data == Final(data, trace)
            && run.ending.Output? && p.next(Replies(trace)) == Finish(run.ending.output)
            && run.meter.cost == Amounts(1, WriteCount(trace), |Changed(c.engine, trace)|, a.action.externalOperations)
  {
    var m := FreshMeter(a.action.externalOperations);
    var p := a.action.execute(a.args, OperationName(q));
    SpendFits(c, data, q, a, left);
    trace := RunTells(c.engine, left, p, p.bound, [], data, m);
    assert [] + Replies(trace) == Replies(trace);
    var run := Spend(c, data, q, a, left).value;
    assert run.meter.records == {} + Changed(c.engine, trace);
    assert {} + Changed(c.engine, trace) == Changed(c.engine, trace);
  }

  function Rest(limit: nat, used: nat): nat {
    if limit > used then limit - used else 0
  }

  /** What a grant has not used up. */
  function Unspent(g: Grant): Amounts {
    Amounts(Rest(g.limits.calls, g.used.calls), Rest(g.limits.writes, g.used.writes),
            Rest(g.limits.records, g.used.records), Rest(g.limits.externalOperations, g.used.externalOperations))
  }

  /** An admitted new operation goes through exactly if there is room for its receipt, the grant has a call and its
      external operations left, and its action ends with an output of bounded size without exceeding what the grant
      has not used up. */
  lemma AcceptedExactly(c: Config, l: Ledger, data: Data, caller: Caller, q: ExecuteInput, at: nat)
    requires Admit(c, l, data, caller, q, at).Ok? && FindReceipt(l.receipts, q.grantId, q.operationId).None?
    ensures var a, left := Admit(c, l, data, caller, q, at).value, Unspent(l.grants[q.grantId]);
            var p, m := a.action.execute(a.args, q.grantId + "/" + q.operationId),
                        Meter(Amounts(1, 0, 0, a.action.externalOperations), {}, false);
            var run := RunProgram(c.engine, left, p, p.bound, [], data, m);
            Execute(c, l, data, caller, q, at).outcome.Ok? <==>
              && |l.receipts| < c.maxReceipts
              && left.calls >= 1 && left.externalOperations >= a.action.externalOperations
              && run.ending.Output? && c.fits(run.ending.output, c.maxValue) && Within(run.meter.cost, left)
              && c.receiptFits(ReceiptFor(q, at, a, run))
  {
    AdmittedExactly(c, l, data, caller, q, at);
    var a, left := Admit(c, l, data, caller, q, at).value, Unspent(l.grants[q.grantId]);
    assert Remaining(a.grant, at) == left;
    var p, m := a.action.execute(a.args, OperationName(q)), FreshMeter(a.action.externalOperations);
    if Within(m.cost, left) {
      RunIsMetered(c.engine, left, p, p.bound, [], data, m, a.action.externalOperations);
    }
  }

  /** An admitted new operation is refused for its budget exactly if the grant has no call or not its external
      operations left, or its action lets the budget error through, or hides it and ends as if nothing were. */
  lemma ExceededExactly(c: Config, l: Ledger, data: Data, caller: Caller, q: ExecuteInput, at: nat)
    requires Admit(c, l, data, caller, q, at).Ok? && FindReceipt(l.receipts, q.grantId, q.operationId).None?
    requires |l.receipts| < c.maxReceipts
    ensures var a, left := Admit(c, l, data, caller, q, at).value, Unspent(l.grants[q.grantId]);
            var p, m := a.action.execute(a.args, q.grantId + "/" + q.operationId),
                        Meter(Amounts(1, 0, 0, a.action.externalOperations), {}, false);
            var run := RunProgram(c.engine, left, p, p.bound, [], data, m);
            Execute(c, l, data, caller, q, at).outcome == Err(Exceeded) <==>
              || left.calls == 0 || left.externalOperations < a.action.externalOperations
              || run.ending == Raised(EXCEEDED)
              || (run.ending.Output? && c.fits(run.ending.output, c.maxValue) && !Within(run.meter.cost, left))
  {
    AdmittedExactly(c, l, data, caller, q, at);
    var a, left := Admit(c, l, data, caller, q, at).value, Unspent(l.grants[q.grantId]);
    assert Remaining(a.grant, at) == left;
    var p, m := a.action.execute(a.args, OperationName(q)), FreshMeter(a.action.externalOperations);
    if Within(m.cost, left) {
      RunIsMetered(c.engine, left, p, p.bound, [], data, m, a.action.externalOperations);
    }
  }

  // ----- Granting, revoking and pruning -----

  predicate KnownCaller(caller: Caller, permitted: bool) {
    caller.before.Some? && caller.inside == caller.before && permitted
  }

  /** What a new grant says: it belongs to the caller's owner and gives the principal the named actions in their
      current revisions, for the limits and the time asked for. */
  predicate GrantSays(c: Config, g: Grant, owner: string, input: GrantInput, at: nat) {
    && g.owner == owner && g.principal == input.principal && g.limits == input.limits && g.used == Amounts(0, 0, 0, 0)
    && g.created == at && g.expires == input.expires && g.revoked == None && g.reason == input.reason
    && (forall n | n in input.names :: n in g.actions && n in c.actions && g.actions[n] == c.actions[n].revision)
    && (forall n | n in g.actions :: n in input.names)
  }

  /** A grant is made exactly if its input is in order, the caller is known and permitted, it ends within 30 days, and
      there is room after the cleanup; no grant is touched but the new one and the cleaned ones. */
  lemma GrantedExactly(
    c: Config, l: Ledger, id: string, caller: Caller, permitted: bool, input: GrantInput, at: nat, ids: set<string>)
    ensures var r := GrantBudget(c, l, id, caller, permitted, input, at, ids);
            && (r.outcome.Ok? <==>
                  && GrantInputOk(c, input) && KnownCaller(caller, permitted)
                  && at < input.expires <= at + 2_592_000_000 && |l.grants - ids| < c.maxGrants)
            && (r.outcome.Ok? ==>
                  && id in r.ledger.grants && r.ledger.grants[id] == r.outcome.value
                  && GrantSays(c, r.outcome.value, caller.before.value.owner, input, at)
                  && forall k | k != id ::
                       && (k in r.ledger.grants <==> k in l.grants && k !in ids)
                       && (k in r.ledger.grants ==> r.ledger.grants[k] == l.grants[k]))
            && (r.outcome.Err? ==> r.ledger == l)
  {
  }

  /** A new grant entitles its principal to each action it names until it expires, and to no other action. */
  lemma GrantEntitles(
    c: Config, l: Ledger, id: string, caller: Caller, permitted: bool, input: GrantInput, at: nat, ids: set<string>,
    user: Identity, q: ExecuteInput, when: nat)
    requires GrantBudget(c, l, id, caller, permitted, input, at, ids).outcome.Ok? && caller.before.Some?
    requires IsToken(id) && IsToken(q.operationId) && q.grantId == id
    ensures Entitled(c, GrantBudget(c, l, id, caller, permitted, input, at, ids).ledger, Caller(Some(user), Some(user)),
                     q, when) <==>
      && user.owner == caller.before.value.owner && user.principal == input.principal
      && q.action in input.names && when < input.expires
  {
    GrantedExactly(c, l, id, caller, permitted, input, at, ids);
  }

  /** A revocation goes through exactly for a known and permitted caller of the grant's owner, and touches no other
      grant. */
  lemma RevokedExactly(l: Ledger, id: string, caller: Caller, permitted: bool, at: nat)
    ensures var r := RevokeBudget(l, id, caller, permitted, at);
            && (r.outcome.Ok? <==>
                  && KnownCaller(caller, permitted) && IsToken(id)
                  && id in l.grants && l.grants[id].owner == caller.before.value.owner)
            && (r.outcome.Ok? ==> id in r.ledger.grants && r.ledger.grants[id].revoked.Some?)
            && r.ledger.grants.Keys == l.grants.Keys && r.ledger.receipts == l.receipts
            && forall k | k in l.grants && (k != id || r.outcome.Err?) :: r.ledger.grants[k] == l.grants[k]
  {
    assert id in l.grants ==> RevokedAt(l, id, at).grants.Keys == l.grants.Keys + {id} == l.grants.Keys;
  }

  /** Pruning takes only grants of the owner that ended at least the retention time ago; none of them admits an
      operation any more.  Unless it takes as many as it may, it leaves none of these. */
  lemma PrunesTheEnded(
    c: Config, l: Ledger, data: Data, owner: string, now: nat, ids: set<string>, id: string, caller: Caller,
    q: ExecuteInput, later: nat)
    requires PruneChoice(l, owner, now - c.retention, ids) && later >= now && q.grantId == id
    ensures id in ids ==>
      && id in l.grants && l.grants[id].owner == owner
      && (l.grants[id].expires + c.retention <= now ||
          (l.grants[id].revoked.Some? && l.grants[id].revoked.value + c.retention <= now))
      && Admit(c, l, data, caller, q, later).Err?
    ensures |ids| < 500 && id in l.grants && id !in ids && l.grants[id].owner == owner ==>
      && l.grants[id].expires + c.retention > now
      && (l.grants[id].revoked.Some? ==> l.grants[id].revoked.value + c.retention > now)
  {
    AdmittedExactly(c, l, data, caller, q, later);
    var all := PrunableIds(l, owner, now - c.retention);
    if |ids| < 500 {
      SameSize(ids, all);
    }
  }

  lemma SameSize(a: set<string>, b: set<string>)
    requires a <= b && |a| == |b|
    ensures a == b
  {
    assert |b - a| == 0;
  }
}
