/** The calls of src/agent-budgets.ts, step by step: the metering writer and the transactions over the stored
    rows. */
module AgentBudgetService {
  import opened Wrappers
  import opened AgentBudgets
  import opened AgentBudgetProofs
  import T = CanonicalText

  /** The writer an action gets: every write is counted, and the budget checked, before and after it runs. */
  class MeteringWriter {
    const engine: Engine
    const left: Amounts
    var data: Data
    var cost: Amounts
    var records: set<(string, string)>
    var exceeded: bool

    function Reading(): Meter
      reads this
    {
      Meter(cost, records, exceeded)
    }

    constructor (e: Engine, remaining: Amounts, d: Data, externalOperations: nat)
      ensures engine == e && left == remaining && data == d && Reading() == FreshMeter(externalOperations)
    {
      engine, left, data := e, remaining, d;
      cost, records, exceeded := Amounts(1, 0, 0, externalOperations), {}, false;
    }

    method CheckBudget() returns (ok: bool)
      modifies this`exceeded
      ensures ok <==> Within(cost, left)
      ensures Reading() == Check(old(Reading()), left)
    {
      ok := true;
      if cost.calls > left.calls || cost.writes > left.writes || cost.records > left.records
         || cost.externalOperations > left.externalOperations {
        exceeded := true;
        ok := false;
      }
    }

    method Write(table: string, kind: WriteKind, arg: T.Value) returns (reply: Reply)
      modifies this
      ensures Stepped(data, Reading(), reply)
        == MeteredWrite(engine, left, table, kind, arg, old(data), old(Reading()))
    {
      if kind.PurgeDeleted? {
        return Threw("Budget actions cannot purge history.");
      }
      cost := cost.(writes := cost.writes + 1);
      var ok := CheckBudget();
      if !ok {
        return Threw(EXCEEDED);
      }
      var (now, applied) := engine.write(data, table, kind, arg);
      data := now;
      match applied
      case Failed(error) => return Threw(error);
      case NoId => return Threw("A record ID is required.");
      case Applied(id, changed, result) =>
        ok := Touch(table, id, changed);
        return if ok then Returned(result) else Threw(EXCEEDED);
    }

    /** Counts the record a write touched. */
    method Touch(table: string, id: string, changed: bool) returns (ok: bool)
      modifies this`records, this`cost, this`exceeded
      ensures var touched := CountRecord(old(Reading()), table, id, changed);
              Reading() == Check(touched, left) && (ok <==> Within(touched.cost, left))
    {
      if changed {
        records := records + {(table, id)};
      }
      cost := cost.(records := |records|);
      ok := CheckBudget();
    }

    /** Runs an action to its end. */
    method RunToEnd(p: Program) returns (ending: Ending)
      modifies this
      ensures RunEnd(data, Reading(), ending)
        == RunProgram(engine, left, p, p.bound, [], old(data), old(Reading()))
    {
      var replies: seq<Reply> := [];
      var fuel := p.bound;
      ghost var goal := RunProgram(engine, left, p, fuel, [], data, Reading());
      while fuel > 0
        invariant goal == RunProgram(engine, left, p, fuel, replies, data, Reading())
      {
        var request := p.next(replies);
        match request {
          case Finish(output) =>
            return Output(output);
          case Raise(error) =>
            return Raised(error);
          case Read(query) =>
            replies := replies + [Returned(engine.read(data, query))];
          case Write(table, kind, arg) =>
            var reply := Write(table, kind, arg);
            replies := replies + [reply];
        }
        fuel := fuel - 1;
      }
      return Raised("cut off");
    }
  }

  // ----- Pruning one grant after the other -----

  lemma {:induction false} WithoutTwice(receipts: seq<ReceiptRow>, a: set<string>, b: set<string>)
    ensures ReceiptsWithout(ReceiptsWithout(receipts, a), b) == ReceiptsWithout(receipts, a + b)
    decreases |receipts|
  {
    if receipts != [] {
      var n := |receipts| - 1;
      var front := ReceiptsWithout(receipts[..n], a);
      WithoutTwice(receipts[..n], a, b);
      WithoutAppend(front, receipts[n], b);
      assert front + [] == front;
    }
  }

  lemma WithoutAppend(receipts: seq<ReceiptRow>, r: ReceiptRow, ids: set<string>)
    ensures ReceiptsWithout(receipts + [r], ids)
      == ReceiptsWithout(receipts, ids) + (if r.grantId in ids then [] else [r])
  {
    var s := receipts + [r];
    assert s[..|s| - 1] == receipts;
  }

  lemma WithoutNone(receipts: seq<ReceiptRow>)
    ensures ReceiptsWithout(receipts, {}) == receipts
  {
    if receipts != [] {
      WithoutNone(receipts[..|receipts| - 1]);
      assert receipts == receipts[..|receipts| - 1] + [receipts[|receipts| - 1]];
    }
  }

  lemma PrunedNone(l: Ledger)
    ensures Pruned(l, {}) == l
  {
    WithoutNone(l.receipts);
    assert l.grants - {} == l.grants;
  }

  lemma PrunedMore(l: Ledger, ids: set<string>, id: string)
    ensures Pruned(Pruned(l, ids), {id}) == Pruned(l, ids + {id})
  {
    WithoutTwice(l.receipts, ids, {id});
    assert l.grants - ids - {id} == l.grants - (ids + {id});
  }

  class Budgets {
    const config: Config
    var grants: map<string, Grant>
    var receipts: seq<ReceiptRow>
    var data: Data

    function Books(): Ledger
      reads this
    {
      Ledger(grants, receipts)
    }

    constructor (c: Config)
      ensures config == c && Books() == Ledger(map[], []) && data == map[]
    {
      config, grants, receipts, data := c, map[], [], map[];
    }

    /** Deletes up to 500 ended grants of an owner, each with its receipts. */
    method PruneOwner(owner: string, before: int) returns (ids: set<string>)
      modifies this`grants, this`receipts
      ensures PruneChoice(old(Books()), owner, before, ids)
      ensures Books() == Pruned(old(Books()), ids)
    {
      var all := PrunableIds(Books(), owner, before);
      ghost var start := Books();
      var rest := all;
      ids := {};
      PrunedNone(start);
      while rest != {} && |ids| < PRUNE_LIMIT
        invariant ids !! rest && all == ids + rest && |all| == |ids| + |rest|
        invariant |ids| <= PRUNE_LIMIT
        invariant Books() == Pruned(start, ids)
        decreases |rest|
      {
        var id :| id in rest;
        PrunedMore(start, ids, id);
        receipts := ReceiptsWithout(receipts, {id});
        grants := grants - {id};
        ids, rest := ids + {id}, rest - {id};
      }
      assert rest == {} ==> ids == all;
    }

    method Grant(id: string, caller: Caller, permitted: bool, input: GrantInput, at: nat)
      returns (r: Result<Grant, Code>, ghost ids: set<string>)
      modifies this`grants, this`receipts
      ensures Managed(Books(), r) == GrantBudget(config, old(Books()), id, caller, permitted, input, at, ids)
      ensures r.Ok? ==> PruneChoice(old(Books()), Resolve(caller).value.owner, at - config.retention, ids)
    {
      ids := {};
      if !GrantInputOk(config, input) {
        return Err(Other("Invalid grant.")), ids;
      }
      var who := Manager(caller, permitted);
      if who.Err? {
        return Err(who.error), ids;
      }
      if input.expires <= at || input.expires - at > MAX_LIFETIME {
        return Err(Other("Budget grants expire within 30 days.")), ids;
      }
      var before := Books();
      ids := PruneOwner(who.value.owner, at - config.retention);
      if |grants| >= config.maxGrants {
        grants, receipts := before.grants, before.receipts;
        return Err(Capacity), ids;
      }
      var row := NewGrant(config, who.value.owner, input, at);
      grants := grants[id := row];
      return Ok(row), ids;
    }

    /** A grant as its owner's principals see it; nothing changes. */
    method Preview(id: string, caller: Caller, permitted: bool, at: nat)
      returns (r: Result<(Grant, Status, Amounts), Code>)
      ensures r.Ok? <==>
        Resolve(caller).Ok? && RowFor(Books(), id, Resolve(caller).value).Ok?
        && (grants[id].principal == Resolve(caller).value.principal || permitted)
      ensures r.Ok? ==> r.value == (grants[id], StatusOf(grants[id], at), Remaining(grants[id], at))
    {
      var who := Resolve(caller);
      if who.Err? {
        return Err(who.error);
      }
      var row := RowFor(Books(), id, who.value);
      if row.Err? {
        return Err(row.error);
      }
      if row.value.principal != who.value.principal && !permitted {
        return Err(Forbidden);
      }
      return Ok((row.value, StatusOf(row.value, at), Remaining(row.value, at)));
    }

    method Revoke(id: string, caller: Caller, permitted: bool, at: nat) returns (r: Result<Grant, Code>)
      modifies this`grants
      ensures Managed(Books(), r) == RevokeBudget(old(Books()), id, caller, permitted, at)
    {
      var who := Manager(caller, permitted);
      if who.Err? {
        return Err(who.error);
      }
      var row := RowFor(Books(), id, who.value);
      if row.Err? {
        return Err(row.error);
      }
      if grants[id].revoked.None? {
        grants := grants[id := grants[id].(revoked := Some(at))];
      } else {
        assert grants[id := grants[id]] == grants;
      }
      return Ok(grants[id]);
    }

    method Prune(caller: Caller, permitted: bool, at: nat) returns (r: Result<nat, Code>, ghost ids: set<string>)
      modifies this`grants, this`receipts
      ensures Managed(Books(), r) == PruneBudgets(old(Books()), caller, permitted, ids)
      ensures r.Ok? ==> PruneChoice(old(Books()), Resolve(caller).value.owner, at - config.retention, ids)
    {
      ids := {};
      var who := Manager(caller, permitted);
      if who.Err? {
        return Err(who.error), ids;
      }
      var pruned := PruneOwner(who.value.owner, at - config.retention);
      ids := pruned;
      return Ok(|pruned|), ids;
    }

    /** One metered operation: replayed, refused with nothing changed, or charged. */
    method Execute(caller: Caller, q: ExecuteInput, at: nat) returns (r: Result<Receipt, Code>)
      modifies this
      ensures Executed(Books(), data, r)
        == AgentBudgets.Execute(config, old(Books()), old(data), caller, q, at)
    {
      var admission := Admit(config, Books(), data, caller, q, at);
      if admission.Err? {
        return Err(admission.error);
      }
      var a := admission.value;
      var stored := FindReceipt(receipts, q.grantId, q.operationId);
      if stored.Some? {
        if stored.value.fingerprint != a.fingerprint {
          return Err(RetryConflict);
        }
        return Ok(stored.value.receipt);
      }
      if |receipts| >= config.maxReceipts {
        return Err(Capacity);
      }
      var left := Remaining(a.grant, at);
      var writer := new MeteringWriter(config.engine, left, data, a.action.externalOperations);
      var ok := writer.CheckBudget();
      if !ok {
        return Err(Exceeded);
      }
      var ending := writer.RunToEnd(a.action.execute(a.args, OperationName(q)));
      ghost var run := RunEnd(writer.data, writer.Reading(), ending);
      if ending.Raised? {
        return Err(Failure(ending.error));
      }
      if !config.fits(ending.output, config.maxValue) {
        return Err(Other("Budget value exceeds its byte limit."));
      }
      if writer.exceeded {
        return Err(Exceeded);
      }
      assert Spend(config, data, q, a, left) == Ok(run);
      var receipt := Receipt(q.grantId, q.operationId, q.action, a.action.revision, at, writer.cost,
                             T.Normalize(ending.output, T.EnumerationLeq));
      if !config.receiptFits(receipt) {
        return Err(Other("Budget value exceeds its byte limit."));
      }
      var g := grants[q.grantId];
      grants := grants[q.grantId := g.(used := Plus(g.used, writer.cost))];
      receipts := receipts + [ReceiptRow(q.grantId, q.operationId, a.fingerprint, receipt)];
      data := writer.data;
      return Ok(receipt);
    }
  }
}
