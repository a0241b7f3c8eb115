/** What the budgets keep: the books balance, limits hold, and a retry never charges twice. */
module AgentBudgetProofs {
  import opened Wrappers
  import opened AgentBudgets
  import T = CanonicalText
  import TP = CanonicalTextProofs

  // ----- The invariant -----

  /** The costs of the receipts of one grant. */
  function SumCosts(receipts: seq<ReceiptRow>, id: string): Amounts {
    if receipts == [] then ZERO
    else
      var last := receipts[|receipts| - 1];
      var before := SumCosts(receipts[..|receipts| - 1], id);
      if last.grantId == id then Plus(before, last.receipt.cost) else before
  }

  function CountReceipts(receipts: seq<ReceiptRow>, id: string): nat {
    if receipts == [] then 0
    else
      CountReceipts(receipts[..|receipts| - 1], id) + if receipts[|receipts| - 1].grantId == id then 1 else 0
  }

  predicate RowOk(grants: map<string, Grant>, r: ReceiptRow) {
    r.grantId in grants && r.receipt.grantId == r.grantId && r.receipt.operationId == r.operationId
    && r.receipt.cost.calls == 1
  }

  predicate SameOperation(r: ReceiptRow, q: ReceiptRow) {
    r.grantId == q.grantId && r.operationId == q.operationId
  }

  /** Receipts belong to grants, one for each operation. */
  predicate RowsOk(grants: map<string, Grant>, receipts: seq<ReceiptRow>) {
    && (forall r | r in receipts :: RowOk(grants, r))
    && (forall i, j | 0 <= i < j < |receipts| :: !SameOperation(receipts[i], receipts[j]))
  }

  /** What a grant has used is what its receipts cost, and stays within its limits. */
  predicate Balanced(g: Grant, receipts: seq<ReceiptRow>, id: string) {
    AmountsOk(g.limits) && g.used == SumCosts(receipts, id) && Within(g.used, g.limits)
  }

  predicate BooksOk(grants: map<string, Grant>, receipts: seq<ReceiptRow>) {
    forall id | id in grants :: Balanced(grants[id], receipts, id)
  }

  predicate LedgerOk(c: Config, l: Ledger) {
    && |l.grants| <= c.maxGrants && |l.receipts| <= c.maxReceipts
    && RowsOk(l.grants, l.receipts) && BooksOk(l.grants, l.receipts)
  }

  // ----- The meter -----

  /** The flag is up exactly when the budget is exceeded, and the record count counts the touched records. */
  predicate MeterOk(m: Meter, left: Amounts, external: nat) {
    && m.cost.calls == 1 && m.cost.externalOperations == external
    && m.cost.records == |m.records| <= m.cost.writes
    && (m.exceeded <==> !Within(m.cost, left))
  }

  lemma AddRecord(records: set<(string, string)>, r: (string, string))
    ensures |records| <= |records + {r}| <= |records| + 1
  {
    if r in records {
      assert records + {r} == records;
    }
  }

  lemma MeteredWriteKeepsMeter(
    e: Engine, left: Amounts, table: string, kind: WriteKind, arg: T.Value, data: Data, m: Meter, external: nat)
    requires MeterOk(m, left, external)
    ensures MeterOk(MeteredWrite(e, left, table, kind, arg, data, m).meter, left, external)
    ensures m.exceeded ==> MeteredWrite(e, left, table, kind, arg, data, m).data == data
    ensures Within(m.cost, MeteredWrite(e, left, table, kind, arg, data, m).meter.cost)
  {
    var counted := CountWrite(m);
    var (now, applied) := e.write(data, table, kind, arg);
    if applied.Applied? {
      AddRecord(m.records, (table, applied.id));
    }
  }

  /** The meter is exact in every run, whatever the action catches; and once the budget is exceeded, no write of
      the action reaches the data any more. */
  lemma {:induction false} RunIsMetered(
    e: Engine, left: Amounts, p: Program, fuel: nat, replies: seq<Reply>, data: Data, m: Meter, external: nat)
    requires MeterOk(m, left, external)
    ensures Metered(RunProgram(e, left, p, fuel, replies, data, m), left, data, m, external)
    decreases fuel
  {
    if fuel > 0 {
      match p.next(replies)
      case Finish(output) =>
      case Raise(error) =>
      case Read(query) =>
        RunIsMetered(e, left, p, fuel - 1, replies + [Returned(e.read(data, query))], data, m, external);
      case Write(table, kind, arg) =>
        MeteredWriteKeepsMeter(e, left, table, kind, arg, data, m, external);
        var s := MeteredWrite(e, left, table, kind, arg, data, m);
        RunIsMetered(e, left, p, fuel - 1, replies + [s.reply], s.data, s.meter, external);
    }
  }

  /** What is known of a run that began with this data and this meter. */
  predicate Metered(r: RunEnd, left: Amounts, data: Data, m: Meter, external: nat) {
    && MeterOk(r.meter, left, external)
    && (m.exceeded ==> r.data == data && r.meter.exceeded)
    && Within(m.cost, r.meter.cost)
  }

  /** An accepted run fits into what was left, in every dimension. */
  lemma SpendFits(c: Config, data: Data, q: ExecuteInput, a: Admission, left: Amounts)
    requires Spend(c, data, q, a, left).Ok?
    ensures var run := Spend(c, data, q, a, left).value;
            && run.ending.Output? && Within(run.meter.cost, left)
            && run.meter.cost.calls == 1 && run.meter.cost.externalOperations == a.action.externalOperations
            && run.meter.cost.records == |run.meter.records|
  {
    var m := FreshMeter(a.action.externalOperations);
    var p := a.action.execute(a.args, OperationName(q));
    RunIsMetered(c.engine, left, p, p.bound, [], data, m, a.action.externalOperations);
  }

  // ----- The books -----

  lemma {:induction false} SumWithout(receipts: seq<ReceiptRow>, ids: set<string>, id: string)
    requires id !in ids
    ensures SumCosts(ReceiptsWithout(receipts, ids), id) == SumCosts(receipts, id)
    decreases |receipts|
  {
    if receipts != [] {
      var n := |receipts| - 1;
      SumWithout(receipts[..n], ids, id);
      var kept := ReceiptsWithout(receipts[..n], ids);
      assert kept + [] == kept;
    }
  }

  lemma {:induction false} SumOfStrangers(receipts: seq<ReceiptRow>, id: string)
    requires forall r | r in receipts :: r.grantId != id
    ensures SumCosts(receipts, id) == ZERO
    decreases |receipts|
  {
    if receipts != [] {
      var n := |receipts| - 1;
      assert receipts[n] in receipts;
      forall r | r in receipts[..n] ensures r.grantId != id {
        assert r in receipts;
      }
      SumOfStrangers(receipts[..n], id);
    }
  }

  lemma {:induction false} WithoutMembers(receipts: seq<ReceiptRow>, ids: set<string>)
    ensures forall r :: r in ReceiptsWithout(receipts, ids) <==> r in receipts && r.grantId !in ids
    ensures |ReceiptsWithout(receipts, ids)| <= |receipts|
    decreases |receipts|
  {
    if receipts != [] {
      var n := |receipts| - 1;
      WithoutMembers(receipts[..n], ids);
      assert receipts == receipts[..n] + [receipts[n]];
    }
  }

  lemma AppendRowsOk(grants: map<string, Grant>, receipts: seq<ReceiptRow>, r: ReceiptRow)
    requires RowsOk(grants, receipts) && RowOk(grants, r)
    requires forall q | q in receipts :: !SameOperation(q, r)
    ensures RowsOk(grants, receipts + [r])
  {
    var s := receipts + [r];
    forall i, j | 0 <= i < j < |s| ensures !SameOperation(s[i], s[j]) {
      assert s[i] in receipts;
    }
    forall q | q in s ensures RowOk(grants, q) {
      assert q in receipts || q == r;
    }
  }

  lemma {:induction false} WithoutRowsOk(grants: map<string, Grant>, receipts: seq<ReceiptRow>, ids: set<string>)
    requires RowsOk(grants, receipts)
    ensures RowsOk(grants - ids, ReceiptsWithout(receipts, ids))
    decreases |receipts|
  {
    if receipts != [] {
      var n := |receipts| - 1;
      var front, last := receipts[..n], receipts[n];
      forall r | r in front ensures RowOk(grants, r) {
        assert r in receipts;
      }
      WithoutRowsOk(grants, front, ids);
      if last.grantId !in ids {
        assert last in receipts;
        WithoutMembers(front, ids);
        forall q | q in ReceiptsWithout(front, ids) ensures !SameOperation(q, last) {
          assert q in front;
          var i :| 0 <= i < n && front[i] == q;
          assert receipts[i] == q;
        }
        AppendRowsOk(grants - ids, ReceiptsWithout(front, ids), last);
      } else {
        assert ReceiptsWithout(receipts, ids) == ReceiptsWithout(front, ids);
      }
    }
  }

  lemma PruneKeeps(c: Config, l: Ledger, ids: set<string>)
    requires LedgerOk(c, l)
    ensures LedgerOk(c, Pruned(l, ids))
  {
    var p := Pruned(l, ids);
    WithoutRowsOk(l.grants, l.receipts, ids);
    WithoutMembers(l.receipts, ids);
    forall id | id in p.grants ensures Balanced(p.grants[id], p.receipts, id) {
      SumWithout(l.receipts, ids, id);
      assert Balanced(l.grants[id], l.receipts, id);
    }
  }

  lemma FindReceiptFacts(receipts: seq<ReceiptRow>, g: string, o: string)
    ensures FindReceipt(receipts, g, o).Some? ==>
      FindReceipt(receipts, g, o).value in receipts
      && FindReceipt(receipts, g, o).value.grantId == g && FindReceipt(receipts, g, o).value.operationId == o
    ensures FindReceipt(receipts, g, o).None? ==> forall r | r in receipts :: !(r.grantId == g && r.operationId == o)
    decreases |receipts|
  {
    if receipts != [] {
      FindReceiptFacts(receipts[1..], g, o);
      assert receipts == [receipts[0]] + receipts[1..];
    }
  }

  lemma PlusWithin(used: Amounts, cost: Amounts, limits: Amounts)
    requires Within(used, limits) && Within(cost, Left(limits, used))
    ensures Within(Plus(used, cost), limits)
  {
  }

  lemma ChargeKeeps(c: Config, l: Ledger, id: string, cost: Amounts, row: ReceiptRow)
    requires LedgerOk(c, l) && id in l.grants && |l.receipts| < c.maxReceipts
    requires RowOk(l.grants, row) && row.grantId == id && row.receipt.cost == cost
    requires forall r | r in l.receipts :: !SameOperation(r, row)
    requires Within(cost, Left(l.grants[id].limits, l.grants[id].used))
    ensures LedgerOk(c, Charged(l, id, cost, row))
  {
    var t := Charged(l, id, cost, row);
    AppendRowsOk(t.grants, l.receipts, row);
    assert t.grants.Keys == l.grants.Keys;
    forall k | k in t.grants ensures Balanced(t.grants[k], t.receipts, k) {
      assert Balanced(l.grants[k], l.receipts, k);
      if k == id {
        PlusWithin(l.grants[id].used, cost, l.grants[id].limits);
      }
    }
  }

  /** The books stay; a result comes from the stored receipt. */
  predicate Replays(l: Ledger, data: Data, q: ExecuteInput, fingerprint: string, r: Executed) {
    r.ledger == l && r.data == data && (r.outcome.Ok? ==> Stored(l, q, fingerprint, r.outcome.value))
  }

  predicate Stored(l: Ledger, q: ExecuteInput, fingerprint: string, receipt: Receipt) {
    FindReceipt(l.receipts, q.grantId, q.operationId)
    == Some(ReceiptRow(q.grantId, q.operationId, fingerprint, receipt))
  }

  /** One charge of a new receipt that fits. */
  predicate Charges(c: Config, l: Ledger, q: ExecuteInput, fingerprint: string, r: Executed) {
    && FindReceipt(l.receipts, q.grantId, q.operationId).None?
    && |l.receipts| < c.maxReceipts && q.grantId in l.grants
    && r.outcome.Ok?
    && var receipt := r.outcome.value;
       && receipt.cost.calls == 1 && receipt.grantId == q.grantId && receipt.operationId == q.operationId
       && Within(receipt.cost, Left(l.grants[q.grantId].limits, l.grants[q.grantId].used))
       && r.ledger == Charged(l, q.grantId, receipt.cost,
                              ReceiptRow(q.grantId, q.operationId, fingerprint, receipt))
  }

  /** What an execution can do: nothing to the books and the data, or one charge. */
  lemma ExecuteShape(c: Config, l: Ledger, data: Data, caller: Caller, q: ExecuteInput, at: nat)
    ensures var r := Execute(c, l, data, caller, q, at);
            match Admit(c, l, data, caller, q, at)
            case Err(error) => r.ledger == l && r.data == data && r.outcome == Err(error)
            case Ok(a) => Replays(l, data, q, a.fingerprint, r) || Charges(c, l, q, a.fingerprint, r)
  {
    var a := Admit(c, l, data, caller, q, at);
    if a.Ok? {
      ProceedShape(c, l, data, q, at, a.value);
    }
  }

  lemma ProceedShape(c: Config, l: Ledger, data: Data, q: ExecuteInput, at: nat, a: Admission)
    requires q.grantId in l.grants && a.grant == l.grants[q.grantId]
    requires StatusOf(a.grant, at).Active?
    ensures var r := Proceed(c, l, data, q, at, a);
            Replays(l, data, q, a.fingerprint, r) || Charges(c, l, q, a.fingerprint, r)
  {
    FindReceiptFacts(l.receipts, q.grantId, q.operationId);
    var left := Remaining(a.grant, at);
    if Spend(c, data, q, a, left).Ok? {
      SpendFits(c, data, q, a, left);
    }
  }

  lemma ExecuteKeeps(c: Config, l: Ledger, data: Data, caller: Caller, q: ExecuteInput, at: nat)
    requires LedgerOk(c, l)
    ensures LedgerOk(c, Execute(c, l, data, caller, q, at).ledger)
  {
    var r := Execute(c, l, data, caller, q, at);
    ExecuteShape(c, l, data, caller, q, at);
    var a := Admit(c, l, data, caller, q, at);
    if a.Ok? && Charges(c, l, q, a.value.fingerprint, r) {
      var row := ReceiptRow(q.grantId, q.operationId, a.value.fingerprint, r.outcome.value);
      FindReceiptFacts(l.receipts, q.grantId, q.operationId);
      ChargeKeeps(c, l, q.grantId, r.outcome.value.cost, row);
    }
  }

  lemma NewGrantKeeps(c: Config, l: Ledger, id: string, g: Grant)
    requires LedgerOk(c, l) && |l.grants| < c.maxGrants
    requires id !in l.grants && AmountsOk(g.limits) && g.used == ZERO
    ensures LedgerOk(c, l.(grants := l.grants[id := g]))
  {
    var t := l.(grants := l.grants[id := g]);
    assert t.grants.Keys == l.grants.Keys + {id};
    forall r | r in l.receipts ensures RowOk(t.grants, r) {
      assert RowOk(l.grants, r);
    }
    forall k | k in t.grants ensures Balanced(t.grants[k], t.receipts, k) {
      if k == id {
        SumOfStrangers(l.receipts, id);
      } else {
        assert Balanced(l.grants[k], l.receipts, k);
      }
    }
  }

  lemma RevokeKeeps(c: Config, l: Ledger, id: string, at: nat)
    requires LedgerOk(c, l) && id in l.grants
    ensures LedgerOk(c, RevokedAt(l, id, at))
  {
    var t := RevokedAt(l, id, at);
    assert t.grants.Keys == l.grants.Keys;
    forall k | k in t.grants ensures Balanced(t.grants[k], t.receipts, k) {
      assert Balanced(l.grants[k], l.receipts, k);
    }
    assert RowsOk(t.grants, t.receipts);
  }
}
