/** Runs of budget calls, with redeployed actions and application writes in between. */
module AgentBudgetRuns {
  import opened Wrappers
  import opened AgentBudgets
  import opened AgentBudgetProofs
  import T = CanonicalText
  import TP = CanonicalTextProofs

  /** The database, and every grant ID issued so far. */
  datatype State = State(ledger: Ledger, data: Data, issued: set<string>)

  const INITIAL: State := State(Ledger(map[], []), map[], {})

  /** Every call brings the configuration it runs under; only the bounds stay. */
  datatype Event =
    | Granting(c: Config, id: string, caller: Caller, permitted: bool, input: GrantInput, at: nat, ids: set<string>)
    | Revoking(id: string, caller: Caller, permitted: bool, at: nat)
    | Executing(c: Config, caller: Caller, q: ExecuteInput, at: nat)
    | Pruning(caller: Caller, permitted: bool, ids: set<string>)
    | Writing(data: Data)

  predicate SameBounds(c: Config, d: Config) {
    c.maxGrants == d.maxGrants && c.maxReceipts == d.maxReceipts
  }

  /** Grant IDs are random and never come twice. */
  predicate Enabled(c: Config, s: State, e: Event) {
    match e
    case Granting(d, id, caller, permitted, input, at, ids) => SameBounds(c, d) && id !in s.issued
    case Executing(d, caller, q, at) => SameBounds(c, d)
    case _ => true
  }

  function Next(s: State, e: Event): State {
    match e
    case Granting(d, id, caller, permitted, input, at, ids) =>
      var r := GrantBudget(d, s.ledger, id, caller, permitted, input, at, ids);
      State(r.ledger, s.data, s.issued + {id})
    case Revoking(id, caller, permitted, at) => s.(ledger := RevokeBudget(s.ledger, id, caller, permitted, at).ledger)
    case Executing(d, caller, q, at) =>
      var r := Execute(d, s.ledger, s.data, caller, q, at);
      s.(ledger := r.ledger, data := r.data)
    case Pruning(caller, permitted, ids) => s.(ledger := PruneBudgets(s.ledger, caller, permitted, ids).ledger)
    case Writing(data) => s.(data := data)
  }

  predicate RunOk(c: Config, s: State, events: seq<Event>)
    decreases |events|
  {
    events == [] || (Enabled(c, s, events[0]) && RunOk(c, Next(s, events[0]), events[1..]))
  }

  function Run(s: State, events: seq<Event>): State
    decreases |events|
  {
    if events == [] then s else Run(Next(s, events[0]), events[1..])
  }

  predicate StateOk(c: Config, s: State) {
    LedgerOk(c, s.ledger) && s.ledger.grants.Keys <= s.issued
  }

  // ----- Every call keeps the books -----

  lemma GrantingKeeps(
    c: Config, l: Ledger, id: string, caller: Caller, permitted: bool, input: GrantInput, at: nat, ids: set<string>)
    requires LedgerOk(c, l) && id !in l.grants
    ensures var r := GrantBudget(c, l, id, caller, permitted, input, at, ids).ledger;
            LedgerOk(c, r) && r.grants.Keys <= l.grants.Keys + {id}
  {
    var r := GrantBudget(c, l, id, caller, permitted, input, at, ids);
    if r.outcome.Ok? {
      CleanedGrantKeeps(c, l, ids, id, r.outcome.value);
    }
  }

  lemma CleanedGrantKeeps(c: Config, l: Ledger, ids: set<string>, id: string, g: Grant)
    requires LedgerOk(c, l) && id !in l.grants && |Pruned(l, ids).grants| < c.maxGrants
    requires AmountsOk(g.limits) && g.used == ZERO
    ensures var cleaned := Pruned(l, ids);
            var r := cleaned.(grants := cleaned.grants[id := g]);
            LedgerOk(c, r) && r.grants.Keys <= l.grants.Keys + {id}
  {
    var cleaned := Pruned(l, ids);
    PruneKeeps(c, l, ids);
    NewGrantKeeps(c, cleaned, id, g);
    assert cleaned.grants[id := g].Keys == cleaned.grants.Keys + {id};
  }

  lemma NextKeeps(c: Config, s: State, e: Event)
    requires StateOk(c, s) && Enabled(c, s, e)
    ensures StateOk(c, Next(s, e))
  {
    match e
    case Granting(d, id, caller, permitted, input, at, ids) =>
      GrantingKeeps(d, s.ledger, id, caller, permitted, input, at, ids);
    case Revoking(id, caller, permitted, at) =>
      if RevokeBudget(s.ledger, id, caller, permitted, at).outcome.Ok? {
        RevokeKeeps(c, s.ledger, id, at);
      }
    case Executing(d, caller, q, at) =>
      ExecuteKeeps(d, s.ledger, s.data, caller, q, at);
      ExecuteKeepsKeys(d, s.ledger, s.data, caller, q, at);
    case Pruning(caller, permitted, ids) =>
      PruneKeeps(c, s.ledger, ids);
    case Writing(data) =>
  }

  lemma ExecuteKeepsKeys(c: Config, l: Ledger, data: Data, caller: Caller, q: ExecuteInput, at: nat)
    ensures Execute(c, l, data, caller, q, at).ledger.grants.Keys == l.grants.Keys
  {
    ExecuteShape(c, l, data, caller, q, at);
  }

  lemma {:induction false} RunKeeps(c: Config, s: State, events: seq<Event>)
    requires StateOk(c, s) && RunOk(c, s, events)
    ensures StateOk(c, Run(s, events))
    decreases |events|
  {
    if events != [] {
      NextKeeps(c, s, events[0]);
      RunKeeps(c, Next(s, events[0]), events[1..]);
    }
  }

  lemma {:induction false} CallsCountReceipts(receipts: seq<ReceiptRow>, id: string)
    requires forall r | r in receipts :: r.receipt.cost.calls == 1
    ensures SumCosts(receipts, id).calls == CountReceipts(receipts, id)
    decreases |receipts|
  {
    if receipts != [] {
      var n := |receipts| - 1;
      assert receipts[n] in receipts;
      forall r | r in receipts[..n] ensures r.receipt.cost.calls == 1 {
        assert r in receipts;
      }
      CallsCountReceipts(receipts[..n], id);
    }
  }

  /** In every reachable state, what a grant has used is the sum of its receipts, stays within its limits in every
      dimension, and together with what remains makes up the limits; its calls are its receipts. */
  lemma BooksBalance(c: Config, events: seq<Event>, id: string, at: nat)
    requires RunOk(c, INITIAL, events) && id in Run(INITIAL, events).ledger.grants
    ensures var l := Run(INITIAL, events).ledger;
            var g := l.grants[id];
            && g.used == SumCosts(l.receipts, id) && Within(g.used, g.limits) && AmountsOk(g.used)
            && g.used.calls == CountReceipts(l.receipts, id)
            && (StatusOf(g, at).Active? ==> Plus(g.used, Remaining(g, at)) == g.limits)
            && |l.grants| <= c.maxGrants && |l.receipts| <= c.maxReceipts
  {
    assert StateOk(c, INITIAL);
    RunKeeps(c, INITIAL, events);
    var l := Run(INITIAL, events).ledger;
    assert Balanced(l.grants[id], l.receipts, id);
    forall r | r in l.receipts ensures r.receipt.cost.calls == 1 {
      assert RowOk(l.grants, r);
    }
    CallsCountReceipts(l.receipts, id);
  }

  // ----- Retries -----

  /** The row is there, or its grant is gone for good. */
  predicate Kept(s: State, row: ReceiptRow) {
    row.grantId in s.issued && (row in s.ledger.receipts || row.grantId !in s.ledger.grants)
  }

  lemma PrunedKeepsRow(l: Ledger, ids: set<string>, row: ReceiptRow)
    requires row in l.receipts || row.grantId !in l.grants
    ensures row in Pruned(l, ids).receipts || row.grantId !in Pruned(l, ids).grants
  {
    WithoutMembers(l.receipts, ids);
  }

  lemma NextKeepsRow(c: Config, s: State, e: Event, row: ReceiptRow)
    requires StateOk(c, s) && Enabled(c, s, e) && Kept(s, row)
    ensures Kept(Next(s, e), row)
  {
    match e
    case Granting(d, id, caller, permitted, input, at, ids) =>
      PrunedKeepsRow(s.ledger, ids, row);
    case Revoking(id, caller, permitted, at) =>
    case Executing(d, caller, q, at) =>
      ExecuteShape(d, s.ledger, s.data, caller, q, at);
    case Pruning(caller, permitted, ids) =>
      PrunedKeepsRow(s.ledger, ids, row);
    case Writing(data) =>
  }

  lemma {:induction false} RunKeepsRow(c: Config, s: State, events: seq<Event>, row: ReceiptRow)
    requires StateOk(c, s) && RunOk(c, s, events) && Kept(s, row)
    ensures Kept(Run(s, events), row)
    decreases |events|
  {
    if events != [] {
      NextKeeps(c, s, events[0]);
      NextKeepsRow(c, s, events[0], row);
      RunKeepsRow(c, Next(s, events[0]), events[1..], row);
    }
  }

  lemma FoundIsUnique(grants: map<string, Grant>, receipts: seq<ReceiptRow>, row: ReceiptRow)
    requires RowsOk(grants, receipts) && row in receipts
    ensures FindReceipt(receipts, row.grantId, row.operationId) == Some(row)
  {
    FindReceiptFacts(receipts, row.grantId, row.operationId);
    var found := FindReceipt(receipts, row.grantId, row.operationId).value;
    var i :| 0 <= i < |receipts| && receipts[i] == row;
    var j :| 0 <= j < |receipts| && receipts[j] == found;
    assert SameOperation(receipts[i], receipts[j]) && SameOperation(receipts[j], receipts[i]);
  }

  /** An accepted execution leaves its receipt in the ledger. */
  lemma AcceptedIsStored(c: Config, s: State, caller: Caller, q: ExecuteInput, at: nat)
    requires StateOk(c, s) && Execute(c, s.ledger, s.data, caller, q, at).outcome.Ok?
    ensures var a := Admit(c, s.ledger, s.data, caller, q, at);
            var receipt := Execute(c, s.ledger, s.data, caller, q, at).outcome.value;
            a.Ok? && Kept(Next(s, Executing(c, caller, q, at)),
                          ReceiptRow(q.grantId, q.operationId, a.value.fingerprint, receipt))
  {
    var r := Execute(c, s.ledger, s.data, caller, q, at);
    ExecuteShape(c, s.ledger, s.data, caller, q, at);
    FindReceiptFacts(s.ledger.receipts, q.grantId, q.operationId);
    var a := Admit(c, s.ledger, s.data, caller, q, at).value;
    var row := ReceiptRow(q.grantId, q.operationId, a.fingerprint, r.outcome.value);
    assert row in r.ledger.receipts;
    assert q.grantId in s.ledger.grants;
  }

  /** With a stored receipt, an execution changes nothing, and its outcome is fixed: the refusal of the checks, the
      receipt for the same fingerprint, a conflict for any other. */
  lemma StoredDecides(
    c: Config, s: State, row: ReceiptRow, caller: Caller, q: ExecuteInput, at: nat)
    requires StateOk(c, s) && Kept(s, row) && row.grantId == q.grantId && row.operationId == q.operationId
    ensures var r := Execute(c, s.ledger, s.data, caller, q, at);
            && r.ledger == s.ledger && r.data == s.data
            && match Admit(c, s.ledger, s.data, caller, q, at)
               case Err(error) => r.outcome == Err(error)
               case Ok(a) =>
                 r.outcome == if a.fingerprint == row.fingerprint then Ok(row.receipt) else Err(RetryConflict)
  {
    if row in s.ledger.receipts {
      FoundIsUnique(s.ledger.grants, s.ledger.receipts, row);
    }
  }

  /** After an accepted operation, whatever happens to the ledger, the data and the deployed actions in between, a
      call with its operation ID never charges, never writes, and returns either an error or the very receipt of
      the first call: the receipt exactly when it is admitted with the same fingerprint. */
  lemma RetryIsIdempotent(
    c: Config, s: State, caller: Caller, q: ExecuteInput, at: nat, events: seq<Event>,
    later: Config, retrier: Caller, retry: ExecuteInput, now: nat)
    requires StateOk(c, s) && SameBounds(c, later)
    requires Execute(c, s.ledger, s.data, caller, q, at).outcome.Ok?
    requires RunOk(c, Next(s, Executing(c, caller, q, at)), events)
    requires retry.grantId == q.grantId && retry.operationId == q.operationId
    ensures var first := Execute(c, s.ledger, s.data, caller, q, at);
            var admitted := Admit(c, s.ledger, s.data, caller, q, at);
            var t := Run(Next(s, Executing(c, caller, q, at)), events);
            var r := Execute(later, t.ledger, t.data, retrier, retry, now);
            && admitted.Ok? && r.ledger == t.ledger && r.data == t.data
            && match Admit(later, t.ledger, t.data, retrier, retry, now)
               case Err(error) => r.outcome == Err(error)
               case Ok(a) =>
                 r.outcome == if a.fingerprint == admitted.value.fingerprint then first.outcome else Err(RetryConflict)
  {
    var first := Execute(c, s.ledger, s.data, caller, q, at);
    var next := Next(s, Executing(c, caller, q, at));
    AcceptedIsStored(c, s, caller, q, at);
    NextKeeps(c, s, Executing(c, caller, q, at));
    var row := ReceiptRow(
      q.grantId, q.operationId, Admit(c, s.ledger, s.data, caller, q, at).value.fingerprint, first.outcome.value);
    RunKeeps(c, next, events);
    RunKeepsRow(c, next, events, row);
    var t := Run(next, events);
    StoredDecides(later, t, row, retrier, retry, now);
  }

  // ----- Revocation -----

  /** The grant is as it was, or gone for good. */
  predicate Frozen(s: State, id: string, g: Grant) {
    id in s.issued && (id in s.ledger.grants ==> s.ledger.grants[id] == g)
  }

  lemma NextKeepsFrozen(c: Config, s: State, e: Event, id: string, g: Grant)
    requires StateOk(c, s) && Enabled(c, s, e) && Frozen(s, id, g) && g.revoked.Some?
    ensures Frozen(Next(s, e), id, g)
  {
    match e
    case Executing(d, caller, q, at) =>
      ExecuteShape(d, s.ledger, s.data, caller, q, at);
    case _ =>
  }

  lemma {:induction false} RunKeepsFrozen(c: Config, s: State, events: seq<Event>, id: string, g: Grant)
    requires StateOk(c, s) && RunOk(c, s, events) && Frozen(s, id, g) && g.revoked.Some?
    ensures Frozen(Run(s, events), id, g)
    decreases |events|
  {
    if events != [] {
      NextKeeps(c, s, events[0]);
      NextKeepsFrozen(c, s, events[0], id, g);
      RunKeepsFrozen(c, Next(s, events[0]), events[1..], id, g);
    }
  }

  lemma FrozenRefuses(c: Config, s: State, id: string, g: Grant, caller: Caller, q: ExecuteInput, at: nat)
    requires Frozen(s, id, g) && g.revoked.Some? && q.grantId == id
    ensures var r := Execute(c, s.ledger, s.data, caller, q, at);
            r.outcome.Err? && r.ledger == s.ledger && r.data == s.data
  {
    assert Admit(c, s.ledger, s.data, caller, q, at).Err?;
  }

  /** Revocation is final.  Whatever follows, more revocations and redeployments included, the grant keeps its first
      revocation time and what it has used until cleanup removes it; every operation on it fails and leaves ledger
      and data alone; other grants are not touched by the revocation. */
  lemma RevocationIsFinal(
    c: Config, s: State, id: string, caller: Caller, permitted: bool, at: nat, events: seq<Event>,
    later: Config, user: Caller, q: ExecuteInput, now: nat)
    requires StateOk(c, s) && RevokeBudget(s.ledger, id, caller, permitted, at).outcome.Ok?
    requires RunOk(c, Next(s, Revoking(id, caller, permitted, at)), events) && q.grantId == id
    ensures var n := Next(s, Revoking(id, caller, permitted, at));
            var t := Run(n, events);
            var r := Execute(later, t.ledger, t.data, user, q, now);
            && id in s.ledger.grants && id in n.ledger.grants
            && n.ledger.grants[id].used == s.ledger.grants[id].used
            && n.ledger.grants[id].revoked
               == Some(if s.ledger.grants[id].revoked.Some? then s.ledger.grants[id].revoked.value else at)
            && (forall other | other != id ::
                  && (other in n.ledger.grants <==> other in s.ledger.grants)
                  && (other in s.ledger.grants ==> n.ledger.grants[other] == s.ledger.grants[other]))
            && (id in t.ledger.grants ==> t.ledger.grants[id] == n.ledger.grants[id])
            && r.outcome.Err? && r.ledger == t.ledger && r.data == t.data
  {
    var e := Revoking(id, caller, permitted, at);
    var n := Next(s, e);
    NextKeeps(c, s, e);
    var g := n.ledger.grants[id];
    RunKeepsFrozen(c, n, events, id, g);
    FrozenRefuses(later, Run(n, events), id, g, user, q, now);
  }

  // ----- Fingerprints -----

  /** The same request: action, revision and arguments up to key order. */
  predicate SameRequest(a: string, r: string, x: T.Value, b: string, t: string, y: T.Value) {
    a == b && r == t && T.Meaning(x) == T.Meaning(y)
  }

  lemma DescribedMeaning(a: string, r: string, x: T.Value, b: string, t: string, y: T.Value)
    requires T.WellFormed(x) && T.WellFormed(y)
    ensures T.Meaning(Described(a, r, x)) == T.Meaning(Described(b, t, y)) <==> SameRequest(a, r, x, b, t, y)
  {
    var f, g := Described(a, r, x).fields, Described(b, t, y).fields;
    if SameRequest(a, r, x, b, t, y) {
      TP.PointwiseMeaning(f, g);
    }
    if T.MeaningOfFields(f) == T.MeaningOfFields(g) {
      SameFieldMeaning(f, g, 0);
      SameFieldMeaning(f, g, 1);
      SameFieldMeaning(f, g, 2);
    }
  }

  lemma SameFieldMeaning(f: seq<T.Field>, g: seq<T.Field>, i: nat)
    requires T.Distinct(f) && T.Distinct(g) && T.MeaningOfFields(f) == T.MeaningOfFields(g)
    requires i < |f| && i < |g| && f[i].key == g[i].key
    ensures T.Meaning(f[i].value) == T.Meaning(g[i].value)
  {
    TP.FieldLookup(f);
    TP.FieldLookup(g);
    assert T.MeaningOfFields(f)[f[i].key] == T.Meaning(f[i].value);
    assert T.MeaningOfFields(g)[g[i].key] == T.Meaning(g[i].value);
  }

  /** Equal requests have equal fingerprints; requests with equal fingerprints are equal unless their texts collide
      under the hash. */
  lemma FingerprintIdentifies(c: Config, a: string, r: string, x: T.Value, b: string, t: string, y: T.Value)
    requires T.WellFormed(x) && T.WellFormed(y)
    ensures SameRequest(a, r, x, b, t, y) ==> Fingerprint(c, a, r, x) == Fingerprint(c, b, t, y)
    ensures Fingerprint(c, a, r, x) == Fingerprint(c, b, t, y) ==>
      || SameRequest(a, r, x, b, t, y)
      || var v, w := T.StableStringify(Described(a, r, x)), T.StableStringify(Described(b, t, y));
         v != w && c.hash(v) == c.hash(w)
  {
    TP.StableStringifyExact(Described(a, r, x), Described(b, t, y));
    DescribedMeaning(a, r, x, b, t, y);
  }
}
