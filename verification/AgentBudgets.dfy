/** Metered transactions of src/agent-budgets.ts: grants with limits, receipts with costs, and the run of one
    action against a metering writer. */
module AgentBudgets {
  import opened Wrappers
  import T = CanonicalText

  // ----- Amounts -----

  datatype Amounts = Amounts(calls: nat, writes: nat, records: nat, externalOperations: nat)

  const ZERO: Amounts := Amounts(0, 0, 0, 0)
  const MAX_AMOUNT: nat := 1_000_000

  /** `dimensions`: combines two amounts dimension by dimension. */
  function Dimensions(left: Amounts, right: Amounts, combine: (nat, nat) -> nat): Amounts {
    Amounts(combine(left.calls, right.calls), combine(left.writes, right.writes),
            combine(left.records, right.records), combine(left.externalOperations, right.externalOperations))
  }

  function Plus(a: Amounts, b: Amounts): Amounts {
    Dimensions(a, b, (spent: nat, debit: nat) => spent + debit)
  }

  function Left(limits: Amounts, used: Amounts): Amounts {
    Dimensions(limits, used, (limit: nat, spent: nat) => if limit > spent then limit - spent else 0)
  }

  predicate Within(a: Amounts, b: Amounts) {
    && a.calls <= b.calls && a.writes <= b.writes && a.records <= b.records
    && a.externalOperations <= b.externalOperations
  }

  /** `amounts`: every dimension is a bounded number. */
  predicate AmountsOk(a: Amounts) {
    Within(a, Amounts(MAX_AMOUNT, MAX_AMOUNT, MAX_AMOUNT, MAX_AMOUNT))
  }

  // ----- Rows -----

  datatype Grant = Grant(
    owner: string, principal: string, actions: map<string, string>, limits: Amounts, used: Amounts,
    created: nat, expires: nat, revoked: Option<nat>, reason: string)

  datatype Receipt = Receipt(
    grantId: string, operationId: string, action: string, revision: string, acceptedAt: nat, cost: Amounts,
    output: T.Value)

  datatype ReceiptRow = ReceiptRow(grantId: string, operationId: string, fingerprint: string, receipt: Receipt)

  datatype Ledger = Ledger(grants: map<string, Grant>, receipts: seq<ReceiptRow>)

  datatype Status = Active | Revoked | Expired

  function StatusOf(g: Grant, at: nat): Status {
    if g.revoked.Some? then Revoked else if g.expires <= at then Expired else Active
  }

  /** What is left of a grant: nothing once it is closed. */
  function Remaining(g: Grant, at: nat): Amounts {
    if StatusOf(g, at).Active? then Left(g.limits, g.used) else ZERO
  }

  // ----- The application's data and the action that works on it -----

  type Data = map<(string, string), T.Value>

  datatype WriteKind = Insert | Patch | Replace | Delete | Restore | PurgeDeleted

  /** What a write of the database does: it fails, or it returns with a record ID or without one. */
  datatype Applied =
    | Failed(error: string)
    | NoId
    | Applied(id: string, changed: bool, result: T.Value)

  datatype Engine = Engine(
    write: (Data, string, WriteKind, T.Value) -> (Data, Applied),
    read: (Data, T.Value) -> T.Value)

  /** What an action sees of a call, and what it does next. */
  datatype Reply = Returned(result: T.Value) | Threw(error: string)

  datatype Request =
    | Write(table: string, kind: WriteKind, arg: T.Value)
    | Read(query: T.Value)
    | Finish(output: T.Value)
    | Raise(error: string)

  /** A deterministic action: its next request depends on the replies so far.  After `bound` requests it is cut
      off. */
  datatype Program = Program(next: seq<Reply> -> Request, bound: nat)

  datatype Identity = Identity(owner: string, principal: string)

  datatype Action = Action(
    revision: string,
    parse: T.Value -> Option<T.Value>,
    authorize: (Data, Identity, T.Value) -> bool,
    execute: (T.Value, string) -> Program,
    externalOperations: nat)

  // ----- The metering writer -----

  datatype Meter = Meter(cost: Amounts, records: set<(string, string)>, exceeded: bool)

  function FreshMeter(externalOperations: nat): Meter {
    Meter(Amounts(1, 0, 0, externalOperations), {}, false)
  }

  const EXCEEDED: string := "The operation exceeds remaining budget."

  /** Counts a write before it runs. */
  function CountWrite(m: Meter): Meter {
    m.(cost := m.cost.(writes := m.cost.writes + 1))
  }

  /** Counts the record a write touched. */
  function CountRecord(m: Meter, table: string, id: string, changed: bool): Meter {
    var records := if changed then m.records + {(table, id)} else m.records;
    m.(records := records, cost := m.cost.(records := |records|))
  }

  /** `check`: remembers for good that the budget was exceeded. */
  function Check(m: Meter, left: Amounts): Meter {
    if Within(m.cost, left) then m else m.(exceeded := true)
  }

  datatype Stepped = Stepped(data: Data, meter: Meter, reply: Reply)

  function MeteredWrite(
    e: Engine, left: Amounts, table: string, kind: WriteKind, arg: T.Value, data: Data, m: Meter): Stepped
  {
    if kind.PurgeDeleted? then Stepped(data, m, Threw("Budget actions cannot purge history."))
    else
      var counted := CountWrite(m);
      if !Within(counted.cost, left) then Stepped(data, Check(counted, left), Threw(EXCEEDED))
      else
        var (now, applied) := e.write(data, table, kind, arg);
        match applied
        case Failed(error) => Stepped(now, counted, Threw(error))
        case NoId => Stepped(now, counted, Threw("A record ID is required."))
        case Applied(id, changed, result) =>
          var touched := CountRecord(counted, table, id, changed);
          Stepped(now, Check(touched, left), if Within(touched.cost, left) then Returned(result) else Threw(EXCEEDED))
  }

  datatype Ending = Output(output: T.Value) | Raised(error: string)

  datatype RunEnd = RunEnd(data: Data, meter: Meter, ending: Ending)

  function RunProgram(
    e: Engine, left: Amounts, p: Program, fuel: nat, replies: seq<Reply>, data: Data, m: Meter): RunEnd
  {
    if fuel == 0 then RunEnd(data, m, Raised("cut off"))
    else
      match p.next(replies)
      case Finish(output) => RunEnd(data, m, Output(output))
      case Raise(error) => RunEnd(data, m, Raised(error))
      case Read(query) =>
        RunProgram(e, left, p, fuel - 1, replies + [Returned(e.read(data, query))], data, m)
      case Write(table, kind, arg) =>
        var s := MeteredWrite(e, left, table, kind, arg, data, m);
        RunProgram(e, left, p, fuel - 1, replies + [s.reply], s.data, s.meter)
  }

  // ----- Tokens and texts -----

  predicate IsTokenStart(c: char) {
    'A' <= c <= 'Z' || 'a' <= c <= 'z' || '0' <= c <= '9'
  }

  predicate IsTokenChar(c: char) {
    IsTokenStart(c) || c == '.' || c == '_' || c == ':' || c == '@' || c == '/' || c == '-'
  }

  predicate IsToken(s: string) {
    1 <= |s| <= 200 && IsTokenStart(s[0]) && forall c | c in s :: IsTokenChar(c)
  }

  /** Hashing, the text limits of `encode`, and the configured bounds. */
  datatype Config = Config(
    actions: map<string, Action>, engine: Engine, hash: string -> string, fits: (T.Value, nat) -> bool,
    receiptFits: Receipt -> bool, maxGrants: nat, maxReceipts: nat, maxValue: nat, retention: nat)

  function Described(action: string, revision: string, args: T.Value): T.Value {
    T.Object([T.Field("action", T.String(action)), T.Field("revision", T.String(revision)), T.Field("input", args)])
  }

  function Fingerprint(c: Config, action: string, revision: string, args: T.Value): string {
    c.hash(T.StableStringify(Described(action, revision, args)))
  }

  // ----- Operations on the ledger -----

  datatype Code =
    | Unauthenticated | Forbidden | NotFound | Closed | Exceeded | RetryConflict | ActionChanged | Capacity
    | Other(message: string)

  /** The current credentials, resolved once before and once inside the transaction. */
  datatype Caller = Caller(before: Option<Identity>, inside: Option<Identity>)

  function Resolve(caller: Caller): Result<Identity, Code> {
    if caller.before.None? || caller.inside.None? then Err(Unauthenticated)
    else if caller.before != caller.inside then Err(Forbidden)
    else Ok(caller.inside.value)
  }

  function RowFor(l: Ledger, id: string, who: Identity): Result<Grant, Code> {
    if !IsToken(id) then Err(Other("Invalid budget identifier."))
    else if id in l.grants && l.grants[id].owner == who.owner then Ok(l.grants[id])
    else Err(NotFound)
  }

  function FindReceipt(receipts: seq<ReceiptRow>, grantId: string, operationId: string): Option<ReceiptRow> {
    if receipts == [] then None
    else if receipts[0].grantId == grantId && receipts[0].operationId == operationId then Some(receipts[0])
    else FindReceipt(receipts[1..], grantId, operationId)
  }

  datatype ExecuteInput = ExecuteInput(grantId: string, operationId: string, action: string, input: T.Value)

  datatype Admission = Admission(grant: Grant, action: Action, args: T.Value, fingerprint: string)

  /** The checks before the receipt is looked up, in their order. */
  function Admit(c: Config, l: Ledger, data: Data, caller: Caller, q: ExecuteInput, at: nat): Result<Admission, Code> {
    if !IsToken(q.operationId) || !IsToken(q.action) then Err(Other("Invalid budget identifier."))
    else
      var who := Resolve(caller);
      if who.Err? then Err(who.error)
      else
        var row := RowFor(l, q.grantId, who.value);
        if row.Err? then Err(row.error)
        else if row.value.principal != who.value.principal then Err(Forbidden)
        else if !StatusOf(row.value, at).Active? then Err(Closed)
        else AdmitAction(c, row.value, data, who.value, q)
  }

  function AdmitAction(c: Config, g: Grant, data: Data, who: Identity, q: ExecuteInput): Result<Admission, Code> {
    if q.action !in c.actions || q.action !in g.actions || g.actions[q.action] != c.actions[q.action].revision then
      Err(ActionChanged)
    else if !c.fits(q.input, c.maxValue) then Err(Other("Budget value exceeds its byte limit."))
    else
      var action := c.actions[q.action];
      var args := action.parse(T.Normalize(q.input, T.EnumerationLeq));
      if args.None? then Err(Other("Invalid input."))
      else if !action.authorize(data, who, args.value) then Err(Forbidden)
      else if !c.fits(Described(q.action, action.revision, args.value), c.maxValue) then
        Err(Other("Budget value exceeds its byte limit."))
      else
        Ok(Admission(g, action, args.value, Fingerprint(c, q.action, action.revision, args.value)))
  }

  datatype Executed = Executed(ledger: Ledger, data: Data, outcome: Result<Receipt, Code>)

  /** The whole transaction: whatever throws leaves ledger and data as they were. */
  function Execute(c: Config, l: Ledger, data: Data, caller: Caller, q: ExecuteInput, at: nat): Executed {
    var admission := Admit(c, l, data, caller, q, at);
    if admission.Err? then Executed(l, data, Err(admission.error))
    else Proceed(c, l, data, q, at, admission.value)
  }

  function Proceed(c: Config, l: Ledger, data: Data, q: ExecuteInput, at: nat, a: Admission): Executed {
    var before := FindReceipt(l.receipts, q.grantId, q.operationId);
    if before.Some? then
      Executed(l, data,
               if before.value.fingerprint != a.fingerprint then Err(RetryConflict) else Ok(before.value.receipt))
    else if |l.receipts| >= c.maxReceipts then Executed(l, data, Err(Capacity))
    else
      var run := Spend(c, data, q, a, Remaining(a.grant, at));
      if run.Err? then Executed(l, data, Err(run.error))
      else Accept(c, l, data, q, at, a, run.value)
  }

  function OperationName(q: ExecuteInput): string {
    q.grantId + "/" + q.operationId
  }

  /** An action that lets the budget error through fails with its code. */
  function Failure(error: string): Code {
    if error == EXCEEDED then Exceeded else Other(error)
  }

  /** Runs the action under the meter; swallowing the budget error does not help it. */
  function Spend(c: Config, data: Data, q: ExecuteInput, a: Admission, left: Amounts): Result<RunEnd, Code> {
    var m := FreshMeter(a.action.externalOperations);
    if !Within(m.cost, left) then Err(Exceeded)
    else
      var p := a.action.execute(a.args, OperationName(q));
      var run := RunProgram(c.engine, left, p, p.bound, [], data, m);
      if run.ending.Raised? then Err(Failure(run.ending.error))
      else if !c.fits(run.ending.output, c.maxValue) then Err(Other("Budget value exceeds its byte limit."))
      else if run.meter.exceeded then Err(Exceeded)
      else Ok(run)
  }

  function ReceiptFor(q: ExecuteInput, at: nat, a: Admission, run: RunEnd): Receipt
    requires run.ending.Output?
  {
    Receipt(q.grantId, q.operationId, q.action, a.action.revision, at, run.meter.cost,
            T.Normalize(run.ending.output, T.EnumerationLeq))
  }

  function Charged(l: Ledger, id: string, cost: Amounts, row: ReceiptRow): Ledger
    requires id in l.grants
  {
    var g := l.grants[id];
    Ledger(l.grants[id := g.(used := Plus(g.used, cost))], l.receipts + [row])
  }

  function Accept(c: Config, l: Ledger, data: Data, q: ExecuteInput, at: nat, a: Admission, run: RunEnd): Executed {
    if !run.ending.Output? || q.grantId !in l.grants then Executed(l, data, Err(NotFound))
    else
      var receipt := ReceiptFor(q, at, a, run);
      if !c.receiptFits(receipt) then
        Executed(l, data, Err(Other("Budget value exceeds its byte limit.")))
      else
        var row := ReceiptRow(q.grantId, q.operationId, a.fingerprint, receipt);
        Executed(Charged(l, q.grantId, receipt.cost, row), run.data, Ok(receipt))
  }

  // ----- Granting, revoking, pruning -----

  /** Grants of an owner that ended at least the retention time ago. */
  predicate Prunable(g: Grant, owner: string, before: int) {
    g.owner == owner && (g.expires <= before || (g.revoked.Some? && g.revoked.value <= before))
  }

  function PrunableIds(l: Ledger, owner: string, before: int): set<string> {
    set id | id in l.grants && Prunable(l.grants[id], owner, before)
  }

  const PRUNE_LIMIT: nat := 500

  /** A choice of at most 500 of them; the query does not say which. */
  predicate PruneChoice(l: Ledger, owner: string, before: int, ids: set<string>) {
    var all := PrunableIds(l, owner, before);
    ids <= all && |ids| == if |all| < PRUNE_LIMIT then |all| else PRUNE_LIMIT
  }

  function ReceiptsWithout(receipts: seq<ReceiptRow>, ids: set<string>): seq<ReceiptRow> {
    if receipts == [] then []
    else
      ReceiptsWithout(receipts[..|receipts| - 1], ids) +
      (if receipts[|receipts| - 1].grantId in ids then [] else [receipts[|receipts| - 1]])
  }

  /** Removes grants together with their receipts. */
  function Pruned(l: Ledger, ids: set<string>): Ledger {
    Ledger(l.grants - ids, ReceiptsWithout(l.receipts, ids))
  }

  function RevokedAt(l: Ledger, id: string, at: nat): Ledger
    requires id in l.grants
  {
    var g := l.grants[id];
    l.(grants := l.grants[id := g.(revoked := if g.revoked.Some? then g.revoked else Some(at))])
  }

  datatype GrantInput = GrantInput(principal: string, names: seq<string>, limits: Amounts, expires: nat, reason: string)

  const MAX_LIFETIME: nat := 30 * 86_400_000

  /** Native authentication IDs may begin with '-' or '_'. */
  predicate IsIdentityToken(s: string) {
    && 1 <= |s| <= 200 && (IsTokenStart(s[0]) || s[0] == '-' || s[0] == '_')
    && forall c | c in s :: IsTokenChar(c)
  }

  predicate IsSpace(c: char) {
    var n := c as int;
    9 <= n <= 13 || n == 0x20 || n == 0xA0 || n == 0x1680 || 0x2000 <= n <= 0x200A || n == 0x2028 || n == 0x2029
    || n == 0x202F || n == 0x205F || n == 0x3000 || n == 0xFEFF
  }

  predicate NamesOk(c: Config, names: seq<string>) {
    && 1 <= |names| <= 100
    && (forall i, j | 0 <= i < j < |names| :: names[i] != names[j])
    && (forall n | n in names :: IsToken(n) && n in c.actions)
  }

  predicate GrantInputOk(c: Config, g: GrantInput) {
    && IsIdentityToken(g.principal) && AmountsOk(g.limits) && NamesOk(c, g.names)
    && |g.reason| <= 500 && exists ch :: ch in g.reason && !IsSpace(ch)
  }

  /** The revisions a grant is bound to. */
  function Revisions(c: Config, names: seq<string>): map<string, string> {
    map n | n in names && n in c.actions :: c.actions[n].revision
  }

  function NewGrant(c: Config, owner: string, g: GrantInput, at: nat): Grant {
    Grant(owner, g.principal, Revisions(c, g.names), g.limits, ZERO, at, g.expires, None, g.reason)
  }

  datatype Managed<T> = Managed(ledger: Ledger, outcome: Result<T, Code>)

  /** The checks every management call begins with. */
  function Manager(caller: Caller, permitted: bool): Result<Identity, Code> {
    var who := Resolve(caller);
    if who.Ok? && !permitted then Err(Forbidden) else who
  }

  /** `grant`, with a new ID and the grants its cleanup chose. */
  function GrantBudget(
    c: Config, l: Ledger, id: string, caller: Caller, permitted: bool, g: GrantInput, at: nat, ids: set<string>)
    : Managed<Grant>
  {
    if !GrantInputOk(c, g) then Managed(l, Err(Other("Invalid grant.")))
    else
      var who := Manager(caller, permitted);
      if who.Err? then Managed(l, Err(who.error))
      else if g.expires <= at || g.expires - at > MAX_LIFETIME then
        Managed(l, Err(Other("Budget grants expire within 30 days.")))
      else
        var cleaned := Pruned(l, ids);
        if |cleaned.grants| >= c.maxGrants then Managed(l, Err(Capacity))
        else
          var row := NewGrant(c, who.value.owner, g, at);
          Managed(cleaned.(grants := cleaned.grants[id := row]), Ok(row))
  }

  function RevokeBudget(l: Ledger, id: string, caller: Caller, permitted: bool, at: nat): Managed<Grant> {
    var who := Manager(caller, permitted);
    if who.Err? then Managed(l, Err(who.error))
    else
      var row := RowFor(l, id, who.value);
      if row.Err? then Managed(l, Err(row.error))
      else
        var now := RevokedAt(l, id, at);
        Managed(now, Ok(now.grants[id]))
  }

  function PruneBudgets(l: Ledger, caller: Caller, permitted: bool, ids: set<string>): Managed<nat> {
    var who := Manager(caller, permitted);
    if who.Err? then Managed(l, Err(who.error)) else Managed(Pruned(l, ids), Ok(|ids|))
  }
}
