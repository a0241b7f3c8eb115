/** Grouped sums over authorized joins (`executeAggregate` in src/backend.ts): the meaning of a plan, row by row and
    without any memory of earlier rows, and what its sums amount to. */
module Aggregates {
  import opened Wrappers
  import T = CanonicalText

  // ----- Data -----

  /** A JavaScript number: an integer, another finite number, or an overflowed result. */
  datatype Number = Integral(n: int) | Fraction(text: string) | Infinite

  const MAX_SAFE: int := 0x1F_FFFF_FFFF_FFFF

  predicate IsSafe(n: int) {
    -MAX_SAFE <= n <= MAX_SAFE
  }

  /** A stored field; Absent is undefined or null, Other an object or an array. */
  datatype Field = Absent | Text(s: string) | Flag(b: bool) | Num(x: Number) | Other

  type Record = map<string, Field>

  function Get(r: Record, field: string): Field {
    if field in r then r[field] else Absent
  }

  datatype Scalar = SNull | SText(s: string) | SFlag(b: bool) | SNum(x: Number)

  /** `aggregateScalar`. */
  function ScalarOf(f: Field): Option<Scalar> {
    match f
    case Absent => Some(SNull)
    case Text(s) => Some(SText(s))
    case Flag(b) => Some(SFlag(b))
    case Num(x) => if x.Infinite? then None else Some(SNum(x))
    case Other => None
  }

  // ----- Plans -----

  datatype Join = Join(name: string, table: string, via: string)

  datatype Projection = Projection(source: string, field: string)

  /** A measure counts rows or sums a projection. */
  datatype Measure = Measure(sum: Option<Projection>)

  datatype Limits = Limits(maxRows: nat, maxRelated: nat, maxBytes: nat, maxGroups: nat)

  datatype Verdict = Allowed | Denied | Improper

  /** What a plan reads: records by table and ID, their stored sizes, tables that need a user, deterministic
      policies, the addition of numbers and their text. */
  datatype Source = Source(
    find: (string, string) -> Option<Record>, size: (string, string) -> nat, readable: string -> bool,
    policy: (string, Record) -> Verdict, add: (Number, Number) -> Number, show: Number -> T.Numeral)

  datatype Plan = Plan(joins: seq<Join>, measures: seq<Measure>, groupBy: Option<Projection>, limits: Limits)

  const ROOT: string := "root"

  predicate IsName(s: string) {
    s != "" && forall c | c in s :: c != ':'
  }

  predicate Declared(plan: Plan, p: Projection) {
    p.source == ROOT || exists j :: j in plan.joins && j.name == p.source
  }

  /** What `aggregatePlan` checks: names without separators, different aliases, declared sources. */
  predicate PlanOk(plan: Plan) {
    && (forall j | j in plan.joins :: IsName(j.name) && IsName(j.table) && j.name != ROOT)
    && (forall i, j | 0 <= i < j < |plan.joins| :: plan.joins[i].name != plan.joins[j].name)
    && (forall m | m in plan.measures :: m.sum.Some? ==> Declared(plan, m.sum.value))
    && (plan.groupBy.Some? ==> Declared(plan, plan.groupBy.value))
    && plan.limits.maxGroups >= 1
  }

  predicate IsIdChar(c: char) {
    'A' <= c <= 'Z' || 'a' <= c <= 'z' || '0' <= c <= '9' || c == '_' || c == '-'
  }

  predicate IsId(s: string) {
    8 <= |s| <= 128 && forall c | c in s :: IsIdChar(c)
  }

  // ----- One row -----

  datatype Visit = Visit(table: string, id: string)

  /** A row with its group and what each measure reads from it. */
  datatype Line = Line(group: Scalar, values: seq<Field>)

  /** A row is hidden, contributes a line, or makes the whole aggregate fail. */
  datatype RowOutcome = Hidden | Visible(line: Line) | Broken

  /** The lookups a row needs, in order, and its outcome. */
  datatype Evaluation = Evaluation(visits: seq<Visit>, outcome: RowOutcome)

  type Sources = map<string, Record>

  function ReadProjection(sources: Sources, p: Projection): Field {
    if p.source in sources then Get(sources[p.source], p.field) else Absent
  }

  function MeasureValue(sources: Sources, m: Measure): Field {
    if m.sum.Some? then ReadProjection(sources, m.sum.value) else Num(Integral(1))
  }

  function MeasureValues(sources: Sources, measures: seq<Measure>): (values: seq<Field>)
    ensures |values| == |measures|
    ensures forall m | 0 <= m < |measures| :: values[m] == MeasureValue(sources, measures[m])
  {
    if measures == [] then [] else [MeasureValue(sources, measures[0])] + MeasureValues(sources, measures[1..])
  }

  function LineOf(plan: Plan, sources: Sources): RowOutcome {
    var group := if plan.groupBy.Some? then ScalarOf(ReadProjection(sources, plan.groupBy.value)) else Some(SNull);
    if group.None? then Broken
    else Visible(Line(group.value, MeasureValues(sources, plan.measures)))
  }

  /** Where one join leads: to a related record, or to the end of the row. */
  datatype JoinEnd = Found(record: Record) | Stops(outcome: RowOutcome)

  datatype JoinResult = JoinResult(visits: seq<Visit>, end: JoinEnd)

  function DecideJoin(src: Source, join: Join, record: Record): JoinEnd {
    match src.policy(join.name, record)
    case Improper => Stops(Broken)
    case Denied => Stops(Hidden)
    case Allowed => Found(record)
  }

  function FollowJoin(src: Source, join: Join, root: Record): JoinResult {
    match Get(root, join.via)
    case Absent => JoinResult([], Stops(Hidden))
    case Text(id) =>
      if !IsId(id) then JoinResult([], Stops(Broken))
      else if !src.readable(join.table) then JoinResult([Visit(join.table, id)], Stops(Broken))
      else
        var record := src.find(join.table, id);
        JoinResult([Visit(join.table, id)],
                   if record.None? then Stops(Hidden) else DecideJoin(src, join, record.value))
    case _ => JoinResult([], Stops(Broken))
  }

  /** Where each join of a row leads. */
  function JoinResults(src: Source, joins: seq<Join>, root: Record): (ends: seq<JoinResult>)
    ensures |ends| == |joins|
  {
    if joins == [] then [] else [FollowJoin(src, joins[0], root)] + JoinResults(src, joins[1..], root)
  }

  /** Follows the joins from the `i`th on, after these lookups, until one ends the row. */
  function Follow(plan: Plan, ends: seq<JoinResult>, i: nat, sources: Sources, visits: seq<Visit>): Evaluation
    requires i <= |plan.joins| == |ends|
    decreases |plan.joins| - i
  {
    if i == |plan.joins| then Evaluation(visits, LineOf(plan, sources))
    else
      match ends[i].end
      case Stops(outcome) => Evaluation(visits + ends[i].visits, outcome)
      case Found(record) =>
        Follow(plan, ends, i + 1, sources[plan.joins[i].name := record], visits + ends[i].visits)
  }

  function Evaluate(plan: Plan, src: Source, root: Record): Evaluation {
    match src.policy(ROOT, root)
    case Improper => Evaluation([], Broken)
    case Denied => Evaluation([], Hidden)
    case Allowed => Follow(plan, JoinResults(src, plan.joins, root), 0, map[ROOT := root], [])
  }

  // ----- All rows -----

  function AllVisits(plan: Plan, src: Source, roots: seq<Record>): seq<Visit> {
    if roots == [] then []
    else AllVisits(plan, src, roots[..|roots| - 1]) + Evaluate(plan, src, roots[|roots| - 1]).visits
  }

  /** Each lookup once, at its first use. */
  function Distinct(visits: seq<Visit>): seq<Visit> {
    if visits == [] then []
    else
      var front := Distinct(visits[..|visits| - 1]);
      if visits[|visits| - 1] in front then front else front + [visits[|visits| - 1]]
  }

  /** The stored size of a looked-up record, if there is one. */
  function Size(src: Source, v: Visit): nat {
    if src.find(v.table, v.id).Some? then src.size(v.table, v.id) else 0
  }

  function Bytes(src: Source, visits: seq<Visit>): nat {
    if visits == [] then 0 else Bytes(src, visits[..|visits| - 1]) + Size(src, visits[|visits| - 1])
  }

  function Lines(plan: Plan, src: Source, roots: seq<Record>): seq<Line> {
    if roots == [] then []
    else
      Lines(plan, src, roots[..|roots| - 1]) +
      (match Evaluate(plan, src, roots[|roots| - 1]).outcome
       case Visible(line) => [line]
       case _ => [])
  }

  predicate NoneBroken(plan: Plan, src: Source, roots: seq<Record>) {
    forall r | r in roots :: !Evaluate(plan, src, r).outcome.Broken?
  }

  /** The groups that appear; without `groupBy` there is one, even over no rows. */
  function Groups(plan: Plan, lines: seq<Line>): set<Scalar> {
    (set l | l in lines :: l.group) + (if plan.groupBy.None? then {SNull} else {})
  }

  function LinesOf(lines: seq<Line>, group: Scalar): seq<Line> {
    if lines == [] then []
    else
      LinesOf(lines[..|lines| - 1], group) +
      (if lines[|lines| - 1].group == group then [lines[|lines| - 1]] else [])
  }

  /** One addition, with its capacity checks. */
  function AddValue(src: Source, previous: Number, value: Field): Option<Number> {
    match value
    case Absent => Some(previous)
    case Num(x) =>
      if x.Infinite? then None
      else
        var sum := src.add(previous, x);
        if sum.Infinite? || (previous.Integral? && x.Integral? && !(sum.Integral? && IsSafe(sum.n))) then None
        else Some(sum)
    case _ => None
  }

  /** The sum of one measure over lines, in their order. */
  function Total(src: Source, lines: seq<Line>, m: nat): Option<Number> {
    if lines == [] then Some(Integral(0))
    else
      var before := Total(src, lines[..|lines| - 1], m);
      if before.None? || m >= |lines[|lines| - 1].values| then None
      else AddValue(src, before.value, lines[|lines| - 1].values[m])
  }

  predicate TotalsExist(plan: Plan, src: Source, lines: seq<Line>) {
    forall g, m | g in Groups(plan, lines) && 0 <= m < |plan.measures| :: Total(src, LinesOf(lines, g), m).Some?
  }

  /** The aggregate exists: no row fails, every total can be formed, and the capacities suffice. */
  predicate Feasible(plan: Plan, src: Source, roots: seq<Record>, rootBytes: nat) {
    var visits := Distinct(AllVisits(plan, src, roots));
    var lines := Lines(plan, src, roots);
    && NoneBroken(plan, src, roots)
    && |visits| <= plan.limits.maxRelated && rootBytes + Bytes(src, visits) <= plan.limits.maxBytes
    && |Groups(plan, lines)| <= plan.limits.maxGroups
    && TotalsExist(plan, src, lines)
  }

  datatype Row = Row(group: Scalar, values: seq<Number>)

  /** One row for each group, with the totals of its lines. */
  ghost predicate IsAnswer(plan: Plan, src: Source, lines: seq<Line>, rows: seq<Row>) {
    && (forall i, j | 0 <= i < j < |rows| :: rows[i].group != rows[j].group)
    && (forall g :: g in Groups(plan, lines) <==> exists r :: r in rows && r.group == g)
    && (forall r | r in rows ::
          && |r.values| == |plan.measures|
          && forall m | 0 <= m < |r.values| :: Total(src, LinesOf(lines, r.group), m) == Some(r.values[m]))
  }

  // ----- Sums of integers are exact -----

  /** Addition of doubles rounds to the nearest: an integer sum in the safe range is exact, any other lies
      outside. */
  ghost predicate Rounds(add: (Number, Number) -> Number) {
    forall a: int, b: int :: RoundsAt(add, a, b)
  }

  predicate RoundsAt(add: (Number, Number) -> Number, a: int, b: int) {
    var sum := add(Integral(a), Integral(b));
    if IsSafe(a + b) then sum == Integral(a + b) else sum.Infinite? || (sum.Integral? && !IsSafe(sum.n))
  }

  predicate IntegerData(lines: seq<Line>, m: nat) {
    forall l | l in lines :: m < |l.values| && (l.values[m].Absent? || (l.values[m].Num? && l.values[m].x.Integral?))
  }

  function ExactSum(lines: seq<Line>, m: nat): int
    requires IntegerData(lines, m)
  {
    if lines == [] then 0
    else
      var last := lines[|lines| - 1];
      assert last in lines;
      assert forall l | l in lines[..|lines| - 1] :: l in lines;
      ExactSum(lines[..|lines| - 1], m) + (if last.values[m].Absent? then 0 else last.values[m].x.n)
  }

  /** No line takes the running sum out of the safe range. */
  predicate StaysSafe(lines: seq<Line>, m: nat)
    requires IntegerData(lines, m)
  {
    if lines == [] then true
    else
      assert forall l | l in lines[..|lines| - 1] :: l in lines;
      StaysSafe(lines[..|lines| - 1], m) && IsSafe(ExactSum(lines, m))
  }

  /** On integer data, a total exists exactly when every partial sum is safe, and then it is the mathematical
      sum. */
  lemma {:induction false} IntegerTotalsAreExact(src: Source, lines: seq<Line>, m: nat)
    requires Rounds(src.add) && IntegerData(lines, m)
    ensures Total(src, lines, m) == if StaysSafe(lines, m) then Some(Integral(ExactSum(lines, m))) else None
    decreases |lines|
  {
    if lines != [] {
      var n := |lines| - 1;
      var front, last := lines[..n], lines[n];
      assert last in lines;
      assert forall l | l in front :: l in lines;
      IntegerTotalsAreExact(src, front, m);
      if StaysSafe(front, m) {
        if last.values[m].Num? {
          RoundedSum(src, ExactSum(front, m), last.values[m].x.n);
        }
      }
    }
  }

  lemma RoundedSum(src: Source, a: int, b: int)
    requires Rounds(src.add)
    ensures AddValue(src, Integral(a), Num(Integral(b))) == if IsSafe(a + b) then Some(Integral(a + b)) else None
  {
    assert RoundsAt(src.add, a, b);
  }
}
