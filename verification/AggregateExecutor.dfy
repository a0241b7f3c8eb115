/** The executor of src/backend.ts (`executeAggregate`): it looks each related record up once, decides each policy
    once, and keeps running totals per group. */
module AggregateExecutor {
  import opened Wrappers
  import opened Aggregates
  import opened AggregateProofs
  import T = CanonicalText

  type Related = map<string, Option<Record>>
  type Permitted = map<string, bool>
  type Totals = map<string, Row>

  // ----- What the memos hold -----

  /** The related memo holds exactly the distinct lookups, each with its record. */
  ghost predicate RelatedOk(src: Source, related: Related, looked: seq<Visit>) {
    && |related| == |looked|
    && (forall v | v in looked :: IsName(v.table) && src.readable(v.table))
    && (forall t, i | IsName(t) && RelatedKey(t, i) in related ::
          Visit(t, i) in looked && related[RelatedKey(t, i)] == src.find(t, i))
    && (forall v | v in looked :: RelatedKey(v.table, v.id) in related)
  }

  /** A decided policy is what the policy says about the record. */
  predicate Decides(src: Source, name: string, record: Option<Record>, allowed: bool) {
    record.Some? && src.policy(name, record.value) == if allowed then Allowed else Denied
  }

  ghost predicate PermittedOk(src: Source, permitted: Permitted) {
    forall a, t, i | IsName(a) && IsName(t) && PolicyKey(a, RelatedKey(t, i)) in permitted ::
      Decides(src, a, src.find(t, i), permitted[PolicyKey(a, RelatedKey(t, i))])
  }

  /** The group map holds one entry for each group, with its totals. */
  ghost predicate TotalsOk(plan: Plan, src: Source, lines: seq<Line>, totals: Totals) {
    && |totals| == |Groups(plan, lines)|
    && (forall k | k in totals :: OwnKey(plan, src, lines, k, totals[k]))
    && (forall g | g in Groups(plan, lines) :: HasTotals(plan, src, lines, totals, g))
  }

  predicate OwnKey(plan: Plan, src: Source, lines: seq<Line>, key: string, row: Row) {
    key == GroupKey(src, row.group) && row.group in Groups(plan, lines)
  }

  predicate HasTotals(plan: Plan, src: Source, lines: seq<Line>, totals: Totals, g: Scalar) {
    && GroupKey(src, g) in totals && totals[GroupKey(src, g)].group == g
    && RowTotals(plan, src, LinesOf(lines, g), totals[GroupKey(src, g)].values)
  }

  predicate RowTotals(plan: Plan, src: Source, own: seq<Line>, values: seq<Number>) {
    |values| == |plan.measures| && forall m | 0 <= m < |values| :: Total(src, own, m) == Some(values[m])
  }

  // ----- Memo steps -----

  lemma NewLookup(src: Source, related: Related, looked: seq<Visit>, table: string, id: string)
    requires RelatedOk(src, related, looked) && IsName(table) && src.readable(table)
    requires RelatedKey(table, id) !in related
    ensures RelatedOk(src, related[RelatedKey(table, id) := src.find(table, id)], looked + [Visit(table, id)])
    ensures Visit(table, id) !in looked
  {
    var now, more := related[RelatedKey(table, id) := src.find(table, id)], looked + [Visit(table, id)];
    assert now.Keys == related.Keys + {RelatedKey(table, id)};
    forall t, i | IsName(t) && RelatedKey(t, i) in now
      ensures Visit(t, i) in more && now[RelatedKey(t, i)] == src.find(t, i)
    {
      if RelatedKey(t, i) == RelatedKey(table, id) {
        RelatedKeyUnique(t, i, table, id);
      }
    }
    forall v | v in more ensures RelatedKey(v.table, v.id) in now && IsName(v.table) && src.readable(v.table) {
      assert v in looked || v == Visit(table, id);
    }
  }

  lemma NewDecision(src: Source, permitted: Permitted, name: string, table: string, id: string, allowed: bool)
    requires PermittedOk(src, permitted) && IsName(name) && IsName(table)
    requires Decides(src, name, src.find(table, id), allowed)
    ensures PermittedOk(src, permitted[PolicyKey(name, RelatedKey(table, id)) := allowed])
  {
    var key := PolicyKey(name, RelatedKey(table, id));
    var now := permitted[key := allowed];
    forall a, t, i | IsName(a) && IsName(t) && PolicyKey(a, RelatedKey(t, i)) in now
      ensures Decides(src, a, src.find(t, i), now[PolicyKey(a, RelatedKey(t, i))])
    {
      if PolicyKey(a, RelatedKey(t, i)) == key {
        PolicyKeyUnique(a, t, i, name, table, id);
      }
    }
  }

  // ----- Totals -----

  lemma HasTotalsElsewhere(
    plan: Plan, src: Source, lines: seq<Line>, l: Line, totals: Totals, row: Row, g: Scalar)
    requires Shows(src) && g != l.group && row.group == l.group && HasTotals(plan, src, lines, totals, g)
    ensures HasTotals(plan, src, lines + [l], totals[GroupKey(src, l.group) := row], g)
  {
    LinesOfAppend(lines, l, g);
    assert LinesOf(lines, g) + [] == LinesOf(lines, g);
    if GroupKey(src, g) == GroupKey(src, l.group) {
      GroupKeyUnique(src, g, l.group);
    }
  }

  lemma GroupCount(plan: Plan, src: Source, lines: seq<Line>, l: Line, totals: Totals, row: Row)
    requires Shows(src) && TotalsOk(plan, src, lines, totals)
    ensures |totals[GroupKey(src, l.group) := row]| == |Groups(plan, lines + [l])|
  {
    var key := GroupKey(src, l.group);
    GroupsAppend(plan, lines, l);
    KeyPresent(plan, src, lines, totals, l.group);
    if l.group in Groups(plan, lines) {
      assert Groups(plan, lines) + {l.group} == Groups(plan, lines);
    }
  }

  /** A line added to its group's row, with all totals moved on. */
  lemma LineAdded(plan: Plan, src: Source, lines: seq<Line>, l: Line, totals: Totals, row: Row)
    requires Shows(src) && TotalsOk(plan, src, lines, totals) && row.group == l.group
    requires RowTotals(plan, src, LinesOf(lines, l.group) + [l], row.values)
    ensures TotalsOk(plan, src, lines + [l], totals[GroupKey(src, l.group) := row])
  {
    var now := totals[GroupKey(src, l.group) := row];
    GroupsAppend(plan, lines, l);
    GroupCount(plan, src, lines, l, totals, row);
    forall k | k in now ensures OwnKey(plan, src, lines + [l], k, now[k]) {
      assert k in totals ==> OwnKey(plan, src, lines, k, totals[k]);
    }
    forall g | g in Groups(plan, lines + [l]) ensures HasTotals(plan, src, lines + [l], now, g) {
      if g == l.group {
        LinesOfAppend(lines, l, g);
      } else {
        assert HasTotals(plan, src, lines, totals, g);
        HasTotalsElsewhere(plan, src, lines, l, totals, row, g);
      }
    }
  }

  /** A group is in the map exactly when it has appeared. */
  lemma KeyPresent(plan: Plan, src: Source, lines: seq<Line>, totals: Totals, g: Scalar)
    requires Shows(src) && TotalsOk(plan, src, lines, totals)
    ensures GroupKey(src, g) in totals <==> g in Groups(plan, lines)
  {
    if GroupKey(src, g) in totals {
      GroupKeyUnique(src, g, totals[GroupKey(src, g)].group);
    }
    if g in Groups(plan, lines) {
      assert HasTotals(plan, src, lines, totals, g);
    }
  }

  lemma {:induction false} StrangerHasNoLines(plan: Plan, lines: seq<Line>, g: Scalar)
    requires g !in Groups(plan, lines) || lines == []
    ensures LinesOf(lines, g) == []
    decreases |lines|
  {
    if lines != [] {
      var n := |lines| - 1;
      assert lines[n] in lines;
      forall l | l in lines[..n] ensures l.group != g {
        assert l in lines;
      }
      StrangerHasNoLines(plan, lines[..n], g);
    }
  }

  lemma StartTotals(plan: Plan, src: Source, totals: Totals)
    requires totals == if plan.groupBy.None? then map[GroupKey(src, SNull) := Zeroes(plan, SNull)] else map[]
    ensures TotalsOk(plan, src, [], totals)
  {
  }

  /** A new group starts with zeroes. */
  function Zeroes(plan: Plan, g: Scalar): (r: Row)
    ensures r.group == g && |r.values| == |plan.measures|
    ensures forall m | 0 <= m < |r.values| :: r.values[m] == Integral(0)
  {
    Row(g, seq(|plan.measures|, _ => Integral(0)))
  }

  /** The row a new line is added to. */
  lemma CurrentRow(plan: Plan, src: Source, lines: seq<Line>, totals: Totals, g: Scalar)
    requires Shows(src) && TotalsOk(plan, src, lines, totals)
    ensures var row := if GroupKey(src, g) in totals then totals[GroupKey(src, g)] else Zeroes(plan, g);
            row.group == g && RowTotals(plan, src, LinesOf(lines, g), row.values)
  {
    KeyPresent(plan, src, lines, totals, g);
    if g in Groups(plan, lines) {
      assert HasTotals(plan, src, lines, totals, g);
    } else {
      StrangerHasNoLines(plan, lines, g);
    }
  }

  /** A total that cannot be formed makes the aggregate infeasible. */
  lemma NoTotal(plan: Plan, src: Source, lines: seq<Line>, l: Line, m: nat)
    requires m < |plan.measures| && Total(src, LinesOf(lines, l.group) + [l], m).None?
    ensures !TotalsExist(plan, src, lines + [l])
  {
    LinesOfAppend(lines, l, l.group);
    GroupsAppend(plan, lines, l);
    assert l.group in Groups(plan, lines + [l]);
    assert Total(src, LinesOf(lines + [l], l.group), m).None?;
  }

  /** All totals exist when they exist for the groups in the map. */
  lemma TotalsOkExist(plan: Plan, src: Source, lines: seq<Line>, totals: Totals)
    requires TotalsOk(plan, src, lines, totals)
    ensures TotalsExist(plan, src, lines)
  {
    forall g, m | g in Groups(plan, lines) && 0 <= m < |plan.measures| ensures Total(src, LinesOf(lines, g), m).Some? {
      assert HasTotals(plan, src, lines, totals, g);
    }
  }

  /** The capacity a row's lookups may run into. */
  predicate OverCapacity(plan: Plan, src: Source, visits: seq<Visit>, rootBytes: nat) {
    |Distinct(visits)| > plan.limits.maxRelated || rootBytes + Bytes(src, Distinct(visits)) > plan.limits.maxBytes
  }

  lemma OverCapacityGrows(plan: Plan, src: Source, visits: seq<Visit>, more: seq<Visit>, rootBytes: nat)
    requires OverCapacity(plan, src, visits, rootBytes)
    ensures OverCapacity(plan, src, visits + more, rootBytes)
  {
    DistinctGrows(src, visits, more);
  }

  /** The related memo after some lookups, if all their tables could be read. */
  function RelatedAfter(src: Source, visits: seq<Visit>): Option<Related> {
    if visits == [] then Some(map[])
    else
      var before, v := RelatedAfter(src, visits[..|visits| - 1]), visits[|visits| - 1];
      if before.None? || !IsName(v.table) then None
      else if RelatedKey(v.table, v.id) in before.value then before
      else if !src.readable(v.table) then None
      else Some(before.value[RelatedKey(v.table, v.id) := src.find(v.table, v.id)])
  }

  lemma {:induction false} RelatedAfterOk(src: Source, visits: seq<Visit>)
    ensures RelatedAfter(src, visits).Some? ==> RelatedOk(src, RelatedAfter(src, visits).value, Distinct(visits))
    decreases |visits|
  {
    if visits != [] && RelatedAfter(src, visits).Some? {
      var n := |visits| - 1;
      var front, v := visits[..n], visits[n];
      RelatedAfterOk(src, front);
      var related := RelatedAfter(src, front).value;
      assert visits == front + [v];
      DistinctAppend(front, v);
      if RelatedKey(v.table, v.id) in related {
        assert Visit(v.table, v.id) in Distinct(front);
      } else {
        NewLookup(src, related, Distinct(front), v.table, v.id);
      }
    }
  }

  /** What memos and byte count amount to after some lookups. */
  ghost predicate Holds(
    plan: Plan, src: Source, rootBytes: nat, related: Related, bytes: nat, visits: seq<Visit>)
  {
    && RelatedAfter(src, visits) == Some(related)
    && bytes == rootBytes + Bytes(src, Distinct(visits))
    && !OverCapacity(plan, src, visits, rootBytes)
  }

  lemma KnownLookup(
    plan: Plan, src: Source, rootBytes: nat, related: Related, bytes: nat, visits: seq<Visit>, v: Visit)
    requires Holds(plan, src, rootBytes, related, bytes, visits) && IsName(v.table)
    requires RelatedKey(v.table, v.id) in related
    ensures Holds(plan, src, rootBytes, related, bytes, visits + [v])
    ensures related[RelatedKey(v.table, v.id)] == src.find(v.table, v.id) && src.readable(v.table)
  {
    RelatedAfterOk(src, visits);
    DistinctAppend(visits, v);
    assert Visit(v.table, v.id) in Distinct(visits);
  }

  lemma FirstLookup(
    plan: Plan, src: Source, rootBytes: nat, related: Related, bytes: nat, visits: seq<Visit>, v: Visit)
    requires Holds(plan, src, rootBytes, related, bytes, visits) && IsName(v.table)
    requires RelatedKey(v.table, v.id) !in related
    ensures OverCapacity(plan, src, visits + [v], rootBytes)
      <==> |related| >= plan.limits.maxRelated || bytes + Size(src, v) > plan.limits.maxBytes
    ensures !OverCapacity(plan, src, visits + [v], rootBytes) && src.readable(v.table) ==>
      Holds(plan, src, rootBytes, related[RelatedKey(v.table, v.id) := src.find(v.table, v.id)],
            bytes + Size(src, v), visits + [v])
  {
    RelatedAfterOk(src, visits);
    NewLookupOrNot(src, related, Distinct(visits), v.table, v.id);
    DistinctAppend(visits, v);
    BytesAppend(src, Distinct(visits), v);
  }

  class Executor {
    const plan: Plan
    const src: Source
    const rootBytes: nat
    var related: Related
    var permitted: Permitted
    ghost var asked: nat   // how often a policy was asked about a related record
    var bytes: nat
    var totals: Totals

    /** The memos hold what these lookups brought. */
    ghost predicate Remembers(visits: seq<Visit>)
      reads this
    {
      Holds(plan, src, rootBytes, related, bytes, visits) && PermittedOk(src, permitted) && asked == |permitted|
    }

    /** The state after some rows, none of which failed. */
    ghost predicate Ready(roots: seq<Record>)
      reads this
    {
      var lines := Lines(plan, src, roots);
      && Remembers(AllVisits(plan, src, roots)) && TotalsOk(plan, src, lines, totals)
      && |Groups(plan, lines)| <= plan.limits.maxGroups && NoneBroken(plan, src, roots)
    }

    constructor (p: Plan, s: Source, size: nat)
      requires PlanOk(p) && Shows(s) && size <= p.limits.maxBytes
      ensures plan == p && src == s && rootBytes == size
      ensures Ready([])
    {
      plan, src, rootBytes, bytes := p, s, size, size;
      related, permitted, asked := map[], map[], 0;
      totals := if p.groupBy.None? then map[GroupKey(s, SNull) := Zeroes(p, SNull)] else map[];
      new;
      StartTotals(plan, src, totals);
      StartGroups(plan);
    }

    /** The related record, looked up at most once. */
    method Lookup(table: string, id: string, ghost visits: seq<Visit>) returns (r: Result<Option<Record>, string>)
      requires Remembers(visits) && IsName(table)
      modifies this`related, this`bytes
      ensures r.Ok? ==> Remembers(visits + [Visit(table, id)]) && r.value == src.find(table, id) && src.readable(table)
      ensures r.Err? ==> !src.readable(table) || OverCapacity(plan, src, visits + [Visit(table, id)], rootBytes)
    {
      var key := RelatedKey(table, id);
      ghost var v := Visit(table, id);
      if key in related {
        KnownLookup(plan, src, rootBytes, related, bytes, visits, v);
        return Ok(related[key]);
      }
      FirstLookup(plan, src, rootBytes, related, bytes, visits, v);
      if |related| >= plan.limits.maxRelated {
        return Err("Aggregate related lookup capacity exceeded.");
      }
      if !src.readable(table) {
        return Err("Owned table requires an authenticated user.");
      }
      var record := src.find(table, id);
      if record.Some? {
        if bytes + src.size(table, id) > plan.limits.maxBytes {
          return Err("Aggregate stored JSON byte capacity exceeded.");
        }
        bytes := bytes + src.size(table, id);
      }
      related := related[key := record];
      return Ok(record);
    }

    /** The policy's decision on a related record.  The policy is asked only if there is no decision yet, so it is
        asked as often as there are decisions: once for each. */
    method Decide(name: string, table: string, id: string, record: Record, ghost visits: seq<Visit>)
      returns (r: Result<bool, string>)
      requires Remembers(visits) && IsName(name) && IsName(table) && src.find(table, id) == Some(record)
      modifies this`permitted, this`asked
      ensures r.Ok? ==> Remembers(visits) && src.policy(name, record) == if r.value then Allowed else Denied
      ensures r.Ok? ==> permitted == old(permitted)[PolicyKey(name, RelatedKey(table, id)) := r.value]
      ensures asked == old(asked) + (if PolicyKey(name, RelatedKey(table, id)) in old(permitted) then 0 else 1)
      ensures r.Err? ==> src.policy(name, record).Improper?
    {
      var key := PolicyKey(name, RelatedKey(table, id));
      if key !in permitted {
        var verdict := src.policy(name, record);
        asked := asked + 1;
        if verdict.Improper? {
          return Err("Aggregate authorization policies must return a boolean.");
        }
        NewDecision(src, permitted, name, table, id, verdict.Allowed?);
        permitted := permitted[key := verdict.Allowed?];
      }
      assert Decides(src, name, src.find(table, id), permitted[key]);
      return Ok(permitted[key]);
    }

    /** One join: the related record if it is there and allowed. */
    method FollowOne(join: Join, root: Record, ghost visits: seq<Visit>) returns (r: Result<JoinEnd, string>)
      requires Remembers(visits) && IsName(join.name) && IsName(join.table)
      modifies this`related, this`permitted, this`asked, this`bytes
      ensures var f := FollowJoin(src, join, root);
              && (r.Ok? ==> Remembers(visits + f.visits) && r.value == f.end && f.end != Stops(Broken))
              && (r.Err? ==> f.end == Stops(Broken) || OverCapacity(plan, src, visits + f.visits, rootBytes))
    {
      assert visits + [] == visits;
      var reference := Get(root, join.via);
      if reference.Absent? {
        return Ok(Stops(Hidden));
      }
      if !reference.Text? || !IsId(reference.s) {
        return Err("Invalid aggregate reference ID.");
      }
      var found := Lookup(join.table, reference.s, visits);
      if found.Err? {
        return Err(found.error);
      }
      if found.value.None? {
        return Ok(Stops(Hidden));
      }
      var decision := Decide(
        join.name, join.table, reference.s, found.value.value, visits + [Visit(join.table, reference.s)]);
      if decision.Err? {
        return Err(decision.error);
      }
      return Ok(if decision.value then Found(found.value.value) else Stops(Hidden));
    }

    /** One row: its lookups, and whether it is hidden, visible or failing. */
    method EvaluateRow(root: Record, ghost before: seq<Visit>) returns (r: Result<RowOutcome, string>)
      requires PlanOk(plan) && Remembers(before)
      modifies this`related, this`permitted, this`asked, this`bytes
      ensures var e := Evaluate(plan, src, root);
              && (r.Ok? ==> Remembers(before + e.visits) && r.value == e.outcome && !r.value.Broken?)
              && (r.Err? ==> e.outcome.Broken? || OverCapacity(plan, src, before + e.visits, rootBytes))
    {
      var verdict := src.policy(ROOT, root);
      if verdict.Improper? {
        return Err("Aggregate authorization policies must return a boolean.");
      }
      if verdict.Denied? {
        assert before + [] == before;
        return Ok(Hidden);
      }
      ghost var ends := JoinResults(src, plan.joins, root);
      FollowShift(plan, ends, 0, map[ROOT := root], before, []);
      assert before + [] == before;
      r := FollowAll(root, ends, Follow(plan, ends, 0, map[ROOT := root], before), before);
    }

    /** One join of a row: the row ends here, or goes on with one more source. */
    method Advance(
      root: Record, ghost ends: seq<JoinResult>, ghost whole: Evaluation, ghost visits: seq<Visit>, i: nat,
      sources: Sources)
      returns (ended: Option<Result<RowOutcome, string>>, next: Sources, ghost more: seq<Visit>)
      requires JoinsNamed(plan) && i < |plan.joins| && Remembers(visits) && ends == JoinResults(src, plan.joins, root)
      requires Follow(plan, ends, i, sources, visits) == whole
      modifies this`related, this`permitted, this`asked, this`bytes
      ensures ended.Some? && ended.value.Err? ==>
        whole.outcome.Broken? || OverCapacity(plan, src, whole.visits, rootBytes)
      ensures ended.Some? && ended.value.Ok? ==>
        Remembers(whole.visits) && ended.value.value == whole.outcome && !whole.outcome.Broken?
      ensures ended.None? ==>
        Remembers(more) && Follow(plan, ends, i + 1, next, more) == whole
    {
      var join := plan.joins[i];
      JoinResultAt(src, plan.joins, root, i);
      next, more := sources, visits + ends[i].visits;
      FollowOver(plan, src, ends, i, sources, visits, rootBytes);
      var end := FollowOne(join, root, visits);
      if end.Err? {
        ended := Some(Err(end.error));
      } else if end.value.Stops? {
        ended := Some(Ok(end.value.outcome));
      } else {
        next := sources[join.name := end.value.record];
        ended := None;
      }
    }

    /** The joins of a row, one after the other. */
    method FollowAll(root: Record, ghost ends: seq<JoinResult>, ghost whole: Evaluation, ghost before: seq<Visit>)
      returns (r: Result<RowOutcome, string>)
      requires JoinsNamed(plan) && Remembers(before) && ends == JoinResults(src, plan.joins, root)
      requires Follow(plan, ends, 0, map[ROOT := root], before) == whole
      modifies this`related, this`permitted, this`asked, this`bytes
      ensures r.Ok? ==> Remembers(whole.visits) && r.value == whole.outcome && !whole.outcome.Broken?
      ensures r.Err? ==> whole.outcome.Broken? || OverCapacity(plan, src, whole.visits, rootBytes)
    {
      var sources: Sources := map[ROOT := root];
      ghost var visits := before;
      for i := 0 to |plan.joins|
        invariant Remembers(visits)
        invariant Follow(plan, ends, i, sources, visits) == whole
      {
        var ended;
        ended, sources, visits := Advance(root, ends, whole, visits, i, sources);
        if ended.Some? {
          return ended.value;
        }
      }
      r := FinishRow(root, ends, whole, visits, sources);
    }

    method FinishRow(
      root: Record, ghost ends: seq<JoinResult>, ghost whole: Evaluation, ghost visits: seq<Visit>, sources: Sources)
      returns (r: Result<RowOutcome, string>)
      requires Remembers(visits) && |ends| == |plan.joins| && Follow(plan, ends, |plan.joins|, sources, visits) == whole
      ensures r.Ok? ==> Remembers(whole.visits) && r.value == whole.outcome && !r.value.Broken?
      ensures r.Err? ==> whole.outcome.Broken?
    {
      var outcome := LineOf(plan, sources);
      if outcome.Broken? {
        return Err("Aggregate group values must be finite scalars.");
      }
      return Ok(outcome);
    }

    /** Adds a line to its group. */
    method AddLine(line: Line, ghost lines: seq<Line>) returns (r: Outcome<string>)
      requires Shows(src) && TotalsOk(plan, src, lines, totals) && |line.values| == |plan.measures|
      requires |Groups(plan, lines)| <= plan.limits.maxGroups
      modifies this`totals
      ensures r.Pass? ==>
        TotalsOk(plan, src, lines + [line], totals) && |Groups(plan, lines + [line])| <= plan.limits.maxGroups
      ensures r.Fail? ==>
        |Groups(plan, lines + [line])| > plan.limits.maxGroups || !TotalsExist(plan, src, lines + [line])
    {
      var key := GroupKey(src, line.group);
      CurrentRow(plan, src, lines, totals, line.group);
      KeyPresent(plan, src, lines, totals, line.group);
      GroupCount(plan, src, lines, line, totals, Zeroes(plan, line.group));
      if key !in totals && |totals| >= plan.limits.maxGroups {
        return Fail("Aggregate group capacity exceeded.");
      }
      var row := if key in totals then totals[key] else Zeroes(plan, line.group);
      var values := MoveTotals(src, row.values, line.values);
      if values.Err? {
        ghost var m :| 0 <= m < |row.values| && AddValue(src, row.values[m], line.values[m]).None?;
        NextTotal(plan, src, row.values, line, LinesOf(lines, line.group), m);
        NoTotal(plan, src, lines, line, m);
        return Fail(values.error);
      }
      MovedTotals(plan, src, LinesOf(lines, line.group), row.values, line, values.value);
      LineAdded(plan, src, lines, line, totals, Row(line.group, values.value));
      totals := totals[key := Row(line.group, values.value)];
      return Pass;
    }

    /** One root row after the rows before it. */
    method AddRoot(root: Record, ghost roots: seq<Record>, ghost more: seq<Record>) returns (r: Outcome<string>)
      requires PlanOk(plan) && Shows(src) && Ready(roots) && more == roots + [root]
      modifies this`related, this`permitted, this`asked, this`bytes, this`totals
      ensures r.Pass? ==> Ready(more)
      ensures r.Fail? ==> !Feasible(plan, src, more, rootBytes)
    {
      AllVisitsAppend(plan, src, roots, root);
      LinesAppend(plan, src, roots, root);
      assert root in more;
      var evaluated := EvaluateRow(root, AllVisits(plan, src, roots));
      if evaluated.Err? {
        return Fail(evaluated.error);
      }
      match evaluated.value
      case Hidden =>
        assert Lines(plan, src, roots) + [] == Lines(plan, src, roots);
        return Pass;
      case Visible(line) =>
        VisibleWidth(plan, src, root);
        r := AddLine(line, Lines(plan, src, roots));
    }

    lemma ReadyIsFeasible(roots: seq<Record>)
      requires Ready(roots)
      ensures Feasible(plan, src, roots, rootBytes)
    {
      TotalsOkExist(plan, src, Lines(plan, src, roots), totals);
    }

    lemma SameReady(a: seq<Record>, b: seq<Record>)
      requires a <= b && |a| == |b| && Ready(a)
      ensures Ready(b)
    {
      assert a == b;
    }

    /** All rows, or a failure when there is no answer for them. */
    method AddAll(roots: seq<Record>) returns (r: Outcome<string>)
      requires PlanOk(plan) && Shows(src) && Ready([])
      modifies this`related, this`permitted, this`asked, this`bytes, this`totals
      ensures r.Pass? ==> Ready(roots)
      ensures r.Fail? ==> !Feasible(plan, src, roots, rootBytes)
    {
      ghost var before: seq<Record> := [];
      for k := 0 to |roots|
        invariant |before| == k && before <= roots
        invariant Ready(before)
      {
        r, before := AddNext(roots[k], before, roots);
        if r.Fail? {
          return;
        }
      }
      SameReady(before, roots);
      return Pass;
    }

    /** The row after `before`. */
    method AddNext(root: Record, ghost before: seq<Record>, ghost roots: seq<Record>)
      returns (r: Outcome<string>, ghost more: seq<Record>)
      requires PlanOk(plan) && Shows(src) && Ready(before)
      requires before <= roots && |before| < |roots| && root == roots[|before|]
      modifies this`related, this`permitted, this`asked, this`bytes, this`totals
      ensures |more| == |before| + 1 && more <= roots
      ensures r.Pass? ==> Ready(more)
      ensures r.Fail? ==> !Feasible(plan, src, roots, rootBytes)
    {
      more := before + [root];
      PrefixGrows(before, roots);
      r := AddRoot(root, before, more);
      if r.Fail? {
        PrefixInfeasible(plan, src, roots, more, rootBytes);
      }
    }

    /** The whole aggregate: the answer for all rows, or a failure exactly when there is none that fits. */
    method Execute(roots: seq<Record>, fits: seq<Row> -> bool) returns (r: Result<seq<Row>, string>)
      requires PlanOk(plan) && Shows(src) && Ready([])
      modifies this
      ensures r.Ok? ==>
        && Feasible(plan, src, roots, rootBytes) && fits(r.value)
        && IsAnswer(plan, src, Lines(plan, src, roots), r.value) && SortedRows(src, r.value)
      ensures r.Err? ==>
        || !Feasible(plan, src, roots, rootBytes)
        || Unfit(plan, src, Lines(plan, src, roots), fits)
    {
      var added := AddAll(roots);
      if added.Fail? {
        return Err(added.error);
      }
      ReadyIsFeasible(roots);
      r := Answer(roots, fits);
    }

    /** The answer after all rows. */
    method Answer(ghost roots: seq<Record>, fits: seq<Row> -> bool) returns (r: Result<seq<Row>, string>)
      requires Shows(src) && Ready(roots)
      ensures r.Ok? ==>
        fits(r.value) && IsAnswer(plan, src, Lines(plan, src, roots), r.value) && SortedRows(src, r.value)
      ensures r.Err? ==> Unfit(plan, src, Lines(plan, src, roots), fits)
    {
      var rows := SortedAnswer(plan, src, Lines(plan, src, roots), totals);
      if !fits(rows) {
        return Err("Aggregate output byte capacity exceeded.");
      }
      return Ok(rows);
    }
  }

  /** The sorted answer does not fit the output limit. */
  ghost predicate Unfit(plan: Plan, src: Source, lines: seq<Line>, fits: seq<Row> -> bool) {
    exists rows :: IsAnswer(plan, src, lines, rows) && SortedRows(src, rows) && !fits(rows)
  }

  lemma PrefixGrows<T>(front: seq<T>, all: seq<T>)
    requires front <= all && |front| < |all|
    ensures front + [all[|front|]] <= all
  {
  }

  lemma PrefixInfeasible(plan: Plan, src: Source, roots: seq<Record>, front: seq<Record>, rootBytes: nat)
    requires front <= roots && !Feasible(plan, src, front, rootBytes)
    ensures !Feasible(plan, src, roots, rootBytes)
  {
    assert front == roots[..|front|];
    if Feasible(plan, src, roots, rootBytes) {
      PrefixFeasible(plan, src, roots, |front|, rootBytes);
    }
  }

  lemma StartGroups(plan: Plan)
    requires PlanOk(plan)
    ensures |Groups(plan, [])| <= plan.limits.maxGroups
  {
    assert Groups(plan, []) == if plan.groupBy.None? then {SNull} else {};
  }

  predicate JoinsNamed(plan: Plan) {
    forall i | 0 <= i < |plan.joins| :: IsName(plan.joins[i].name) && IsName(plan.joins[i].table)
  }

  lemma {:induction false} JoinResultAt(src: Source, joins: seq<Join>, root: Record, i: nat)
    requires i < |joins|
    ensures JoinResults(src, joins, root)[i] == FollowJoin(src, joins[i], root)
    decreases i
  {
    if i > 0 {
      JoinResultAt(src, joins[1..], root, i - 1);
    }
  }

  /** Earlier lookups come first and change nothing else. */
  lemma {:induction false} FollowShift(
    plan: Plan, ends: seq<JoinResult>, i: nat, sources: Sources, before: seq<Visit>, visits: seq<Visit>)
    requires i <= |plan.joins| == |ends|
    ensures var e := Follow(plan, ends, i, sources, visits);
            Follow(plan, ends, i, sources, before + visits) == Evaluation(before + e.visits, e.outcome)
    decreases |plan.joins| - i
  {
    if i < |plan.joins| {
      var f := ends[i];
      assert before + visits + f.visits == before + (visits + f.visits);
      if f.end.Found? {
        FollowShift(plan, ends, i + 1, sources[plan.joins[i].name := f.end.record], before, visits + f.visits);
      }
    }
  }

  /** A capacity exceeded at a join is exceeded for the whole row. */
  lemma FollowOver(
    plan: Plan, src: Source, ends: seq<JoinResult>, i: nat, sources: Sources, visits: seq<Visit>, rootBytes: nat)
    requires i < |plan.joins| == |ends|
    ensures OverCapacity(plan, src, visits + ends[i].visits, rootBytes)
      ==> OverCapacity(plan, src, Follow(plan, ends, i, sources, visits).visits, rootBytes)
  {
    var now := visits + ends[i].visits;
    if ends[i].end.Found? && OverCapacity(plan, src, now, rootBytes) {
      var next := sources[plan.joins[i].name := ends[i].end.record];
      FollowShift(plan, ends, i + 1, next, now, []);
      assert now + [] == now;
      OverCapacityGrows(plan, src, now, Follow(plan, ends, i + 1, next, []).visits, rootBytes);
    }
  }

  /** Moves the totals of a group on by one line. */
  method MoveTotals(src: Source, before: seq<Number>, values: seq<Field>) returns (r: Result<seq<Number>, string>)
    requires |before| == |values|
    ensures r.Ok? ==>
      |r.value| == |before| && forall m | 0 <= m < |before| :: AddValue(src, before[m], values[m]) == Some(r.value[m])
    ensures r.Err? ==> exists m :: 0 <= m < |before| && AddValue(src, before[m], values[m]).None?
  {
    var now: seq<Number> := [];
    for m := 0 to |before|
      invariant |now| == m
      invariant forall k | 0 <= k < m :: AddValue(src, before[k], values[k]) == Some(now[k])
    {
      var sum := AddValue(src, before[m], values[m]);
      if sum.None? {
        return Err("Aggregate numeric capacity exceeded.");
      }
      now := now + [sum.value];
    }
    return Ok(now);
  }

  /** The totals of a group with one line more. */
  lemma MovedTotals(
    plan: Plan, src: Source, own: seq<Line>, before: seq<Number>, line: Line, now: seq<Number>)
    requires RowTotals(plan, src, own, before) && |line.values| == |plan.measures| == |now|
    requires forall m | 0 <= m < |before| :: AddValue(src, before[m], line.values[m]) == Some(now[m])
    ensures RowTotals(plan, src, own + [line], now)
  {
    forall m | 0 <= m < |now| ensures Total(src, own + [line], m) == Some(now[m]) {
      NextTotal(plan, src, before, line, own, m);
    }
  }

  lemma NextTotal(plan: Plan, src: Source, before: seq<Number>, line: Line, own: seq<Line>, m: nat)
    requires RowTotals(plan, src, own, before) && |line.values| == |plan.measures| && m < |plan.measures|
    ensures Total(src, own + [line], m) == AddValue(src, before[m], line.values[m])
  {
    TotalAppend(src, own, line, m);
    assert Total(src, own, m) == Some(before[m]);
  }

  lemma VisibleWidth(plan: Plan, src: Source, root: Record)
    ensures Evaluate(plan, src, root).outcome.Visible? ==>
      |Evaluate(plan, src, root).outcome.line.values| == |plan.measures|
  {
    var ends := JoinResults(src, plan.joins, root);
    if src.policy(ROOT, root).Allowed? {
      forall i | 0 <= i < |ends| ensures !IsVisibleStop(ends[i].end) {
        JoinResultAt(src, plan.joins, root, i);
      }
      FollowWidth(plan, ends, 0, map[ROOT := root], []);
    }
  }

  predicate IsVisibleStop(end: JoinEnd) {
    end.Stops? && end.outcome.Visible?
  }

  lemma {:induction false} FollowWidth(
    plan: Plan, ends: seq<JoinResult>, i: nat, sources: Sources, visits: seq<Visit>)
    requires i <= |plan.joins| == |ends| && forall k | 0 <= k < |ends| :: !IsVisibleStop(ends[k].end)
    ensures var o := Follow(plan, ends, i, sources, visits).outcome;
            o.Visible? ==> |o.line.values| == |plan.measures|
    decreases |plan.joins| - i
  {
    if i < |plan.joins| && ends[i].end.Found? {
      FollowWidth(plan, ends, i + 1, sources[plan.joins[i].name := ends[i].end.record], visits + ends[i].visits);
    }
  }

  // ----- Sorting the keys -----

  predicate KeysOk(keys: seq<string>) {
    && (forall i, j | 0 <= i < j < |keys| :: keys[i] != keys[j])
    && (forall i, j | 0 <= i < j < |keys| :: T.TextLeq(keys[i], keys[j]))
  }

  function InsertKey(key: string, keys: seq<string>): seq<string> {
    if keys == [] || T.TextLeq(key, keys[0]) then [key] + keys else [keys[0]] + InsertKey(key, keys[1..])
  }

  lemma {:induction false} InsertKeyMembers(key: string, keys: seq<string>)
    ensures forall k :: k in InsertKey(key, keys) <==> k == key || k in keys
    decreases |keys|
  {
    if keys != [] && !T.TextLeq(key, keys[0]) {
      InsertKeyMembers(key, keys[1..]);
      assert keys == [keys[0]] + keys[1..];
    }
  }

  lemma ConsKeys(key: string, keys: seq<string>)
    requires KeysOk(keys) && forall k | k in keys :: k != key && T.TextLeq(key, k)
    ensures KeysOk([key] + keys)
  {
    var s := [key] + keys;
    forall i, j | 0 <= i < j < |s| ensures s[i] != s[j] && T.TextLeq(s[i], s[j]) {
      assert s[j] == keys[j - 1] && s[j] in keys;
    }
  }

  lemma TailKeys(keys: seq<string>)
    requires keys != [] && KeysOk(keys)
    ensures KeysOk(keys[1..]) && forall k | k in keys[1..] :: k != keys[0] && T.TextLeq(keys[0], k)
  {
    forall k | k in keys[1..] ensures k != keys[0] && T.TextLeq(keys[0], k) {
      var i :| 0 <= i < |keys[1..]| && keys[1..][i] == k;
      assert keys[i + 1] == k;
    }
  }

  lemma {:induction false} InsertKeyFacts(key: string, keys: seq<string>)
    requires KeysOk(keys) && key !in keys
    ensures KeysOk(InsertKey(key, keys))
    ensures forall k :: k in InsertKey(key, keys) <==> k == key || k in keys
    decreases |keys|
  {
    InsertKeyMembers(key, keys);
    if keys == [] {
      assert InsertKey(key, keys) == [key];
    } else {
      TailKeys(keys);
      T.TextLeqTotal(key, keys[0]);
      if T.TextLeq(key, keys[0]) {
        forall k | k in keys ensures k != key && T.TextLeq(key, k) {
          if k != keys[0] {
            assert k in keys[1..];
            T.TextLeqTransitive(key, keys[0], k);
          }
        }
        ConsKeys(key, keys);
      } else {
        InsertKeyFacts(key, keys[1..]);
        ConsKeys(keys[0], InsertKey(key, keys[1..]));
      }
    }
  }

  /** The groups in the order of their keys. */
  method SortedAnswer(plan: Plan, src: Source, ghost lines: seq<Line>, totals: Totals) returns (rows: seq<Row>)
    requires Shows(src) && TotalsOk(plan, src, lines, totals)
    ensures IsAnswer(plan, src, lines, rows) && SortedRows(src, rows)
  {
    var keys := SortedKeys(totals.Keys);
    rows := seq(|keys|, i requires 0 <= i < |keys| && keys[i] in totals => totals[keys[i]]);
    KeysAnswer(plan, src, lines, totals, keys, rows);
  }

  method SortedKeys(all: set<string>) returns (keys: seq<string>)
    ensures KeysOk(keys) && forall k :: k in keys <==> k in all
  {
    var rest := all;
    keys := [];
    while rest != {}
      invariant rest <= all && KeysOk(keys)
      invariant forall k :: k in keys <==> k in all && k !in rest
      decreases |rest|
    {
      var key :| key in rest;
      InsertKeyFacts(key, keys);
      keys, rest := InsertKey(key, keys), rest - {key};
    }
  }

  lemma KeysAnswer(
    plan: Plan, src: Source, lines: seq<Line>, totals: Totals, keys: seq<string>, rows: seq<Row>)
    requires Shows(src) && TotalsOk(plan, src, lines, totals) && KeysOk(keys)
    requires forall k :: k in keys <==> k in totals
    requires |rows| == |keys| && forall i | 0 <= i < |keys| :: keys[i] in totals && rows[i] == totals[keys[i]]
    ensures IsAnswer(plan, src, lines, rows) && SortedRows(src, rows)
  {
    forall i | 0 <= i < |rows| ensures keys[i] == GroupKey(src, rows[i].group) {
      assert OwnKey(plan, src, lines, keys[i], totals[keys[i]]);
    }
    forall g | g in Groups(plan, lines) ensures exists r :: r in rows && r.group == g {
      GroupHasRow(plan, src, lines, totals, keys, rows, g);
    }
    forall r | r in rows
      ensures r.group in Groups(plan, lines) && RowTotals(plan, src, LinesOf(lines, r.group), r.values)
    {
      RowBelongs(plan, src, lines, totals, keys, rows, r);
    }
  }

  lemma GroupHasRow(
    plan: Plan, src: Source, lines: seq<Line>, totals: Totals, keys: seq<string>, rows: seq<Row>, g: Scalar)
    requires TotalsOk(plan, src, lines, totals) && g in Groups(plan, lines)
    requires forall k :: k in keys <==> k in totals
    requires |rows| == |keys| && forall i | 0 <= i < |keys| :: keys[i] in totals && rows[i] == totals[keys[i]]
    ensures exists r :: r in rows && r.group == g
  {
    assert HasTotals(plan, src, lines, totals, g);
    var i :| 0 <= i < |keys| && keys[i] == GroupKey(src, g);
    assert rows[i] in rows && rows[i].group == g;
  }

  lemma RowBelongs(
    plan: Plan, src: Source, lines: seq<Line>, totals: Totals, keys: seq<string>, rows: seq<Row>, r: Row)
    requires TotalsOk(plan, src, lines, totals) && r in rows
    requires |rows| == |keys| && forall i | 0 <= i < |keys| :: keys[i] in totals && rows[i] == totals[keys[i]]
    ensures r.group in Groups(plan, lines) && RowTotals(plan, src, LinesOf(lines, r.group), r.values)
  {
    var i :| 0 <= i < |rows| && rows[i] == r;
    assert OwnKey(plan, src, lines, keys[i], totals[keys[i]]);
    assert HasTotals(plan, src, lines, totals, r.group);
  }

  lemma NewLookupOrNot(src: Source, related: Related, looked: seq<Visit>, table: string, id: string)
    requires RelatedOk(src, related, looked) && RelatedKey(table, id) !in related
    ensures Visit(table, id) !in looked
  {
    assert Visit(table, id) in looked ==> RelatedKey(table, id) in related;
  }

  function SumSizes(sizes: seq<nat>): nat {
    if sizes == [] then 0 else SumSizes(sizes[..|sizes| - 1]) + sizes[|sizes| - 1]
  }

  lemma SumSizesPrefix(sizes: seq<nat>, k: nat)
    requires k <= |sizes|
    ensures SumSizes(sizes[..k]) <= SumSizes(sizes)
    decreases |sizes|
  {
    if k == |sizes| {
      assert sizes[..k] == sizes;
    } else {
      assert sizes[..|sizes| - 1][..k] == sizes[..k];
      SumSizesPrefix(sizes[..|sizes| - 1], k);
    }
  }

  /** The aggregate over the selected rows, given with their stored sizes: exactly the answer that the plan has row
      by row, or a failure exactly when a capacity is exceeded, a row fails or a total cannot be formed. */
  method ExecuteAggregate(plan: Plan, src: Source, roots: seq<Record>, sizes: seq<nat>, fits: seq<Row> -> bool)
    returns (r: Result<seq<Row>, string>)
    requires PlanOk(plan) && Shows(src) && |sizes| == |roots|
    ensures r.Ok? ==>
      && |roots| <= plan.limits.maxRows && Feasible(plan, src, roots, SumSizes(sizes)) && fits(r.value)
      && IsAnswer(plan, src, Lines(plan, src, roots), r.value) && SortedRows(src, r.value)
    ensures r.Err? ==>
      || |roots| > plan.limits.maxRows || !Feasible(plan, src, roots, SumSizes(sizes))
      || Unfit(plan, src, Lines(plan, src, roots), fits)
  {
    if |roots| > plan.limits.maxRows {
      return Err("Aggregate source row capacity exceeded.");
    }
    var bytes: nat := 0;
    for k := 0 to |sizes|
      invariant bytes == SumSizes(sizes[..k]) <= plan.limits.maxBytes
    {
      assert sizes[..k + 1][..k] == sizes[..k];
      SumSizesPrefix(sizes, k + 1);
      if bytes + sizes[k] > plan.limits.maxBytes {
        return Err("Aggregate stored JSON byte capacity exceeded.");
      }
      bytes := bytes + sizes[k];
    }
    assert sizes[..|sizes|] == sizes;
    var executor := new Executor(plan, src, bytes);
    r := executor.Execute(roots, fits);
  }
}
