/** What one row of an aggregate contributes: nothing unless every record it leads to may be seen, and else the fields
    of exactly those records. */
module AggregateRows {
  import opened Wrappers
  import opened Aggregates
  import P = AggregateProofs

  /** The text of an ID: 8 to 128 letters, digits, underscores and hyphens. */
  predicate NamesRecord(s: string) {
    8 <= |s| <= 128 && forall c | c in s :: 'A' <= c <= 'Z' || 'a' <= c <= 'z' || '0' <= c <= '9' || c in {'_', '-'}
  }

  /** The related record a row leads to through a join. */
  function Related(src: Source, join: Join, root: Record): Option<Record> {
    if join.via in root && root[join.via].Text? && NamesRecord(root[join.via].s) && src.readable(join.table) then
      src.find(join.table, root[join.via].s)
    else None
  }

  /** A join that must not be followed: its field names no record, its table needs a user, or the policy gives no
      proper verdict. */
  predicate Faulty(src: Source, join: Join, root: Record) {
    && join.via in root && !root[join.via].Absent?
    && (|| !root[join.via].Text? || !NamesRecord(root[join.via].s) || !src.readable(join.table)
        || (Related(src, join, root).Some? && src.policy(join.name, Related(src, join, root).value) == Improper))
  }

  /** The row and every record it leads to are there and may be seen. */
  predicate Shown(plan: Plan, src: Source, root: Record) {
    && src.policy(ROOT, root) == Allowed
    && forall j | j in plan.joins ::
         Related(src, j, root).Some? && src.policy(j.name, Related(src, j, root).value) == Allowed
  }

  /** The field a projection names: of the row itself, or of the record its join leads to. */
  ghost predicate Reads(plan: Plan, src: Source, root: Record, p: Projection, f: Field) {
    if p.source == ROOT then f == Get(root, p.field)
    else exists j :: j in plan.joins && j.name == p.source && Related(src, j, root).Some?
                     && f == Get(Related(src, j, root).value, p.field)
  }

  /** The line of a row: its group is the grouped field, and each measure reads its own field or counts one. */
  ghost predicate TellsRow(plan: Plan, src: Source, root: Record, line: Line) {
    && (plan.groupBy.None? ==> line.group == SNull)
    && (plan.groupBy.Some? ==>
          exists f :: Reads(plan, src, root, plan.groupBy.value, f) && ScalarOf(f) == Some(line.group))
    && |line.values| == |plan.measures|
    && forall m | 0 <= m < |plan.measures| ::
         if plan.measures[m].sum.None? then line.values[m] == Num(Integral(1))
         else Reads(plan, src, root, plan.measures[m].sum.value, line.values[m])
  }

  // ----- The records gathered along the joins -----

  /** After the first `i` joins: the row, and what those joins lead to. */
  predicate Gathered(plan: Plan, src: Source, root: Record, i: nat, sources: Sources)
    requires i <= |plan.joins|
  {
    && ROOT in sources && sources[ROOT] == root
    && (forall k | 0 <= k < i ::
          && Related(src, plan.joins[k], root).Some?
          && src.policy(plan.joins[k].name, Related(src, plan.joins[k], root).value) == Allowed
          && plan.joins[k].name in sources
          && sources[plan.joins[k].name] == Related(src, plan.joins[k], root).value)
  }

  lemma FollowJoinExact(src: Source, join: Join, root: Record)
    ensures var end := FollowJoin(src, join, root).end;
            if end.Found? then
              Related(src, join, root) == Some(end.record) && src.policy(join.name, end.record) == Allowed
            else !end.outcome.Visible? && (end.outcome.Broken? <==> Faulty(src, join, root)) &&
                 (Related(src, join, root).None? || src.policy(join.name, Related(src, join, root).value) != Allowed)
  {
  }

  lemma {:induction false} JoinResultsAt(src: Source, joins: seq<Join>, root: Record, i: nat)
    requires i < |joins|
    ensures JoinResults(src, joins, root)[i] == FollowJoin(src, joins[i], root)
  {
    if i > 0 {
      JoinResultsAt(src, joins[1..], root, i - 1);
    }
  }

  lemma GatheredNext(plan: Plan, src: Source, root: Record, i: nat, sources: Sources, record: Record)
    requires PlanOk(plan) && i < |plan.joins| && Gathered(plan, src, root, i, sources)
    requires Related(src, plan.joins[i], root) == Some(record) && src.policy(plan.joins[i].name, record) == Allowed
    ensures Gathered(plan, src, root, i + 1, sources[plan.joins[i].name := record])
  {
    assert plan.joins[i] in plan.joins;
    assert forall k | 0 <= k < i :: plan.joins[k].name != plan.joins[i].name;
  }

  /** A projection read from what was gathered. */
  lemma ReadsGathered(plan: Plan, src: Source, root: Record, sources: Sources, p: Projection)
    requires Gathered(plan, src, root, |plan.joins|, sources) && Declared(plan, p)
    ensures Reads(plan, src, root, p, ReadProjection(sources, p))
  {
    if p.source != ROOT {
      var j :| j in plan.joins && j.name == p.source;
      var k :| 0 <= k < |plan.joins| && plan.joins[k] == j;
      assert plan.joins[k].name in sources;
    }
  }

  lemma LineTells(plan: Plan, src: Source, root: Record, sources: Sources)
    requires PlanOk(plan) && Gathered(plan, src, root, |plan.joins|, sources)
    ensures LineOf(plan, sources).Visible? ==> TellsRow(plan, src, root, LineOf(plan, sources).line)
  {
    if LineOf(plan, sources).Visible? {
      if plan.groupBy.Some? {
        ReadsGathered(plan, src, root, sources, plan.groupBy.value);
      }
      forall m | 0 <= m < |plan.measures| && plan.measures[m].sum.Some?
        ensures Reads(plan, src, root, plan.measures[m].sum.value, MeasureValue(sources, plan.measures[m]))
      {
        assert plan.measures[m] in plan.measures;
        ReadsGathered(plan, src, root, sources, plan.measures[m].sum.value);
      }
    }
  }

  /** From some join on: a visible outcome tells the row, and is there only if the rest may be seen. */
  lemma {:induction false} FollowExact(
    plan: Plan, src: Source, root: Record, i: nat, sources: Sources, visits: seq<Visit>)
    requires PlanOk(plan) && i <= |plan.joins| && Gathered(plan, src, root, i, sources)
    ensures var outcome := Follow(plan, JoinResults(src, plan.joins, root), i, sources, visits).outcome;
            && (outcome.Visible? ==>
                  && TellsRow(plan, src, root, outcome.line)
                  && forall k | i <= k < |plan.joins| ::
                       && Related(src, plan.joins[k], root).Some?
                       && src.policy(plan.joins[k].name, Related(src, plan.joins[k], root).value) == Allowed)
            && (outcome.Hidden? ==> exists k :: i <= k < |plan.joins| && StopsAt(plan, src, root, k))
    decreases |plan.joins| - i
  {
    if i == |plan.joins| {
      LineTells(plan, src, root, sources);
    } else {
      JoinResultsAt(src, plan.joins, root, i);
      FollowJoinExact(src, plan.joins[i], root);
      var end := FollowJoin(src, plan.joins[i], root).end;
      if end.Found? {
        GatheredNext(plan, src, root, i, sources, end.record);
        FollowExact(plan, src, root, i + 1, sources[plan.joins[i].name := end.record],
                    visits + FollowJoin(src, plan.joins[i], root).visits);
      } else {
        assert StopsAt(plan, src, root, i);
      }
    }
  }

  /** The `k`th join leads nowhere, or to a record that may not be seen. */
  predicate StopsAt(plan: Plan, src: Source, root: Record, k: nat)
    requires k < |plan.joins|
  {
    var record := Related(src, plan.joins[k], root);
    record.None? || src.policy(plan.joins[k].name, record.value) != Allowed
  }

  /** A row contributes only if it and all its related records may be seen, and then a line that tells exactly their
      fields; a hidden row has some record that is missing or denied. */
  lemma RowExact(plan: Plan, src: Source, root: Record)
    requires PlanOk(plan)
    ensures var outcome := Evaluate(plan, src, root).outcome;
            && (outcome.Visible? ==> Shown(plan, src, root) && TellsRow(plan, src, root, outcome.line))
            && (outcome.Hidden? ==> !Shown(plan, src, root))
  {
    if src.policy(ROOT, root) == Allowed {
      FollowExact(plan, src, root, 0, map[ROOT := root], []);
      var outcome := Evaluate(plan, src, root).outcome;
      if outcome.Visible? {
        forall j | j in plan.joins
          ensures Related(src, j, root).Some? && src.policy(j.name, Related(src, j, root).value) == Allowed
        {
          var k :| 0 <= k < |plan.joins| && plan.joins[k] == j;
          assert Related(src, plan.joins[k], root).Some?;
        }
      }
      if outcome.Hidden? {
        var k :| 0 <= k < |plan.joins| && StopsAt(plan, src, root, k);
        assert plan.joins[k] in plan.joins;
      }
    }
  }

  /** From some join on: the row breaks at the first join that ends it, if that one is faulty, or at its group. */
  lemma {:induction false} FollowBreaks(
    plan: Plan, src: Source, root: Record, i: nat, sources: Sources, visits: seq<Visit>)
    requires PlanOk(plan) && i <= |plan.joins| && Gathered(plan, src, root, i, sources) && Reaches(plan, src, root, i)
    ensures Follow(plan, JoinResults(src, plan.joins, root), i, sources, visits).outcome.Broken? <==>
      || (exists k :: i <= k < |plan.joins| && Reaches(plan, src, root, k) && Faulty(src, plan.joins[k], root))
      || (Reaches(plan, src, root, |plan.joins|) && !GroupOk(plan, src, root))
    decreases |plan.joins| - i
  {
    if i == |plan.joins| {
      GroupGathered(plan, src, root, sources);
    } else {
      JoinResultsAt(src, plan.joins, root, i);
      FollowJoinExact(src, plan.joins[i], root);
      var end := FollowJoin(src, plan.joins[i], root).end;
      if end.Found? {
        GatheredNext(plan, src, root, i, sources, end.record);
        FollowBreaks(plan, src, root, i + 1, sources[plan.joins[i].name := end.record],
                     visits + FollowJoin(src, plan.joins[i], root).visits);
        assert !Faulty(src, plan.joins[i], root);
      } else {
        assert StopsAt(plan, src, root, i);
        assert forall k | i < k <= |plan.joins| :: !Reaches(plan, src, root, k);
      }
    }
  }

  /** The grouped field has a value that can stand for a group. */
  ghost predicate GroupOk(plan: Plan, src: Source, root: Record) {
    plan.groupBy.Some? ==>
      exists f :: Reads(plan, src, root, plan.groupBy.value, f) && (f.Absent? || f.Text? || f.Flag? || Finite(f))
  }

  predicate Finite(f: Field) {
    f.Num? && !f.x.Infinite?
  }

  lemma GroupGathered(plan: Plan, src: Source, root: Record, sources: Sources)
    requires PlanOk(plan) && Gathered(plan, src, root, |plan.joins|, sources)
    ensures LineOf(plan, sources).Broken? <==> !GroupOk(plan, src, root)
  {
    if plan.groupBy.Some? {
      var p := plan.groupBy.value;
      ReadsGathered(plan, src, root, sources, p);
      forall f | Reads(plan, src, root, p, f) ensures f == ReadProjection(sources, p) {
        ReadsOnce(plan, src, root, p, f, ReadProjection(sources, p));
      }
    }
  }

  /** Aliases are different, so a projection reads one field. */
  lemma ReadsOnce(plan: Plan, src: Source, root: Record, p: Projection, f: Field, g: Field)
    requires PlanOk(plan) && Reads(plan, src, root, p, f) && Reads(plan, src, root, p, g)
    ensures f == g
  {
    if p.source != ROOT {
      var x :| x in plan.joins && x.name == p.source && Related(src, x, root).Some?
               && f == Get(Related(src, x, root).value, p.field);
      var y :| y in plan.joins && y.name == p.source && Related(src, y, root).Some?
               && g == Get(Related(src, y, root).value, p.field);
      var i :| 0 <= i < |plan.joins| && plan.joins[i] == x;
      var j :| 0 <= j < |plan.joins| && plan.joins[j] == y;
      assert i == j;
    }
  }

  /** A row makes the whole aggregate fail exactly if the policy gives no proper verdict on it, the first join that
      ends it is faulty, or it can be shown but has no proper group; a missing or denied record only hides it. */
  lemma BrokenExact(plan: Plan, src: Source, root: Record)
    requires PlanOk(plan)
    ensures Evaluate(plan, src, root).outcome.Broken? <==>
      || src.policy(ROOT, root) == Improper
      || (src.policy(ROOT, root) == Allowed &&
          ((exists k :: 0 <= k < |plan.joins| && Reaches(plan, src, root, k) && Faulty(src, plan.joins[k], root))
           || (Reaches(plan, src, root, |plan.joins|) && !GroupOk(plan, src, root))))
  {
    if src.policy(ROOT, root) == Allowed {
      FollowBreaks(plan, src, root, 0, map[ROOT := root], []);
    }
  }

  /** A row with a record that may not be seen, its own or a related one, changes no line, no group and no total. */
  lemma DeniedContributesNothing(plan: Plan, src: Source, roots: seq<Record>, root: Record)
    requires PlanOk(plan) && !Shown(plan, src, root)
    ensures Lines(plan, src, roots + [root]) == Lines(plan, src, roots)
  {
    RowExact(plan, src, root);
    assert (roots + [root])[..|roots|] == roots;
  }

  // ----- What a row looks up -----

  /** No join before the `k`th ends the row. */
  predicate Reaches(plan: Plan, src: Source, root: Record, k: nat)
    requires k <= |plan.joins|
  {
    forall i | 0 <= i < k :: !StopsAt(plan, src, root, i)
  }

  /** The `k`th join looks this record up. */
  predicate Looks(plan: Plan, root: Record, k: nat, v: Visit)
    requires k < |plan.joins|
  {
    var join := plan.joins[k];
    && join.via in root && root[join.via].Text? && NamesRecord(root[join.via].s)
    && v == Visit(join.table, root[join.via].s)
  }

  lemma FollowJoinVisits(src: Source, plan: Plan, root: Record, k: nat, v: Visit)
    requires k < |plan.joins|
    ensures v in FollowJoin(src, plan.joins[k], root).visits <==> Looks(plan, root, k, v)
    ensures FollowJoin(src, plan.joins[k], root).end.Found? <==> !StopsAt(plan, src, root, k)
  {
    FollowJoinExact(src, plan.joins[k], root);
  }

  lemma {:induction false} FollowVisits(
    plan: Plan, src: Source, root: Record, i: nat, sources: Sources, visits: seq<Visit>, v: Visit)
    requires i <= |plan.joins| && Reaches(plan, src, root, i)
    ensures v in Follow(plan, JoinResults(src, plan.joins, root), i, sources, visits).visits <==>
      v in visits || exists k :: i <= k < |plan.joins| && Reaches(plan, src, root, k) && Looks(plan, root, k, v)
    decreases |plan.joins| - i
  {
    if i < |plan.joins| {
      JoinResultsAt(src, plan.joins, root, i);
      FollowJoinVisits(src, plan, root, i, v);
      var r := FollowJoin(src, plan.joins[i], root);
      if r.end.Found? {
        FollowVisits(plan, src, root, i + 1, sources[plan.joins[i].name := r.end.record], visits + r.visits, v);
      } else {
        assert forall k | i < k < |plan.joins| :: !Reaches(plan, src, root, k);
      }
    }
  }

  /** A row looks up exactly what its joins name, up to the first join that ends it; nothing of a row that may not be
      seen. */
  lemma VisitsExact(plan: Plan, src: Source, root: Record, v: Visit)
    ensures v in Evaluate(plan, src, root).visits <==>
      && src.policy(ROOT, root) == Allowed
      && exists k :: 0 <= k < |plan.joins| && Reaches(plan, src, root, k) && Looks(plan, root, k, v)
  {
    if src.policy(ROOT, root) == Allowed {
      FollowVisits(plan, src, root, 0, map[ROOT := root], [], v);
    }
  }

  // ----- Totals and capacities -----

  /** A total exists only over numbers: every line either leaves the measure out or has a finite number for it. */
  lemma {:induction false} TotalNeedsNumbers(src: Source, lines: seq<Line>, m: nat)
    requires Total(src, lines, m).Some?
    ensures forall l | l in lines ::
              m < |l.values| && (l.values[m] == Absent || (l.values[m].Num? && !l.values[m].x.Infinite?))
    decreases |lines|
  {
    if lines != [] {
      var n := |lines| - 1;
      TotalNeedsNumbers(src, lines[..n], m);
      assert lines == lines[..n] + [lines[n]];
    }
  }

  /** A lookup counts towards the capacities the first time only, and with the stored size of what it found. */
  lemma VisitCounts(src: Source, visits: seq<Visit>, v: Visit)
    ensures var before, after := Distinct(visits), Distinct(visits + [v]);
            && |after| == |before| + (if v in visits then 0 else 1)
            && Bytes(src, after) == Bytes(src, before) +
                 (if v in visits || src.find(v.table, v.id).None? then 0 else src.size(v.table, v.id))
  {
    P.DistinctAppend(visits, v);
    P.BytesAppend(src, Distinct(visits), v);
    SameVisits(visits, v);
  }

  lemma {:induction false} SameVisits(visits: seq<Visit>, v: Visit)
    ensures v in Distinct(visits) <==> v in visits
    decreases |visits|
  {
    if visits != [] {
      var n := |visits| - 1;
      SameVisits(visits[..n], v);
      assert visits == visits[..n] + [visits[n]];
    }
  }
}
