/** Facts about aggregates: what a longer selection can only make worse, and that a sorted answer is unique. */
module AggregateProofs {
  import opened Wrappers
  import opened Aggregates
  import opened KeyText
  import opened Sets
  import T = CanonicalText
  import TP = CanonicalTextProofs

  // ----- Keys of the executor's maps -----

  function RelatedKey(table: string, id: string): string {
    table + ":" + id
  }

  function PolicyKey(name: string, key: string): string {
    name + ":" + key
  }

  /** Different lookups never share a memo. */
  lemma RelatedKeyUnique(t: string, i: string, u: string, j: string)
    requires IsName(t) && IsName(u) && RelatedKey(t, i) == RelatedKey(u, j)
    ensures t == u && i == j
  {
    SeparatedUnique(t, i, u, j);
  }

  /** Different policy decisions never share a memo. */
  lemma PolicyKeyUnique(a: string, t: string, i: string, b: string, u: string, j: string)
    requires IsName(a) && IsName(b) && IsName(t) && IsName(u)
    requires PolicyKey(a, RelatedKey(t, i)) == PolicyKey(b, RelatedKey(u, j))
    ensures a == b && t == u && i == j
  {
    SeparatedUnique(a, RelatedKey(t, i), b, RelatedKey(u, j));
    RelatedKeyUnique(t, i, u, j);
  }

  function KindName(g: Scalar): string {
    match g
    case SNull => "object"
    case SText(_) => "string"
    case SFlag(_) => "boolean"
    case SNum(_) => "number"
  }

  function ScalarValue(src: Source, g: Scalar): T.Value {
    match g
    case SNull => T.Null
    case SText(s) => T.String(s)
    case SFlag(b) => T.Bool(b)
    case SNum(x) => T.Number(src.show(x))
  }

  /** `JSON.stringify([typeof group, group])`. */
  function GroupKey(src: Source, g: Scalar): string {
    T.Encode(T.Array([T.String(KindName(g)), ScalarValue(src, g)]))
  }

  /** Different numbers print differently. */
  ghost predicate Shows(src: Source) {
    forall x, y :: src.show(x) == src.show(y) ==> x == y
  }

  lemma GroupKeyUnique(src: Source, g: Scalar, h: Scalar)
    requires Shows(src) && GroupKey(src, g) == GroupKey(src, h)
    ensures g == h
  {
    var v := T.Array([T.String(KindName(g)), ScalarValue(src, g)]);
    var w := T.Array([T.String(KindName(h)), ScalarValue(src, h)]);
    assert T.Encode(v) + "" == T.Encode(w) + "";
    TP.ValueUnique(v, "", w, "");
    assert v.items[1] == w.items[1];
  }

  // ----- Distinct lookups -----

  lemma DistinctAppend(visits: seq<Visit>, v: Visit)
    ensures Distinct(visits + [v]) == if v in Distinct(visits) then Distinct(visits) else Distinct(visits) + [v]
  {
    var s := visits + [v];
    assert s[..|s| - 1] == visits;
  }

  lemma BytesAppend(src: Source, visits: seq<Visit>, v: Visit)
    ensures Bytes(src, visits + [v]) == Bytes(src, visits) + Size(src, v)
  {
    var s := visits + [v];
    assert s[..|s| - 1] == visits;
  }

  /** More lookups only add to the distinct ones. */
  lemma {:induction false} DistinctGrows(src: Source, a: seq<Visit>, b: seq<Visit>)
    ensures |Distinct(a)| <= |Distinct(a + b)| && Bytes(src, Distinct(a)) <= Bytes(src, Distinct(a + b))
    decreases |b|
  {
    if b == [] {
      assert a + b == a;
    } else {
      var n := |b| - 1;
      assert a + b == (a + b[..n]) + [b[n]];
      DistinctGrows(src, a, b[..n]);
      DistinctAppend(a + b[..n], b[n]);
      BytesAppend(src, Distinct(a + b[..n]), b[n]);
    }
  }

  // ----- Prefixes of the selection -----

  lemma AllVisitsAppend(plan: Plan, src: Source, roots: seq<Record>, r: Record)
    ensures AllVisits(plan, src, roots + [r]) == AllVisits(plan, src, roots) + Evaluate(plan, src, r).visits
  {
    var s := roots + [r];
    assert s[..|s| - 1] == roots;
  }

  function LineSeq(o: RowOutcome): seq<Line> {
    match o
    case Visible(line) => [line]
    case _ => []
  }

  lemma LinesAppend(plan: Plan, src: Source, roots: seq<Record>, r: Record)
    ensures Lines(plan, src, roots + [r])
      == Lines(plan, src, roots) + LineSeq(Evaluate(plan, src, r).outcome)
  {
    var s := roots + [r];
    assert s[..|s| - 1] == roots;
  }

  lemma LinesOfAppend(lines: seq<Line>, l: Line, g: Scalar)
    ensures LinesOf(lines + [l], g) == LinesOf(lines, g) + (if l.group == g then [l] else [])
  {
    var s := lines + [l];
    assert s[..|s| - 1] == lines;
  }

  lemma TotalAppend(src: Source, lines: seq<Line>, l: Line, m: nat)
    ensures Total(src, lines + [l], m)
      == if Total(src, lines, m).None? || m >= |l.values| then None
         else AddValue(src, Total(src, lines, m).value, l.values[m])
  {
    var s := lines + [l];
    assert s[..|s| - 1] == lines;
  }

  lemma GroupsAppend(plan: Plan, lines: seq<Line>, l: Line)
    ensures Groups(plan, lines + [l]) == Groups(plan, lines) + {l.group}
  {
    assert forall k :: k in lines + [l] <==> k in lines || k == l;
    assert l in lines + [l];
  }

  lemma TotalsExistFront(plan: Plan, src: Source, lines: seq<Line>, l: Line)
    requires TotalsExist(plan, src, lines + [l])
    ensures TotalsExist(plan, src, lines)
  {
    GroupsAppend(plan, lines, l);
    forall g, m | g in Groups(plan, lines) && 0 <= m < |plan.measures|
      ensures Total(src, LinesOf(lines, g), m).Some?
    {
      LinesOfAppend(lines, l, g);
      TotalAppend(src, LinesOf(lines, g), l, m);
      assert Total(src, LinesOf(lines + [l], g), m).Some?;
      assert LinesOf(lines, g) + [] == LinesOf(lines, g);
    }
  }

  lemma LinesFrontFeasible(plan: Plan, src: Source, lines: seq<Line>, o: RowOutcome)
    requires TotalsExist(plan, src, lines + LineSeq(o))
    requires |Groups(plan, lines + LineSeq(o))| <= plan.limits.maxGroups
    ensures TotalsExist(plan, src, lines) && |Groups(plan, lines)| <= plan.limits.maxGroups
  {
    if o.Visible? {
      TotalsExistFront(plan, src, lines, o.line);
      GroupsAppend(plan, lines, o.line);
      SubsetSize(Groups(plan, lines), Groups(plan, lines + [o.line]));
    } else {
      assert lines + [] == lines;
    }
  }

  lemma FrontFeasible(plan: Plan, src: Source, roots: seq<Record>, r: Record, rootBytes: nat)
    requires Feasible(plan, src, roots + [r], rootBytes)
    ensures Feasible(plan, src, roots, rootBytes)
  {
    AllVisitsAppend(plan, src, roots, r);
    LinesAppend(plan, src, roots, r);
    DistinctGrows(src, AllVisits(plan, src, roots), Evaluate(plan, src, r).visits);
    LinesFrontFeasible(plan, src, Lines(plan, src, roots), Evaluate(plan, src, r).outcome);
    forall q | q in roots ensures !Evaluate(plan, src, q).outcome.Broken? {
      assert q in roots + [r];
    }
  }

  /** An aggregate that fails on the first rows fails on all. */
  lemma {:induction false} PrefixFeasible(plan: Plan, src: Source, roots: seq<Record>, k: nat, rootBytes: nat)
    requires k <= |roots| && Feasible(plan, src, roots, rootBytes)
    ensures Feasible(plan, src, roots[..k], rootBytes)
    decreases |roots|
  {
    if k == |roots| {
      assert roots[..k] == roots;
    } else {
      var n := |roots| - 1;
      assert roots == roots[..n] + [roots[n]];
      FrontFeasible(plan, src, roots[..n], roots[n], rootBytes);
      PrefixFeasible(plan, src, roots[..n], k, rootBytes);
      assert roots[..n][..k] == roots[..k];
    }
  }

  // ----- One answer -----

  ghost predicate SortedRows(src: Source, rows: seq<Row>) {
    forall i, j | 0 <= i < j < |rows| :: T.TextLeq(GroupKey(src, rows[i].group), GroupKey(src, rows[j].group))
  }

  /** The row of a group is determined by the lines. */
  lemma RowDetermined(plan: Plan, src: Source, lines: seq<Line>, a: Row, b: Row)
    requires a.group == b.group && |a.values| == |plan.measures| == |b.values|
    requires forall m | 0 <= m < |a.values| :: Total(src, LinesOf(lines, a.group), m) == Some(a.values[m])
    requires forall m | 0 <= m < |b.values| :: Total(src, LinesOf(lines, b.group), m) == Some(b.values[m])
    ensures a == b
  {
    forall m | 0 <= m < |a.values| ensures a.values[m] == b.values[m] {
      assert Some(a.values[m]) == Some(b.values[m]);
    }
  }

  lemma AnswersHaveSameRows(plan: Plan, src: Source, lines: seq<Line>, a: seq<Row>, b: seq<Row>)
    requires IsAnswer(plan, src, lines, a) && IsAnswer(plan, src, lines, b)
    ensures forall r :: r in a ==> r in b
  {
    forall r | r in a ensures r in b {
      assert r.group in Groups(plan, lines);
      var q :| q in b && q.group == r.group;
      RowDetermined(plan, src, lines, r, q);
    }
  }

  lemma RowTail(src: Source, rows: seq<Row>)
    requires rows != [] && SortedRows(src, rows) && forall i, j | 0 <= i < j < |rows| :: rows[i].group != rows[j].group
    ensures SortedRows(src, rows[1..])
    ensures forall i, j | 0 <= i < j < |rows[1..]| :: rows[1..][i].group != rows[1..][j].group
    ensures forall r :: r in rows <==> r == rows[0] || r in rows[1..]
    ensures forall r | r in rows[1..] ::
      r.group != rows[0].group && T.TextLeq(GroupKey(src, rows[0].group), GroupKey(src, r.group))
  {
    assert rows == [rows[0]] + rows[1..];
    forall r | r in rows[1..]
      ensures r.group != rows[0].group && T.TextLeq(GroupKey(src, rows[0].group), GroupKey(src, r.group))
    {
      var i :| 0 <= i < |rows[1..]| && rows[1..][i] == r;
      assert rows[i + 1] == r;
    }
  }

  lemma {:induction false} SortedUnique(src: Source, a: seq<Row>, b: seq<Row>)
    requires Shows(src) && SortedRows(src, a) && SortedRows(src, b)
    requires forall i, j | 0 <= i < j < |a| :: a[i].group != a[j].group
    requires forall i, j | 0 <= i < j < |b| :: b[i].group != b[j].group
    requires forall r :: r in a <==> r in b
    ensures a == b
    decreases |a|
  {
    assert a != [] ==> a[0] in b;
    assert b != [] ==> b[0] in a;
    if a != [] && b != [] {
      RowTail(src, a);
      RowTail(src, b);
      T.TextLeqTotal(GroupKey(src, a[0].group), GroupKey(src, b[0].group));
      if a[0] != b[0] {
        GroupKeyUnique(src, a[0].group, b[0].group);
      }
      SortedUnique(src, a[1..], b[1..]);
      assert a == [a[0]] + a[1..] && b == [b[0]] + b[1..];
    }
  }

  /** The sorted answer is unique. */
  lemma AnswerUnique(plan: Plan, src: Source, lines: seq<Line>, a: seq<Row>, b: seq<Row>)
    requires Shows(src) && IsAnswer(plan, src, lines, a) && IsAnswer(plan, src, lines, b)
    requires SortedRows(src, a) && SortedRows(src, b)
    ensures a == b
  {
    AnswersHaveSameRows(plan, src, lines, a, b);
    AnswersHaveSameRows(plan, src, lines, b, a);
    SortedUnique(src, a, b);
  }
}
