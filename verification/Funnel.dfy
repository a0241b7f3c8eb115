/** The one-pass funnel scan of src/analytics.ts (`queryFunnel`). */
module Funnel {
  import opened Wrappers
  import opened Sets

  datatype Definition = Definition(steps: seq<string>, withinMs: int)

  /** What the definition of a funnel guarantees: at least two steps, all different, and a time window. */
  predicate DefinitionOk(f: Definition) {
    f.withinMs > 0 && |f.steps| >= 2 && forall i, j | 0 <= i < j < |f.steps| :: f.steps[i] != f.steps[j]
  }

  datatype Row = Row(subject: string, event: string, at: int)

  // ----- What one subject's events amount to -----

  datatype Scan = Scan(next: nat, startedAt: int)

  const IDLE: Scan := Scan(0, 0)

  function StepScan(f: Definition, s: Scan, r: Row): Scan
    requires DefinitionOk(f)
  {
    if s.next < |f.steps| && r.event == f.steps[0] then Scan(1, r.at)
    else if 0 < s.next < |f.steps| && r.event == f.steps[s.next] then
      if r.at - s.startedAt <= f.withinMs then Scan(s.next + 1, s.startedAt) else IDLE
    else s
  }

  function ScanAll(f: Definition, events: seq<Row>): Scan
    requires DefinitionOk(f)
    decreases |events|
  {
    if events == [] then IDLE else StepScan(f, ScanAll(f, events[..|events| - 1]), events[|events| - 1])
  }

  // ----- What the whole table amounts to -----

  function RowsOf(rows: seq<Row>, subject: string): seq<Row> {
    if rows == [] then []
    else
      RowsOf(rows[..|rows| - 1], subject) +
      (if rows[|rows| - 1].subject == subject then [rows[|rows| - 1]] else [])
  }

  function Subjects(rows: seq<Row>): set<string> {
    set r | r in rows && r.subject != "" :: r.subject
  }

  /** The subjects whose scan ended beyond step `i`. */
  function ReachedBy(f: Definition, rows: seq<Row>, i: nat): set<string>
    requires DefinitionOk(f)
  {
    set s | s in Subjects(rows) && ScanAll(f, RowsOf(rows, s)).next > i
  }

  /** The same, without the subject that is still being scanned. */
  function Finished(f: Definition, rows: seq<Row>, current: string, i: nat): set<string>
    requires DefinitionOk(f)
  {
    ReachedBy(f, rows, i) - {current}
  }

  /** No earlier row has the subject of row `k`. */
  predicate Opens(rows: seq<Row>, k: nat)
    requires k < |rows|
  {
    forall r | r in rows[..k] :: r.subject != rows[k].subject
  }

  /** Row `k` goes on with the subject of the row before it, and is not earlier. */
  predicate Follows(rows: seq<Row>, k: nat)
    requires 0 < k < |rows|
  {
    rows[k].subject == rows[k - 1].subject && rows[k - 1].at <= rows[k].at
  }

  /** `ORDER BY subject_key, occurred_at`: the rows of a subject are neighbours, in the order of time. */
  predicate Ordered(rows: seq<Row>) {
    forall k | 0 < k < |rows| :: Opens(rows, k) || Follows(rows, k)
  }

  lemma ScanAppend(f: Definition, events: seq<Row>, r: Row)
    requires DefinitionOk(f)
    ensures ScanAll(f, events + [r]) == StepScan(f, ScanAll(f, events), r)
  {
    var s := events + [r];
    assert s[..|s| - 1] == events;
  }

  lemma {:induction false} RowsOfStranger(rows: seq<Row>, subject: string)
    requires forall r | r in rows :: r.subject != subject
    ensures RowsOf(rows, subject) == []
    decreases |rows|
  {
    if rows != [] {
      var n := |rows| - 1;
      assert rows[n] in rows;
      RowsOfStranger(rows[..n], subject);
    }
  }

  /** A row leaves every other subject's scan alone. */
  lemma OthersStay(f: Definition, rows: seq<Row>, r: Row, s: string)
    requires DefinitionOk(f) && s != r.subject
    ensures RowsOf(rows + [r], s) == RowsOf(rows, s)
  {
    assert RowsOf(rows, s) + [] == RowsOf(rows, s);
  }

  lemma FinishedStays(f: Definition, rows: seq<Row>, r: Row, i: nat)
    requires DefinitionOk(f)
    ensures Finished(f, rows + [r], r.subject, i) == Finished(f, rows, r.subject, i)
  {
    forall s | s != r.subject ensures RowsOf(rows + [r], s) == RowsOf(rows, s) {
      OthersStay(f, rows, r, s);
    }
  }

  /** `finish`: counts the current subject for the steps it reached. */
  lemma FinishCounts(f: Definition, rows: seq<Row>, current: string, i: nat)
    requires DefinitionOk(f)
    ensures |ReachedBy(f, rows, i)| == |Finished(f, rows, current, i)|
      + if current in Subjects(rows) && ScanAll(f, RowsOf(rows, current)).next > i then 1 else 0
  {
    var all, rest := ReachedBy(f, rows, i), Finished(f, rows, current, i);
    if current in all {
      assert all == rest + {current};
    } else {
      assert all == rest;
    }
  }

  // ----- The query -----

  datatype StepResult = StepResult(event: string, subjects: Option<nat>, conversionFromFirst: Option<real>)

  datatype FunnelResult = FunnelResult(steps: seq<StepResult>, scannedEvents: nat)

  predicate Counts(f: Definition, rows: seq<Row>, reached: seq<nat>)
    requires DefinitionOk(f)
  {
    |reached| == |f.steps| && forall i | 0 <= i < |reached| :: reached[i] == |ReachedBy(f, rows, i)|
  }

  /** The counts after `finish`. */
  predicate Increased(before: seq<nat>, now: seq<nat>, nextStep: nat) {
    |now| == |before| && forall i | 0 <= i < |now| :: now[i] == before[i] + if i < nextStep then 1 else 0
  }

  method Finish(reached: array<nat>, nextStep: nat)
    requires nextStep <= reached.Length
    modifies reached
    ensures Increased(old(reached[..]), reached[..], nextStep)
  {
    for index := 0 to nextStep
      invariant Increased(old(reached[..]), reached[..], index)
    {
      reached[index] := reached[index] + 1;
    }
  }

  lemma NothingIncreased(counts: seq<nat>)
    ensures Increased(counts, counts, 0)
  {
  }

  lemma ScanBounded(f: Definition, events: seq<Row>)
    requires DefinitionOk(f)
    ensures ScanAll(f, events).next <= |f.steps|
    decreases |events|
  {
    if events != [] {
      ScanBounded(f, events[..|events| - 1]);
    }
  }

  /** What the loop knows after `k` rows about the subject it is in. */
  predicate InSubject(f: Definition, rows: seq<Row>, k: nat, current: string, s: Scan)
    requires DefinitionOk(f) && k <= |rows|
  {
    && s == ScanAll(f, RowsOf(rows[..k], current))
    && (if k == 0 then current == "" else current == rows[k - 1].subject)
  }

  lemma SameSubject(f: Definition, rows: seq<Row>, k: nat, current: string, s: Scan)
    requires DefinitionOk(f) && k < |rows| && InSubject(f, rows, k, current, s) && rows[k].subject == current
    ensures InSubject(f, rows, k + 1, current, StepScan(f, s, rows[k]))
  {
    assert rows[..k + 1] == rows[..k] + [rows[k]];
    ScanAppend(f, RowsOf(rows[..k], current), rows[k]);
  }

  lemma NextSubject(f: Definition, rows: seq<Row>, k: nat, current: string, s: Scan)
    requires DefinitionOk(f) && Ordered(rows) && k < |rows|
    requires InSubject(f, rows, k, current, s) && rows[k].subject != current
    ensures InSubject(f, rows, k + 1, rows[k].subject, StepScan(f, IDLE, rows[k]))
    ensures rows[k].subject !in Subjects(rows[..k])
  {
    var prefix, r := rows[..k], rows[k];
    assert rows[..k + 1] == prefix + [r];
    assert k > 0 ==> Opens(rows, k);
    RowsOfStranger(prefix, r.subject);
    ScanAppend(f, [], r);
    assert [] + [r] == [r];
  }

  lemma NextSubjectCount(f: Definition, rows: seq<Row>, k: nat, current: string, s: Scan, i: nat)
    requires DefinitionOk(f) && k < |rows| && InSubject(f, rows, k, current, s)
    requires rows[k].subject != current && rows[k].subject !in Subjects(rows[..k])
    ensures |Finished(f, rows[..k + 1], rows[k].subject, i)|
      == |Finished(f, rows[..k], current, i)| + if current != "" && s.next > i then 1 else 0
  {
    assert rows[..k + 1] == rows[..k] + [rows[k]];
    FinishedStays(f, rows[..k], rows[k], i);
    FinishCounts(f, rows[..k], current, i);
  }

  /** The counts without the subject that is still being scanned. */
  predicate Tallied(f: Definition, rows: seq<Row>, current: string, counts: seq<nat>)
    requires DefinitionOk(f)
  {
    |counts| == |f.steps| && forall i | 0 <= i < |counts| :: counts[i] == |Finished(f, rows, current, i)|
  }

  lemma TallySame(f: Definition, rows: seq<Row>, k: nat, counts: seq<nat>)
    requires DefinitionOk(f) && k < |rows| && Tallied(f, rows[..k], rows[k].subject, counts)
    ensures Tallied(f, rows[..k + 1], rows[k].subject, counts)
  {
    assert rows[..k + 1] == rows[..k] + [rows[k]];
    forall i | 0 <= i < |counts| ensures counts[i] == |Finished(f, rows[..k + 1], rows[k].subject, i)| {
      FinishedStays(f, rows[..k], rows[k], i);
    }
  }

  lemma TallyNext(
    f: Definition, rows: seq<Row>, k: nat, current: string, s: Scan, before: seq<nat>, now: seq<nat>)
    requires DefinitionOk(f) && k < |rows| && InSubject(f, rows, k, current, s)
    requires rows[k].subject != current && rows[k].subject !in Subjects(rows[..k])
    requires Tallied(f, rows[..k], current, before) && Increased(before, now, if current != "" then s.next else 0)
    ensures Tallied(f, rows[..k + 1], rows[k].subject, now)
  {
    forall i | 0 <= i < |now| ensures now[i] == |Finished(f, rows[..k + 1], rows[k].subject, i)| {
      NextSubjectCount(f, rows, k, current, s, i);
    }
  }

  lemma TallyLast(f: Definition, rows: seq<Row>, current: string, s: Scan, before: seq<nat>, now: seq<nat>)
    requires DefinitionOk(f) && InSubject(f, rows, |rows|, current, s)
    requires Tallied(f, rows, current, before) && Increased(before, now, if current != "" then s.next else 0)
    ensures Counts(f, rows, now)
  {
    assert rows[..|rows|] == rows;
    forall i | 0 <= i < |now| ensures now[i] == |ReachedBy(f, rows, i)| {
      FinishCounts(f, rows, current, i);
    }
  }

  /** One event of the current subject. */
  method Observe(f: Definition, next: nat, started: int, row: Row) returns (nextStep: nat, startedAt: int)
    requires DefinitionOk(f)
    ensures Scan(nextStep, startedAt) == StepScan(f, Scan(next, started), row)
  {
    nextStep, startedAt := next, started;
    if nextStep < |f.steps| && row.event == f.steps[0] {
      nextStep := 1;
      startedAt := row.at;
    } else if nextStep > 0 && nextStep < |f.steps| && row.event == f.steps[nextStep] {
      if row.at - startedAt <= f.withinMs {
        nextStep := nextStep + 1;
      } else {
        nextStep := 0;
        startedAt := 0;
      }
    }
  }

  /** The state of the scan after `k` rows. */
  predicate Scanning(f: Definition, rows: seq<Row>, k: nat, current: string, s: Scan, counts: seq<nat>)
    requires DefinitionOk(f) && k <= |rows|
  {
    InSubject(f, rows, k, current, s) && Tallied(f, rows[..k], current, counts)
  }

  /** One row: the counts when the subject changes, then the event itself. */
  method ScanRow(f: Definition, rows: seq<Row>, k: nat, reached: array<nat>, current: string, s: Scan)
    returns (subject: string, scan: Scan)
    requires DefinitionOk(f) && Ordered(rows) && k < |rows| && Scanning(f, rows, k, current, s, reached[..])
    modifies reached
    ensures Scanning(f, rows, k + 1, subject, scan, reached[..])
  {
    var row := rows[k];
    if row.subject != current {
      ghost var before := reached[..];
      FinishIfNamed(f, reached, current, s.next, RowsOf(rows[..k], current), s);
      NextSubject(f, rows, k, current, s);
      TallyNext(f, rows, k, current, s, before, reached[..]);
      subject, scan := row.subject, IDLE;
    } else {
      SameSubject(f, rows, k, current, s);
      TallySame(f, rows, k, reached[..]);
      subject, scan := current, s;
    }
    var nextStep, startedAt := Observe(f, scan.next, scan.startedAt, row);
    scan := Scan(nextStep, startedAt);
  }

  /** The scan: afterwards `reached` counts, for each step, the subjects that got beyond it. */
  method CountReached(f: Definition, rows: seq<Row>) returns (counts: seq<nat>)
    requires DefinitionOk(f) && Ordered(rows)
    ensures Counts(f, rows, counts)
  {
    var reached := new nat[|f.steps|](_ => 0);
    var currentSubject, scan := "", IDLE;
    for k := 0 to |rows|
      invariant Scanning(f, rows, k, currentSubject, scan, reached[..])
    {
      currentSubject, scan := ScanRow(f, rows, k, reached, currentSubject, scan);
    }
    FinishScan(f, rows, reached, currentSubject, scan);
    counts := reached[..];
  }

  method FinishScan(f: Definition, rows: seq<Row>, reached: array<nat>, current: string, s: Scan)
    requires DefinitionOk(f) && Scanning(f, rows, |rows|, current, s, reached[..])
    modifies reached
    ensures Counts(f, rows, reached[..])
  {
    ghost var before := reached[..];
    assert rows[..|rows|] == rows;
    FinishIfNamed(f, reached, current, s.next, RowsOf(rows, current), s);
    TallyLast(f, rows, current, s, before, reached[..]);
  }

  method FinishIfNamed(
    f: Definition, reached: array<nat>, subject: string, nextStep: nat, ghost events: seq<Row>, ghost scan: Scan)
    requires DefinitionOk(f) && reached.Length == |f.steps|
    requires scan == ScanAll(f, events) && scan.next == nextStep
    modifies reached
    ensures Increased(old(reached[..]), reached[..], if subject != "" then nextStep else 0)
  {
    ScanBounded(f, events);
    if subject != "" {
      Finish(reached, nextStep);
    } else {
      NothingIncreased(reached[..]);
    }
  }

  // ----- What the counts mean -----

  /** No later step has more subjects. */
  lemma ReachedNonIncreasing(f: Definition, rows: seq<Row>, i: nat, j: nat)
    requires DefinitionOk(f) && i <= j
    ensures ReachedBy(f, rows, j) <= ReachedBy(f, rows, i)
    ensures |ReachedBy(f, rows, j)| <= |ReachedBy(f, rows, i)|
  {
    SubsetSize(ReachedBy(f, rows, j), ReachedBy(f, rows, i));
  }

  /** A step as it is reported: hidden below the cohort size, and otherwise with its share of the first step. */
  predicate Reported(step: StepResult, event: string, count: nat, first: nat, minimumCohortSize: nat) {
    && step.event == event
    && step.subjects == (if count >= minimumCohortSize then Some(count) else None)
    && (step.conversionFromFirst.Some? <==> count >= minimumCohortSize)
    && (step.conversionFromFirst.Some? ==>
          && 0.0 < step.conversionFromFirst.value <= 1.0
          && step.conversionFromFirst.value * first as real == count as real)
  }

  /** The query result: bounded scan, and step counts hidden below the cohort size. */
  method QueryFunnel(f: Definition, selected: seq<Row>, minimumCohortSize: nat, maxScanEvents: nat)
    returns (r: Result<FunnelResult, string>)
    requires DefinitionOk(f) && Ordered(selected) && minimumCohortSize >= 1
    ensures r.Err? <==> |selected| > maxScanEvents
    ensures r.Ok? ==>
      && |r.value.steps| == |f.steps| && r.value.scannedEvents == |selected|
      && forall i | 0 <= i < |f.steps| ::
           Reported(r.value.steps[i], f.steps[i], |ReachedBy(f, selected, i)|, |ReachedBy(f, selected, 0)|,
                    minimumCohortSize)
  {
    var rows := if |selected| > maxScanEvents + 1 then selected[..maxScanEvents + 1] else selected;
    if |rows| > maxScanEvents {
      return Err("Analytics funnel exceeds the scan bound.");
    }
    var reached := CountReached(f, rows);
    FirstIsLargest(f, rows, reached);
    var steps := ReportAll(f, reached, minimumCohortSize);
    return Ok(FunnelResult(steps, |rows|));
  }

  lemma FirstIsLargest(f: Definition, rows: seq<Row>, reached: seq<nat>)
    requires DefinitionOk(f) && Counts(f, rows, reached)
    ensures forall i | 0 <= i < |reached| :: reached[i] <= reached[0]
  {
    forall i | 0 <= i < |reached| ensures reached[i] <= reached[0] {
      ReachedNonIncreasing(f, rows, 0, i);
    }
  }

  method ReportAll(f: Definition, reached: seq<nat>, minimumCohortSize: nat) returns (steps: seq<StepResult>)
    requires DefinitionOk(f) && |reached| == |f.steps| && minimumCohortSize >= 1
    requires forall i | 0 <= i < |reached| :: reached[i] <= reached[0]
    ensures |steps| == |f.steps|
    ensures forall i | 0 <= i < |steps| :: Reported(steps[i], f.steps[i], reached[i], reached[0], minimumCohortSize)
  {
    steps := [];
    for index := 0 to |f.steps|
      invariant |steps| == index
      invariant forall i | 0 <= i < index ::
        Reported(steps[i], f.steps[i], reached[i], reached[0], minimumCohortSize)
    {
      var step := ReportStep(f.steps[index], reached[index], reached[0], minimumCohortSize);
      steps := steps + [step];
    }
  }

  method ReportStep(event: string, count: nat, first: nat, minimumCohortSize: nat) returns (step: StepResult)
    requires count <= first && minimumCohortSize >= 1
    ensures Reported(step, event, count, first, minimumCohortSize)
  {
    var visible := count >= minimumCohortSize;
    var conversion := None;
    if visible && first >= minimumCohortSize {
      conversion := Some(count as real / first as real);
    }
    step := StepResult(event, if visible then Some(count) else None, conversion);
  }
}
