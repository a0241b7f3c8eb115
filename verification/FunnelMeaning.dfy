/** What the funnel counts: every counted subject has the events to show for it, and exactly when a subject counts
    as converted. */
module FunnelMeaning {
  import opened Funnel

  /** Events at increasing positions that match the first steps, all within the time window of the first. */
  predicate IsWitness(f: Definition, events: seq<Row>, w: seq<nat>) {
    && 1 <= |w| <= |f.steps|
    && (forall i, j | 0 <= i < j < |w| :: w[i] < w[j])
    && (forall j | 0 <= j < |w| ::
          w[j] < |events| && events[w[j]].event == f.steps[j] && events[w[j]].at - events[w[0]].at <= f.withinMs)
  }

  /** No first-step event in the positions from `a` (exclusive) to `b` (inclusive). */
  predicate NoRestart(f: Definition, events: seq<Row>, a: nat, b: int)
    requires DefinitionOk(f)
  {
    forall k | a < k <= b && k < |events| :: events[k].event != f.steps[0]
  }

  /** Where a scan's progress can still be undone by a first-step event. */
  function Horizon(f: Definition, events: seq<Row>, w: seq<nat>): int
    requires w != []
  {
    if |w| == |f.steps| then w[|w| - 1] else |events| - 1
  }

  /** Each step was taken at its first chance, and the next one did not occur since. */
  predicate AtFirstChance(f: Definition, events: seq<Row>, w: seq<nat>)
    requires w != [] && |w| <= |f.steps|
  {
    && (forall j, k | 0 < j < |w| && w[j - 1] < k < w[j] && k < |events| :: events[k].event != f.steps[j])
    && (|w| < |f.steps| ==> forall k | w[|w| - 1] < k < |events| :: events[k].event != f.steps[|w|])
  }

  ghost predicate Explains(f: Definition, events: seq<Row>, s: Scan, w: seq<nat>)
    requires DefinitionOk(f)
  {
    && |w| == s.next
    && (w != [] ==>
          && IsWitness(f, events, w) && s.startedAt == events[w[0]].at
          && NoRestart(f, events, w[0], Horizon(f, events, w))
          && AtFirstChance(f, events, w))
  }

  lemma WitnessExtended(f: Definition, events: seq<Row>, w: seq<nat>, r: Row)
    requires IsWitness(f, events, w) && |w| < |f.steps|
    requires r.event == f.steps[|w|] && r.at - events[w[0]].at <= f.withinMs
    ensures IsWitness(f, events + [r], w + [|events|])
  {
    var more, v := events + [r], w + [|events|];
    forall j | 0 <= j < |v|
      ensures v[j] < |more| && more[v[j]].event == f.steps[j] && more[v[j]].at - more[v[0]].at <= f.withinMs
    {
    }
  }

  /** One event: the explanation stays, grows, starts again or is dropped. */
  lemma ExplainStep(f: Definition, events: seq<Row>, s: Scan, w: seq<nat>, r: Row) returns (v: seq<nat>)
    requires DefinitionOk(f) && Explains(f, events, s, w)
    ensures Explains(f, events + [r], StepScan(f, s, r), v)
  {
    var more := events + [r];
    if s.next < |f.steps| && r.event == f.steps[0] {
      v := [|events|];
      assert more[|events|] == r;
    } else if 0 < s.next < |f.steps| && r.event == f.steps[s.next] {
      if r.at - s.startedAt <= f.withinMs {
        v := w + [|events|];
        WitnessExtended(f, events, w, r);
        forall k | w[0] < k < |more| ensures more[k].event != f.steps[0] {
          assert k < |events| ==> more[k] == events[k];
        }
        ChanceTaken(f, events, w, r);
      } else {
        v := [];
      }
    } else {
      v := w;
      if w != [] {
        forall k | w[0] < k <= Horizon(f, more, w) && k < |more| ensures more[k].event != f.steps[0] {
          assert k < |events| ==> more[k] == events[k];
        }
        ChanceStays(f, events, w, r);
      }
    }
  }

  lemma ChanceTaken(f: Definition, events: seq<Row>, w: seq<nat>, r: Row)
    requires w != [] && |w| < |f.steps| && w[|w| - 1] < |events| && AtFirstChance(f, events, w)
    requires forall i, j | 0 <= i < j < |w| :: w[i] < w[j]
    ensures AtFirstChance(f, events + [r], w + [|events|])
  {
    var more, v := events + [r], w + [|events|];
    forall j, k | 0 < j < |v| && v[j - 1] < k < v[j] && k < |more| ensures more[k].event != f.steps[j] {
      assert k < |events| && more[k] == events[k];
      assert j < |w| ==> v[j] == w[j];
    }
  }

  lemma ChanceStays(f: Definition, events: seq<Row>, w: seq<nat>, r: Row)
    requires w != [] && |w| <= |f.steps| && w[|w| - 1] < |events| && AtFirstChance(f, events, w)
    requires forall i, j | 0 <= i < j < |w| :: w[i] < w[j]
    requires |w| < |f.steps| ==> r.event != f.steps[|w|]
    ensures AtFirstChance(f, events + [r], w)
  {
    var more := events + [r];
    forall j, k | 0 < j < |w| && w[j - 1] < k < w[j] && k < |more| ensures more[k].event != f.steps[j] {
      assert w[j] <= w[|w| - 1];
      assert more[k] == events[k];
    }
    forall k | |w| < |f.steps| && w[|w| - 1] < k < |more| ensures more[k].event != f.steps[|w|] {
      assert k < |events| ==> more[k] == events[k];
    }
  }

  lemma {:induction false} ScanExplained(f: Definition, events: seq<Row>) returns (w: seq<nat>)
    requires DefinitionOk(f)
    ensures Explains(f, events, ScanAll(f, events), w)
    decreases |events|
  {
    if events == [] {
      w := [];
    } else {
      var n := |events| - 1;
      var v := ScanExplained(f, events[..n]);
      w := ExplainStep(f, events[..n], ScanAll(f, events[..n]), v, events[n]);
      assert events == events[..n] + [events[n]];
    }
  }

  /** Every subject counted for step `i` has events for the steps 0 to `i`, in row order, within the window. */
  lemma ReachedHasEvents(f: Definition, rows: seq<Row>, subject: string, i: nat) returns (w: seq<nat>)
    requires DefinitionOk(f) && subject in ReachedBy(f, rows, i)
    ensures |w| > i && IsWitness(f, RowsOf(rows, subject), w)
    ensures forall k | k in w :: RowsOf(rows, subject)[k] in rows && RowsOf(rows, subject)[k].subject == subject
  {
    w := ScanExplained(f, RowsOf(rows, subject));
    RowsOfMembers(rows, subject);
    forall k | k in w ensures RowsOf(rows, subject)[k] in rows && RowsOf(rows, subject)[k].subject == subject {
      assert RowsOf(rows, subject)[k] in RowsOf(rows, subject);
    }
  }

  lemma {:induction false} RowsOfMembers(rows: seq<Row>, subject: string)
    ensures forall r :: r in RowsOf(rows, subject) <==> r in rows && r.subject == subject
    decreases |rows|
  {
    if rows != [] {
      var n := |rows| - 1;
      RowsOfMembers(rows[..n], subject);
      assert rows == rows[..n] + [rows[n]];
    }
  }

  // ----- When a subject is converted -----

  predicate Timely(events: seq<Row>) {
    forall i, j | 0 <= i < j < |events| :: events[i].at <= events[j].at
  }

  /** All steps, in order, within the window, and no first-step event on the way. */
  predicate Uninterrupted(f: Definition, events: seq<Row>, w: seq<nat>)
    requires DefinitionOk(f)
  {
    IsWitness(f, events, w) && |w| == |f.steps| && NoRestart(f, events, w[0], w[|w| - 1])
  }

  /** The events contain such a passage. */
  ghost predicate Passes(f: Definition, events: seq<Row>)
    requires DefinitionOk(f)
  {
    exists w: seq<nat> :: Uninterrupted(f, events, w)
  }

  lemma ScanPrefix(f: Definition, events: seq<Row>, k: nat)
    requires DefinitionOk(f) && k < |events|
    ensures ScanAll(f, events[..k + 1]) == StepScan(f, ScanAll(f, events[..k]), events[k])
  {
    assert events[..k + 1] == events[..k] + [events[k]];
    ScanAppend(f, events[..k], events[k]);
  }

  /** A completed scan stays completed. */
  lemma {:induction false} CompleteStays(f: Definition, events: seq<Row>, k: nat)
    requires DefinitionOk(f) && k <= |events| && ScanAll(f, events[..k]).next == |f.steps|
    ensures ScanAll(f, events).next == |f.steps|
    decreases |events| - k
  {
    if k == |events| {
      assert events[..k] == events;
    } else {
      ScanPrefix(f, events, k);
      CompleteStays(f, events, k + 1);
    }
  }

  /** Before the end of an uninterrupted passage, every event comes in time. */
  lemma InTime(f: Definition, events: seq<Row>, w: seq<nat>, k: nat)
    requires DefinitionOk(f) && Timely(events) && Uninterrupted(f, events, w) && k <= w[|w| - 1]
    ensures k < |events| && events[k].at - events[w[0]].at <= f.withinMs
  {
    var last := w[|w| - 1];
    assert k < last ==> events[k].at <= events[last].at;
  }

  /** The scan is beyond step `j`, in the attempt that began at `start`, or complete. */
  predicate Ahead(f: Definition, s: Scan, j: nat, start: int) {
    s.next == |f.steps| || (j < s.next < |f.steps| && s.startedAt == start)
  }

  lemma AheadStep(f: Definition, s: Scan, r: Row, i: nat, j: nat, start: int)
    requires DefinitionOk(f) && Ahead(f, s, i, start) && r.event != f.steps[0] && r.at - start <= f.withinMs
    requires j == i || (j == i + 1 && j < |f.steps| && r.event == f.steps[j])
    ensures Ahead(f, StepScan(f, s, r), j, start)
  {
  }

  /** Along an uninterrupted passage, the scan is never behind. */
  lemma {:induction false} NeverBehind(f: Definition, events: seq<Row>, w: seq<nat>, k: nat, j: nat)
    requires DefinitionOk(f) && Timely(events) && Uninterrupted(f, events, w)
    requires j < |w| && w[0] <= w[j] <= k <= w[|w| - 1]
    ensures k < |events| && Ahead(f, ScanAll(f, events[..k + 1]), j, events[w[0]].at)
    decreases k
  {
    InTime(f, events, w, k);
    ScanPrefix(f, events, k);
    ScanBounded(f, events[..k]);
    assert j > 0 ==> w[0] < w[j];
    if k > w[0] {
      var i := if w[j] == k then j - 1 else j;
      assert w[0] <= w[i] < k;
      NeverBehind(f, events, w, k - 1, i);
      AheadStep(f, ScanAll(f, events[..k]), events[k], i, j, events[w[0]].at);
    }
  }

  lemma ExplainedIsUninterrupted(f: Definition, events: seq<Row>, s: Scan, w: seq<nat>)
    requires DefinitionOk(f) && Explains(f, events, s, w) && s.next == |f.steps|
    ensures Uninterrupted(f, events, w)
  {
  }

  lemma PassageCompletes(f: Definition, events: seq<Row>, w: seq<nat>)
    requires DefinitionOk(f) && Timely(events) && Uninterrupted(f, events, w)
    ensures ScanAll(f, events).next == |f.steps|
  {
    var last := |w| - 1;
    NeverBehind(f, events, w, w[last], last);
    CompleteStays(f, events, w[last] + 1);
  }

  /** A subject counts as converted exactly when it has an uninterrupted passage. */
  lemma CompleteExact(f: Definition, events: seq<Row>)
    requires DefinitionOk(f) && Timely(events)
    ensures ScanAll(f, events).next == |f.steps| <==> Passes(f, events)
  {
    if ScanAll(f, events).next == |f.steps| {
      var w := ScanExplained(f, events);
      ExplainedIsUninterrupted(f, events, ScanAll(f, events), w);
    }
    if Passes(f, events) {
      var w: seq<nat> :| Uninterrupted(f, events, w);
      PassageCompletes(f, events, w);
    }
  }

  lemma OrderedPrefix(rows: seq<Row>)
    requires Ordered(rows) && rows != []
    ensures Ordered(rows[..|rows| - 1])
  {
    var front := rows[..|rows| - 1];
    forall k | 0 < k < |front| ensures Opens(front, k) || Follows(front, k) {
      assert front[..k] == rows[..k];
      assert Opens(rows, k) || Follows(rows, k);
    }
  }

  lemma LastOfSubject(rows: seq<Row>)
    requires rows != []
    ensures var own := RowsOf(rows, rows[|rows| - 1].subject); own != [] && own[|own| - 1] == rows[|rows| - 1]
  {
  }

  lemma TimelyAppend(events: seq<Row>, r: Row)
    requires Timely(events) && (events == [] || events[|events| - 1].at <= r.at)
    ensures Timely(events + [r])
  {
  }

  lemma {:induction false} RowsOfTimely(rows: seq<Row>, subject: string)
    requires Ordered(rows)
    ensures Timely(RowsOf(rows, subject))
    decreases |rows|
  {
    if rows != [] {
      var n := |rows| - 1;
      var front := RowsOf(rows[..n], subject);
      OrderedPrefix(rows);
      RowsOfTimely(rows[..n], subject);
      assert front + [] == front;
      if rows[n].subject == subject {
        if n > 0 && Follows(rows, n) {
          LastOfSubject(rows[..n]);
        } else {
          RowsOfStranger(rows[..n], subject);
        }
        TimelyAppend(front, rows[n]);
      }
    }
  }

  /** The last count of the funnel is the number of subjects with an uninterrupted passage. */
  lemma ConvertedExact(f: Definition, rows: seq<Row>, subject: string)
    requires DefinitionOk(f) && Ordered(rows)
    ensures subject in ReachedBy(f, rows, |f.steps| - 1)
      <==> subject in Subjects(rows) && Passes(f, RowsOf(rows, subject))
  {
    RowsOfTimely(rows, subject);
    var events := RowsOf(rows, subject);
    CompleteExact(f, events);
    ScanBounded(f, events);
    var n: nat := |f.steps| - 1;
    assert subject in ReachedBy(f, rows, n) <==> subject in Subjects(rows) && ScanAll(f, events).next > n;
  }

  // ----- When a subject stands at a step -----

  /** An attempt that is still open: it began with the last first-step event, took every step within the window and at
      its first chance, and waits for the next one. */
  ghost predicate Stands(f: Definition, events: seq<Row>, w: seq<nat>)
    requires DefinitionOk(f)
  {
    && IsWitness(f, events, w) && |w| < |f.steps|
    && NoRestart(f, events, w[0], |events| - 1) && AtFirstChance(f, events, w)
  }

  predicate At(f: Definition, s: Scan, next: nat, start: int) {
    s.next == |f.steps| || s == Scan(next, start)
  }

  lemma AttemptBegins(f: Definition, events: seq<Row>, k: nat)
    requires DefinitionOk(f) && k < |events| && events[k].event == f.steps[0]
    ensures At(f, ScanAll(f, events[..k + 1]), 1, events[k].at)
  {
    ScanPrefix(f, events, k);
    ScanBounded(f, events[..k]);
  }

  /** Events that are none of the open attempt's leave it where it is. */
  lemma {:induction false} AttemptWaits(f: Definition, events: seq<Row>, a: nat, b: nat, next: nat, start: int)
    requires DefinitionOk(f) && 0 < next < |f.steps| && a <= b <= |events|
    requires forall k | a <= k < b :: events[k].event != f.steps[0] && events[k].event != f.steps[next]
    requires At(f, ScanAll(f, events[..a]), next, start)
    ensures At(f, ScanAll(f, events[..b]), next, start)
    decreases b
  {
    if a < b {
      AttemptWaits(f, events, a, b - 1, next, start);
      ScanPrefix(f, events, b - 1);
    }
  }

  /** A step taken in time. */
  lemma AttemptAdvances(f: Definition, events: seq<Row>, k: nat, next: nat, start: int)
    requires DefinitionOk(f) && 0 < next < |f.steps| && k < |events|
    requires events[k].event == f.steps[next] && events[k].at - start <= f.withinMs
    requires At(f, ScanAll(f, events[..k]), next, start)
    ensures At(f, ScanAll(f, events[..k + 1]), next + 1, start)
  {
    ScanPrefix(f, events, k);
    assert f.steps[next] != f.steps[0];
  }

  lemma StandingGap(f: Definition, events: seq<Row>, w: seq<nat>, j: nat, b: nat)
    requires DefinitionOk(f) && Stands(f, events, w) && j < |w|
    requires b == if j + 1 < |w| then w[j + 1] else |events|
    ensures w[j] < b <= |events|
    ensures forall k | w[j] + 1 <= k < b :: events[k].event != f.steps[0] && events[k].event != f.steps[j + 1]
  {
    forall k | w[j] + 1 <= k < b ensures events[k].event != f.steps[0] && events[k].event != f.steps[j + 1] {
      assert w[0] <= w[j];
      assert j + 1 < |w| ==> 0 < j + 1 < |w| && w[j] < k < w[j + 1];
    }
  }

  lemma StandingStep(f: Definition, events: seq<Row>, w: seq<nat>, j: nat)
    requires DefinitionOk(f) && Stands(f, events, w) && 0 < j < |w| && w[j - 1] < |events|
    requires At(f, ScanAll(f, events[..w[j - 1] + 1]), j, events[w[0]].at)
    ensures w[j] < |events| && At(f, ScanAll(f, events[..w[j] + 1]), j + 1, events[w[0]].at)
  {
    var start := events[w[0]].at;
    StandingGap(f, events, w, j - 1, w[j]);
    AttemptWaits(f, events, w[j - 1] + 1, w[j], j, start);
    assert events[w[j]].event == f.steps[j] && events[w[j]].at - start <= f.withinMs;
    AttemptAdvances(f, events, w[j], j, start);
  }

  /** While an attempt stands, the scan is exactly as far after each of its steps, unless it was complete before. */
  lemma {:induction false} StandingAt(f: Definition, events: seq<Row>, w: seq<nat>, j: nat)
    requires DefinitionOk(f) && Stands(f, events, w) && j < |w|
    ensures w[j] < |events| && At(f, ScanAll(f, events[..w[j] + 1]), j + 1, events[w[0]].at)
    decreases j
  {
    if j == 0 {
      AttemptBegins(f, events, w[0]);
    } else {
      StandingAt(f, events, w, j - 1);
      StandingStep(f, events, w, j);
    }
  }

  lemma StandingCounts(f: Definition, events: seq<Row>, w: seq<nat>)
    requires DefinitionOk(f) && Stands(f, events, w)
    ensures ScanAll(f, events).next >= |w|
  {
    var last: nat := |w| - 1;
    StandingAt(f, events, w, last);
    StandingGap(f, events, w, last, |events|);
    AttemptWaits(f, events, w[last] + 1, |events|, |w|, events[w[0]].at);
    assert events[..|events|] == events;
  }

  ghost predicate StandsBeyond(f: Definition, events: seq<Row>, i: nat)
    requires DefinitionOk(f)
  {
    exists w: seq<nat> :: Stands(f, events, w) && |w| > i
  }

  lemma CountedStands(f: Definition, events: seq<Row>, i: nat)
    requires DefinitionOk(f) && i < ScanAll(f, events).next < |f.steps|
    ensures StandsBeyond(f, events, i)
  {
    var w := ScanExplained(f, events);
    assert Stands(f, events, w);
  }

  /** A subject is counted for step `i` exactly when it has converted, or stands at that step or a later one. */
  lemma ReachedExact(f: Definition, rows: seq<Row>, subject: string, i: nat)
    requires DefinitionOk(f) && Ordered(rows) && i < |f.steps|
    ensures subject in ReachedBy(f, rows, i) <==>
      && subject in Subjects(rows)
      && (Passes(f, RowsOf(rows, subject)) || StandsBeyond(f, RowsOf(rows, subject), i))
  {
    var events := RowsOf(rows, subject);
    var s := ScanAll(f, events);
    RowsOfTimely(rows, subject);
    CompleteExact(f, events);
    ScanBounded(f, events);
    assert i < s.next < |f.steps| ==> StandsBeyond(f, events, i) by {
      if i < s.next < |f.steps| {
        CountedStands(f, events, i);
      }
    }
    forall w: seq<nat> | Stands(f, events, w) && |w| > i ensures s.next > i {
      StandingCounts(f, events, w);
    }
    assert subject in ReachedBy(f, rows, i) <==> subject in Subjects(rows) && s.next > i;
  }

  /** Events for all steps within the window are not enough: a second first-step event starts the scan again. */
  lemma RestartLosesProgress(subject: string)
    ensures var f := Definition(["visit", "signup", "pay"], 60_000);
            var events := [Row(subject, "visit", 0), Row(subject, "signup", 1), Row(subject, "visit", 2),
                           Row(subject, "pay", 3)];
            DefinitionOk(f) && IsWitness(f, events, [0, 1, 3]) && ScanAll(f, events).next == 1
  {
    var f := Definition(["visit", "signup", "pay"], 60_000);
    var events := [Row(subject, "visit", 0), Row(subject, "signup", 1), Row(subject, "visit", 2),
                   Row(subject, "pay", 3)];
    assert |f.steps[0]| == 5 && |f.steps[1]| == 6 && |f.steps[2]| == 3;
    assert events[..0] == [];
    ScanPrefix(f, events, 0);
    ScanPrefix(f, events, 1);
    ScanPrefix(f, events, 2);
    ScanPrefix(f, events, 3);
    assert events[..4] == events;
  }
}
