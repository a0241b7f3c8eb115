/** The sweep of `availableSlots`: sort, merge, and walk both lists once. */
module AvailabilitySweep {
  import opened Wrappers
  import opened Availability

  // ----- Sorting -----

  predicate Sorted(rows: seq<Window>) {
    forall i, j | 0 <= i < j < |rows| :: rows[i].startAt <= rows[j].startAt
  }

  function Insert(w: Window, rows: seq<Window>): seq<Window> {
    if rows == [] || w.startAt <= rows[0].startAt then [w] + rows else [rows[0]] + Insert(w, rows[1..])
  }

  function SortByStart(rows: seq<Window>): seq<Window> {
    if rows == [] then [] else Insert(rows[0], SortByStart(rows[1..]))
  }

  lemma {:induction false} InsertMembers(w: Window, rows: seq<Window>)
    ensures multiset(Insert(w, rows)) == multiset(rows) + multiset{w}
  {
    if rows != [] && rows[0].startAt < w.startAt {
      InsertMembers(w, rows[1..]);
      assert rows == [rows[0]] + rows[1..];
    }
  }

  lemma {:induction false} InsertSorted(w: Window, rows: seq<Window>)
    requires Sorted(rows)
    ensures Sorted(Insert(w, rows))
    ensures multiset(Insert(w, rows)) == multiset(rows) + multiset{w}
  {
    InsertMembers(w, rows);
    if rows != [] && rows[0].startAt < w.startAt {
      InsertSorted(w, rows[1..]);
      var r := Insert(w, rows[1..]);
      forall j | 0 <= j < |r| ensures rows[0].startAt <= r[j].startAt {
        assert r[j] in multiset(r);
      }
    }
  }

  lemma {:induction false} SortByStartSorted(rows: seq<Window>)
    ensures Sorted(SortByStart(rows)) && multiset(SortByStart(rows)) == multiset(rows)
  {
    if rows != [] {
      SortByStartSorted(rows[1..]);
      InsertSorted(rows[0], SortByStart(rows[1..]));
      assert rows == [rows[0]] + rows[1..];
    }
  }

  // ----- Merging -----

  predicate Proper(rows: seq<Window>) {
    forall i | 0 <= i < |rows| :: rows[i].startAt < rows[i].endAt
  }

  predicate Separated(rows: seq<Window>) {
    forall i, j | 0 <= i < j < |rows| :: rows[i].endAt < rows[j].startAt
  }

  lemma CoveredSnoc(rows: seq<Window>, w: Window)
    ensures forall t :: Covered(rows + [w], t) <==> Covered(rows, t) || Contains(w, t)
  {
    forall t ensures Covered(rows + [w], t) <==> Covered(rows, t) || Contains(w, t) {
      if Covered(rows, t) {
        var i :| 0 <= i < |rows| && Contains(rows[i], t);
        assert Contains((rows + [w])[i], t);
      }
      if Contains(w, t) {
        assert Contains((rows + [w])[|rows|], t);
      }
    }
  }

  /** The last merged window, extended to take in a row that touches it. */
  function Extend(last: Window, row: Window): Window {
    last.(endAt := if last.endAt >= row.endAt then last.endAt else row.endAt)
  }

  lemma ExtendCover(merged: seq<Window>, row: Window)
    requires merged != [] && merged[|merged| - 1].startAt <= row.startAt <= merged[|merged| - 1].endAt
    ensures var n := |merged| - 1;
            forall t :: Covered(merged[n := Extend(merged[n], row)], t) <==> Covered(merged, t) || Contains(row, t)
  {
    var n := |merged| - 1;
    var front := merged[..n];
    CoveredSnoc(front, merged[n]);
    CoveredSnoc(front, Extend(merged[n], row));
    assert merged == front + [merged[n]];
    assert merged[n := Extend(merged[n], row)] == front + [Extend(merged[n], row)];
  }

  method Merge(sorted: seq<Window>) returns (merged: seq<Window>)
    requires Sorted(sorted) && Proper(sorted)
    ensures Separated(merged) && Proper(merged)
    ensures SameCover(merged, sorted)
  {
    merged := [];
    for i := 0 to |sorted|
      invariant Separated(merged) && Proper(merged)
      invariant SameCover(merged, sorted[..i])
      invariant merged != [] ==> forall j | i <= j < |sorted| :: merged[|merged| - 1].startAt <= sorted[j].startAt
    {
      var row, n := sorted[i], |merged| - 1;
      CoveredSnoc(sorted[..i], row);
      assert sorted[..i + 1] == sorted[..i] + [row];
      if merged != [] && row.startAt <= merged[n].endAt {
        ExtendCover(merged, row);
        merged := merged[n := Extend(merged[n], row)];
      } else {
        CoveredSnoc(merged, row);
        merged := merged + [row];
      }
    }
    assert sorted[..|sorted|] == sorted;
  }

  /** In a separated list an instant just before or after a window is not covered. */
  lemma EdgesUncovered(merged: seq<Window>, i: nat)
    requires Separated(merged) && Proper(merged) && i < |merged|
    ensures !Covered(merged, merged[i].startAt - 1) && !Covered(merged, merged[i].endAt)
  {
  }

  /** The runs of a separated list are its windows. */
  lemma RunsAreWindows(merged: seq<Window>, a: int, e: int)
    requires Separated(merged) && Proper(merged)
    ensures IsRun(merged, a, e) <==> exists i :: 0 <= i < |merged| && merged[i] == Window(a, e)
  {
    if IsRun(merged, a, e) {
      assert Covered(merged, a);
      var i :| 0 <= i < |merged| && Contains(merged[i], a);
      var w := merged[i];
      EdgesUncovered(merged, i);
      assert w.startAt < a ==> Contains(w, a - 1);
      assert e < w.endAt ==> Contains(w, e);
      assert w == Window(a, e);
    }
    if i :| 0 <= i < |merged| && merged[i] == Window(a, e) {
      EdgesUncovered(merged, i);
      assert forall t | a <= t < e :: Contains(merged[i], t);
    }
  }

  // ----- Blocked intervals -----

  function Widen(rows: seq<Window>, buffer: int): (r: seq<Window>)
    ensures |r| == |rows|
    ensures forall i | 0 <= i < |rows| :: r[i] == Window(rows[i].startAt - buffer, rows[i].endAt + buffer)
  {
    seq(|rows|, i requires 0 <= i < |rows| => Window(rows[i].startAt - buffer, rows[i].endAt + buffer))
  }

  predicate Misses(b: seq<Window>, s: int, e: int) {
    forall i | 0 <= i < |b| :: b[i].endAt <= s || e <= b[i].startAt
  }

  lemma MissesByInstants(b: seq<Window>, s: int, e: int)
    requires s < e && Proper(b)
    ensures Misses(b, s, e) <==> forall t | s <= t < e :: !Covered(b, t)
  {
    if !Misses(b, s, e) {
      var i :| 0 <= i < |b| && !(b[i].endAt <= s || e <= b[i].startAt);
      var t := if b[i].startAt <= s then s else b[i].startAt;
      assert s <= t < e && Contains(b[i], t);
      assert Covered(b, t);
    }
  }

  // ----- Grid arithmetic -----

  /** Math.ceil(x / y) */
  function Ceil(x: int, y: int): int
    requires y > 0
  {
    -((-x) / y)
  }

  lemma CeilBounds(x: int, y: int)
    requires y > 0
    ensures (Ceil(x, y) - 1) * y < x <= Ceil(x, y) * y
  {
  }

  /** The first point of the grid anchored at `a` that is not before `from`. */
  function First(a: int, from: int, step: int): int
    requires step > 0
  {
    a + (if Ceil(from - a, step) > 0 then Ceil(from - a, step) else 0) * step
  }

  predicate OnGrid(a: int, s: int, step: int)
    requires step > 0
  {
    a <= s && (s - a) % step == 0
  }

  lemma MultipleBounds(x: int, step: int)
    requires step > 0
    ensures x >= 1 ==> x * step >= step
    ensures x <= -1 ==> x * step <= -step
  {
  }

  lemma MultipleIsMod(k: int, step: int)
    requires step > 0
    ensures (k * step) % step == 0
  {
    var q, r := (k * step) / step, (k * step) % step;
    assert k * step == q * step + r;
    assert (k - q) * step == r;
    MultipleBounds(k - q, step);
  }

  lemma GridApart(a: int, s: int, t: int, step: int)
    requires step > 0 && OnGrid(a, s, step) && OnGrid(a, t, step) && s < t
    ensures s + step <= t
  {
    var m, n := (s - a) / step, (t - a) / step;
    assert s - a == m * step && t - a == n * step;
    assert (n - m) * step == t - s;
    MultipleBounds(n - m, step);
    MultipleBounds(m - n, step);
    assert (m - n) * step == s - t;
  }

  lemma NextOnGrid(a: int, s: int, step: int)
    requires step > 0 && OnGrid(a, s, step)
    ensures OnGrid(a, s + step, step)
  {
    var m := (s - a) / step;
    assert s + step - a == (m + 1) * step;
    MultipleIsMod(m + 1, step);
  }

  lemma FirstIsFirst(a: int, from: int, step: int)
    requires step > 0
    ensures OnGrid(a, First(a, from, step), step) && from <= First(a, from, step)
    ensures forall s | OnGrid(a, s, step) && from <= s :: First(a, from, step) <= s
  {
    var c := Ceil(from - a, step);
    var k := if c > 0 then c else 0;
    CeilBounds(from - a, step);
    MultipleIsMod(k, step);
    assert 0 <= k * step;
    forall s | OnGrid(a, s, step) && from <= s ensures First(a, from, step) <= s {
      assert (c - 1) * step == c * step - step;
      if s < First(a, from, step) {
        GridApart(a, s, First(a, from, step), step);
      }
    }
  }

  // ----- The sweep -----

  /** What the sweep works on: the merged windows and blocked intervals. */
  datatype Plan = Plan(windows: seq<Window>, blocked: seq<Window>, from: int, to: int, duration: int, step: int)

  ghost predicate PlanOk(p: Plan) {
    && Separated(p.windows) && Proper(p.windows) && Separated(p.blocked) && Proper(p.blocked)
    && p.duration > 0 && p.step > 0
  }

  /** `s` is on the grid of window `i` and fits. */
  ghost predicate Fits(p: Plan, i: nat, s: int)
    requires p.step > 0 && i < |p.windows|
  {
    && OnGrid(p.windows[i].startAt, s, p.step)
    && p.from <= s && s + p.duration <= p.to && s + p.duration <= p.windows[i].endAt
  }

  ghost predicate SlotAt(p: Plan, i: nat, s: int)
    requires p.step > 0 && i < |p.windows|
  {
    Fits(p, i, s) && Misses(p.blocked, s, s + p.duration)
  }

  ghost predicate IsPlanSlot(p: Plan, s: int)
    requires p.step > 0
  {
    exists i :: 0 <= i < |p.windows| && SlotAt(p, i, s)
  }

  /** The slots found are exactly those of the first `n` windows, and of window `n` before `start`. */
  ghost predicate Found(p: Plan, slots: seq<Window>, n: nat, start: int)
    requires p.step > 0 && n <= |p.windows|
  {
    && Increasing(slots)
    && (forall k | 0 <= k < |slots| ::
          slots[k].endAt == slots[k].startAt + p.duration && IsPlanSlot(p, slots[k].startAt))
    && (forall i, s | 0 <= i < n && SlotAt(p, i, s) :: StartsAt(slots, s))
    && (n < |p.windows| ==> After(slots, start) && forall s | SlotAt(p, n, s) && s < start :: StartsAt(slots, s))
  }

  /** Every blocked interval before the cursor ends by `start`. */
  predicate Passed(b: seq<Window>, cursor: nat, start: int)
    requires cursor <= |b|
  {
    forall j | 0 <= j < cursor :: b[j].endAt <= start
  }

  method Advance(b: seq<Window>, cursor: nat, start: int) returns (next: nat)
    requires cursor <= |b| && Passed(b, cursor, start)
    ensures cursor <= next <= |b| && Passed(b, next, start)
    ensures next < |b| ==> b[next].endAt > start
  {
    next := cursor;
    while next < |b| && b[next].endAt <= start
      invariant cursor <= next <= |b| && Passed(b, next, start)
    {
      next := next + 1;
    }
  }

  /** Only the interval at the cursor can hit the candidate. */
  lemma CursorDecides(b: seq<Window>, cursor: nat, s: int, e: int)
    requires s < e && cursor <= |b| && Separated(b) && Proper(b) && Passed(b, cursor, s)
    requires cursor < |b| ==> b[cursor].endAt > s
    ensures Misses(b, s, e) <==> !(cursor < |b| && b[cursor].startAt < e)
  {
  }

  lemma StartsAtSnoc(slots: seq<Window>, w: Window)
    ensures forall s :: StartsAt(slots + [w], s) <==> StartsAt(slots, s) || s == w.startAt
  {
    forall s ensures StartsAt(slots + [w], s) <==> StartsAt(slots, s) || s == w.startAt {
      if StartsAt(slots, s) {
        var i :| 0 <= i < |slots| && slots[i].startAt == s;
        assert (slots + [w])[i].startAt == s;
      }
      assert (slots + [w])[|slots|] == w;
    }
  }

  /** No slot of a window lies strictly between two neighbouring grid points. */
  lemma NothingSkipped(p: Plan, i: nat, start: int, s: int)
    requires p.step > 0 && i < |p.windows| && OnGrid(p.windows[i].startAt, start, p.step)
    requires SlotAt(p, i, s) && s < start + p.step
    ensures s <= start
  {
    if start < s {
      GridApart(p.windows[i].startAt, start, s, p.step);
    }
  }

  lemma FoundSkip(p: Plan, slots: seq<Window>, i: nat, start: int)
    requires PlanOk(p) && i < |p.windows| && Found(p, slots, i, start)
    requires OnGrid(p.windows[i].startAt, start, p.step) && !SlotAt(p, i, start)
    ensures Found(p, slots, i, start + p.step)
  {
    forall s | SlotAt(p, i, s) && s < start + p.step ensures StartsAt(slots, s) {
      NothingSkipped(p, i, start, s);
    }
  }

  lemma FoundPush(p: Plan, slots: seq<Window>, i: nat, start: int)
    requires PlanOk(p) && i < |p.windows| && Found(p, slots, i, start)
    requires OnGrid(p.windows[i].startAt, start, p.step) && SlotAt(p, i, start)
    ensures Found(p, slots + [Window(start, start + p.duration)], i, start + p.step)
  {
    StartsAtSnoc(slots, Window(start, start + p.duration));
    forall s | SlotAt(p, i, s) && s < start + p.step
      ensures StartsAt(slots + [Window(start, start + p.duration)], s)
    {
      NothingSkipped(p, i, start, s);
    }
  }

  /** A window is done when its next grid point does not fit; all its slots lie before the next window. */
  lemma FoundWindow(p: Plan, slots: seq<Window>, i: nat, start: int)
    requires PlanOk(p) && i < |p.windows| && Found(p, slots, i, start)
    requires p.from <= start && !(start + p.duration <= p.to && start + p.duration <= p.windows[i].endAt)
    requires forall k | 0 <= k < |slots| :: slots[k].startAt < p.windows[i].endAt
    ensures i + 1 < |p.windows| ==>
      Found(p, slots, i + 1, First(p.windows[i + 1].startAt, p.from, p.step))
    ensures i + 1 == |p.windows| ==> Found(p, slots, i + 1, 0)
  {
    if i + 1 < |p.windows| {
      FirstIsFirst(p.windows[i + 1].startAt, p.from, p.step);
    }
  }

  lemma FoundNothing(p: Plan)
    requires PlanOk(p)
    ensures |p.windows| > 0 ==> Found(p, [], 0, First(p.windows[0].startAt, p.from, p.step))
    ensures |p.windows| == 0 ==> Found(p, [], 0, 0)
  {
    if |p.windows| > 0 {
      FirstIsFirst(p.windows[0].startAt, p.from, p.step);
    }
  }

  /** Walks one window; stops with `full` when a further slot would exceed the limit. */
  method SweepWindow(p: Plan, i: nat, found: seq<Window>, cursor: nat, limit: nat)
    returns (slots: seq<Window>, next: nat, full: bool, ghost last: int)
    requires PlanOk(p) && i < |p.windows| && |found| <= limit
    requires Found(p, found, i, First(p.windows[i].startAt, p.from, p.step))
    requires forall k | 0 <= k < |found| :: found[k].startAt < p.windows[i].startAt
    requires cursor <= |p.blocked| && Passed(p.blocked, cursor, p.windows[i].startAt)
    ensures |slots| <= limit && Found(p, slots, i, last)
    ensures full ==> |slots| == limit && IsPlanSlot(p, last) && last < p.windows[i].endAt
    ensures !full ==>
      && p.from <= last && !(last + p.duration <= p.to && last + p.duration <= p.windows[i].endAt)
      && (forall k | 0 <= k < |slots| :: slots[k].startAt < p.windows[i].endAt)
      && next <= |p.blocked| && Passed(p.blocked, next, p.windows[i].endAt)
  {
    var window := p.windows[i];
    var end := if window.endAt <= p.to then window.endAt else p.to;
    var start := First(window.startAt, p.from, p.step);
    FirstIsFirst(window.startAt, p.from, p.step);
    slots, next := found, cursor;
    while start + p.duration <= end
      invariant p.from <= start && OnGrid(window.startAt, start, p.step)
      invariant |slots| <= limit && Found(p, slots, i, start)
      invariant next <= |p.blocked| && Passed(p.blocked, next, start) && Passed(p.blocked, next, window.endAt)
      invariant forall k | 0 <= k < |slots| :: slots[k].startAt < window.endAt
      decreases end - start
    {
      next := Advance(p.blocked, next, start);
      CursorDecides(p.blocked, next, start, start + p.duration);
      NextOnGrid(window.startAt, start, p.step);
      if next < |p.blocked| && p.blocked[next].startAt < start + p.duration {
        FoundSkip(p, slots, i, start);
      } else {
        assert SlotAt(p, i, start);
        if |slots| == limit {
          return slots, next, true, start;
        }
        FoundPush(p, slots, i, start);
        slots := slots + [Window(start, start + p.duration)];
      }
      start := start + p.step;
    }
    return slots, next, false, start;
  }

  method SweepAll(p: Plan, limit: nat) returns (r: Answer)
    requires PlanOk(p)
    ensures Increasing(r.slots) && |r.slots| <= limit
    ensures forall k | 0 <= k < |r.slots| ::
              r.slots[k].endAt == r.slots[k].startAt + p.duration && IsPlanSlot(p, r.slots[k].startAt)
    ensures !r.truncated ==> forall s | IsPlanSlot(p, s) :: StartsAt(r.slots, s)
    ensures r.truncated ==> |r.slots| == limit && exists s :: Stopped(p, r.slots, s)
  {
    var slots: seq<Window>, cursor: nat := [], 0;
    FoundNothing(p);
    for i := 0 to |p.windows|
      invariant |slots| <= limit && cursor <= |p.blocked|
      invariant Found(p, slots, i, if i < |p.windows| then First(p.windows[i].startAt, p.from, p.step) else 0)
      invariant i < |p.windows| ==>
        && (forall k | 0 <= k < |slots| :: slots[k].startAt < p.windows[i].startAt)
        && Passed(p.blocked, cursor, p.windows[i].startAt)
    {
      var full: bool;
      ghost var last: int;
      slots, cursor, full, last := SweepWindow(p, i, slots, cursor, limit);
      if full {
        FoundPrefix(p, slots, i, last);
        return Answer(slots, true);
      }
      FoundWindow(p, slots, i, last);
    }
    return Answer(slots, false);
  }

  /** The sweep stopped at slot `s`: it and only later slots are missing. */
  ghost predicate Stopped(p: Plan, slots: seq<Window>, s: int)
    requires p.step > 0
  {
    && IsPlanSlot(p, s) && After(slots, s)
    && forall t | IsPlanSlot(p, t) :: StartsAt(slots, t) || s <= t
  }

  lemma FoundPrefix(p: Plan, slots: seq<Window>, n: nat, last: int)
    requires PlanOk(p) && n < |p.windows| && Found(p, slots, n, last)
    requires IsPlanSlot(p, last) && last < p.windows[n].endAt
    ensures Stopped(p, slots, last)
  {
    forall t | IsPlanSlot(p, t) ensures StartsAt(slots, t) || last <= t {
      var i :| 0 <= i < |p.windows| && SlotAt(p, i, t);
    }
  }

  // ----- The whole calculation -----

  lemma PlanMatches(windows: seq<Window>, o: SlotOptions, p: Plan)
    requires BoundsOk(windows, o) && AllValid(o.Blocked()) && PlanOk(p)
    requires SameCover(p.windows, windows) && SameCover(p.blocked, Widen(o.Blocked(), o.Buffer()))
    requires p.from == o.startAt && p.to == o.endAt && p.duration == o.Duration() && p.step == o.Step()
    ensures forall s :: IsSlot(windows, o, s) <==> IsPlanSlot(p, s)
  {
    forall s ensures IsSlot(windows, o, s) <==> IsPlanSlot(p, s) {
      MissesByInstants(Widen(o.Blocked(), o.Buffer()), s, s + p.duration);
      MissesByInstants(p.blocked, s, s + p.duration);
      forall a, e ensures IsRun(windows, a, e) <==> exists i :: 0 <= i < |p.windows| && p.windows[i] == Window(a, e) {
        RunsAreWindows(p.windows, a, e);
      }
      if IsPlanSlot(p, s) {
        var i :| 0 <= i < |p.windows| && SlotAt(p, i, s);
        var w := p.windows[i];
        assert w == Window(w.startAt, w.endAt);
        assert InRun(windows, o, w.startAt, w.endAt, s);
      }
      if IsSlot(windows, o, s) {
        var a, e :| InRun(windows, o, a, e, s);
        var i :| 0 <= i < |p.windows| && p.windows[i] == Window(a, e);
        assert SlotAt(p, i, s);
      }
    }
  }

  lemma SortedCover(rows: seq<Window>)
    requires Proper(rows)
    ensures SameCover(SortByStart(rows), rows) && Proper(SortByStart(rows)) && Sorted(SortByStart(rows))
  {
    SortByStartSorted(rows);
    ReorderedCover(SortByStart(rows), rows);
    forall i | 0 <= i < |SortByStart(rows)|
      ensures SortByStart(rows)[i].startAt < SortByStart(rows)[i].endAt
    {
      assert SortByStart(rows)[i] in multiset(SortByStart(rows));
      assert SortByStart(rows)[i] in rows;
    }
  }

  /** The first `limit` slots, in order, and whether more exist; malformed requests are rejected. */
  method AvailableSlots(windows: seq<Window>, o: SlotOptions) returns (r: Result<Answer, string>)
    ensures r.Ok? <==> Accepted(windows, o)
    ensures r.Ok? ==> IsAnswer(windows, o, r.value)
  {
    if !BoundsOk(windows, o) {
      return Err("Invalid availability slot bounds.");
    }
    if !AllValid(windows) || !AllValid(o.Blocked()) {
      return Err("Window end must follow its start.");
    }
    SortedCover(windows);
    var merged := Merge(SortByStart(windows));
    var wide := Widen(o.Blocked(), o.Buffer());
    SortedCover(wide);
    var blocked := Merge(SortByStart(wide));
    var p := Plan(merged, blocked, o.startAt, o.endAt, o.Duration(), o.Step());
    assert forall t :: Covered(merged, t) <==> Covered(windows, t);
    assert forall t :: Covered(blocked, t) <==> Covered(wide, t);
    PlanMatches(windows, o, p);
    var answer := SweepAll(p, o.Limit());
    assert answer.truncated ==> forall s | IsSlot(windows, o, s) ::
      StartsAt(answer.slots, s) || After(answer.slots, s) by {
      StoppedIsTruncated(p, answer);
    }
    return Ok(answer);
  }

  lemma StoppedIsTruncated(p: Plan, r: Answer)
    requires p.step > 0 && (r.truncated ==> exists s :: Stopped(p, r.slots, s))
    ensures r.truncated ==> forall s | IsPlanSlot(p, s) :: StartsAt(r.slots, s) || After(r.slots, s)
  {
  }
}
