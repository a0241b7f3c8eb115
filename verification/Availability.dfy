/** Slot calculation, `availableSlots` in src/availability.ts.  Times are whole milliseconds. */
module Availability {
  import opened Wrappers

  datatype Window = Window(startAt: int, endAt: int)

  datatype SlotOptions = SlotOptions(
    startAt: int, endAt: int, durationMinutes: int, stepMinutes: Option<int>, bufferMinutes: Option<int>,
    blocked: Option<seq<Window>>, limit: Option<int>)
  {
    function Or<T>(value: Option<T>, fallback: T): T {
      if value.Some? then value.value else fallback
    }

    function Duration(): int { durationMinutes * MINUTE }
    function Step(): int { Or(stepMinutes, durationMinutes) * MINUTE }
    function Buffer(): int { Or(bufferMinutes, 0) * MINUTE }
    function Blocked(): seq<Window> { Or(blocked, []) }
    function Limit(): int { Or(limit, 1000) }
  }

  const MINUTE: int := 60_000
  const DAY: int := 86_400_000
  const LAST_TIMESTAMP: int := 4_102_444_800_000

  predicate ValidWindow(startAt: int, endAt: int) {
    1 <= startAt <= LAST_TIMESTAMP && 1 <= endAt <= LAST_TIMESTAMP && startAt < endAt
  }

  predicate AllValid(windows: seq<Window>) {
    forall i | 0 <= i < |windows| :: ValidWindow(windows[i].startAt, windows[i].endAt)
  }

  predicate BoundsOk(windows: seq<Window>, o: SlotOptions) {
    && ValidWindow(o.startAt, o.endAt)
    && |windows| <= 1000 && |o.Blocked()| <= 1000
    && o.endAt - o.startAt <= 31 * DAY
    && 1 <= o.durationMinutes <= 1440 && 1 <= o.Or(o.stepMinutes, o.durationMinutes) <= 1440
    && 0 <= o.Or(o.bufferMinutes, 0) <= 1440
    && 1 <= o.Limit() <= 5000
  }

  /** The inputs `availableSlots` does not reject. */
  predicate Accepted(windows: seq<Window>, o: SlotOptions) {
    BoundsOk(windows, o) && AllValid(windows) && AllValid(o.Blocked())
  }

  // ----- Specification -----

  predicate Contains(w: Window, t: int) {
    w.startAt <= t < w.endAt
  }

  predicate Covered(windows: seq<Window>, t: int) {
    exists i | 0 <= i < |windows| :: Contains(windows[i], t)
  }

  /** A maximal union of touching windows, as an interval of instants. */
  ghost predicate IsRun(windows: seq<Window>, a: int, e: int) {
    && a < e
    && (forall t | a <= t < e :: Covered(windows, t))
    && !Covered(windows, a - 1)
    && !Covered(windows, e)
  }

  /** The half-open interval misses every blocked interval, widened by the buffer on both sides. */
  predicate Free(blocked: seq<Window>, buffer: int, s: int, e: int) {
    forall i | 0 <= i < |blocked| :: blocked[i].endAt + buffer <= s || e <= blocked[i].startAt - buffer
  }

  /** `s` starts a slot: on the grid of its run, inside the run and the request, and free. */
  ghost predicate IsSlot(windows: seq<Window>, o: SlotOptions, s: int)
    requires o.Step() > 0
  {
    && o.startAt <= s && s + o.Duration() <= o.endAt
    && Free(o.Blocked(), o.Buffer(), s, s + o.Duration())
    && exists a, e :: InRun(windows, o, a, e, s)
  }

  ghost predicate InRun(windows: seq<Window>, o: SlotOptions, a: int, e: int, s: int)
    requires o.Step() > 0
  {
    IsRun(windows, a, e) && a <= s && s + o.Duration() <= e && (s - a) % o.Step() == 0
  }

  predicate StartsAt(slots: seq<Window>, s: int) {
    exists i | 0 <= i < |slots| :: slots[i].startAt == s
  }

  predicate Increasing(slots: seq<Window>) {
    forall i, j | 0 <= i < j < |slots| :: slots[i].startAt < slots[j].startAt
  }

  predicate After(slots: seq<Window>, s: int) {
    forall i | 0 <= i < |slots| :: slots[i].startAt < s
  }

  datatype Answer = Answer(slots: seq<Window>, truncated: bool)

  /** The first `limit` slots in increasing order, and whether there are more. */
  ghost predicate IsAnswer(windows: seq<Window>, o: SlotOptions, r: Answer)
    requires o.Step() > 0
  {
    && Increasing(r.slots)
    && |r.slots| <= o.Limit()
    && (forall i | 0 <= i < |r.slots| ::
          r.slots[i].endAt == r.slots[i].startAt + o.Duration() && IsSlot(windows, o, r.slots[i].startAt))
    && (forall s | IsSlot(windows, o, s) :: StartsAt(r.slots, s) || (r.truncated && After(r.slots, s)))
    && (r.truncated ==> |r.slots| == o.Limit() && exists s :: IsSlot(windows, o, s) && After(r.slots, s))
  }

  // ----- The answer is determined by what is covered and what is blocked -----

  ghost predicate SameSlots(v: seq<Window>, o: SlotOptions, w: seq<Window>, p: SlotOptions)
    requires o.Step() > 0 && p.Step() > 0
  {
    forall s :: IsSlot(v, o, s) <==> IsSlot(w, p, s)
  }

  /** A slot that agrees with an answer up to place `i` cannot come before the answer's own slot there. */
  lemma StartNotBefore(w: seq<Window>, p: SlotOptions, r: Answer, q: seq<Window>, i: nat)
    requires p.Step() > 0 && IsAnswer(w, p, r) && Increasing(q) && i < |q| && i < |r.slots|
    requires forall j | 0 <= j < i :: q[j].startAt == r.slots[j].startAt
    requires IsSlot(w, p, q[i].startAt)
    ensures q[i].startAt >= r.slots[i].startAt
  {
    if StartsAt(r.slots, q[i].startAt) {
      var k :| 0 <= k < |r.slots| && r.slots[k].startAt == q[i].startAt;
      assert k >= i;
    }
  }

  lemma {:induction false} AnswerPrefixUnique(
    v: seq<Window>, o: SlotOptions, q: Answer, w: seq<Window>, p: SlotOptions, r: Answer, i: nat)
    requires o.Step() > 0 && p.Step() > 0 && SameSlots(v, o, w, p)
    requires IsAnswer(v, o, q) && IsAnswer(w, p, r)
    requires i < |q.slots| && i < |r.slots|
    ensures q.slots[i].startAt == r.slots[i].startAt
    decreases i
  {
    forall j | 0 <= j < i ensures q.slots[j].startAt == r.slots[j].startAt {
      AnswerPrefixUnique(v, o, q, w, p, r, j);
    }
    assert IsSlot(w, p, q.slots[i].startAt) && IsSlot(v, o, r.slots[i].startAt);
    StartNotBefore(w, p, r, q.slots, i);
    StartNotBefore(v, o, q, r.slots, i);
  }

  lemma AnswerNotShorter(
    v: seq<Window>, o: SlotOptions, q: Answer, w: seq<Window>, p: SlotOptions, r: Answer)
    requires o.Step() > 0 && p.Step() > 0 && SameSlots(v, o, w, p) && o.Limit() == p.Limit()
    requires IsAnswer(v, o, q) && IsAnswer(w, p, r)
    ensures |r.slots| <= |q.slots|
  {
    if |q.slots| < |r.slots| {
      var n := |q.slots|;
      var s := r.slots[n].startAt;
      assert IsSlot(v, o, s);
      if StartsAt(q.slots, s) {
        var k :| 0 <= k < n && q.slots[k].startAt == s;
        AnswerPrefixUnique(v, o, q, w, p, r, k);
      }
    }
  }

  lemma AnswerTruncatedUnique(
    v: seq<Window>, o: SlotOptions, q: Answer, w: seq<Window>, p: SlotOptions, r: Answer)
    requires o.Step() > 0 && p.Step() > 0 && SameSlots(v, o, w, p)
    requires IsAnswer(v, o, q) && IsAnswer(w, p, r)
    requires |q.slots| == |r.slots| && forall i | 0 <= i < |q.slots| :: q.slots[i].startAt == r.slots[i].startAt
    ensures q.truncated ==> r.truncated
  {
    if q.truncated {
      var s :| IsSlot(v, o, s) && After(q.slots, s);
      assert IsSlot(w, p, s);
      assert !StartsAt(r.slots, s);
    }
  }

  /** Two requests with the same slots, durations and limit have the same answer. */
  lemma AnswerUnique(v: seq<Window>, o: SlotOptions, q: Answer, w: seq<Window>, p: SlotOptions, r: Answer)
    requires o.Step() > 0 && p.Step() > 0 && SameSlots(v, o, w, p)
    requires o.Limit() == p.Limit() && o.Duration() == p.Duration()
    requires IsAnswer(v, o, q) && IsAnswer(w, p, r)
    ensures q == r
  {
    AnswerNotShorter(v, o, q, w, p, r);
    forall s ensures IsSlot(w, p, s) <==> IsSlot(v, o, s) {}
    AnswerNotShorter(w, p, r, v, o, q);
    forall i | 0 <= i < |q.slots| ensures q.slots[i] == r.slots[i] {
      AnswerPrefixUnique(v, o, q, w, p, r, i);
    }
    AnswerTruncatedUnique(v, o, q, w, p, r);
    AnswerTruncatedUnique(w, p, r, v, o, q);
    assert q.slots == r.slots;
  }

  ghost predicate SameCover(v: seq<Window>, w: seq<Window>) {
    forall t :: Covered(v, t) <==> Covered(w, t)
  }

  /** An interval is free exactly when no instant of it, widened by the buffer, is blocked. */
  lemma FreeByInstants(blocked: seq<Window>, buffer: int, s: int, e: int)
    requires AllValid(blocked) && buffer >= 0 && s < e
    ensures Free(blocked, buffer, s, e) <==> forall t | s - buffer <= t < e + buffer :: !Covered(blocked, t)
  {
    forall i | 0 <= i < |blocked| && !(blocked[i].endAt + buffer <= s || e <= blocked[i].startAt - buffer)
      ensures exists t :: s - buffer <= t < e + buffer && Covered(blocked, t)
    {
      var b := blocked[i];
      assert ValidWindow(b.startAt, b.endAt);
      var t := if b.startAt >= s - buffer then b.startAt else s - buffer;
      assert Contains(blocked[i], t) && Covered(blocked, t);
    }
    if Free(blocked, buffer, s, e) {
      forall t | s - buffer <= t < e + buffer ensures !Covered(blocked, t) {}
    }
  }

  lemma SameFree(o: SlotOptions, p: SlotOptions, s: int, e: int)
    requires AllValid(o.Blocked()) && AllValid(p.Blocked()) && SameCover(o.Blocked(), p.Blocked())
    requires o.Buffer() == p.Buffer() >= 0 && s < e
    ensures Free(o.Blocked(), o.Buffer(), s, e) <==> Free(p.Blocked(), p.Buffer(), s, e)
  {
    FreeByInstants(o.Blocked(), o.Buffer(), s, e);
    FreeByInstants(p.Blocked(), p.Buffer(), s, e);
  }

  /** The answer depends only on which instants the windows cover and which the blocked intervals cover: not on their
      order, nor on how a stretch of time is cut into touching or overlapping pieces. */
  lemma AnswerDependsOnCover(v: seq<Window>, w: seq<Window>, o: SlotOptions, p: SlotOptions, q: Answer, r: Answer)
    requires Accepted(v, o) && Accepted(w, p) && p == o.(blocked := p.blocked)
    requires SameCover(v, w) && SameCover(o.Blocked(), p.Blocked())
    requires IsAnswer(v, o, q) && IsAnswer(w, p, r)
    ensures q == r
  {
    forall s ensures IsSlot(v, o, s) <==> IsSlot(w, p, s) {
      SameFree(o, p, s, s + o.Duration());
      forall a, e ensures InRun(v, o, a, e, s) <==> InRun(w, p, a, e, s) {
        assert IsRun(v, a, e) <==> IsRun(w, a, e);
      }
    }
    AnswerUnique(v, o, q, w, p, r);
  }

  lemma ReorderedCover(v: seq<Window>, w: seq<Window>)
    requires multiset(v) == multiset(w)
    ensures SameCover(v, w)
  {
    forall t ensures Covered(v, t) <==> Covered(w, t) {
      if Covered(v, t) { var i :| 0 <= i < |v| && Contains(v[i], t); assert v[i] in multiset(v) && v[i] in w; }
      if Covered(w, t) { var i :| 0 <= i < |w| && Contains(w[i], t); assert w[i] in multiset(w) && w[i] in v; }
    }
  }

  /** Cutting one window in two touching ones. */
  lemma SplitCover(before: seq<Window>, w: Window, at: int, after: seq<Window>)
    requires w.startAt <= at <= w.endAt
    ensures SameCover(before + [w] + after, before + [Window(w.startAt, at), Window(at, w.endAt)] + after)
  {
    var v, u := before + [w] + after, before + [Window(w.startAt, at), Window(at, w.endAt)] + after;
    var n := |before|;
    forall t ensures Covered(v, t) <==> Covered(u, t) {
      if Covered(v, t) {
        var i :| 0 <= i < |v| && Contains(v[i], t);
        assert Contains(u[if i < n then i else if i > n then i + 1 else if t < at then n else n + 1], t);
      }
      if Covered(u, t) {
        var i :| 0 <= i < |u| && Contains(u[i], t);
        assert Contains(v[if i < n then i else if i > n + 1 then i - 1 else n], t);
      }
    }
  }

  // ----- Slots and requests in plain terms -----

  function MinutesOr(minutes: Option<int>, fallback: int): int {
    if minutes.Some? then minutes.value else fallback
  }

  function BlockedTimes(o: SlotOptions): seq<Window> {
    if o.blocked.Some? then o.blocked.value else []
  }

  /** A slot starts at `s`: it lies in the request and in one uninterrupted stretch of covered time, a whole number of
      steps after the beginning of that stretch, and no instant of it or within the buffer around it is blocked.  A
      step is as long as a slot and there is no buffer, unless the request says otherwise. */
  ghost predicate SlotInMinutes(windows: seq<Window>, o: SlotOptions, s: int)
    requires MinutesOr(o.stepMinutes, o.durationMinutes) > 0
  {
    var length, buffer := o.durationMinutes * 60_000, MinutesOr(o.bufferMinutes, 0) * 60_000;
    && o.startAt <= s && s + length <= o.endAt
    && (forall t | s - buffer <= t < s + length + buffer :: !Covered(BlockedTimes(o), t))
    && exists a, e :: OnGrid(windows, a, e, s, length, MinutesOr(o.stepMinutes, o.durationMinutes) * 60_000)
  }

  /** The stretch from `a` to `e` is covered, cannot be prolonged, and has a slot of this length at `s`. */
  ghost predicate OnGrid(windows: seq<Window>, a: int, e: int, s: int, length: int, step: int)
    requires step > 0
  {
    && a <= s && s + length <= e && (s - a) % step == 0
    && (forall t | a <= t < e :: Covered(windows, t)) && !Covered(windows, a - 1) && !Covered(windows, e)
  }

  /** What the calculation takes for a slot, for every request that it does not reject. */
  lemma SlotsInMinutes(windows: seq<Window>, o: SlotOptions, s: int)
    requires Accepted(windows, o)
    ensures IsSlot(windows, o, s) <==> SlotInMinutes(windows, o, s)
  {
    var length, step := o.durationMinutes * 60_000, MinutesOr(o.stepMinutes, o.durationMinutes) * 60_000;
    FreeByInstants(o.Blocked(), o.Buffer(), s, s + o.Duration());
    assert o.Duration() == length && o.Step() == step && o.Blocked() == BlockedTimes(o);
    assert o.Buffer() == MinutesOr(o.bufferMinutes, 0) * 60_000;
    forall a, e ensures InRun(windows, o, a, e, s) <==> OnGrid(windows, a, e, s, length, step) {
    }
  }

  /** Which requests are not rejected: at most 1000 windows and 1000 blocked intervals, all of them valid, at most 31
      days, slots and steps of up to a day, a buffer of up to a day and between 1 and 5000 slots, 1000 if not said. */
  lemma AcceptedExactly(windows: seq<Window>, o: SlotOptions)
    ensures var blocked := BlockedTimes(o);
            Accepted(windows, o) <==>
              && 1 <= o.startAt < o.endAt <= 4_102_444_800_000 && o.endAt - o.startAt <= 2_678_400_000
              && |windows| <= 1000 && |blocked| <= 1000
              && 1 <= o.durationMinutes <= 1440 && 1 <= MinutesOr(o.stepMinutes, o.durationMinutes) <= 1440
              && 0 <= MinutesOr(o.bufferMinutes, 0) <= 1440
              && (o.limit.Some? ==> 1 <= o.limit.value <= 5000)
              && forall w | w in windows || w in blocked :: 1 <= w.startAt < w.endAt <= 4_102_444_800_000
    ensures o.Limit() == if o.limit.Some? then o.limit.value else 1000
  {
    var blocked := BlockedTimes(o);
    assert AllValid(windows) <==> forall w | w in windows :: ValidWindow(w.startAt, w.endAt);
    assert AllValid(blocked) <==> forall w | w in blocked :: ValidWindow(w.startAt, w.endAt);
  }
}
