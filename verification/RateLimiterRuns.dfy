/** What the limiter guarantees over whole runs with fixed settings and a clock that does not go back. */
module RateLimiterRuns {
  import opened Wrappers
  import opened RateLimiter

  /** The entries, the times admitted for each key since it was last cleared, and the latest clock reading. */
  datatype State = State(entries: Entries, admitted: map<string, seq<int>>, clock: int)

  /** A call brings its time, its answer and the map it leaves. */
  datatype Event =
    | Call(key: string, now: int, answer: Option<int>, after: Entries)
    | Clear(key: string)
    | Close

  predicate Enabled(s: Settings, st: State, e: Event)
    requires SettingsOk(s)
  {
    e.Call? ==> st.clock <= e.now && Consumes(s, st.entries, e.key, e.now, e.answer, e.after)
  }

  function Next(st: State, e: Event): State {
    match e
    case Call(key, now, answer, after) =>
      State(after, if answer.None? then st.admitted[key := TimesOf(st.admitted, key) + [now]] else st.admitted, now)
    case Clear(key) => st.(entries := st.entries - {key}, admitted := st.admitted - {key})
    case Close => st.(entries := map[], admitted := map[])
  }

  predicate RunOk(s: Settings, st: State, events: seq<Event>)
    requires SettingsOk(s)
    decreases |events|
  {
    events == [] || (Enabled(s, st, events[0]) && RunOk(s, Next(st, events[0]), events[1..]))
  }

  function Run(st: State, events: seq<Event>): State
    decreases |events|
  {
    if events == [] then st else Run(Next(st, events[0]), events[1..])
  }

  // ----- The window -----

  predicate Sorted(times: seq<int>) {
    forall i, j | 0 <= i < j < |times| :: times[i] <= times[j]
  }

  /** Of sorted times, the recent ones are those after some position. */
  lemma {:induction false} RecentIsSuffix(s: Settings, times: seq<int>, now: int) returns (d: nat)
    requires Sorted(times)
    ensures d <= |times| && Recent(s, times, now) == times[d..]
    ensures forall i | 0 <= i < d :: Expired(s, times[i], now)
    ensures forall i | d <= i < |times| :: !Expired(s, times[i], now)
    decreases |times|
  {
    if times == [] {
      d := 0;
    } else {
      var n := |times| - 1;
      d := RecentIsSuffix(s, times[..n], now);
      assert times == times[..n] + [times[n]];
      SuffixNext(s, times[..n], times[n], d, now);
      d := if Expired(s, times[n], now) then |times| else d;
    }
  }

  lemma SuffixNext(s: Settings, front: seq<int>, last: int, d: nat, now: int)
    requires (forall t | t in front :: t <= last) && d <= |front| && Recent(s, front, now) == front[d..]
    requires forall i | 0 <= i < d :: Expired(s, front[i], now)
    requires forall i | d <= i < |front| :: !Expired(s, front[i], now)
    ensures var times := front + [last];
            var e := if Expired(s, last, now) then |times| else d;
            && Recent(s, times, now) == times[e..]
            && (forall i | 0 <= i < e :: Expired(s, times[i], now))
            && (forall i | e <= i < |times| :: !Expired(s, times[i], now))
  {
    var times := front + [last];
    assert times[..|front|] == front;
    if Expired(s, last, now) {
      assert d < |front| ==> front[d] in front && !Expired(s, front[d], now);
      assert front[|front|..] == [] && times[|times|..] == [];
    } else {
      assert front[d..] + [last] == times[d..];
    }
  }

  /** What is stored for a key are its latest admitted times; the others have expired. */
  ghost predicate Tracks(s: Settings, stored: seq<int>, admitted: seq<int>, clock: int) {
    && Sorted(admitted) && (forall t | t in admitted :: t <= clock)
    && |stored| <= |admitted| && |stored| <= s.attempts
    && stored == admitted[|admitted| - |stored|..]
    && (forall i | 0 <= i < |admitted| - |stored| :: Expired(s, admitted[i], clock))
  }

  /** Calls that are `attempts` apart are a window apart. */
  predicate Spaced(s: Settings, admitted: seq<int>) {
    forall i, j | 0 <= i < |admitted| && j == i + s.attempts < |admitted| :: admitted[j] - admitted[i] >= s.windowMs
  }

  ghost predicate KeyOk(s: Settings, st: State, key: string) {
    Tracks(s, TimesOf(st.entries, key), TimesOf(st.admitted, key), st.clock) && Spaced(s, TimesOf(st.admitted, key))
  }

  ghost predicate StateOk(s: Settings, st: State) {
    forall key :: KeyOk(s, st, key)
  }

  lemma TracksLater(s: Settings, stored: seq<int>, admitted: seq<int>, clock: int, now: int)
    requires Tracks(s, stored, admitted, clock) && clock <= now
    ensures Tracks(s, stored, admitted, now)
  {
  }

  lemma TrackRecent(s: Settings, stored: seq<int>, admitted: seq<int>, now: int)
    requires Tracks(s, stored, admitted, now)
    ensures Tracks(s, Recent(s, stored, now), admitted, now)
  {
    var n := |admitted| - |stored|;
    var d := RecentIsSuffix(s, stored, now);
    assert stored[d..] == admitted[n + d..];
    forall i | 0 <= i < n + d ensures Expired(s, admitted[i], now) {
      assert i >= n ==> admitted[i] == stored[i - n];
    }
  }

  lemma TrackAdmitted(s: Settings, recent: seq<int>, admitted: seq<int>, now: int)
    requires Tracks(s, recent, admitted, now) && |recent| < s.attempts
    ensures Tracks(s, recent + [now], admitted + [now], now)
  {
    var more := admitted + [now];
    assert forall i | 0 <= i < |admitted| :: admitted[i] in admitted;
    assert recent + [now] == more[|more| - |recent| - 1..];
  }

  /** The new call is a window away from the one `attempts` calls before it. */
  lemma SpacedAdmitted(s: Settings, recent: seq<int>, admitted: seq<int>, now: int)
    requires Tracks(s, recent, admitted, now) && |recent| < s.attempts && Spaced(s, admitted)
    ensures Spaced(s, admitted + [now])
  {
    var more := admitted + [now];
    forall i, j | 0 <= i < |more| && j == i + s.attempts < |more| ensures more[j] - more[i] >= s.windowMs {
      if j == |admitted| && i < |admitted| {
        assert Expired(s, admitted[i], now);
      }
    }
  }

  lemma AllExpiredTracks(s: Settings, stored: seq<int>, admitted: seq<int>, now: int)
    requires Tracks(s, stored, admitted, now) && AllExpired(s, stored, now)
    ensures Tracks(s, [], admitted, now)
  {
    var n := |admitted| - |stored|;
    forall i | 0 <= i < |admitted| ensures Expired(s, admitted[i], now) {
      assert i >= n ==> admitted[i] == stored[i - n] && stored[i - n] in stored;
    }
    assert admitted[|admitted|..] == [];
  }

  /** Cleaning never forgets an unexpired call. */
  lemma CleanedTracks(s: Settings, before: Entries, after: Entries, key: string, admitted: seq<int>, now: int)
    requires Cleaned(s, before, after, now) && Tracks(s, TimesOf(before, key), admitted, now)
    ensures Tracks(s, TimesOf(after, key), admitted, now)
  {
    if key in before && key !in after {
      AllExpiredTracks(s, before[key], admitted, now);
    }
  }

  /** An admitted call of the key itself. */
  lemma OwnCallKeeps(s: Settings, entries: Entries, admitted: seq<int>, key: string, now: int, after: Entries)
    requires Tracks(s, TimesOf(entries, key), admitted, now) && Spaced(s, admitted)
    requires Admits(s, TimesOf(entries, key), now)
    requires Cleaned(s, entries[key := Recent(s, TimesOf(entries, key), now) + [now]], after, now)
    ensures Tracks(s, TimesOf(after, key), admitted + [now], now) && Spaced(s, admitted + [now])
  {
    var recent := Recent(s, TimesOf(entries, key), now);
    TrackRecent(s, TimesOf(entries, key), admitted, now);
    TrackAdmitted(s, recent, admitted, now);
    SpacedAdmitted(s, recent, admitted, now);
    CleanedTracks(s, entries[key := recent + [now]], after, key, admitted + [now], now);
  }

  /** An admitted call of another key. */
  lemma OtherCallKeeps(
    s: Settings, entries: Entries, admitted: seq<int>, key: string, other: string, now: int, after: Entries)
    requires Tracks(s, TimesOf(entries, key), admitted, now) && key != other
    requires Cleaned(s, entries[other := Recent(s, TimesOf(entries, other), now) + [now]], after, now)
    ensures Tracks(s, TimesOf(after, key), admitted, now)
  {
    CleanedTracks(s, entries[other := Recent(s, TimesOf(entries, other), now) + [now]], after, key, admitted, now);
  }

  lemma AdmittedKeepsKey(s: Settings, st: State, e: Event, key: string)
    requires SettingsOk(s) && e.Call? && Enabled(s, st, e) && e.answer.None? && KeyOk(s, st, key)
    ensures KeyOk(s, Next(st, e), key)
  {
    var admitted := TimesOf(st.admitted, key);
    TracksLater(s, TimesOf(st.entries, key), admitted, st.clock, e.now);
    if key == e.key {
      OwnCallKeeps(s, st.entries, admitted, key, e.now, e.after);
    } else {
      OtherCallKeeps(s, st.entries, admitted, key, e.key, e.now, e.after);
      assert TimesOf(Next(st, e).admitted, key) == admitted;
    }
  }

  lemma CallKeepsKey(s: Settings, st: State, e: Event, key: string)
    requires SettingsOk(s) && e.Call? && Enabled(s, st, e) && KeyOk(s, st, key)
    ensures KeyOk(s, Next(st, e), key)
  {
    if e.answer.None? {
      AdmittedKeepsKey(s, st, e, key);
    } else {
      assert Next(st, e) == State(st.entries, st.admitted, e.now);
      TracksLater(s, TimesOf(st.entries, key), TimesOf(st.admitted, key), st.clock, e.now);
    }
  }

  lemma NextKeepsKey(s: Settings, st: State, e: Event, key: string)
    requires SettingsOk(s) && Enabled(s, st, e) && KeyOk(s, st, key)
    ensures KeyOk(s, Next(st, e), key)
  {
    if e.Call? {
      CallKeepsKey(s, st, e, key);
    }
  }

  lemma {:induction false} RunKeeps(s: Settings, st: State, events: seq<Event>)
    requires SettingsOk(s) && RunOk(s, st, events) && StateOk(s, st)
    ensures StateOk(s, Run(st, events))
    decreases |events|
  {
    if events != [] {
      forall key ensures KeyOk(s, Next(st, events[0]), key) {
        assert KeyOk(s, st, key);
        NextKeepsKey(s, st, events[0], key);
      }
      RunKeeps(s, Next(st, events[0]), events[1..]);
    }
  }

  function Initial(clock: int): State {
    State(map[], map[], clock)
  }

  /** In every run, among the calls admitted for a key since it was last cleared, any `attempts` + 1 consecutive
      ones span at least the window. */
  lemma WindowHolds(s: Settings, clock: int, events: seq<Event>, key: string, i: nat)
    requires SettingsOk(s) && RunOk(s, Initial(clock), events)
    requires i + s.attempts < |TimesOf(Run(Initial(clock), events).admitted, key)|
    ensures var admitted := TimesOf(Run(Initial(clock), events).admitted, key);
            admitted[i + s.attempts] - admitted[i] >= s.windowMs
  {
    assert StateOk(s, Initial(clock));
    RunKeeps(s, Initial(clock), events);
    assert KeyOk(s, Run(Initial(clock), events), key);
    var j := i + s.attempts;
    assert Spaced(s, TimesOf(Run(Initial(clock), events).admitted, key));
  }

  // ----- Waiting helps -----

  /** No call for the key is admitted. */
  predicate NoneAdmitted(events: seq<Event>, key: string) {
    forall e | e in events :: e.Call? && e.key == key ==> e.answer.Some?
  }

  predicate NeverCleared(events: seq<Event>, key: string) {
    forall e | e in events :: e.Call? || (e.Clear? && e.key != key)
  }

  /** While no call for the key is admitted, its times stay, or are forgotten altogether; unless the key is
      cleared, they are forgotten only when they have expired. */
  lemma {:induction false} QuietRun(s: Settings, st: State, events: seq<Event>, key: string)
    requires SettingsOk(s) && RunOk(s, st, events) && NoneAdmitted(events, key)
    ensures var t := Run(st, events);
            && st.clock <= t.clock
            && (TimesOf(t.entries, key) == TimesOf(st.entries, key) || TimesOf(t.entries, key) == [])
            && (NeverCleared(events, key) && TimesOf(t.entries, key) != TimesOf(st.entries, key)
                ==> AllExpired(s, TimesOf(st.entries, key), t.clock))
    decreases |events|
  {
    if events != [] {
      assert events[0] in events;
      var next := Next(st, events[0]);
      QuietRun(s, next, events[1..], key);
    }
  }

  /** A refused call sees exactly `attempts` unexpired times, the oldest first. */
  lemma RefusedSees(s: Settings, stored: seq<int>, admitted: seq<int>, now: int)
    requires Tracks(s, stored, admitted, now) && !Admits(s, stored, now)
    ensures Recent(s, stored, now) == stored && |stored| == s.attempts && Sorted(stored)
  {
    var d := RecentIsSuffix(s, stored, now);
  }

  /** Full stored times admit again exactly when the oldest has expired. */
  lemma FullAdmitsExactly(s: Settings, stored: seq<int>, now: int)
    requires SettingsOk(s) && Sorted(stored) && |stored| == s.attempts
    ensures Admits(s, stored, now) <==> now >= stored[0] + s.windowMs
  {
    var d := RecentIsSuffix(s, stored, now);
  }

  /** A second less would not be enough. */
  lemma RetryAfterLeast(s: Settings, first: int, now: int)
    ensures var seconds := RetryAfter(s, first, now);
            seconds >= 1 && (seconds > 1 ==> now + 1000 * (seconds - 1) < first + s.windowMs)
  {
  }

  lemma RetryAfterSuffices(s: Settings, first: int, now: int, later: int)
    requires later >= now + 1000 * RetryAfter(s, first, now)
    ensures later >= first + s.windowMs
  {
  }

  /** After a refusal, waiting the returned number of seconds makes the next call admissible, if none was admitted
      meanwhile; without clearing, a second less would not, and exactly the calls before the oldest time expires are
      refused. */
  lemma WaitingSuffices(
    s: Settings, clock: int, earlier: seq<Event>, key: string, now: int, answer: Option<int>, after: Entries,
    between: seq<Event>, later: int)
    requires SettingsOk(s) && RunOk(s, Initial(clock), earlier)
    requires Enabled(s, Run(Initial(clock), earlier), Call(key, now, answer, after)) && answer.Some?
    requires RunOk(s, Next(Run(Initial(clock), earlier), Call(key, now, answer, after)), between)
    requires NoneAdmitted(between, key)
    requires later >= Run(Next(Run(Initial(clock), earlier), Call(key, now, answer, after)), between).clock
    ensures var t := Run(Next(Run(Initial(clock), earlier), Call(key, now, answer, after)), between);
            var times := TimesOf(Run(Initial(clock), earlier).entries, key);
            && |times| == s.attempts
            && (later >= now + 1000 * answer.value ==> Admits(s, TimesOf(t.entries, key), later))
            && (NeverCleared(between, key) && answer.value > 1 && later <= now + 1000 * (answer.value - 1) ==>
                  !Admits(s, TimesOf(t.entries, key), later))
            && (NeverCleared(between, key) ==>
                  (Admits(s, TimesOf(t.entries, key), later) <==> later >= times[0] + s.windowMs))
  {
    var st := Run(Initial(clock), earlier);
    assert StateOk(s, Initial(clock));
    RunKeeps(s, Initial(clock), earlier);
    assert KeyOk(s, st, key);
    var times := TimesOf(st.entries, key);
    TracksLater(s, times, TimesOf(st.admitted, key), st.clock, now);
    RefusedSees(s, times, TimesOf(st.admitted, key), now);
    var next := Next(st, Call(key, now, answer, after));
    QuietRun(s, next, between, key);
    var t := Run(next, between);
    FullAdmitsExactly(s, times, later);
    if later >= now + 1000 * answer.value {
      RetryAfterSuffices(s, times[0], now, later);
    }
    RetryAfterLeast(s, times[0], now);
    if TimesOf(t.entries, key) != times && NeverCleared(between, key) {
      assert times[0] in times;
      assert Expired(s, times[0], t.clock);
    }
  }
}
