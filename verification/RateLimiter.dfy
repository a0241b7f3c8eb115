/** The in-memory rate limiter of src/auth.ts (`createRateLimiter`): a sliding window per key. */
module RateLimiter {
  import opened Wrappers

  datatype Settings = Settings(attempts: nat, windowMs: int)

  predicate SettingsOk(s: Settings) {
    s.attempts >= 1 && s.windowMs >= 1
  }

  const CLEANUP_ABOVE: nat := 10_000
  const CLEANUP_TO: nat := 8_000

  type Entries = map<string, seq<int>>

  function TimesOf(entries: Entries, key: string): seq<int> {
    if key in entries then entries[key] else []
  }

  predicate Expired(s: Settings, time: int, now: int) {
    now - time >= s.windowMs
  }

  /** The times still inside the window. */
  function Recent(s: Settings, times: seq<int>, now: int): seq<int> {
    if times == [] then []
    else
      Recent(s, times[..|times| - 1], now) +
      (if Expired(s, times[|times| - 1], now) then [] else [times[|times| - 1]])
  }

  /** Rounded up to whole seconds, at least one. */
  function RetryAfter(s: Settings, first: int, now: int): int {
    var left := s.windowMs - (now - first);
    var seconds := (left + 999) / 1000;
    if seconds > 1 then seconds else 1
  }

  predicate Admits(s: Settings, times: seq<int>, now: int) {
    |Recent(s, times, now)| < s.attempts
  }

  predicate AllExpired(s: Settings, times: seq<int>, now: int) {
    forall t | t in times :: Expired(s, t, now)
  }

  /** What cleaning may do: it removes only keys whose times have all expired, only from a large map, and no more
      than it has to. */
  predicate Cleaned(s: Settings, before: Entries, after: Entries, now: int) {
    && after.Keys <= before.Keys
    && (forall k | k in after :: after[k] == before[k])
    && (forall k | k in before && k !in after :: AllExpired(s, before[k], now))
    && (|before| <= CLEANUP_ABOVE ==> after == before)
    && (|before| > CLEANUP_ABOVE ==>
          |after| >= CLEANUP_TO &&
          (|after| == CLEANUP_TO || forall k | k in after :: !AllExpired(s, after[k], now)))
  }

  /** What a call does to the entries: an admitted call adds its time to the recent ones, then the map is cleaned;
      a refused call changes nothing. */
  predicate Consumes(s: Settings, before: Entries, key: string, now: int, r: Option<int>, after: Entries)
    requires SettingsOk(s)
  {
    var recent := Recent(s, TimesOf(before, key), now);
    if |recent| >= s.attempts then r == Some(RetryAfter(s, recent[0], now)) && after == before
    else r == None && Cleaned(s, before[key := recent + [now]], after, now)
  }

  // ----- The limiter, step by step -----

  class Limiter {
    const settings: Settings
    var entries: Entries

    constructor (s: Settings)
      ensures settings == s && entries == map[]
    {
      settings, entries := s, map[];
    }

    method FilterRecent(times: seq<int>, now: int) returns (recent: seq<int>)
      ensures recent == Recent(settings, times, now)
    {
      recent := [];
      for i := 0 to |times|
        invariant recent == Recent(settings, times[..i], now)
      {
        assert times[..i + 1] == times[..i] + [times[i]];
        if now - times[i] < settings.windowMs {
          recent := recent + [times[i]];
        }
      }
      assert times[..|times|] == times;
    }

    method Every(times: seq<int>, now: int) returns (all: bool)
      ensures all <==> AllExpired(settings, times, now)
    {
      for i := 0 to |times|
        invariant forall j | 0 <= j < i :: Expired(settings, times[j], now)
      {
        if now - times[i] < settings.windowMs {
          assert times[i] in times;
          return false;
        }
      }
      return true;
    }

    method Consume(key: string, now: int) returns (retry: Option<int>)
      requires SettingsOk(settings)
      modifies this`entries
      ensures Consumes(settings, old(entries), key, now, retry, entries)
    {
      var recent := FilterRecent(TimesOf(entries, key), now);
      if |recent| >= settings.attempts {
        var seconds := (settings.windowMs - (now - recent[0]) + 999) / 1000;
        return Some(if seconds > 1 then seconds else 1);
      }
      entries := entries[key := recent + [now]];
      if |entries| > CLEANUP_ABOVE {
        Clean(now);
      }
      return None;
    }

    /** Visits the keys, in any order, until few enough are left. */
    method Clean(now: int)
      requires |entries| > CLEANUP_ABOVE
      modifies this`entries
      ensures Cleaned(settings, old(entries), entries, now)
    {
      var rest := entries.Keys;
      ghost var before := entries;
      while rest != {}
        invariant rest <= entries.Keys <= before.Keys
        invariant forall k | k in entries :: entries[k] == before[k]
        invariant forall k | k in before && k !in entries :: AllExpired(settings, before[k], now)
        invariant forall k | k in entries && k !in rest :: !AllExpired(settings, entries[k], now)
        invariant |entries| > CLEANUP_TO
        decreases |rest|
      {
        var key :| key in rest;
        rest := rest - {key};
        var expired := Every(entries[key], now);
        if expired {
          assert (entries - {key}).Keys == entries.Keys - {key};
          entries := entries - {key};
        }
        if |entries| <= CLEANUP_TO {
          break;
        }
      }
    }

    method Clear(key: string)
      modifies this`entries
      ensures entries == old(entries) - {key}
    {
      entries := entries - {key};
    }

    method Close()
      modifies this`entries
      ensures entries == map[]
    {
      entries := map[];
    }
  }
}
