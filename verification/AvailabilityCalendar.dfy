/** The stored availability windows of one owner (`save` and `remove` in src/availability.ts): they never overlap. */
module AvailabilityCalendar {
  import opened Wrappers
  import A = Availability

  datatype Entry = Entry(title: string, startAt: int, endAt: int, version: nat)

  type Entries = map<string, Entry>

  const MAX_SPAN: int := 7 * A.DAY
  const MAX_ENTRIES: nat := 200

  /** The title is the trimmed one. */
  datatype SaveInput = SaveInput(
    id: Option<string>, expectedVersion: Option<nat>, title: string, startAt: int, endAt: int)

  predicate InputOk(q: SaveInput) {
    && A.ValidWindow(q.startAt, q.endAt)
    && q.title != "" && q.endAt - q.startAt <= MAX_SPAN
  }

  predicate Overlaps(e: Entry, startAt: int, endAt: int) {
    startAt < e.endAt && endAt > e.startAt
  }

  /** The window itself is already there, under another ID. */
  predicate IsDuplicate(entries: Entries, q: SaveInput, id: string) {
    id in entries && Some(id) != q.id && entries[id].startAt == q.startAt && entries[id].endAt == q.endAt
  }

  predicate Conflicts(entries: Entries, q: SaveInput) {
    exists id :: id in entries && Some(id) != q.id && Overlaps(entries[id], q.startAt, q.endAt)
  }

  /** The window to be edited; an empty ID counts as none. */
  function Edited(q: SaveInput): Option<string> {
    if q.id == Some("") then None else q.id
  }

  /** `patch`: an edit that changes nothing keeps the version. */
  function Patched(e: Entry, q: SaveInput): Entry {
    if e.title == q.title && e.startAt == q.startAt && e.endAt == q.endAt then e
    else Entry(q.title, q.startAt, q.endAt, e.version + 1)
  }

  datatype Saved = Saved(entries: Entries, outcome: Result<string, string>)

  /** `save`: `newId` is the ID an insert would get, `found` the duplicate the scan came upon first. */
  function AfterSave(entries: Entries, q: SaveInput, newId: string, found: Option<string>): Saved
    requires found.Some? ==> IsDuplicate(entries, q, found.value)
  {
    if !InputOk(q) then Saved(entries, Err("Availability needs a title and a duration of at most seven days."))
    else if Edited(q).Some? && (q.id.value !in entries || Some(entries[q.id.value].version) != q.expectedVersion) then
      Saved(entries, Err("Availability changed or is unavailable."))
    else if Edited(q).None? && q.expectedVersion.Some? then Saved(entries, Err("New availability has no version."))
    else if Edited(q).None? && found.Some? && entries[found.value].title == q.title then
      Saved(entries, Ok(found.value))
    else if Conflicts(entries, q) then Saved(entries, Err("Availability overlaps an existing window."))
    else if Edited(q).Some? then
      Saved(entries[q.id.value := Patched(entries[q.id.value], q)], Ok(q.id.value))
    else if |entries| >= MAX_ENTRIES then Saved(entries, Err("Availability window limit reached."))
    else Saved(entries[newId := Entry(q.title, q.startAt, q.endAt, 1)], Ok(newId))
  }

  function AfterRemove(entries: Entries, id: string, expectedVersion: nat): Saved {
    if id !in entries || entries[id].version != expectedVersion then
      Saved(entries, Err("Availability changed or is unavailable."))
    else Saved(entries - {id}, Ok(id))
  }

  /** Stored windows are non-empty, bounded and pairwise disjoint, and there are not too many. */
  predicate CalendarOk(entries: Entries) {
    && |entries| <= MAX_ENTRIES && "" !in entries
    && (forall id | id in entries :: A.ValidWindow(entries[id].startAt, entries[id].endAt))
    && (forall a, b | a in entries && b in entries && a != b :: Apart(entries[a], entries[b]))
  }

  predicate Apart(x: Entry, y: Entry) {
    !Overlaps(x, y.startAt, y.endAt)
  }

  lemma ReplaceKeeps(entries: Entries, id: string, e: Entry)
    requires CalendarOk(entries) && A.ValidWindow(e.startAt, e.endAt)
    requires id in entries || (id != "" && |entries| < MAX_ENTRIES)
    requires forall k | k in entries && k != id :: Apart(entries[k], e)
    ensures CalendarOk(entries[id := e])
  {
    var now := entries[id := e];
    OneMore(entries, id, e);
    forall a, b | a in now && b in now && a != b ensures Apart(now[a], now[b]) {
      assert a != id && b != id ==> Apart(entries[a], entries[b]);
      assert a == id ==> Apart(entries[b], e);
    }
  }

  lemma OneMore(entries: Entries, id: string, e: Entry)
    ensures |entries[id := e]| == |entries| + if id in entries then 0 else 1
  {
    var now := entries[id := e];
    assert now.Keys == entries.Keys + {id};
    assert id in entries ==> entries.Keys + {id} == entries.Keys;
    assert |now| == |now.Keys| && |entries| == |entries.Keys|;
  }

  /** Saving keeps the windows apart. */
  lemma SaveKeeps(entries: Entries, q: SaveInput, newId: string, found: Option<string>)
    requires CalendarOk(entries) && newId !in entries && newId != ""
    requires found.Some? ==> IsDuplicate(entries, q, found.value)
    ensures CalendarOk(AfterSave(entries, q, newId, found).entries)
  {
    if InputOk(q) && !Conflicts(entries, q) {
      if q.id.Some? && q.id.value in entries {
        ReplaceKeeps(entries, q.id.value, Patched(entries[q.id.value], q));
      } else if |entries| < MAX_ENTRIES {
        ReplaceKeeps(entries, newId, Entry(q.title, q.startAt, q.endAt, 1));
      }
    }
  }

  lemma RemoveKeeps(entries: Entries, id: string, expectedVersion: nat)
    requires CalendarOk(entries)
    ensures CalendarOk(AfterRemove(entries, id, expectedVersion).entries)
  {
    if id in entries {
      assert (entries - {id}).Keys == entries.Keys - {id};
      assert |entries - {id}| == |(entries - {id}).Keys|;
    }
  }

  /** The duplicate is unique, so it does not matter which one the scan finds. */
  lemma DuplicateUnique(entries: Entries, q: SaveInput, a: string, b: string)
    requires CalendarOk(entries) && IsDuplicate(entries, q, a) && IsDuplicate(entries, q, b)
    ensures a == b
  {
    assert a != b ==> Apart(entries[a], entries[b]);
  }

  /** Repeating the creation of a window that is still there changes nothing and returns that window. */
  lemma SaveAgain(entries: Entries, q: SaveInput, id: string, newId: string, found: Option<string>)
    requires CalendarOk(entries) && InputOk(q) && Edited(q).None? && q.expectedVersion.None?
    requires id in entries
    requires entries[id].title == q.title && entries[id].startAt == q.startAt && entries[id].endAt == q.endAt
    requires found.Some? ==> IsDuplicate(entries, q, found.value)
    requires found.None? ==> forall k :: !IsDuplicate(entries, q, k)
    ensures AfterSave(entries, q, newId, found) == Saved(entries, Ok(id))
  {
    assert IsDuplicate(entries, q, id);
    DuplicateUnique(entries, q, id, found.value);
  }

  /** An edit raises the version exactly when it changes the window, and leaves every other window alone. */
  lemma EditSteps(entries: Entries, q: SaveInput, newId: string, found: Option<string>)
    requires found.Some? ==> IsDuplicate(entries, q, found.value)
    requires Edited(q).Some? && AfterSave(entries, q, newId, found).outcome.Ok?
    ensures var id, now := q.id.value, AfterSave(entries, q, newId, found).entries;
            && id in entries && now.Keys == entries.Keys && Some(entries[id].version) == q.expectedVersion
            && now[id].title == q.title && now[id].startAt == q.startAt && now[id].endAt == q.endAt
            && (now[id] == entries[id] || now[id].version == entries[id].version + 1)
            && (now[id].version == entries[id].version <==> now[id] == entries[id])
            && forall k | k in entries && k != id :: now[k] == entries[k]
  {
  }

  // ----- When a window is saved -----

  predicate InEntry(e: Entry, t: int) {
    e.startAt <= t < e.endAt
  }

  /** Some instant of the window lies in a stored window other than this one. */
  ghost predicate SharesInstant(entries: Entries, other: string, q: SaveInput) {
    exists id, t :: id in entries && id != other && InEntry(entries[id], t) && q.startAt <= t < q.endAt
  }

  predicate SameWindow(e: Entry, q: SaveInput) {
    e.startAt == q.startAt && e.endAt == q.endAt && e.title == q.title
  }

  lemma ConflictsByInstants(entries: Entries, q: SaveInput, other: string)
    requires CalendarOk(entries) && q.startAt < q.endAt
    requires q.id == Some(other) || (other == "" && q.id.None?)
    ensures Conflicts(entries, q) <==> SharesInstant(entries, other, q)
  {
    if Conflicts(entries, q) {
      var id :| id in entries && Some(id) != q.id && Overlaps(entries[id], q.startAt, q.endAt);
      var t := if entries[id].startAt >= q.startAt then entries[id].startAt else q.startAt;
      assert A.ValidWindow(entries[id].startAt, entries[id].endAt);
      assert InEntry(entries[id], t) && id != other;
    }
    if SharesInstant(entries, other, q) {
      var id, t :| id in entries && id != other && InEntry(entries[id], t) && q.startAt <= t < q.endAt;
      assert Overlaps(entries[id], q.startAt, q.endAt);
    }
  }

  /** The window is titled, valid, and no longer than seven days. */
  predicate Bounded(q: SaveInput) {
    1 <= q.startAt < q.endAt <= 4_102_444_800_000 && q.endAt - q.startAt <= 604_800_000 && q.title != ""
  }

  lemma CreationExact(entries: Entries, q: SaveInput, newId: string, found: Option<string>)
    requires CalendarOk(entries) && newId !in entries && InputOk(q) && Edited(q).None?
    requires found.Some? ==> IsDuplicate(entries, q, found.value)
    requires found.None? ==> forall k :: !IsDuplicate(entries, q, k)
    ensures AfterSave(entries, q, newId, found).outcome.Ok? <==>
      && q.expectedVersion == None
      && ((exists id :: id in entries && SameWindow(entries[id], q)) ||
          (!Conflicts(entries, q) && |entries| < MAX_ENTRIES))
    ensures var saved := AfterSave(entries, q, newId, found);
            && (saved.outcome != Ok(newId) ==> saved.entries == entries)
            && (saved.outcome == Ok(newId) ==>
                  saved.entries == entries[newId := Entry(q.title, q.startAt, q.endAt, 1)])
  {
    if id :| id in entries && SameWindow(entries[id], q) {
      assert IsDuplicate(entries, q, id);
      DuplicateUnique(entries, q, id, found.value);
    }
  }

  /** A window is created exactly if it is bounded and shares no instant with a stored one, and there is room; to
      create one that is already there succeeds too, and stores nothing. */
  lemma CreatedExactly(entries: Entries, q: SaveInput, newId: string, found: Option<string>)
    requires CalendarOk(entries) && newId !in entries && newId != "" && q.id in {None, Some("")}
    requires found.Some? ==> IsDuplicate(entries, q, found.value)
    requires found.None? ==> forall k :: !IsDuplicate(entries, q, k)
    ensures var saved := AfterSave(entries, q, newId, found);
            && (saved.outcome.Ok? <==>
                  && Bounded(q) && q.expectedVersion == None
                  && ((exists id :: id in entries && SameWindow(entries[id], q)) ||
                      (!SharesInstant(entries, "", q) && |entries| < 200)))
            && (saved.outcome == Ok(newId) ==>
                  saved.entries == entries[newId := Entry(q.title, q.startAt, q.endAt, 1)])
            && (saved.outcome != Ok(newId) ==> saved.entries == entries)
  {
    if InputOk(q) {
      ConflictsByInstants(entries, q, "");
      CreationExact(entries, q, newId, found);
    }
  }

  /** A window is edited exactly if the caller saw its version, and it stays bounded and shares no instant with
      another stored one. */
  lemma EditedExactly(entries: Entries, q: SaveInput, newId: string, found: Option<string>)
    requires CalendarOk(entries) && Edited(q).Some? && (found.Some? ==> IsDuplicate(entries, q, found.value))
    ensures var saved, id := AfterSave(entries, q, newId, found), q.id.value;
            && (saved.outcome.Ok? <==>
                  && Bounded(q) && id in entries && q.expectedVersion == Some(entries[id].version)
                  && !SharesInstant(entries, id, q))
            && (saved.outcome.Ok? ==> saved.outcome == Ok(id))
            && (saved.outcome.Err? ==> saved.entries == entries)
  {
    if InputOk(q) {
      ConflictsByInstants(entries, q, q.id.value);
    }
  }

  /** A window is removed exactly under the version it has, and no other window with it. */
  lemma RemoveExact(entries: Entries, id: string, expectedVersion: nat)
    ensures var removed := AfterRemove(entries, id, expectedVersion);
            && (removed.outcome.Ok? <==> id in entries && entries[id].version == expectedVersion)
            && (removed.outcome.Ok? ==> removed.entries.Keys == entries.Keys - {id})
            && (removed.outcome.Err? ==> removed.entries == entries)
            && forall k | k in removed.entries :: k in entries && removed.entries[k] == entries[k]
  {
  }

  /** The calendar of one owner. */
  class Calendar {
    var entries: Entries

    constructor ()
      ensures entries == map[] && CalendarOk(entries)
    {
      entries := map[];
    }

    /** Scans the other windows for the same interval. */
    method FindDuplicate(q: SaveInput) returns (found: Option<string>)
      ensures found.Some? ==> IsDuplicate(entries, q, found.value)
      ensures found.None? ==> forall k :: !IsDuplicate(entries, q, k)
    {
      var rest := entries.Keys;
      while rest != {}
        invariant rest <= entries.Keys
        invariant forall k | k in entries && k !in rest :: !IsDuplicate(entries, q, k)
        decreases |rest|
      {
        var id :| id in rest;
        if IsDuplicate(entries, q, id) {
          return Some(id);
        }
        rest := rest - {id};
      }
      return None;
    }

    method HasConflict(q: SaveInput) returns (conflict: bool)
      ensures conflict <==> Conflicts(entries, q)
    {
      var rest := entries.Keys;
      while rest != {}
        invariant rest <= entries.Keys
        invariant forall k | k in entries && k !in rest ::
          Some(k) == q.id || !Overlaps(entries[k], q.startAt, q.endAt)
        decreases |rest|
      {
        var id :| id in rest;
        if Some(id) != q.id && Overlaps(entries[id], q.startAt, q.endAt) {
          return true;
        }
        rest := rest - {id};
      }
      return false;
    }

    method Save(q: SaveInput, newId: string) returns (r: Result<string, string>, ghost found: Option<string>)
      requires CalendarOk(entries) && newId !in entries && newId != ""
      modifies this
      ensures found.Some? ==> IsDuplicate(old(entries), q, found.value)
      ensures InputOk(q) && found.None? ==>
        r.Err? || forall k :: !IsDuplicate(old(entries), q, k)
      ensures Saved(entries, r) == AfterSave(old(entries), q, newId, found)
      ensures CalendarOk(entries)
    {
      found := None;
      if !InputOk(q) {
        return Err("Availability needs a title and a duration of at most seven days."), found;
      }
      if Edited(q).Some? {
        if q.id.value !in entries || Some(entries[q.id.value].version) != q.expectedVersion {
          return Err("Availability changed or is unavailable."), found;
        }
      } else if q.expectedVersion.Some? {
        return Err("New availability has no version."), found;
      }
      var duplicate := FindDuplicate(q);
      found := duplicate;
      SaveKeeps(entries, q, newId, found);
      if Edited(q).None? && duplicate.Some? && entries[duplicate.value].title == q.title {
        return Ok(duplicate.value), found;
      }
      var conflict := HasConflict(q);
      if conflict {
        return Err("Availability overlaps an existing window."), found;
      }
      if Edited(q).Some? {
        var e := entries[q.id.value];
        if e.title != q.title || e.startAt != q.startAt || e.endAt != q.endAt {
          e := Entry(q.title, q.startAt, q.endAt, e.version + 1);
        }
        entries := entries[q.id.value := e];
        return Ok(q.id.value), found;
      }
      if |entries| >= MAX_ENTRIES {
        return Err("Availability window limit reached."), found;
      }
      entries := entries[newId := Entry(q.title, q.startAt, q.endAt, 1)];
      return Ok(newId), found;
    }

    method Remove(id: string, expectedVersion: nat) returns (r: Result<string, string>)
      requires CalendarOk(entries)
      modifies this
      ensures Saved(entries, r) == AfterRemove(old(entries), id, expectedVersion)
      ensures CalendarOk(entries)
    {
      RemoveKeeps(entries, id, expectedVersion);
      if id !in entries || entries[id].version != expectedVersion {
        return Err("Availability changed or is unavailable.");
      }
      entries := entries - {id};
      return Ok(id);
    }
  }
}
