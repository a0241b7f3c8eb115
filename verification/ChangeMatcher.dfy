/** `changeMatcher` of src/backend.ts: does a committed change touch something a query read? */
module ChangeMatcher {
  import opened Wrappers
  import opened DocumentStore

  /** What a query read: a table, one document of it, or the part of it one user owns. */
  datatype Dependency = Dependency(table: string, id: Option<string>, owner: Option<string>)

  /** A published change; `all` means that the records may be incomplete. */
  datatype Change = Change(version: nat, records: seq<Record>, all: bool)

  predicate Hits(r: Record, d: Dependency) {
    && r.key.table == d.table
    && (d.owner.Some? ==> r.owner == d.owner)
    && (d.id.Some? ==> r.key.id == d.id.value)
  }

  predicate HitBy(records: seq<Record>, d: Dependency) {
    exists i | 0 <= i < |records| :: Hits(records[i], d)
  }

  predicate Affects(c: Change, d: Dependency) {
    c.all || HitBy(c.records, d)
  }

  datatype TableIndex = TableIndex(ids: set<string>, owners: map<Option<string>, set<string>>)

  datatype Matcher = Everything | Single(record: Record) | Indexed(tables: map<string, TableIndex>)

  function Ids(tables: map<string, TableIndex>, d: Dependency): Option<set<string>> {
    if d.table !in tables then None
    else if d.owner.None? then Some(tables[d.table].ids)
    else if d.owner in tables[d.table].owners then Some(tables[d.table].owners[d.owner])
    else None
  }

  predicate Matches(m: Matcher, d: Dependency) {
    match m
    case Everything => true
    case Single(r) =>
      d.table == r.key.table && (d.owner.None? || d.owner == r.owner) && (d.id.None? || d.id.value == r.key.id)
    case Indexed(tables) =>
      var ids := Ids(tables, d);
      ids.Some? && (d.id.None? || d.id.value in ids.value)
  }

  /** The index of a record list: per table, the IDs and the IDs by owner. */
  ghost predicate IndexOf(tables: map<string, TableIndex>, records: seq<Record>, n: nat)
    requires n <= |records|
  {
    forall d :: Matches(Indexed(tables), d) <==> HitBy(records[..n], d)
  }

  function AddId(owners: map<Option<string>, set<string>>, owner: Option<string>, id: string)
    : map<Option<string>, set<string>>
  {
    owners[owner := (if owner in owners then owners[owner] else {}) + {id}]
  }

  function AddRecord(tables: map<string, TableIndex>, r: Record): map<string, TableIndex> {
    var entry := if r.key.table in tables then tables[r.key.table] else TableIndex({}, map[]);
    tables[r.key.table := TableIndex(entry.ids + {r.key.id}, AddId(entry.owners, r.owner, r.key.id))]
  }

  lemma HitBySnoc(records: seq<Record>, n: nat, d: Dependency)
    requires n < |records|
    ensures HitBy(records[..n + 1], d) <==> HitBy(records[..n], d) || Hits(records[n], d)
  {
    if HitBy(records[..n], d) {
      var i :| 0 <= i < n && Hits(records[..n][i], d);
      assert records[..n + 1][i] == records[..n][i];
    }
    assert records[..n + 1][n] == records[n];
  }

  /** A dependency matches exactly when the change may be incomplete or one of its records touches it. */
  method BuildMatcher(c: Change) returns (m: Matcher)
    ensures forall d :: Matches(m, d) <==> Affects(c, d)
  {
    if c.all {
      return Everything;
    }
    if |c.records| == 1 {
      return Single(c.records[0]);
    }
    var tables: map<string, TableIndex> := map[];
    for n := 0 to |c.records|
      invariant IndexOf(tables, c.records, n)
    {
      forall d ensures Matches(Indexed(AddRecord(tables, c.records[n])), d) <==> HitBy(c.records[..n + 1], d) {
        HitBySnoc(c.records, n, d);
      }
      ghost var before := tables;
      var r := c.records[n];
      var entry := if r.key.table in tables then tables[r.key.table] else TableIndex({}, map[]);
      entry := entry.(ids := entry.ids + {r.key.id});
      entry := entry.(owners := AddId(entry.owners, r.owner, r.key.id));
      tables := tables[r.key.table := entry];
      assert tables == AddRecord(before, r);
    }
    assert c.records[..|c.records|] == c.records;
    return Indexed(tables);
  }
}
