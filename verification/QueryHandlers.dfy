/** Query handlers and the reader they run on (`makeReader`, `tracked` in src/backend.ts).  A handler is a
    deterministic program that reads documents and tables; the reader records what it looked at. */
module QueryHandlers {
  import opened Wrappers
  import opened DocumentStore
  import opened ChangeMatcher
  import opened ChangeJournal

  type Value = string

  /** What a handler does next, given the answers it got so far. */
  datatype Request = Return(value: Value) | Get(table: string, id: string) | Collect(table: string)

  datatype Answer = Found(doc: Option<Doc>) | Rows(rows: Documents)

  /** A handler that makes more than `bound` reads is cut off. */
  datatype Handler = Handler(bound: nat, next: seq<Answer> -> Request)

  datatype RunResult = Done(value: Value, deps: seq<Dependency>) | Threw

  function DependencyOwner(owned: set<string>, scope: Scope, table: string): Option<string> {
    if Scoped(owned, table, scope) then Some(scope.id) else None
  }

  /** The rows of a table the caller may see. */
  function VisibleDocs(owned: set<string>, scope: Scope, docs: Documents, table: string): Documents {
    map k | k in docs && k.table == table && Visible(owned, table, scope, docs[k].owner) :: docs[k]
  }

  predicate IsLetter(c: char) {
    'A' <= c <= 'Z' || 'a' <= c <= 'z'
  }

  /** A name a schema can give to a table. */
  predicate IsTableName(name: string) {
    && name != "" && IsLetter(name[0])
    && forall c | c in name :: IsLetter(c) || '0' <= c <= '9' || c == '_'
  }

  /** A read that throws: the table cannot be declared, or needs a caller. */
  predicate Unreadable(owned: set<string>, scope: Scope, table: string) {
    !IsTableName(table) || Refused(owned, table, scope)
  }

  // ----- The recorded dependencies -----

  const STAR: string := "*"

  /** The text under which a dependency is recorded: a whole table goes by the ID "*". */
  function ReadKey(d: Dependency): string {
    var id, owner := if d.id.Some? then d.id.value else STAR, if d.owner.Some? then d.owner.value else STAR;
    d.table + ":" + (id + (":" + owner))
  }

  /** An entry of the map of dependencies, which lists its entries in the order of their first insertion. */
  datatype Tracked = Tracked(key: string, dep: Dependency)

  /** `dependencies.set`: a later dependency under the same text replaces the earlier one. */
  function SetDependency(tracked: seq<Tracked>, d: Dependency): seq<Tracked> {
    if tracked == [] then [Tracked(ReadKey(d), d)]
    else if tracked[0].key == ReadKey(d) then [Tracked(ReadKey(d), d)] + tracked[1..]
    else [tracked[0]] + SetDependency(tracked[1..], d)
  }

  function Values(tracked: seq<Tracked>): (deps: seq<Dependency>)
    ensures |deps| == |tracked| && forall i | 0 <= i < |deps| :: deps[i] == tracked[i].dep
  {
    seq(|tracked|, i requires 0 <= i < |tracked| => tracked[i].dep)
  }

  function RequestDep(owned: set<string>, scope: Scope, r: Request): Dependency
    requires !r.Return?
  {
    Dependency(r.table, if r.Get? then Some(r.id) else None, DependencyOwner(owned, scope, r.table))
  }

  function AnswerTo(owned: set<string>, scope: Scope, docs: Documents, r: Request): Answer
    requires !r.Return?
  {
    if r.Get? then Found(GetDocument(owned, scope, docs, DocKey(r.table, r.id)))
    else Rows(VisibleDocs(owned, scope, docs, r.table))
  }

  /** Runs a handler that has received `answers` on a snapshot of the tables. */
  function Run(
    owned: set<string>, scope: Scope, docs: Documents, h: Handler, answers: seq<Answer>, tracked: seq<Tracked>)
    : RunResult
    decreases h.bound - |answers|
  {
    var r := h.next(answers);
    if r.Return? then Done(r.value, Values(tracked))
    else if Unreadable(owned, scope, r.table) || |answers| >= h.bound then Threw
    else
      Run(owned, scope, docs, h, answers + [AnswerTo(owned, scope, docs, r)],
          SetDependency(tracked, RequestDep(owned, scope, r)))
  }

  /** The reads of such a run, in their order. */
  function Reads(owned: set<string>, scope: Scope, docs: Documents, h: Handler, answers: seq<Answer>): seq<Request>
    decreases h.bound - |answers|
  {
    var r := h.next(answers);
    if r.Return? || Unreadable(owned, scope, r.table) || |answers| >= h.bound then []
    else [r] + Reads(owned, scope, docs, h, answers + [AnswerTo(owned, scope, docs, r)])
  }

  /** `tracked`: runs a handler, recording what it reads. */
  method RunTracked(owned: set<string>, scope: Scope, docs: Documents, h: Handler) returns (o: RunResult)
    ensures o == Run(owned, scope, docs, h, [], [])
  {
    var answers: seq<Answer>, tracked: seq<Tracked> := [], [];
    while true
      invariant Run(owned, scope, docs, h, [], []) == Run(owned, scope, docs, h, answers, tracked)
      decreases h.bound - |answers|
    {
      var r := h.next(answers);
      if r.Return? {
        return Done(r.value, Values(tracked));
      }
      if Unreadable(owned, scope, r.table) || |answers| >= h.bound {
        return Threw;
      }
      tracked := SetDependency(tracked, RequestDep(owned, scope, r));
      answers := answers + [AnswerTo(owned, scope, docs, r)];
    }
  }

  // ----- Changes that a handler does not notice -----

  /** Some record announces the document under the owner it has in `docs`. */
  predicate AnnouncedIn(records: seq<Record>, docs: Documents, k: DocKey) {
    k in docs ==> exists i | 0 <= i < |records| :: records[i].key == k && records[i].owner == docs[k].owner
  }

  predicate SameDoc(a: Documents, b: Documents, k: DocKey) {
    if k in a && k in b then a[k] == b[k] else k !in a && k !in b
  }

  /** The records announce every document that differs between two states, under its owner in each. */
  ghost predicate Covers(a: Documents, b: Documents, records: seq<Record>) {
    forall k :: SameDoc(a, b, k) || (AnnouncedIn(records, a, k) && AnnouncedIn(records, b, k))
  }

  lemma CoversAppend(a: Documents, b: Documents, c: Documents, first: seq<Record>, second: seq<Record>)
    requires Covers(a, b, first) && Covers(b, c, second)
    ensures Covers(a, c, first + second)
  {
    forall k ensures SameDoc(a, c, k) || (AnnouncedIn(first + second, a, k) && AnnouncedIn(first + second, c, k)) {
      assert SameDoc(a, b, k) || (AnnouncedIn(first, a, k) && AnnouncedIn(first, b, k));
      assert SameDoc(b, c, k) || (AnnouncedIn(second, b, k) && AnnouncedIn(second, c, k));
      AnnouncedAppend(first, second, a, k);
      AnnouncedAppend(first, second, b, k);
      AnnouncedAppend(first, second, c, k);
    }
  }

  lemma AnnouncedAppend(first: seq<Record>, second: seq<Record>, docs: Documents, k: DocKey)
    ensures AnnouncedIn(first, docs, k) || AnnouncedIn(second, docs, k) ==> AnnouncedIn(first + second, docs, k)
  {
    if k in docs {
      if i :| 0 <= i < |first| && first[i].key == k && first[i].owner == docs[k].owner {
        assert (first + second)[i] == first[i];
      }
      if i :| 0 <= i < |second| && second[i].key == k && second[i].owner == docs[k].owner {
        assert (first + second)[|first| + i] == second[i];
      }
    }
  }

  /** The change reports everything that differs between the two states, or admits that it may not. */
  ghost predicate Reports(a: Documents, b: Documents, change: Change) {
    change.all || Covers(a, b, change.records)
  }

  predicate Untouched(change: Change, deps: seq<Dependency>) {
    forall i | 0 <= i < |deps| :: !Affects(change, deps[i])
  }

  /** A changed document that hits no dependency was and is invisible to the reader. */
  lemma HiddenUnlessHit(
    owned: set<string>, scope: Scope, a: Documents, b: Documents, change: Change, k: DocKey, id: Option<string>)
    requires Reports(a, b, change) && (id.Some? ==> id.value == k.id)
    requires !Affects(change, Dependency(k.table, id, DependencyOwner(owned, scope, k.table)))
    ensures SameDoc(a, b, k) ||
      ((k in a ==> !Visible(owned, k.table, scope, a[k].owner)) &&
       (k in b ==> !Visible(owned, k.table, scope, b[k].owner)))
  {
    var d := Dependency(k.table, id, DependencyOwner(owned, scope, k.table));
    assert SameDoc(a, b, k) || (AnnouncedIn(change.records, a, k) && AnnouncedIn(change.records, b, k));
    assert forall i | 0 <= i < |change.records| :: !Hits(change.records[i], d);
  }

  lemma GetUnaffected(owned: set<string>, scope: Scope, a: Documents, b: Documents, change: Change, k: DocKey)
    requires Reports(a, b, change)
    requires !Affects(change, Dependency(k.table, Some(k.id), DependencyOwner(owned, scope, k.table)))
    ensures GetDocument(owned, scope, a, k) == GetDocument(owned, scope, b, k)
  {
    HiddenUnlessHit(owned, scope, a, b, change, k, Some(k.id));
  }

  lemma CollectUnaffected(owned: set<string>, scope: Scope, a: Documents, b: Documents, change: Change, table: string)
    requires Reports(a, b, change)
    requires !Affects(change, Dependency(table, None, DependencyOwner(owned, scope, table)))
    ensures VisibleDocs(owned, scope, a, table) == VisibleDocs(owned, scope, b, table)
  {
    var x, y := VisibleDocs(owned, scope, a, table), VisibleDocs(owned, scope, b, table);
    forall k: DocKey | k.table == table ensures SameDoc(x, y, k) {
      HiddenUnlessHit(owned, scope, a, b, change, k, None);
    }
    assert forall k | k in x :: k.table == table;
    assert forall k | k in y :: k.table == table;
    assert forall k | k in x :: SameDoc(x, y, k);
    assert forall k | k in y :: SameDoc(x, y, k);
  }
}
