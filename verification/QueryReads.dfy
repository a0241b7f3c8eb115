/** What the recorded dependencies of a query are good for: they stand for all its reads, unless a read of the ID
    "*" has taken the place of a whole table. */
module QueryReads {
  import opened Wrappers
  import opened DocumentStore
  import opened ChangeMatcher
  import opened ChangeJournal
  import opened QueryHandlers
  import opened KeyText

  // ----- Keys -----

  predicate IsRead(owned: set<string>, scope: Scope, r: Request) {
    !r.Return? && !Unreadable(owned, scope, r.table)
  }

  predicate AllReads(owned: set<string>, scope: Scope, asked: seq<Request>) {
    forall i | 0 <= i < |asked| :: IsRead(owned, scope, asked[i])
  }

  function KeyOfRead(owned: set<string>, scope: Scope, r: Request): string
    requires !r.Return?
  {
    ReadKey(RequestDep(owned, scope, r))
  }

  /** The ID in the key of a read. */
  function IdText(r: Request): string
    requires !r.Return?
  {
    if r.Get? then r.id else STAR
  }

  /** Reads share a key exactly when they are of one table and one ID, where a whole table counts as the ID "*". */
  lemma ReadKeyExact(owned: set<string>, scope: Scope, q: Request, r: Request)
    requires IsRead(owned, scope, q) && IsRead(owned, scope, r)
    ensures KeyOfRead(owned, scope, q) == KeyOfRead(owned, scope, r)
      <==> q.table == r.table && IdText(q) == IdText(r)
  {
    var d, e := RequestDep(owned, scope, q), RequestDep(owned, scope, r);
    var x := ":" + (if d.owner.Some? then d.owner.value else STAR);
    var y := ":" + (if e.owner.Some? then e.owner.value else STAR);
    if ReadKey(d) == ReadKey(e) {
      SeparatedUnique(q.table, IdText(q) + x, r.table, IdText(r) + y);
      EndingUnique(IdText(q), IdText(r), x);
    }
  }

  // ----- The final record -----

  function TrackAll(owned: set<string>, scope: Scope, asked: seq<Request>): seq<Tracked>
    requires AllReads(owned, scope, asked)
  {
    if asked == [] then []
    else
      var n := |asked| - 1;
      assert forall r | r in asked[..n] :: r in asked;
      SetDependency(TrackAll(owned, scope, asked[..n]), RequestDep(owned, scope, asked[n]))
  }

  lemma TrackAppend(owned: set<string>, scope: Scope, asked: seq<Request>, r: Request)
    requires AllReads(owned, scope, asked) && IsRead(owned, scope, r)
    ensures AllReads(owned, scope, asked + [r])
    ensures TrackAll(owned, scope, asked + [r])
      == SetDependency(TrackAll(owned, scope, asked), RequestDep(owned, scope, r))
  {
    var all := asked + [r];
    assert forall q | q in all :: q in asked || q == r;
    assert all[..|all| - 1] == asked;
  }

  lemma {:induction false} ReadsAreReads(
    owned: set<string>, scope: Scope, docs: Documents, h: Handler, answers: seq<Answer>)
    ensures AllReads(owned, scope, Reads(owned, scope, docs, h, answers))
    decreases h.bound - |answers|
  {
    var r := h.next(answers);
    if !r.Return? && !Unreadable(owned, scope, r.table) && |answers| < h.bound {
      ReadsAreReads(owned, scope, docs, h, answers + [AnswerTo(owned, scope, docs, r)]);
    }
  }

  /** A run's dependencies are what its reads leave in the record. */
  lemma {:induction false} RunTracks(
    owned: set<string>, scope: Scope, docs: Documents, h: Handler, answers: seq<Answer>, before: seq<Request>)
    requires AllReads(owned, scope, before)
    ensures var asked := before + Reads(owned, scope, docs, h, answers);
            var o := Run(owned, scope, docs, h, answers, TrackAll(owned, scope, before));
            && AllReads(owned, scope, asked)
            && (o.Done? ==> o.deps == Values(TrackAll(owned, scope, asked)))
    decreases h.bound - |answers|
  {
    ReadsAreReads(owned, scope, docs, h, answers);
    var r := h.next(answers);
    if r.Return? || Unreadable(owned, scope, r.table) || |answers| >= h.bound {
      assert before + [] == before;
    } else {
      var next := answers + [AnswerTo(owned, scope, docs, r)];
      TrackAppend(owned, scope, before, r);
      RunTracks(owned, scope, docs, h, next, before + [r]);
      assert before + ([r] + Reads(owned, scope, docs, h, next)) == before + [r] + Reads(owned, scope, docs, h, next);
    }
  }

  ghost predicate KeysOk(tracked: seq<Tracked>) {
    && (forall i | 0 <= i < |tracked| :: tracked[i].key == ReadKey(tracked[i].dep))
    && (forall i, j | 0 <= i < j < |tracked| :: tracked[i].key != tracked[j].key)
  }

  predicate Recorded(tracked: seq<Tracked>, d: Dependency) {
    exists t :: t in tracked && t.dep == d
  }

  lemma TailKeysOk(tracked: seq<Tracked>)
    requires tracked != [] && KeysOk(tracked)
    ensures KeysOk(tracked[1..]) && forall t | t in tracked[1..] :: t.key != tracked[0].key
    ensures forall t :: t in tracked <==> t == tracked[0] || t in tracked[1..]
  {
    assert tracked == [tracked[0]] + tracked[1..];
    forall t | t in tracked[1..] ensures t.key != tracked[0].key {
      var i :| 0 <= i < |tracked[1..]| && tracked[1..][i] == t;
      assert tracked[i + 1] == t;
    }
  }

  lemma ConsKeysOk(t: Tracked, tracked: seq<Tracked>)
    requires KeysOk(tracked) && t.key == ReadKey(t.dep) && forall u | u in tracked :: u.key != t.key
    ensures KeysOk([t] + tracked)
  {
    var s := [t] + tracked;
    forall i, j | 0 <= i < j < |s| ensures s[i].key != s[j].key {
      assert s[j] == tracked[j - 1] && s[j] in tracked;
    }
  }

  lemma {:induction false} SetMembers(tracked: seq<Tracked>, d: Dependency)
    requires KeysOk(tracked)
    ensures KeysOk(SetDependency(tracked, d))
    ensures forall t :: t in SetDependency(tracked, d) <==>
              t == Tracked(ReadKey(d), d) || (t in tracked && t.key != ReadKey(d))
    decreases |tracked|
  {
    if tracked != [] {
      TailKeysOk(tracked);
      if tracked[0].key == ReadKey(d) {
        ConsKeysOk(Tracked(ReadKey(d), d), tracked[1..]);
      } else {
        SetMembers(tracked[1..], d);
        ConsKeysOk(tracked[0], SetDependency(tracked[1..], d));
      }
    }
  }

  lemma SetRecords(tracked: seq<Tracked>, d: Dependency, e: Dependency)
    requires KeysOk(tracked)
    ensures Recorded(SetDependency(tracked, d), e) <==> e == d || (Recorded(tracked, e) && ReadKey(e) != ReadKey(d))
  {
    SetMembers(tracked, d);
    if Recorded(tracked, e) {
      var t :| t in tracked && t.dep == e;
      assert t.key == ReadKey(e);
      assert ReadKey(e) != ReadKey(d) ==> t in SetDependency(tracked, d);
    }
    if e == d {
      assert Tracked(ReadKey(d), d) in SetDependency(tracked, d);
    }
  }

  /** The last read under its key. */
  predicate IsLast(owned: set<string>, scope: Scope, asked: seq<Request>, i: nat)
    requires AllReads(owned, scope, asked)
  {
    && i < |asked|
    && forall j | i < j < |asked| :: KeyOfRead(owned, scope, asked[j]) != KeyOfRead(owned, scope, asked[i])
  }

  ghost predicate LastReadIs(owned: set<string>, scope: Scope, asked: seq<Request>, d: Dependency)
    requires AllReads(owned, scope, asked)
  {
    exists i: nat :: IsLast(owned, scope, asked, i) && RequestDep(owned, scope, asked[i]) == d
  }

  /** The record holds the dependencies of the last read under each key, and no others. */
  lemma {:induction false} RecordedExact(owned: set<string>, scope: Scope, asked: seq<Request>, d: Dependency)
    requires AllReads(owned, scope, asked)
    ensures KeysOk(TrackAll(owned, scope, asked))
    ensures Recorded(TrackAll(owned, scope, asked), d) <==> LastReadIs(owned, scope, asked, d)
    decreases |asked|
  {
    if asked != [] {
      var n := |asked| - 1;
      RecordedExact(owned, scope, asked[..n], d);
      assert asked == asked[..n] + [asked[n]];
      RecordedNext(owned, scope, asked[..n], asked[n], d);
    }
  }

  lemma RecordedNext(owned: set<string>, scope: Scope, front: seq<Request>, r: Request, d: Dependency)
    requires AllReads(owned, scope, front) && IsRead(owned, scope, r) && KeysOk(TrackAll(owned, scope, front))
    requires Recorded(TrackAll(owned, scope, front), d) <==> LastReadIs(owned, scope, front, d)
    ensures AllReads(owned, scope, front + [r]) && KeysOk(TrackAll(owned, scope, front + [r]))
    ensures Recorded(TrackAll(owned, scope, front + [r]), d) <==> LastReadIs(owned, scope, front + [r], d)
  {
    var tracked, dep := TrackAll(owned, scope, front), RequestDep(owned, scope, r);
    TrackAppend(owned, scope, front, r);
    SetMembers(tracked, dep);
    SetRecords(tracked, dep, d);
    LastAppend(owned, scope, front, r, d);
  }

  lemma LastAppend(owned: set<string>, scope: Scope, front: seq<Request>, r: Request, d: Dependency)
    requires AllReads(owned, scope, front) && IsRead(owned, scope, r)
    ensures AllReads(owned, scope, front + [r])
    ensures LastReadIs(owned, scope, front + [r], d)
      <==> d == RequestDep(owned, scope, r)
           || (LastReadIs(owned, scope, front, d) && ReadKey(d) != ReadKey(RequestDep(owned, scope, r)))
  {
    var all := front + [r];
    assert forall q | q in all :: q in front || q == r;
    if LastReadIs(owned, scope, all, d) {
      var i: nat :| IsLast(owned, scope, all, i) && RequestDep(owned, scope, all[i]) == d;
      if i < |front| {
        assert all[|front|] == r;
        forall j | i < j < |front| ensures KeyOfRead(owned, scope, front[j]) != KeyOfRead(owned, scope, front[i]) {
          assert all[j] == front[j];
        }
        assert IsLast(owned, scope, front, i);
      }
    }
    if d == RequestDep(owned, scope, r) {
      assert IsLast(owned, scope, all, |front|);
    }
    if LastReadIs(owned, scope, front, d) && ReadKey(d) != ReadKey(RequestDep(owned, scope, r)) {
      var i: nat :| IsLast(owned, scope, front, i) && RequestDep(owned, scope, front[i]) == d;
      forall j | i < j < |all| ensures KeyOfRead(owned, scope, all[j]) != KeyOfRead(owned, scope, all[i]) {
        assert j < |front| ==> all[j] == front[j];
      }
      assert IsLast(owned, scope, all, i);
    }
  }

  // ----- Reads that are lost -----

  /** A read of ID "*" that replaces the dependency on its whole table for good. */
  predicate Loses(asked: seq<Request>, i: nat, j: nat) {
    && i < j < |asked| && asked[i].Collect? && asked[j] == Get(asked[i].table, STAR)
    && forall k | j < k < |asked| :: asked[k] != asked[i]
  }

  /** No whole-table read is followed by a read of the ID "*" without being repeated. */
  predicate NothingLost(asked: seq<Request>) {
    forall i: nat, j: nat | i < j < |asked| :: !Loses(asked, i, j)
  }

  /** Every read is still represented in the record, by its own dependency or by its whole table. */
  lemma ReadRepresented(owned: set<string>, scope: Scope, asked: seq<Request>, i: nat)
    requires AllReads(owned, scope, asked) && NothingLost(asked) && i < |asked|
    ensures var d := RequestDep(owned, scope, asked[i]);
            LastReadIs(owned, scope, asked, d) || LastReadIs(owned, scope, asked, d.(id := None))
  {
    var l := LastWithKey(owned, scope, asked, i);
    assert asked[i] in asked && asked[l] in asked;
    ReadKeyExact(owned, scope, asked[i], asked[l]);
    assert asked[i].Collect? && asked[l].Get? ==> Loses(asked, i, l) by {
      if asked[i].Collect? && asked[l].Get? {
        LastLoses(owned, scope, asked, i, l);
      }
    }
    assert RequestDep(owned, scope, asked[l]) == RequestDep(owned, scope, asked[i])
      || RequestDep(owned, scope, asked[l]) == RequestDep(owned, scope, asked[i]).(id := None);
  }

  lemma LastLoses(owned: set<string>, scope: Scope, asked: seq<Request>, i: nat, l: nat)
    requires AllReads(owned, scope, asked) && i < l && IsLast(owned, scope, asked, l)
    requires asked[i].Collect? && asked[l] == Get(asked[i].table, STAR)
    ensures Loses(asked, i, l)
  {
    ReadKeyExact(owned, scope, asked[i], asked[l]);
    forall k | l < k < |asked| ensures asked[k] != asked[i] {
      assert KeyOfRead(owned, scope, asked[k]) != KeyOfRead(owned, scope, asked[l]);
    }
  }

  lemma LastWithKey(owned: set<string>, scope: Scope, asked: seq<Request>, i: nat) returns (l: nat)
    requires AllReads(owned, scope, asked) && i < |asked|
    ensures i <= l < |asked| && IsLast(owned, scope, asked, l)
    ensures KeyOfRead(owned, scope, asked[l]) == KeyOfRead(owned, scope, asked[i])
    decreases |asked| - i
  {
    if j :| i < j < |asked| && KeyOfRead(owned, scope, asked[j]) == KeyOfRead(owned, scope, asked[i]) {
      l := LastWithKey(owned, scope, asked, j);
    } else {
      l := i;
    }
  }

  // ----- Reads that nothing disturbs -----

  /** A change that misses every recorded dependency misses every read. */
  lemma NothingMissed(owned: set<string>, scope: Scope, asked: seq<Request>, change: Change, i: nat)
    requires AllReads(owned, scope, asked) && NothingLost(asked) && i < |asked|
    requires Untouched(change, Values(TrackAll(owned, scope, asked)))
    ensures !Affects(change, RequestDep(owned, scope, asked[i]))
  {
    var d := RequestDep(owned, scope, asked[i]);
    var wide := d.(id := None);
    ReadRepresented(owned, scope, asked, i);
    RecordedExact(owned, scope, asked, d);
    RecordedExact(owned, scope, asked, wide);
    UntouchedRecord(TrackAll(owned, scope, asked), change, d);
    UntouchedRecord(TrackAll(owned, scope, asked), change, wide);
    AffectsWider(change, d);
  }

  lemma UntouchedRecord(tracked: seq<Tracked>, change: Change, d: Dependency)
    requires Untouched(change, Values(tracked))
    ensures Recorded(tracked, d) ==> !Affects(change, d)
  {
    if Recorded(tracked, d) {
      var t :| t in tracked && t.dep == d;
      var i :| 0 <= i < |tracked| && tracked[i] == t;
      assert Values(tracked)[i] == d;
    }
  }

  lemma AffectsWider(change: Change, d: Dependency)
    ensures Affects(change, d) ==> Affects(change, d.(id := None))
  {
    if HitBy(change.records, d) {
      var i :| 0 <= i < |change.records| && Hits(change.records[i], d);
      assert Hits(change.records[i], d.(id := None));
    }
  }

  lemma ReadUnaffected(owned: set<string>, scope: Scope, a: Documents, b: Documents, change: Change, r: Request)
    requires !r.Return? && Reports(a, b, change) && !Affects(change, RequestDep(owned, scope, r))
    ensures AnswerTo(owned, scope, a, r) == AnswerTo(owned, scope, b, r)
  {
    if r.Get? {
      GetUnaffected(owned, scope, a, b, change, DocKey(r.table, r.id));
    } else {
      CollectUnaffected(owned, scope, a, b, change, r.table);
    }
  }

  /** A run whose reads all get the same answers makes the same reads and ends the same way. */
  lemma {:induction false} SameAnswersSameRun(
    owned: set<string>, scope: Scope, a: Documents, b: Documents, h: Handler, answers: seq<Answer>,
    tracked: seq<Tracked>)
    requires AllReads(owned, scope, Reads(owned, scope, a, h, answers))
    requires forall r | r in Reads(owned, scope, a, h, answers) ::
               AnswerTo(owned, scope, a, r) == AnswerTo(owned, scope, b, r)
    ensures Run(owned, scope, b, h, answers, tracked) == Run(owned, scope, a, h, answers, tracked)
    ensures Reads(owned, scope, b, h, answers) == Reads(owned, scope, a, h, answers)
    decreases h.bound - |answers|
  {
    var r := h.next(answers);
    if !r.Return? && !Unreadable(owned, scope, r.table) && |answers| < h.bound {
      var next := answers + [AnswerTo(owned, scope, a, r)];
      var rest := Reads(owned, scope, a, h, next);
      assert Reads(owned, scope, a, h, answers) == [r] + rest;
      assert r in [r] + rest && forall q | q in rest :: q in [r] + rest;
      ReadsAreReads(owned, scope, a, h, next);
      SameAnswersSameRun(owned, scope, a, b, h, next, SetDependency(tracked, RequestDep(owned, scope, r)));
    }
  }

  /** A run that lost no read returns the same value as long as nothing it recorded is affected. */
  lemma RunUnaffected(owned: set<string>, scope: Scope, a: Documents, b: Documents, change: Change, h: Handler)
    requires Reports(a, b, change) && Run(owned, scope, a, h, [], []).Done?
    requires NothingLost(Reads(owned, scope, a, h, []))
    requires Untouched(change, Run(owned, scope, a, h, [], []).deps)
    ensures Run(owned, scope, b, h, [], []) == Run(owned, scope, a, h, [], [])
  {
    ReadsAreReads(owned, scope, a, h, []);
    forall r | r in Reads(owned, scope, a, h, [])
      ensures !r.Return? && AnswerTo(owned, scope, a, r) == AnswerTo(owned, scope, b, r)
    {
      AskedUnaffected(owned, scope, a, b, change, h, r);
    }
    SameAnswersSameRun(owned, scope, a, b, h, [], []);
  }

  lemma AskedUnaffected(
    owned: set<string>, scope: Scope, a: Documents, b: Documents, change: Change, h: Handler, r: Request)
    requires Reports(a, b, change) && Run(owned, scope, a, h, [], []).Done?
    requires NothingLost(Reads(owned, scope, a, h, []))
    requires Untouched(change, Run(owned, scope, a, h, [], []).deps)
    requires r in Reads(owned, scope, a, h, [])
    ensures !r.Return? && AnswerTo(owned, scope, a, r) == AnswerTo(owned, scope, b, r)
  {
    var asked := Reads(owned, scope, a, h, []);
    RunTracks(owned, scope, a, h, [], []);
    assert [] + asked == asked;
    var i: nat :| i < |asked| && asked[i] == r;
    NothingMissed(owned, scope, asked, change, i);
    assert IsRead(owned, scope, r);
    ReadUnaffected(owned, scope, a, b, change, r);
  }

  // ----- When the recorded dependencies suffice -----

  /** No handler that makes these reads on `a` can be led astray: whatever the tables become, a change that
      touches nothing it recorded leaves its result as it was. */
  ghost predicate AlwaysNoticed(owned: set<string>, scope: Scope, a: Documents, asked: seq<Request>) {
    forall h: Handler, b: Documents, change: Change |
      Run(owned, scope, a, h, [], []).Done? && Reads(owned, scope, a, h, []) == asked && Reports(a, b, change) ::
      Untouched(change, Run(owned, scope, a, h, [], []).deps) ==>
        Run(owned, scope, b, h, [], []) == Run(owned, scope, a, h, [], [])
  }

  lemma {:induction false} LengthBound(ids: set<string>) returns (n: nat)
    ensures forall id | id in ids :: |id| <= n
  {
    if ids == {} {
      n := 0;
    } else {
      var id :| id in ids;
      var m := LengthBound(ids - {id});
      n := m + |id|;
    }
  }

  lemma FreshId(ids: set<string>) returns (id: string)
    ensures id !in ids
  {
    var n := LengthBound(ids);
    id := seq(n + 1, i => 'x');
  }

  /** A handler that makes the given reads and reports whether the `i`th was answered as expected. */
  function Replay(asked: seq<Request>, i: nat, expected: Answer): Handler
    requires i < |asked|
  {
    Handler(|asked|, (answers: seq<Answer>) =>
      if |answers| < |asked| then asked[|answers|]
      else Return(if answers[i] == expected then "as expected" else "changed"))
  }

  /** A handler that makes the given reads whatever it is answered. */
  ghost predicate Insists(h: Handler, asked: seq<Request>) {
    h.bound == |asked| && forall answers: seq<Answer> ::
      if |answers| < |asked| then h.next(answers) == asked[|answers|] else h.next(answers).Return?
  }

  lemma ReplayInsists(owned: set<string>, scope: Scope, asked: seq<Request>, i: nat, expected: Answer)
    requires AllReads(owned, scope, asked) && i < |asked|
    ensures Insists(Replay(asked, i, expected), asked)
  {
  }

  lemma {:induction false} InsistingReads(
    owned: set<string>, scope: Scope, docs: Documents, h: Handler, asked: seq<Request>, answers: seq<Answer>)
    requires AllReads(owned, scope, asked) && Insists(h, asked) && |answers| <= |asked|
    ensures Reads(owned, scope, docs, h, answers) == asked[|answers|..]
    decreases |asked| - |answers|
  {
    if |answers| < |asked| {
      var r := asked[|answers|];
      assert IsRead(owned, scope, r) && h.next(answers) == r;
      InsistingReads(owned, scope, docs, h, asked, answers + [AnswerTo(owned, scope, docs, r)]);
      assert [r] + asked[|answers| + 1..] == asked[|answers|..];
    }
  }

  /** How such a handler ends: with all its answers at hand. */
  lemma {:induction false} InsistingRuns(
    owned: set<string>, scope: Scope, docs: Documents, h: Handler, asked: seq<Request>, answers: seq<Answer>,
    tracked: seq<Tracked>, i: nat) returns (all: seq<Answer>)
    requires AllReads(owned, scope, asked) && Insists(h, asked) && |answers| <= |asked| && i < |asked|
    requires i < |answers| ==> answers[i] == AnswerTo(owned, scope, docs, asked[i])
    ensures |all| == |asked| && all[i] == AnswerTo(owned, scope, docs, asked[i]) && h.next(all).Return?
    ensures var o := Run(owned, scope, docs, h, answers, tracked);
            o.Done? && o.value == h.next(all).value
    decreases |asked| - |answers|
  {
    if |answers| < |asked| {
      var r := asked[|answers|];
      assert IsRead(owned, scope, r) && h.next(answers) == r;
      var dep := RequestDep(owned, scope, r);
      all := InsistingRuns(
        owned, scope, docs, h, asked, answers + [AnswerTo(owned, scope, docs, r)], SetDependency(tracked, dep), i);
    } else {
      all := answers;
    }
  }

  lemma ReplayRuns(
    owned: set<string>, scope: Scope, docs: Documents, asked: seq<Request>, i: nat, expected: Answer)
    requires AllReads(owned, scope, asked) && i < |asked|
    ensures var h := Replay(asked, i, expected);
            var o := Run(owned, scope, docs, h, [], []);
            && Reads(owned, scope, docs, h, []) == asked
            && o.Done? && o.deps == Values(TrackAll(owned, scope, asked))
            && (o.value == "as expected" <==> AnswerTo(owned, scope, docs, asked[i]) == expected)
  {
    var h := Replay(asked, i, expected);
    ReplayInsists(owned, scope, asked, i, expected);
    InsistingReads(owned, scope, docs, h, asked, []);
    var all := InsistingRuns(owned, scope, docs, h, asked, [], [], i);
    RunTracks(owned, scope, docs, h, [], []);
    assert [] + asked == asked;
  }

  /** A document that no read asks for by its ID. */
  ghost predicate Unasked(asked: seq<Request>, a: Documents, k: DocKey) {
    k !in a && k.id != STAR && forall r | r in asked && r.Get? :: r.id != k.id
  }

  lemma UnaskedExists(asked: seq<Request>, a: Documents, table: string) returns (k: DocKey)
    ensures k.table == table && Unasked(asked, a, k)
  {
    var ids := {STAR} + (set k | k in a :: k.id) + (set r | r in asked && r.Get? :: r.id);
    var id := FreshId(ids);
    k := DocKey(table, id);
    assert k in a ==> k.id in ids;
  }

  /** Once its table is lost, an unasked document touches nothing that was recorded. */
  lemma LostTouchesNothing(
    owned: set<string>, scope: Scope, asked: seq<Request>, i: nat, j: nat, a: Documents, k: DocKey,
    owner: Option<string>, version: nat)
    requires AllReads(owned, scope, asked) && Loses(asked, i, j)
    requires Unasked(asked, a, k) && k.table == asked[i].table
    ensures Untouched(Change(version, [Record(k, owner)], false), Values(TrackAll(owned, scope, asked)))
  {
    var change := Change(version, [Record(k, owner)], false);
    var tracked := TrackAll(owned, scope, asked);
    forall n | 0 <= n < |tracked| ensures !Affects(change, tracked[n].dep) {
      var d := tracked[n].dep;
      assert tracked[n] in tracked;
      RecordedExact(owned, scope, asked, d);
      var l: nat :| IsLast(owned, scope, asked, l) && RequestDep(owned, scope, asked[l]) == d;
      assert asked[l] in asked;
      assert !Hits(Record(k, owner), d) by {
        if d.table == k.table && d.id.None? {
          LostIsNotLast(owned, scope, asked, i, j, l);
        }
      }
    }
  }

  lemma LostIsNotLast(owned: set<string>, scope: Scope, asked: seq<Request>, i: nat, j: nat, l: nat)
    requires AllReads(owned, scope, asked) && Loses(asked, i, j) && l < |asked|
    requires asked[l] == asked[i]
    ensures !IsLast(owned, scope, asked, l)
  {
    assert asked[l] in asked && asked[j] in asked;
    ReadKeyExact(owned, scope, asked[l], asked[j]);
    assert l <= j;
    assert KeyOfRead(owned, scope, asked[j]) == KeyOfRead(owned, scope, asked[l]);
  }

  /** The document a caller inserts is among the rows the caller sees. */
  lemma InsertedIsSeen(owned: set<string>, scope: Scope, a: Documents, k: DocKey)
    requires k !in a
    ensures var b := a[k := Doc(DependencyOwner(owned, scope, k.table), 0, 1, "")];
            VisibleDocs(owned, scope, b, k.table) != VisibleDocs(owned, scope, a, k.table)
  {
    var b := a[k := Doc(DependencyOwner(owned, scope, k.table), 0, 1, "")];
    assert k in VisibleDocs(owned, scope, b, k.table) && k !in VisibleDocs(owned, scope, a, k.table);
  }

  /** Two states that answer a read differently are told apart by a handler that makes the given reads. */
  lemma ReplayTellsApart(
    owned: set<string>, scope: Scope, a: Documents, b: Documents, asked: seq<Request>, i: nat)
    requires AllReads(owned, scope, asked) && i < |asked|
    requires AnswerTo(owned, scope, a, asked[i]) != AnswerTo(owned, scope, b, asked[i])
    ensures var h := Replay(asked, i, AnswerTo(owned, scope, a, asked[i]));
            var o := Run(owned, scope, a, h, [], []);
            && Reads(owned, scope, a, h, []) == asked
            && o.Done? && o.deps == Values(TrackAll(owned, scope, asked))
            && Run(owned, scope, b, h, [], []) != o
  {
    var expected := AnswerTo(owned, scope, a, asked[i]);
    ReplayRuns(owned, scope, a, asked, i, expected);
    ReplayRuns(owned, scope, b, asked, i, expected);
  }

  /** After a loss, inserting a document can change what a handler computes without touching what it recorded. */
  lemma LossIsNoticed(owned: set<string>, scope: Scope, a: Documents, asked: seq<Request>, i: nat, j: nat)
    requires AllReads(owned, scope, asked) && Loses(asked, i, j)
    ensures !AlwaysNoticed(owned, scope, a, asked)
  {
    var k := UnaskedExists(asked, a, asked[i].table);
    var doc := Doc(DependencyOwner(owned, scope, k.table), 0, 1, "");
    var b: Documents := a[k := doc];
    LostTouchesNothing(owned, scope, asked, i, j, a, k, doc.owner, 0);
    InsertReported(a, k, doc, 0);
    InsertedIsSeen(owned, scope, a, k);
    ReplayTellsApart(owned, scope, a, b, asked, i);
  }

  lemma InsertReported(a: Documents, k: DocKey, doc: Doc, version: nat)
    requires k !in a
    ensures Reports(a, a[k := doc], Change(version, [Record(k, doc.owner)], false))
  {
    var b, records := a[k := doc], [Record(k, doc.owner)];
    forall l ensures SameDoc(a, b, l) || (AnnouncedIn(records, a, l) && AnnouncedIn(records, b, l)) {
      assert records[0].key == k && records[0].owner == doc.owner;
    }
  }

  /** The recorded dependencies of a run stand for its reads exactly when no read of the ID "*" took the place of a
      whole-table read for good. */
  lemma NoticedExact(owned: set<string>, scope: Scope, a: Documents, asked: seq<Request>)
    requires AllReads(owned, scope, asked)
    ensures AlwaysNoticed(owned, scope, a, asked) <==> NothingLost(asked)
  {
    if NothingLost(asked) {
      forall h: Handler, b: Documents, change: Change |
        Run(owned, scope, a, h, [], []).Done? && Reads(owned, scope, a, h, []) == asked && Reports(a, b, change)
        ensures Untouched(change, Run(owned, scope, a, h, [], []).deps) ==>
                  Run(owned, scope, b, h, [], []) == Run(owned, scope, a, h, [], [])
      {
        if Untouched(change, Run(owned, scope, a, h, [], []).deps) {
          RunUnaffected(owned, scope, a, b, change, h);
        }
      }
    } else {
      var i: nat, j: nat :| i < j < |asked| && Loses(asked, i, j);
      LossIsNoticed(owned, scope, a, asked, i, j);
    }
  }

  // ----- The loss -----

  const LOSING_READS: seq<Request> := [Collect("items"), Get("items", STAR)]

  /** Collecting a table and then reading the ID "*" of it leaves only the dependency on that ID. */
  lemma StarReadExample(scope: Scope)
    ensures AllReads({}, scope, LOSING_READS) && Loses(LOSING_READS, 0, 1)
    ensures Values(TrackAll({}, scope, LOSING_READS)) == [Dependency("items", Some(STAR), None)]
  {
    var c, g := Collect("items"), Get("items", STAR);
    assert LOSING_READS[..1] == [c] && [c][..0] == [];
    var d := RequestDep({}, scope, c);
    assert TrackAll({}, scope, [c]) == [Tracked(ReadKey(d), d)];
    assert ReadKey(RequestDep({}, scope, g)) == ReadKey(d);
  }
}
