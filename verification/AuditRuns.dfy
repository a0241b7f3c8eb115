/** Runs of several exporter processes over one audit log and one outbox. */
module AuditRuns {
  import opened Wrappers
  import opened AuditExport
  import opened AuditOutbox
  import T = CanonicalText

  /** A batch on its way to the destination. */
  type Process = nat

  /** The database, the batches on their way, and what the run has to remember about the past: every row ever
      logged, every entry ever signed, every entry a destination has confirmed. */
  datatype System = System(
    log: seq<LogRow>,
    outbox: Outbox,
    flights: map<Process, seq<SignedEntry>>,
    logged: map<nat, T.Value>,
    chain: seq<SignedEntry>,
    delivered: set<SignedEntry>)

  datatype Event =
    | Append(row: LogRow)
    | Lose(index: nat)
    | Capturing(keyId: string, settings: Settings)
    | Reading(p: Process, settings: Settings)
    | Failing(p: Process)
    | Acknowledging(p: Process, held: set<nat>)

  datatype World = World(c: Crypto, keys: map<string, string>, maxEntries: nat, maxBytes: nat)

  predicate NewId(logged: map<nat, T.Value>, id: nat) {
    id > 0 && forall k | k in logged :: k < id
  }

  /** Audit IDs only grow, exporters are configured alike, and the verifier knows their keys. */
  ghost predicate Enabled(w: World, s: System, e: Event) {
    match e
    case Append(row) => NewId(s.logged, row.id)
    case Lose(index) => index < |s.log|
    case Capturing(keyId, settings) =>
      && SettingsOk(settings) && settings.maxEntries == w.maxEntries && settings.maxBytes == w.maxBytes
      && Trusts(w.c, w.keys, keyId)
    case Reading(p, settings) => SettingsOk(settings) && p !in s.flights
    case Failing(p) => p in s.flights
    case Acknowledging(p, held) => p in s.flights && s.flights[p] != []
  }

  function Next(w: World, s: System, e: Event): System
    requires e.Lose? ==> e.index < |s.log|
    requires e.Acknowledging? ==> e.p in s.flights && s.flights[e.p] != []
  {
    match e
    case Append(row) => s.(log := s.log + [row], logged := s.logged[row.id := row.event])
    case Lose(index) => s.(log := s.log[..index] + s.log[index + 1..])
    case Capturing(keyId, settings) =>
      var o := AfterCapture(w.c, settings, keyId, s.log, s.outbox);
      s.(outbox := o, chain := s.chain + Fresh(s.outbox, o))
    case Reading(p, settings) => s.(flights := s.flights[p := Pending(s.outbox, settings.batchSize)])
    case Failing(p) => s.(flights := s.flights - {p})
    case Acknowledging(p, held) =>
      var batch := s.flights[p];
      s.(outbox := Acknowledge(s.outbox, batch, held), flights := s.flights - {p},
         delivered := s.delivered + Elements(batch))
  }

  function Elements(batch: seq<SignedEntry>): set<SignedEntry> {
    set x | x in batch
  }

  /** The entries a capture appended. */
  function Fresh(before: Outbox, now: Outbox): seq<SignedEntry> {
    if |before.entries| <= |now.entries| then now.entries[|before.entries|..] else []
  }

  const INITIAL: System := System([], EMPTY, map[], map[], [], {})

  ghost predicate RunOk(w: World, start: System, events: seq<Event>)
    decreases |events|
  {
    events == [] || (Enabled(w, start, events[0]) && RunOk(w, Next(w, start, events[0]), events[1..]))
  }

  function Run(w: World, start: System, events: seq<Event>): System
    requires RunOk(w, start, events)
    decreases |events|
  {
    if events == [] then start else Run(w, Next(w, start, events[0]), events[1..])
  }

  // ----- The invariant -----

  /** Every signed entry carries its log row, and the signed entries form one accepted chain from the start. */
  ghost predicate ChainOk(w: World, logged: map<nat, T.Value>, chain: seq<SignedEntry>) {
    && ChainAccepted(w.c, w.keys, START, chain)
    && (forall e | e in chain :: e.sequence in logged && logged[e.sequence] == e.event)
  }

  ghost predicate LogOk(s: System) {
    && Ascending(s.log)
    && (forall r | r in s.log :: r.id in s.logged && s.logged[r.id] == r.event)
  }

  predicate InChain(chain: seq<SignedEntry>, e: SignedEntry) {
    1 <= e.sequence <= |chain| && chain[e.sequence - 1] == e
  }

  /** The outbox holds chain entries in order, and all that no destination has confirmed. */
  predicate EntriesOk(chain: seq<SignedEntry>, o: Outbox) {
    && (forall e | e in o.entries :: InChain(chain, e))
    && Ordered(o.entries)
    && (forall i | o.exported.sequence <= i < |chain| :: chain[i] in o.entries)
  }

  predicate StateOk(chain: seq<SignedEntry>, o: Outbox) {
    && o.captured == LastCheckpoint(START, chain)
    && o.exported.sequence <= |chain| && o.exported == PriorOf(START, chain, o.exported.sequence)
  }

  predicate Bounded(w: World, o: Outbox) {
    |o.entries| <= w.maxEntries && TotalBytes(o.entries) <= w.maxBytes
  }

  /** A stretch of the chain that starts where everything before has been confirmed. */
  predicate BatchOk(chain: seq<SignedEntry>, exported: nat, batch: seq<SignedEntry>) {
    batch == [] || (1 <= batch[0].sequence <= exported + 1 && IsStretch(chain, batch[0].sequence - 1, batch))
  }

  predicate IsStretch(chain: seq<SignedEntry>, k: nat, batch: seq<SignedEntry>) {
    k + |batch| <= |chain| && batch == chain[k..k + |batch|]
  }

  predicate DeliveredOk(chain: seq<SignedEntry>, exported: nat, delivered: set<SignedEntry>) {
    forall i | 0 <= i < exported && i < |chain| :: chain[i] in delivered
  }

  predicate FlightsOk(chain: seq<SignedEntry>, exported: nat, flights: map<Process, seq<SignedEntry>>) {
    forall p | p in flights :: BatchOk(chain, exported, flights[p])
  }

  ghost predicate SystemOk(w: World, s: System) {
    && ChainOk(w, s.logged, s.chain) && LogOk(s)
    && StateOk(s.chain, s.outbox) && EntriesOk(s.chain, s.outbox) && Bounded(w, s.outbox)
    && FlightsOk(s.chain, s.outbox.exported.sequence, s.flights)
    && DeliveredOk(s.chain, s.outbox.exported.sequence, s.delivered)
  }

  // ----- The chain -----

  /** Entry `i` has sequence number `i + 1`. */
  predicate Positioned(chain: seq<SignedEntry>) {
    forall i | 0 <= i < |chain| :: chain[i].sequence == i + 1
  }

  lemma ChainPositions(w: World, chain: seq<SignedEntry>)
    requires ChainAccepted(w.c, w.keys, START, chain)
    ensures Positioned(chain)
    ensures LastCheckpoint(START, chain).sequence == |chain|
  {
    forall i | 0 <= i < |chain| ensures chain[i].sequence == i + 1 {
      ChainPosition(w, chain, i);
    }
    if chain != [] {
      ChainPosition(w, chain, |chain| - 1);
    }
  }

  lemma LinkShape(w: World, chain: seq<SignedEntry>, i: nat)
    requires ChainAccepted(w.c, w.keys, START, chain) && i < |chain|
    ensures chain[i].sequence == PriorOf(START, chain, i).sequence + 1 && IsHexDigest(After(chain[i]).digest)
  {
    LinkAccepted(w.c, w.keys, START, chain, i);
  }

  lemma {:induction false} ChainPosition(w: World, chain: seq<SignedEntry>, i: nat)
    requires ChainAccepted(w.c, w.keys, START, chain) && i < |chain|
    ensures chain[i].sequence == i + 1
  {
    LinkShape(w, chain, i);
    if i > 0 {
      ChainPosition(w, chain, i - 1);
    }
  }

  lemma PriorShift(chain: seq<SignedEntry>, k: nat, batch: seq<SignedEntry>, i: nat)
    requires IsStretch(chain, k, batch) && i <= |batch|
    ensures PriorOf(PriorOf(START, chain, k), batch, i) == PriorOf(START, chain, k + i)
    ensures i < |batch| ==> batch[i] == chain[k + i]
  {
    if i > 0 {
      assert batch[i - 1] == chain[k + i - 1];
    }
  }

  /** A stretch of an accepted chain is accepted after the checkpoint before it. */
  lemma {:induction false} StretchAccepted(w: World, chain: seq<SignedEntry>, k: nat, batch: seq<SignedEntry>)
    requires ChainAccepted(w.c, w.keys, START, chain) && IsStretch(chain, k, batch)
    ensures ChainAccepted(w.c, w.keys, PriorOf(START, chain, k), batch)
    decreases |batch|
  {
    if batch != [] {
      var n := |batch| - 1;
      StretchFront(chain, k, batch);
      StretchAccepted(w, chain, k, batch[..n]);
      LinkAccepted(w.c, w.keys, START, chain, k + n);
      ChainExtends(w.c, w.keys, PriorOf(START, chain, k), batch[..n], chain[k + n]);
    }
  }

  lemma StretchFront(chain: seq<SignedEntry>, k: nat, batch: seq<SignedEntry>)
    requires IsStretch(chain, k, batch) && batch != []
    ensures var n := |batch| - 1;
            && IsStretch(chain, k, batch[..n]) && batch == batch[..n] + [chain[k + n]]
            && LastCheckpoint(PriorOf(START, chain, k), batch[..n]) == PriorOf(START, chain, k + n)
  {
    var n := |batch| - 1;
    assert IsStretch(chain, k, batch[..n]);
    PriorShift(chain, k, batch[..n], n);
    assert batch[n] == chain[k + n];
  }

  lemma PriorInChain(w: World, chain: seq<SignedEntry>, k: nat)
    requires ChainAccepted(w.c, w.keys, START, chain) && k <= |chain|
    ensures PriorOf(START, chain, k).sequence == k && IsHexDigest(PriorOf(START, chain, k).digest)
  {
    if k > 0 {
      ChainPosition(w, chain, k - 1);
      LinkShape(w, chain, k - 1);
    } else {
      assert forall c | c in ZERO :: c == '0';
    }
  }

  lemma PriorExtends(chain: seq<SignedEntry>, e: SignedEntry, k: nat)
    requires k <= |chain|
    ensures PriorOf(START, chain + [e], k) == PriorOf(START, chain, k)
  {
  }

  /** The verifier accepts what the exporter signs. */
  lemma SignedIsAccepted(w: World, prior: Checkpoint, keyId: string, row: LogRow)
    requires WellFormedCrypto(w.c) && Trusts(w.c, w.keys, keyId) && row.id == prior.sequence + 1
    requires Utf8Length(Material(Sign(w.c, prior, keyId, row))) <= MAX_EVENT_BYTES
    ensures EntryAccepted(w.c, w.keys, prior, Sign(w.c, prior, keyId, row))
  {
    var bare, e := Bare(prior, keyId, row), Sign(w.c, prior, keyId, row);
    assert Unsigned(bare) == Unsigned(e);
    assert IsHexDigest(w.c.hash(Material(bare))) && IsSignature(w.c.sign(keyId, e.digest));
    assert w.c.verify(w.keys[keyId], e.digest, w.c.sign(keyId, e.digest));
  }

  // ----- Capture -----

  /** What a capture works on: the chain and the outbox, without the flights. */
  ghost predicate CaptureOk(w: World, logged: map<nat, T.Value>, chain: seq<SignedEntry>, o: Outbox) {
    ChainOk(w, logged, chain) && StateOk(chain, o) && EntriesOk(chain, o) && Bounded(w, o)
  }

  lemma CapturedEntryState(w: World, chain: seq<SignedEntry>, o: Outbox, e: SignedEntry)
    requires ChainAccepted(w.c, w.keys, START, chain) && StateOk(chain, o) && EntriesOk(chain, o)
    requires EntryAccepted(w.c, w.keys, o.captured, e)
    ensures StateOk(chain + [e], Stored(o, e))
  {
    ChainExtends(w.c, w.keys, START, chain, e);
    PriorExtends(chain, e, o.exported.sequence);
  }

  lemma CapturedEntryEntries(w: World, chain: seq<SignedEntry>, o: Outbox, e: SignedEntry)
    requires ChainAccepted(w.c, w.keys, START, chain) && StateOk(chain, o) && EntriesOk(chain, o)
    requires EntryAccepted(w.c, w.keys, o.captured, e)
    ensures EntriesOk(chain + [e], Stored(o, e))
  {
    ChainPositions(w, chain);
    var longer, entries := chain + [e], o.entries + [e];
    forall x | x in entries ensures InChain(longer, x) {
      assert x in o.entries || x == e;
      assert x in o.entries ==> InChain(chain, x);
    }
    forall i, j | 0 <= i < j < |entries| ensures entries[i].sequence < entries[j].sequence {
      assert entries[i] in o.entries;
      assert InChain(chain, entries[i]);
    }
    forall i | o.exported.sequence <= i < |longer| ensures longer[i] in entries {
      assert i < |chain| ==> chain[i] in o.entries;
      assert e in entries;
    }
  }

  lemma CapturedEntryChain(
    w: World, logged: map<nat, T.Value>, chain: seq<SignedEntry>, prior: Checkpoint, e: SignedEntry)
    requires ChainOk(w, logged, chain) && prior == LastCheckpoint(START, chain)
    requires EntryAccepted(w.c, w.keys, prior, e)
    requires e.sequence in logged && logged[e.sequence] == e.event
    ensures ChainOk(w, logged, chain + [e])
  {
    ChainExtends(w.c, w.keys, START, chain, e);
  }

  /** The result of a capture, relative to the state before: new entries go to the end of the outbox and of the
      chain, and the delivery checkpoint stays. */
  predicate Extends(before: Outbox, now: Outbox) {
    && |before.entries| <= |now.entries| && now.entries[..|before.entries|] == before.entries
    && now.exported == before.exported
  }

  predicate RowsLogged(logged: map<nat, T.Value>, rows: seq<LogRow>) {
    forall r | r in rows :: r.id in logged && logged[r.id] == r.event
  }

  lemma {:induction false} CaptureKeeps(
    w: World, s: Settings, keyId: string, logged: map<nat, T.Value>, rows: seq<LogRow>,
    chain: seq<SignedEntry>, o: Outbox)
    requires WellFormedCrypto(w.c) && Trusts(w.c, w.keys, keyId)
    requires s.maxEntries == w.maxEntries && s.maxBytes == w.maxBytes
    requires RowsLogged(logged, rows) && CaptureOk(w, logged, chain, o)
    ensures var r := CaptureRows(w.c, s, keyId, rows, o);
            r.Captured? ==>
              Extends(o, r.outbox) && CaptureOk(w, logged, chain + Fresh(o, r.outbox), r.outbox)
    decreases |rows|
  {
    ExtendsNothing(chain, o);
    if rows != [] && Judge(w.c, s, keyId, rows[0], o).Store? {
      var e := Judge(w.c, s, keyId, rows[0], o).entry;
      var r := CaptureRows(w.c, s, keyId, rows, o);
      assert r == CaptureRows(w.c, s, keyId, rows[1..], Stored(o, e));
      CaptureStep(w, s, keyId, logged, rows[0], chain, o);
      CaptureKeeps(w, s, keyId, logged, rows[1..], chain + [e], Stored(o, e));
      if r.Captured? {
        ExtendsTwice(chain, o, e, Stored(o, e), r.outbox);
      }
    }
  }

  lemma CaptureStep(
    w: World, s: Settings, keyId: string, logged: map<nat, T.Value>, row: LogRow,
    chain: seq<SignedEntry>, o: Outbox)
    requires WellFormedCrypto(w.c) && Trusts(w.c, w.keys, keyId)
    requires s.maxEntries == w.maxEntries && s.maxBytes == w.maxBytes
    requires row.id in logged && logged[row.id] == row.event && CaptureOk(w, logged, chain, o)
    requires Judge(w.c, s, keyId, row, o).Store?
    ensures var e := Judge(w.c, s, keyId, row, o).entry; CaptureOk(w, logged, chain + [e], Stored(o, e))
  {
    var e := Sign(w.c, o.captured, keyId, row);
    SignedIsAccepted(w, o.captured, keyId, row);
    CapturedEntryState(w, chain, o, e);
    CapturedEntryEntries(w, chain, o, e);
    CapturedEntryChain(w, logged, chain, o.captured, e);
    TotalAppend(o.entries, e, EnvelopeBytes);
  }

  lemma ExtendsNothing(chain: seq<SignedEntry>, o: Outbox)
    ensures Extends(o, o) && chain + Fresh(o, o) == chain
  {
  }

  lemma ExtendsTwice(chain: seq<SignedEntry>, o: Outbox, e: SignedEntry, next: Outbox, now: Outbox)
    requires next.entries == o.entries + [e] && next.exported == o.exported && Extends(next, now)
    ensures Extends(o, now)
    ensures chain + Fresh(o, now) == chain + [e] + Fresh(next, now)
  {
    var n := |o.entries|;
    assert now.entries[..n] == now.entries[..n + 1][..n];
    assert now.entries[n] == now.entries[..n + 1][n];
    assert Fresh(o, now) == [e] + Fresh(next, now);
  }

  // ----- Every step keeps the invariant -----

  lemma AppendKeepsLog(s: System, row: LogRow)
    requires LogOk(s) && NewId(s.logged, row.id)
    ensures LogOk(s.(log := s.log + [row], logged := s.logged[row.id := row.event]))
  {
    var log := s.log + [row];
    forall i, j | 0 <= i < j < |log| ensures log[i].id < log[j].id {
      assert log[i] in s.log && log[i].id in s.logged;
    }
    assert forall r | r in log :: r in s.log || r == row;
  }

  lemma AppendKeepsChain(w: World, logged: map<nat, T.Value>, chain: seq<SignedEntry>, row: LogRow)
    requires ChainOk(w, logged, chain) && NewId(logged, row.id)
    ensures ChainOk(w, logged[row.id := row.event], chain)
  {
  }

  lemma AppendKeeps(w: World, s: System, row: LogRow)
    requires SystemOk(w, s) && NewId(s.logged, row.id)
    ensures SystemOk(w, Next(w, s, Append(row)))
  {
    AppendKeepsLog(s, row);
    AppendKeepsChain(w, s.logged, s.chain, row);
  }

  lemma LoseKeeps(w: World, s: System, index: nat)
    requires SystemOk(w, s) && index < |s.log|
    ensures SystemOk(w, Next(w, s, Lose(index)))
  {
  }

  lemma TakenRowsLogged(s: System, sequence: nat, n: nat)
    requires LogOk(s)
    ensures RowsLogged(s.logged, Take(RowsAfter(s.log, sequence), n))
  {
    RowsAfterFacts(s.log, sequence);
  }

  lemma BatchOkExtends(chain: seq<SignedEntry>, more: seq<SignedEntry>, exported: nat, batch: seq<SignedEntry>)
    requires BatchOk(chain, exported, batch)
    ensures BatchOk(chain + more, exported, batch)
  {
    if batch != [] {
      var k := batch[0].sequence - 1;
      assert (chain + more)[k..k + |batch|] == chain[k..k + |batch|];
    }
  }

  lemma CapturingKeeps(w: World, s: System, keyId: string, settings: Settings)
    requires WellFormedCrypto(w.c) && SystemOk(w, s) && Enabled(w, s, Capturing(keyId, settings))
    ensures SystemOk(w, Next(w, s, Capturing(keyId, settings)))
  {
    var t := Next(w, s, Capturing(keyId, settings));
    var rows := Take(RowsAfter(s.log, s.outbox.captured.sequence), settings.batchSize);
    TakenRowsLogged(s, s.outbox.captured.sequence, settings.batchSize);
    CaptureKeeps(w, settings, keyId, s.logged, rows, s.chain, s.outbox);
    var more := Fresh(s.outbox, t.outbox);
    assert t.chain == s.chain + more;
    assert t.outbox == s.outbox ==> t.chain == s.chain;
    assert CaptureOk(w, t.logged, t.chain, t.outbox) && t.outbox.exported == s.outbox.exported;
    forall p | p in t.flights ensures BatchOk(t.chain, t.outbox.exported.sequence, t.flights[p]) {
      BatchOkExtends(s.chain, more, s.outbox.exported.sequence, s.flights[p]);
    }
    assert DeliveredOk(t.chain, t.outbox.exported.sequence, t.delivered);
  }

  /** The undelivered entries of the outbox are exactly the chain beyond the checkpoint. */
  lemma PendingIsChain(chain: seq<SignedEntry>, o: Outbox)
    requires Positioned(chain) && StateOk(chain, o) && EntriesOk(chain, o)
    ensures Above(o.entries, o.exported.sequence) == chain[o.exported.sequence..]
  {
    var k := o.exported.sequence;
    var above, rest := Above(o.entries, k), chain[k..];
    AboveFacts(o.entries, k);
    forall i, j | 0 <= i < j < |rest| ensures rest[i].sequence < rest[j].sequence {
      assert rest[i] == chain[k + i] && rest[j] == chain[k + j];
    }
    forall x ensures x in above <==> x in rest {
      if x in above {
        assert InChain(chain, x);
        assert rest[x.sequence - 1 - k] == x;
      }
      if x in rest {
        var i :| 0 <= i < |rest| && rest[i] == x;
        assert chain[k + i] == x;
      }
    }
    OrderedUnique(above, rest);
  }

  lemma PendingStretch(chain: seq<SignedEntry>, o: Outbox, n: nat)
    requires Positioned(chain) && StateOk(chain, o) && EntriesOk(chain, o)
    ensures var k := o.exported.sequence;
            && IsStretch(chain, k, Pending(o, n)) && |Pending(o, n)| == Min(n, |chain| - k)
            && BatchOk(chain, k, Pending(o, n))
  {
    PendingIsChain(chain, o);
    TakeStretch(chain, o.exported.sequence, n);
  }

  lemma TakeStretch(chain: seq<SignedEntry>, k: nat, n: nat)
    requires Positioned(chain) && k <= |chain|
    ensures var b := Take(chain[k..], n);
            IsStretch(chain, k, b) && |b| == Min(n, |chain| - k) && BatchOk(chain, k, b)
  {
    var b := Take(chain[k..], n);
    assert b == chain[k..k + |b|];
    assert b != [] ==> b[0] == chain[k];
  }

  // An acknowledgement, part by part.

  lemma BatchPositions(chain: seq<SignedEntry>, exported: nat, batch: seq<SignedEntry>)
    requires Positioned(chain) && BatchOk(chain, exported, batch) && batch != []
    ensures forall i | 0 <= i < |batch| :: batch[i].sequence == batch[0].sequence + i && InChain(chain, batch[i])
  {
    var k := batch[0].sequence - 1;
    forall i | 0 <= i < |batch| ensures batch[i].sequence == k + 1 + i && InChain(chain, batch[i]) {
      assert batch[i] == chain[k + i];
    }
  }

  lemma AcknowledgedState(chain: seq<SignedEntry>, o: Outbox, batch: seq<SignedEntry>, held: set<nat>)
    requires Positioned(chain) && StateOk(chain, o)
    requires BatchOk(chain, o.exported.sequence, batch) && batch != []
    ensures StateOk(chain, Acknowledge(o, batch, held))
    ensures Acknowledge(o, batch, held).exported.sequence
      == if o.exported.sequence < batch[|batch| - 1].sequence then batch[|batch| - 1].sequence else o.exported.sequence
  {
    BatchPositions(chain, o.exported.sequence, batch);
    assert InChain(chain, batch[|batch| - 1]);
  }

  lemma AcknowledgedEntries(chain: seq<SignedEntry>, o: Outbox, batch: seq<SignedEntry>, held: set<nat>)
    requires Positioned(chain) && EntriesOk(chain, o)
    requires BatchOk(chain, o.exported.sequence, batch) && batch != []
    ensures EntriesOk(chain, Acknowledge(o, batch, held))
  {
    var now := Acknowledge(o, batch, held);
    RetireMembers(o.entries, batch, held);
    RetireSize(o.entries, batch, held);
    BatchPositions(chain, o.exported.sequence, batch);
    forall i | now.exported.sequence <= i < |chain| ensures chain[i] in now.entries {
      assert chain[i] in o.entries;
      forall b | b in batch ensures b.sequence != chain[i].sequence {
        var j :| 0 <= j < |batch| && batch[j] == b;
        assert b.sequence <= batch[|batch| - 1].sequence;
      }
    }
  }

  lemma AcknowledgedDelivered(chain: seq<SignedEntry>, exported: nat, batch: seq<SignedEntry>, i: nat)
    requires Positioned(chain) && BatchOk(chain, exported, batch) && batch != []
    requires exported <= i < batch[|batch| - 1].sequence
    ensures i < |chain| && chain[i] in batch
  {
    BatchPositions(chain, exported, batch);
    var k := batch[0].sequence - 1;
    assert batch[i - k] == chain[i];
  }

  lemma BatchOkLater(chain: seq<SignedEntry>, exported: nat, later: nat, batch: seq<SignedEntry>)
    requires BatchOk(chain, exported, batch) && exported <= later
    ensures BatchOk(chain, later, batch)
  {
  }

  lemma AcknowledgedDeliveries(
    chain: seq<SignedEntry>, exported: nat, delivered: set<SignedEntry>, batch: seq<SignedEntry>, later: nat)
    requires Positioned(chain) && DeliveredOk(chain, exported, delivered) && BatchOk(chain, exported, batch)
    requires batch != [] && (later <= exported || later <= batch[|batch| - 1].sequence)
    ensures DeliveredOk(chain, later, delivered + Elements(batch))
  {
    forall i | 0 <= i < later && i < |chain| ensures chain[i] in delivered + Elements(batch) {
      if i >= exported {
        AcknowledgedDelivered(chain, exported, batch, i);
        assert chain[i] in Elements(batch);
      }
    }
  }

  lemma OtherFlights(
    chain: seq<SignedEntry>, exported: nat, later: nat, flights: map<Process, seq<SignedEntry>>, p: Process)
    requires FlightsOk(chain, exported, flights) && exported <= later
    ensures FlightsOk(chain, later, flights - {p})
  {
    forall q | q in flights - {p} ensures BatchOk(chain, later, (flights - {p})[q]) {
      BatchOkLater(chain, exported, later, flights[q]);
    }
  }

  lemma ReadingKeeps(w: World, s: System, p: Process, settings: Settings)
    requires SystemOk(w, s)
    ensures SystemOk(w, Next(w, s, Reading(p, settings)))
  {
    var batch := Pending(s.outbox, settings.batchSize);
    ChainPositions(w, s.chain);
    PendingStretch(s.chain, s.outbox, settings.batchSize);
    OneMoreFlight(s.chain, s.outbox.exported.sequence, s.flights, p, batch);
    WithFlights(w, s, s.flights[p := batch]);
    FlightShapes(w, s, p, settings);
  }

  lemma FailingKeeps(w: World, s: System, p: Process)
    requires SystemOk(w, s)
    ensures SystemOk(w, Next(w, s, Failing(p)))
  {
    OtherFlights(s.chain, s.outbox.exported.sequence, s.outbox.exported.sequence, s.flights, p);
    WithFlights(w, s, s.flights - {p});
    FlightShapes(w, s, p, Settings(0, 0, 0));
  }

  lemma FlightShapes(w: World, s: System, p: Process, settings: Settings)
    ensures Next(w, s, Reading(p, settings)) == s.(flights := s.flights[p := Pending(s.outbox, settings.batchSize)])
    ensures Next(w, s, Failing(p)) == s.(flights := s.flights - {p})
  {
  }

  lemma OneMoreFlight(
    chain: seq<SignedEntry>, exported: nat, flights: map<Process, seq<SignedEntry>>, p: Process,
    batch: seq<SignedEntry>)
    requires FlightsOk(chain, exported, flights) && BatchOk(chain, exported, batch)
    ensures FlightsOk(chain, exported, flights[p := batch])
  {
  }

  lemma WithFlights(w: World, s: System, flights: map<Process, seq<SignedEntry>>)
    requires SystemOk(w, s) && FlightsOk(s.chain, s.outbox.exported.sequence, flights)
    ensures SystemOk(w, s.(flights := flights))
  {
  }

  lemma AcknowledgedBounds(w: World, o: Outbox, batch: seq<SignedEntry>, held: set<nat>)
    requires Bounded(w, o) && batch != []
    ensures Bounded(w, Acknowledge(o, batch, held))
  {
    RetireSize(o.entries, batch, held);
  }

  lemma AcknowledgedShape(w: World, s: System, p: Process, held: set<nat>)
    requires p in s.flights && s.flights[p] != []
    ensures Next(w, s, Acknowledging(p, held))
      == System(s.log, Acknowledge(s.outbox, s.flights[p], held), s.flights - {p}, s.logged, s.chain,
                s.delivered + Elements(s.flights[p]))
  {
  }

  lemma AcknowledgingKeeps(w: World, s: System, p: Process, held: set<nat>)
    requires SystemOk(w, s) && p in s.flights && s.flights[p] != []
    ensures SystemOk(w, Next(w, s, Acknowledging(p, held)))
  {
    var batch := s.flights[p];
    var k := s.outbox.exported.sequence;
    var now := Acknowledge(s.outbox, batch, held);
    ChainPositions(w, s.chain);
    assert BatchOk(s.chain, k, batch);
    AcknowledgedState(s.chain, s.outbox, batch, held);
    AcknowledgedEntries(s.chain, s.outbox, batch, held);
    AcknowledgedBounds(w, s.outbox, batch, held);
    OtherFlights(s.chain, k, now.exported.sequence, s.flights, p);
    AcknowledgedDeliveries(s.chain, k, s.delivered, batch, now.exported.sequence);
    AcknowledgedShape(w, s, p, held);
  }

  lemma NextKeeps(w: World, s: System, e: Event)
    requires WellFormedCrypto(w.c) && SystemOk(w, s) && Enabled(w, s, e)
    ensures SystemOk(w, Next(w, s, e))
  {
    match e
    case Append(row) => AppendKeeps(w, s, row);
    case Lose(index) => LoseKeeps(w, s, index);
    case Capturing(keyId, settings) => CapturingKeeps(w, s, keyId, settings);
    case Reading(p, settings) => ReadingKeeps(w, s, p, settings);
    case Failing(p) => FailingKeeps(w, s, p);
    case Acknowledging(p, held) => AcknowledgingKeeps(w, s, p, held);
  }

  lemma {:induction false} RunKeeps(w: World, s: System, events: seq<Event>)
    requires WellFormedCrypto(w.c) && SystemOk(w, s) && RunOk(w, s, events)
    ensures SystemOk(w, Run(w, s, events))
    decreases |events|
  {
    if events != [] {
      NextKeeps(w, s, events[0]);
      RunKeeps(w, Next(w, s, events[0]), events[1..]);
    }
  }

  lemma InitialOk(w: World)
    ensures SystemOk(w, INITIAL)
  {
  }

  // ----- Main results -----

  /** What a delivery from a well-formed state looks like. */
  ghost predicate GoodBatch(w: World, s: System, n: nat) {
    var from := s.outbox.exported;
    var batch := Pending(s.outbox, n);
    && InputsOk(batch, from) && ChainAccepted(w.c, w.keys, from, batch)
    && InOrder(s.logged, from.sequence, batch)
    && (batch == [] <==> from == s.outbox.captured)
    && (|batch| == n || LastCheckpoint(from, batch) == s.outbox.captured)
  }

  /** The log rows right after a sequence number, in order and without gap. */
  predicate InOrder(logged: map<nat, T.Value>, after: nat, batch: seq<SignedEntry>) {
    forall i | 0 <= i < |batch| ::
      && batch[i].sequence == after + 1 + i
      && batch[i].sequence in logged && logged[batch[i].sequence] == batch[i].event
  }

  lemma StretchInOrder(logged: map<nat, T.Value>, chain: seq<SignedEntry>, k: nat, batch: seq<SignedEntry>)
    requires Positioned(chain) && IsStretch(chain, k, batch)
    requires forall e | e in chain :: e.sequence in logged && logged[e.sequence] == e.event
    ensures InOrder(logged, k, batch)
  {
    forall i | 0 <= i < |batch| ensures batch[i] == chain[k + i] && batch[i] in chain {
    }
  }

  lemma PendingEnds(chain: seq<SignedEntry>, o: Outbox, n: nat)
    requires Positioned(chain) && StateOk(chain, o) && EntriesOk(chain, o) && n >= 1
    ensures var batch := Pending(o, n);
            && (batch == [] <==> o.exported == o.captured)
            && (|batch| == n || LastCheckpoint(o.exported, batch) == o.captured)
  {
    PendingStretch(chain, o, n);
    PriorShift(chain, o.exported.sequence, Pending(o, n), |Pending(o, n)|);
    assert o.exported.sequence == |chain| ==> o.exported == o.captured;
    assert chain != [] ==> o.captured.sequence == chain[|chain| - 1].sequence;
  }

  lemma OkDeliversGoodBatch(w: World, s: System, n: nat)
    requires SystemOk(w, s) && 1 <= n <= 1000
    ensures GoodBatch(w, s, n)
  {
    var k := s.outbox.exported.sequence;
    var batch := Pending(s.outbox, n);
    ChainPositions(w, s.chain);
    PendingStretch(s.chain, s.outbox, n);
    StretchAccepted(w, s.chain, k, batch);
    PriorInChain(w, s.chain, k);
    StretchInOrder(s.logged, s.chain, k, batch);
    PendingEnds(s.chain, s.outbox, n);
  }

  /** In every reachable state, the next batch is the audit log, in order and without gap, from the acknowledged
      checkpoint on, and the verifier accepts it from there.  There is one whenever something captured is not yet
      acknowledged, however full the outbox is. */
  lemma EveryBatchVerifies(w: World, events: seq<Event>, n: nat)
    requires WellFormedCrypto(w.c) && RunOk(w, INITIAL, events) && 1 <= n <= 1000
    ensures GoodBatch(w, Run(w, INITIAL, events), n)
  {
    InitialOk(w);
    RunKeeps(w, INITIAL, events);
    OkDeliversGoodBatch(w, Run(w, INITIAL, events), n);
  }

  /** What is acknowledged is the log up to the checkpoint; nothing signed is ever dropped undelivered; and the
      outbox stays inside its bounds. */
  lemma NothingIsLost(w: World, events: seq<Event>)
    requires WellFormedCrypto(w.c) && RunOk(w, INITIAL, events)
    ensures var s := Run(w, INITIAL, events);
            && ChainAccepted(w.c, w.keys, START, s.chain)
            && s.outbox.captured == LastCheckpoint(START, s.chain)
            && s.outbox.exported.sequence <= |s.chain|
            && s.outbox.exported == PriorOf(START, s.chain, s.outbox.exported.sequence)
            && (forall i | 0 <= i < s.outbox.exported.sequence :: s.chain[i] in s.delivered)
            && (forall e | e in s.chain :: e in s.delivered || e in s.outbox.entries)
            && |s.outbox.entries| <= w.maxEntries && TotalBytes(s.outbox.entries) <= w.maxBytes
  {
    InitialOk(w);
    RunKeeps(w, INITIAL, events);
    var s := Run(w, INITIAL, events);
    forall e | e in s.chain ensures e in s.delivered || e in s.outbox.entries {
      var i :| 0 <= i < |s.chain| && s.chain[i] == e;
      if i < s.outbox.exported.sequence {
        assert s.chain[i] in s.delivered;
      }
    }
  }

  lemma StepMovesForward(w: World, s: System, e: Event)
    requires WellFormedCrypto(w.c) && SystemOk(w, s) && Enabled(w, s, e)
    ensures s.chain <= Next(w, s, e).chain
    ensures s.outbox.exported.sequence <= Next(w, s, e).outbox.exported.sequence
  {
    if e.Capturing? {
      var rows := Take(RowsAfter(s.log, s.outbox.captured.sequence), e.settings.batchSize);
      TakenRowsLogged(s, s.outbox.captured.sequence, e.settings.batchSize);
      CaptureKeeps(w, e.settings, e.keyId, s.logged, rows, s.chain, s.outbox);
    }
  }

  lemma {:induction false} RunMovesForward(w: World, s: System, events: seq<Event>)
    requires WellFormedCrypto(w.c) && SystemOk(w, s) && RunOk(w, s, events)
    ensures s.chain <= Run(w, s, events).chain
    ensures s.outbox.exported.sequence <= Run(w, s, events).outbox.exported.sequence
    decreases |events|
  {
    if events != [] {
      NextKeeps(w, s, events[0]);
      StepMovesForward(w, s, events[0]);
      RunMovesForward(w, Next(w, s, events[0]), events[1..]);
    }
  }

  lemma PriorInLonger(chain: seq<SignedEntry>, longer: seq<SignedEntry>, o: Outbox)
    requires chain <= longer && StateOk(chain, o)
    ensures o.exported == PriorOf(START, longer, o.exported.sequence)
  {
  }

  /** The checkpoint never moves back, and it stays a checkpoint of the growing chain. */
  lemma CheckpointNeverMovesBack(w: World, s: System, events: seq<Event>)
    requires WellFormedCrypto(w.c) && SystemOk(w, s) && RunOk(w, s, events)
    ensures var t := Run(w, s, events);
            && s.chain <= t.chain && s.outbox.exported.sequence <= t.outbox.exported.sequence
            && s.outbox.exported == PriorOf(START, t.chain, s.outbox.exported.sequence)
  {
    RunMovesForward(w, s, events);
    PriorInLonger(s.chain, Run(w, s, events).chain, s.outbox);
  }
}
