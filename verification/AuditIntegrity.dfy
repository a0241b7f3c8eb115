/** Tamper evidence: two accepted exports between the same checkpoints have the same contents, or they exhibit
    a hash collision. */
module AuditIntegrity {
  import opened Wrappers
  import opened AuditExport
  import T = CanonicalText
  import TP = CanonicalTextProofs

  lemma DigitUnique(m: nat, n: nat)
    requires m < 10 && n < 10 && Digit(m) == Digit(n)
    ensures m == n
  {
  }

  lemma {:induction false} DecimalUnique(m: nat, n: nat)
    requires Decimal(m) == Decimal(n)
    ensures m == n
  {
    var a, b := Decimal(m), Decimal(n);
    DecimalLength(m);
    DecimalLength(n);
    assert a[|a| - 1] == Digit(m % 10) && b[|b| - 1] == Digit(n % 10);
    DigitUnique(m % 10, n % 10);
    if m >= 10 {
      assert a[..|a| - 1] == Decimal(m / 10) && b[..|b| - 1] == Decimal(n / 10);
      DecimalUnique(m / 10, n / 10);
    }
  }

  lemma DecimalLength(n: nat)
    ensures |Decimal(n)| >= 1 && (|Decimal(n)| == 1 <==> n < 10)
    ensures Decimal(n)[|Decimal(n)| - 1] == Digit(n % 10)
  {
    if n >= 10 {
      assert |Decimal(n / 10)| >= 1;
    }
  }

  /** Two entries with the same content: everything that is signed, up to key order in the event. */
  predicate SameContent(a: SignedEntry, b: SignedEntry) {
    && a.sequence == b.sequence && a.previousSequence == b.previousSequence
    && a.previousDigest == b.previousDigest && a.keyId == b.keyId
    && T.Meaning(a.event) == T.Meaning(b.event)
  }

  /** Two different texts with one digest. */
  predicate Collides(c: Crypto, a: SignedEntry, b: SignedEntry) {
    Material(a) != Material(b) && c.hash(Material(a)) == c.hash(Material(b))
  }

  lemma UnsignedKeys(e: SignedEntry)
    ensures T.Keys(Unsigned(e))
      == ["protocol", "sequence", "previousSequence", "previousDigest", "keyId", "event"]
  {
  }

  lemma KeysDiffer(i: nat, j: nat)
    requires i < j < 6
    ensures var keys := ["protocol", "sequence", "previousSequence", "previousDigest", "keyId", "event"];
            keys[i] != keys[j]
  {
    var keys := ["protocol", "sequence", "previousSequence", "previousDigest", "keyId", "event"];
    assert |keys[i]| != |keys[j]| || keys[i][0] != keys[j][0];
  }

  lemma UnsignedWellFormed(e: SignedEntry)
    requires T.WellFormed(e.event)
    ensures T.WellFormed(T.Object(Unsigned(e))) && T.Distinct(Unsigned(e))
  {
    var fields := Unsigned(e);
    UnsignedKeys(e);
    forall i, j | 0 <= i < j < |fields| ensures fields[i].key != fields[j].key {
      KeysDiffer(i, j);
    }
    assert forall f | f in fields :: T.WellFormed(f.value);
  }

  lemma FieldMeaning(e: SignedEntry, i: nat)
    requires T.WellFormed(e.event) && i < 6
    ensures var f := Unsigned(e)[i];
            f.key in T.MeaningOfFields(Unsigned(e)) && T.MeaningOfFields(Unsigned(e))[f.key] == T.Meaning(f.value)
  {
    UnsignedWellFormed(e);
    TP.FieldLookup(Unsigned(e));
    assert Unsigned(e)[i].key in T.MeaningOfFields(Unsigned(e));
  }

  /** The signed text determines everything it is made of. */
  lemma MaterialDeterminesContent(a: SignedEntry, b: SignedEntry)
    requires T.WellFormed(a.event) && T.WellFormed(b.event)
    ensures Material(a) == Material(b) <==> SameContent(a, b)
  {
    UnsignedWellFormed(a);
    UnsignedWellFormed(b);
    if Material(a) == Material(b) {
      TP.EncodingDeterminesMeaning(T.Object(Unsigned(a)), T.Object(Unsigned(b)), T.TextLeq);
      assert T.MeaningOfFields(Unsigned(a)) == T.MeaningOfFields(Unsigned(b));
      SameMeaningSameContent(a, b);
    }
    if SameContent(a, b) {
      TP.PointwiseMeaning(Unsigned(a), Unsigned(b));
      T.OrdersAreTotal();
      TP.NormalizeDependsOnMeaning(T.Object(Unsigned(a)), T.Object(Unsigned(b)), T.TextLeq);
    }
  }

  lemma SameMeaningSameContent(a: SignedEntry, b: SignedEntry)
    requires T.WellFormed(a.event) && T.WellFormed(b.event)
    requires T.MeaningOfFields(Unsigned(a)) == T.MeaningOfFields(Unsigned(b))
    ensures SameContent(a, b)
  {
    forall i: nat | i < 6 ensures T.Meaning(Unsigned(a)[i].value) == T.Meaning(Unsigned(b)[i].value) {
      FieldMeaning(a, i);
      FieldMeaning(b, i);
      UnsignedKeys(a);
      UnsignedKeys(b);
      assert Unsigned(a)[i].key == T.Keys(Unsigned(a))[i] == T.Keys(Unsigned(b))[i] == Unsigned(b)[i].key;
    }
    assert T.Meaning(Unsigned(a)[1].value) == T.Meaning(Unsigned(b)[1].value);
    assert T.Meaning(Unsigned(a)[2].value) == T.Meaning(Unsigned(b)[2].value);
    assert T.Meaning(Unsigned(a)[3].value) == T.Meaning(Unsigned(b)[3].value);
    assert T.Meaning(Unsigned(a)[4].value) == T.Meaning(Unsigned(b)[4].value);
    assert T.Meaning(Unsigned(a)[5].value) == T.Meaning(Unsigned(b)[5].value);
    DecimalUnique(a.sequence, b.sequence);
    DecimalUnique(a.previousSequence, b.previousSequence);
  }

  predicate EventsWellFormed(entries: seq<SignedEntry>) {
    forall e | e in entries :: T.WellFormed(e.event)
  }

  lemma {:induction false} ChainCounts(
    c: Crypto, keys: map<string, string>, from: Checkpoint, xs: seq<SignedEntry>)
    requires ChainAccepted(c, keys, from, xs)
    ensures LastCheckpoint(from, xs).sequence == from.sequence + |xs|
  {
    if xs != [] {
      var n := |xs| - 1;
      ChainAllButLast(c, keys, from, xs);
      ChainCounts(c, keys, from, xs[..n]);
    }
  }

  lemma ChainAllButLast(c: Crypto, keys: map<string, string>, from: Checkpoint, xs: seq<SignedEntry>)
    requires xs != [] && ChainAccepted(c, keys, from, xs)
    ensures var n := |xs| - 1;
            && ChainAccepted(c, keys, from, xs[..n])
            && EntryAccepted(c, keys, LastCheckpoint(from, xs[..n]), xs[n])
  {
    var n := |xs| - 1;
    assert LastCheckpoint(from, xs[..n]) == PriorOf(from, xs, n);
  }

  ghost predicate SomeCollision(c: Crypto, xs: seq<SignedEntry>, ys: seq<SignedEntry>)
    requires |xs| == |ys|
  {
    exists i :: 0 <= i < |xs| && Collides(c, xs[i], ys[i])
  }

  predicate SameContents(xs: seq<SignedEntry>, ys: seq<SignedEntry>) {
    |xs| == |ys| && forall i | 0 <= i < |xs| :: SameContent(xs[i], ys[i])
  }

  /** Two accepted entries with one digest agree, and so do the checkpoints before them. */
  lemma SameEndSamePrior(
    c: Crypto, keys: map<string, string>, p: Checkpoint, x: SignedEntry, q: Checkpoint, y: SignedEntry)
    requires T.WellFormed(x.event) && T.WellFormed(y.event)
    requires EntryAccepted(c, keys, p, x) && EntryAccepted(c, keys, q, y) && After(x) == After(y)
    ensures Collides(c, x, y) || (SameContent(x, y) && p == q)
  {
    MaterialDeterminesContent(x, y);
  }

  lemma SameContentSameEnd(
    c: Crypto, keys: map<string, string>, p: Checkpoint, x: SignedEntry, q: Checkpoint, y: SignedEntry)
    requires T.WellFormed(x.event) && T.WellFormed(y.event)
    requires EntryAccepted(c, keys, p, x) && EntryAccepted(c, keys, q, y) && SameContent(x, y)
    ensures After(x) == After(y)
  {
    MaterialDeterminesContent(x, y);
  }

  lemma AppendSame(xs: seq<SignedEntry>, x: SignedEntry, ys: seq<SignedEntry>, y: SignedEntry)
    requires SameContents(xs, ys) && SameContent(x, y)
    ensures SameContents(xs + [x], ys + [y])
  {
  }

  lemma AppendCollision(c: Crypto, xs: seq<SignedEntry>, x: SignedEntry, ys: seq<SignedEntry>, y: SignedEntry)
    requires |xs| == |ys| && (SomeCollision(c, xs, ys) || Collides(c, x, y))
    ensures SomeCollision(c, xs + [x], ys + [y])
  {
    var vs, ws := xs + [x], ys + [y];
    if Collides(c, x, y) {
      assert Collides(c, vs[|xs|], ws[|xs|]);
    } else {
      var i :| 0 <= i < |xs| && Collides(c, xs[i], ys[i]);
      assert Collides(c, vs[i], ws[i]);
    }
  }

  lemma SplitLast(xs: seq<SignedEntry>)
    requires xs != []
    ensures xs == xs[..|xs| - 1] + [xs[|xs| - 1]]
  {
  }

  /** Two accepted exports that leave one checkpoint and reach one checkpoint have the same contents entry by
      entry, or exhibit two different texts with the same digest. */
  lemma {:induction false} CheckpointFixesContents(
    c: Crypto, keys: map<string, string>, from: Checkpoint, xs: seq<SignedEntry>, ys: seq<SignedEntry>)
    requires EventsWellFormed(xs) && EventsWellFormed(ys)
    requires ChainAccepted(c, keys, from, xs) && ChainAccepted(c, keys, from, ys)
    requires LastCheckpoint(from, xs) == LastCheckpoint(from, ys)
    ensures |xs| == |ys|
    ensures SameContents(xs, ys) || SomeCollision(c, xs, ys)
    decreases |xs|
  {
    ChainCounts(c, keys, from, xs);
    ChainCounts(c, keys, from, ys);
    if xs != [] {
      var n := |xs| - 1;
      var x, y := xs[n], ys[n];
      ChainAllButLast(c, keys, from, xs);
      ChainAllButLast(c, keys, from, ys);
      SplitLast(xs);
      SplitLast(ys);
      SameEndSamePrior(c, keys, LastCheckpoint(from, xs[..n]), x, LastCheckpoint(from, ys[..n]), y);
      if Collides(c, x, y) {
        AppendCollision(c, xs[..n], x, ys[..n], y);
      } else {
        CheckpointFixesContents(c, keys, from, xs[..n], ys[..n]);
        if SameContents(xs[..n], ys[..n]) {
          AppendSame(xs[..n], x, ys[..n], y);
        } else {
          AppendCollision(c, xs[..n], x, ys[..n], y);
        }
      }
    }
  }

  /** No two different texts of the two exports share a digest. */
  predicate CollisionFree(c: Crypto, xs: seq<SignedEntry>, ys: seq<SignedEntry>) {
    forall x, y | x in xs && y in ys :: !Collides(c, x, y)
  }

  lemma NoCollision(c: Crypto, xs: seq<SignedEntry>, ys: seq<SignedEntry>)
    requires CollisionFree(c, xs, ys) && |xs| == |ys|
    ensures !SomeCollision(c, xs, ys)
  {
    forall i | 0 <= i < |xs| ensures !Collides(c, xs[i], ys[i]) {
      assert xs[i] in xs && ys[i] in ys;
    }
  }

  lemma SameContentsSameCheckpoint(
    c: Crypto, keys: map<string, string>, from: Checkpoint, xs: seq<SignedEntry>, ys: seq<SignedEntry>)
    requires EventsWellFormed(xs) && EventsWellFormed(ys)
    requires ChainAccepted(c, keys, from, xs) && ChainAccepted(c, keys, from, ys)
    requires SameContents(xs, ys)
    ensures LastCheckpoint(from, xs) == LastCheckpoint(from, ys)
  {
    if xs != [] {
      var n := |xs| - 1;
      ChainAllButLast(c, keys, from, xs);
      ChainAllButLast(c, keys, from, ys);
      SameContentSameEnd(
        c, keys, LastCheckpoint(from, xs[..n]), xs[n], LastCheckpoint(from, ys[..n]), ys[n]);
    }
  }

  /** With a collision-free hash, two accepted exports reach the same checkpoint exactly when they have the same
      contents. */
  lemma CheckpointIffContents(
    c: Crypto, keys: map<string, string>, from: Checkpoint, xs: seq<SignedEntry>, ys: seq<SignedEntry>)
    requires CollisionFree(c, xs, ys) && EventsWellFormed(xs) && EventsWellFormed(ys)
    requires ChainAccepted(c, keys, from, xs) && ChainAccepted(c, keys, from, ys)
    ensures LastCheckpoint(from, xs) == LastCheckpoint(from, ys) <==> SameContents(xs, ys)
  {
    if LastCheckpoint(from, xs) == LastCheckpoint(from, ys) {
      CheckpointFixesContents(c, keys, from, xs, ys);
      NoCollision(c, xs, ys);
    }
    if SameContents(xs, ys) {
      SameContentsSameCheckpoint(c, keys, from, xs, ys);
    }
  }
}
