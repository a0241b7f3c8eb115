/** Authenticity of signed exports: what the verifier accepts was signed by the holders of the keys, and if those sign
    only what a capture stores, it is the audit log. */
module AuditAuthenticity {
  import opened Wrappers
  import opened AuditExport
  import opened AuditIntegrity
  import R = AuditRuns
  import T = CanonicalText

  /** What was signed: digests under key IDs. */
  type Signings = set<(string, string)>

  /** Whoever put the entries together forged no signature: each one that verifies under a known key is of a digest
      that was signed under that key. */
  predicate Unforged(c: Crypto, keys: map<string, string>, signed: Signings, entries: seq<SignedEntry>) {
    forall e | e in entries && e.keyId in keys && c.verify(keys[e.keyId], e.digest, e.signature) ::
      (e.keyId, e.digest) in signed
  }

  /** Every entry of an accepted export was signed, under the key it names, for the text it carries. */
  lemma {:induction false} AcceptedIsSigned(
    c: Crypto, keys: map<string, string>, signed: Signings, from: Checkpoint, entries: seq<SignedEntry>, i: nat)
    requires ChainAccepted(c, keys, from, entries) && Unforged(c, keys, signed, entries) && i < |entries|
    ensures entries[i].keyId in keys
    ensures (entries[i].keyId, c.hash(Material(entries[i]))) in signed
  {
    LinkAccepted(c, keys, from, entries, i);
    assert entries[i] in entries;
  }

  /** What no entry of an accepted export may have: an unknown key, a signature that does not verify, a digest of
      another text, a text above 256 KiB, or another place than the next one. */
  predicate Spoiled(c: Crypto, keys: map<string, string>, prior: Checkpoint, e: SignedEntry) {
    || e.keyId !in keys || !c.verify(keys[e.keyId], e.digest, e.signature)
    || e.digest != c.hash(Material(e)) || Utf8Length(Material(e)) > 262144
    || e.previousSequence != prior.sequence || e.previousDigest != prior.digest
    || e.sequence != prior.sequence + 1
  }

  /** A single spoiled entry spoils the export, whatever the others are. */
  lemma {:induction false} ForgeryIsRefused(
    c: Crypto, keys: map<string, string>, from: Checkpoint, entries: seq<SignedEntry>, i: nat)
    requires i < |entries| && Spoiled(c, keys, PriorOf(from, entries, i), entries[i])
    ensures !ChainAccepted(c, keys, from, entries)
  {
    RejectedAt(c, keys, from, entries, i);
  }

  /** What captures signed and stored. */
  function Stored(chain: seq<SignedEntry>): Signings {
    set e | e in chain :: (e.keyId, e.digest)
  }

  /** Two texts with one digest, one of the export and one of the chain. */
  ghost predicate Collision(c: Crypto, xs: seq<SignedEntry>, chain: seq<SignedEntry>) {
    exists x, y :: x in xs && y in chain && Collides(c, x, y)
  }

  lemma {:induction false} AcceptedPosition(
    c: Crypto, keys: map<string, string>, from: Checkpoint, xs: seq<SignedEntry>, i: nat)
    requires ChainAccepted(c, keys, from, xs) && i < |xs|
    ensures xs[i].sequence == from.sequence + i + 1
  {
    LinkAccepted(c, keys, from, xs, i);
    if i > 0 {
      AcceptedPosition(c, keys, from, xs, i - 1);
    }
  }

  /** Two accepted entries with one digest have the same contents, unless their texts collide. */
  lemma SameDigestSameContent(
    c: Crypto, keys: map<string, string>, p: Checkpoint, x: SignedEntry, q: Checkpoint, y: SignedEntry)
    requires T.WellFormed(x.event) && T.WellFormed(y.event)
    requires EntryAccepted(c, keys, p, x) && EntryAccepted(c, keys, q, y) && x.digest == y.digest
    ensures Collides(c, x, y) || SameContent(x, y)
  {
    MaterialDeterminesContent(x, y);
  }

  lemma StoredEntry(chain: seq<SignedEntry>, keyId: string, digest: string) returns (j: nat)
    requires (keyId, digest) in Stored(chain)
    ensures j < |chain| && chain[j].digest == digest
  {
    var y :| y in chain && (y.keyId, y.digest) == (keyId, digest);
    j :| 0 <= j < |chain| && chain[j] == y;
  }

  /** An accepted entry that was signed for the chain has the contents of the chain's entry at its place. */
  lemma SignedIsChain(
    w: R.World, chain: seq<SignedEntry>, k: nat, from: Checkpoint, xs: seq<SignedEntry>, i: nat)
    requires ChainAccepted(w.c, w.keys, START, chain) && ChainAccepted(w.c, w.keys, from, xs) && i < |xs|
    requires from.sequence == k && Unforged(w.c, w.keys, Stored(chain), xs) && !Collision(w.c, xs, chain)
    requires EventsWellFormed(xs) && EventsWellFormed(chain)
    ensures k + i < |chain| && SameContent(xs[i], chain[k + i])
  {
    var j := SignedFor(w, chain, from, xs, i);
    NoCollisionAt(w.c, xs, i, chain, j);
    AgreeAt(w, chain, j, from, xs, i);
    AcceptedPosition(w.c, w.keys, from, xs, i);
    R.ChainPosition(w, chain, j);
    assert j == k + i;
  }

  lemma NoCollisionAt(c: Crypto, xs: seq<SignedEntry>, i: nat, chain: seq<SignedEntry>, j: nat)
    requires i < |xs| && j < |chain| && !Collision(c, xs, chain)
    ensures !Collides(c, xs[i], chain[j])
  {
    var x, y := xs[i], chain[j];
    assert x in xs && y in chain;
  }

  lemma AgreeAt(w: R.World, chain: seq<SignedEntry>, j: nat, from: Checkpoint, xs: seq<SignedEntry>, i: nat)
    requires ChainAccepted(w.c, w.keys, START, chain) && ChainAccepted(w.c, w.keys, from, xs)
    requires i < |xs| && j < |chain| && xs[i].digest == chain[j].digest
    requires T.WellFormed(xs[i].event) && T.WellFormed(chain[j].event)
    ensures Collides(w.c, xs[i], chain[j]) || SameContent(xs[i], chain[j])
  {
    LinkAccepted(w.c, w.keys, from, xs, i);
    LinkAccepted(w.c, w.keys, START, chain, j);
    SameDigestSameContent(w.c, w.keys, PriorOf(from, xs, i), xs[i], PriorOf(START, chain, j), chain[j]);
  }

  lemma SignedFor(
    w: R.World, chain: seq<SignedEntry>, from: Checkpoint, xs: seq<SignedEntry>, i: nat) returns (j: nat)
    requires ChainAccepted(w.c, w.keys, from, xs) && i < |xs|
    requires Unforged(w.c, w.keys, Stored(chain), xs)
    ensures j < |chain| && chain[j].digest == xs[i].digest
  {
    AcceptedIsSigned(w.c, w.keys, Stored(chain), from, xs, i);
    LinkAccepted(w.c, w.keys, from, xs, i);
    j := StoredEntry(chain, xs[i].keyId, xs[i].digest);
  }

  /** In every run, an export that is accepted from any checkpoint of the chain tells the audit log from there on,
      row by row and with the contents that were signed, unless someone forged a signature or found a collision. */
  lemma AcceptedExportIsTheLog(w: R.World, events: seq<R.Event>, k: nat, xs: seq<SignedEntry>)
    requires WellFormedCrypto(w.c) && R.RunOk(w, R.INITIAL, events)
    requires k <= |R.Run(w, R.INITIAL, events).chain|
    requires var chain := R.Run(w, R.INITIAL, events).chain;
             && ChainAccepted(w.c, w.keys, PriorOf(START, chain, k), xs)
             && Unforged(w.c, w.keys, Stored(chain), xs)
             && EventsWellFormed(xs) && EventsWellFormed(chain)
    ensures var s := R.Run(w, R.INITIAL, events);
            || Collision(w.c, xs, s.chain)
            || (&& k + |xs| <= |s.chain| && SameContents(xs, s.chain[k..k + |xs|])
                && forall i | 0 <= i < |xs| ::
                     && xs[i].sequence == k + i + 1 && xs[i].sequence in s.logged
                     && T.Meaning(xs[i].event) == T.Meaning(s.logged[xs[i].sequence]))
  {
    var s := R.Run(w, R.INITIAL, events);
    R.InitialOk(w);
    R.RunKeeps(w, R.INITIAL, events);
    R.PriorInChain(w, s.chain, k);
    if !Collision(w.c, xs, s.chain) {
      ExportOfChain(w, s.chain, k, xs);
      StretchTellsLog(s.logged, s.chain, k, xs);
      forall i | 0 <= i < |xs| ensures xs[i].sequence == k + i + 1 {
        AcceptedPosition(w.c, w.keys, PriorOf(START, s.chain, k), xs, i);
      }
    }
  }

  lemma ExportOfChain(w: R.World, chain: seq<SignedEntry>, k: nat, xs: seq<SignedEntry>)
    requires k <= |chain| && ChainAccepted(w.c, w.keys, START, chain)
    requires ChainAccepted(w.c, w.keys, PriorOf(START, chain, k), xs) && PriorOf(START, chain, k).sequence == k
    requires Unforged(w.c, w.keys, Stored(chain), xs) && !Collision(w.c, xs, chain)
    requires EventsWellFormed(xs) && EventsWellFormed(chain)
    ensures k + |xs| <= |chain| && SameContents(xs, chain[k..k + |xs|])
  {
    forall i | 0 <= i < |xs| ensures k + i < |chain| && SameContent(xs[i], chain[k + i]) {
      SignedIsChain(w, chain, k, PriorOf(START, chain, k), xs, i);
    }
    ExportIsStretch(chain, k, xs);
  }

  lemma StretchTellsLog(logged: map<nat, T.Value>, chain: seq<SignedEntry>, k: nat, xs: seq<SignedEntry>)
    requires k + |xs| <= |chain| && SameContents(xs, chain[k..k + |xs|])
    requires forall e | e in chain :: e.sequence in logged && logged[e.sequence] == e.event
    ensures forall i | 0 <= i < |xs| ::
              xs[i].sequence in logged && T.Meaning(xs[i].event) == T.Meaning(logged[xs[i].sequence])
  {
    forall i | 0 <= i < |xs|
      ensures xs[i].sequence in logged && T.Meaning(xs[i].event) == T.Meaning(logged[xs[i].sequence])
    {
      assert SameContent(xs[i], chain[k..k + |xs|][i]) && chain[k + i] in chain;
    }
  }

  lemma ExportIsStretch(chain: seq<SignedEntry>, k: nat, xs: seq<SignedEntry>)
    requires k <= |chain|
    requires forall i | 0 <= i < |xs| :: k + i < |chain| && SameContent(xs[i], chain[k + i])
    ensures k + |xs| <= |chain| && SameContents(xs, chain[k..k + |xs|])
  {
    if xs != [] {
      var last := xs[|xs| - 1];
    }
  }
}
