/** Texts joined by a separator, as the source builds the keys of its maps. */
module KeyText {
  lemma SeparatorInside(a: string, x: string, b: string, y: string)
    requires a + ":" + x == b + ":" + y && |a| < |b|
    ensures ':' in b
  {
    var t := b + ":" + y;
    assert (a + ":" + x)[|a|] == ':';
    assert t[|a|] == b[|a|];
  }

  /** What stands before the first separator can be read back. */
  lemma SeparatedUnique(a: string, x: string, b: string, y: string)
    requires ':' !in a && ':' !in b && a + ":" + x == b + ":" + y
    ensures a == b && x == y
  {
    assert |a| < |b| ==> ':' in b by {
      if |a| < |b| {
        SeparatorInside(a, x, b, y);
      }
    }
    assert |b| < |a| ==> ':' in a by {
      if |b| < |a| {
        SeparatorInside(b, y, a, x);
      }
    }
    var s, t := a + ":" + x, b + ":" + y;
    assert a == s[..|a|] && b == t[..|b|];
    assert x == s[|a| + 1..] && y == t[|b| + 1..];
  }

  /** What stands before a common ending can be read back. */
  lemma EndingUnique(a: string, b: string, ending: string)
    requires a + ending == b + ending
    ensures a == b
  {
    assert |a| == |b|;
    assert a == (a + ending)[..|a|] && b == (b + ending)[..|a|];
  }
}
