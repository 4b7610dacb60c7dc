/** Where a text occurs inside another: the character-level view both the loader and the printer's layout use. */
module Text {
  /**
   * The `k`-th character of `t`. `At` speaks of its characters through this
   * term, so a fact `At(s, a, t)` is only read at the positions a proof names.
   */
  function CharOf(t: string, k: nat): char
    requires k < |t|
  {
    t[k]
  }

  /** The text `t` occurs in `s` at position `a`. */
  predicate At(s: string, a: nat, t: string) {
    a + |t| <= |s| && forall k: nat {:trigger CharOf(t, k)} :: k < |t| ==> CharOf(t, k) == s[a + k]
  }

  lemma {:induction false} AtSplit(s: string, a: nat, x: string, y: string)
    requires At(s, a, x + y)
    ensures At(s, a, x) && At(s, a + |x|, y)
  {
    forall k: nat | k < |x|
      ensures CharOf(x, k) == s[a + k]
    {
      assert CharOf(x + y, k) == x[k];
    }
    forall k: nat | k < |y|
      ensures CharOf(y, k) == s[a + |x| + k]
    {
      assert CharOf(x + y, |x| + k) == y[k];
    }
  }

  lemma {:induction false} AtIndex(s: string, a: nat, t: string, k: nat)
    requires At(s, a, t) && k < |t|
    ensures s[a + k] == t[k]
  {
    assert CharOf(t, k) == t[k];
  }

  /** The occurrence is the slice of `s` it covers. */
  lemma {:induction false} AtSlice(s: string, a: nat, t: string)
    requires At(s, a, t)
    ensures s[a..a + |t|] == t
  {
    forall k | 0 <= k < |t|
      ensures s[a..a + |t|][k] == t[k]
    {
      AtIndex(s, a, t, k);
    }
  }

  /** A text occurs at the start of itself. */
  lemma {:induction false} AtWhole(s: string)
    ensures At(s, 0, s)
  {
  }

  /** The occurrence, stated with a slice. */
  lemma {:induction false} AtIff(s: string, a: nat, t: string)
    requires a + |t| <= |s|
    ensures At(s, a, t) <==> s[a..a + |t|] == t
  {
    if At(s, a, t) {
      AtSlice(s, a, t);
    } else {
      var k :| 0 <= k < |t| && t[k] != s[a + k];
      assert s[a..a + |t|][k] == s[a + k];
    }
  }

  /** `std::string`'s `<`: lexicographic by character code. */
  predicate Less(a: string, b: string) {
    if a == [] then b != []
    else if b == [] then false
    else if a[0] != b[0] then a[0] < b[0]
    else Less(a[1..], b[1..])
  }

  lemma {:induction false} LessIrreflexive(a: string)
    ensures !Less(a, a)
  {
    if a != [] {
      LessIrreflexive(a[1..]);
    }
  }

  lemma {:induction false} LessAsymmetric(a: string, b: string)
    requires Less(a, b)
    ensures !Less(b, a)
  {
    if a != [] && b != [] && a[0] == b[0] {
      LessAsymmetric(a[1..], b[1..]);
    }
  }

  lemma {:induction false} LessTransitive(a: string, b: string, c: string)
    requires Less(a, b) && Less(b, c)
    ensures Less(a, c)
  {
    if a != [] && b != [] && c != [] && a[0] == b[0] && b[0] == c[0] {
      LessTransitive(a[1..], b[1..], c[1..]);
    }
  }

  lemma {:induction false} LessTotal(a: string, b: string)
    requires a != b
    ensures Less(a, b) || Less(b, a)
  {
    if a != [] && b != [] && a[0] == b[0] {
      assert a == [a[0]] + a[1..] && b == [b[0]] + b[1..];
      LessTotal(a[1..], b[1..]);
    }
  }
}
