/** The hand-written byte-level case-insensitive matcher that both front-ends
    carry a copy of (`equalIgnoreCase`, `containsIgnoreCaseHelper`,
    `containsIgnoreCase`). Bytes are `bv8`, so `b + 32` and `b - 32` wrap
    modulo 256 exactly as Go's `byte` arithmetic does. */
module IgnoreCase {
  import opened Text

  /** Two bytes are accepted as equal when they are equal or differ by 32
      in either direction (modulo 256). */
  predicate ByteMatches(x: bv8, y: bv8) {
    x == y || x == y + 32 || x == y - 32
  }

  /** Reference meaning of `equalIgnoreCase(a, b)`. */
  predicate SameIgnoringCase(a: Bytes, b: Bytes) {
    |a| == |b| && forall i | 0 <= i < |a| :: ByteMatches(a[i], b[i])
  }

  /** The window of `s` starting at `i` matches `sub`. */
  predicate MatchesAt(s: Bytes, sub: Bytes, i: nat) {
    i + |sub| <= |s| && SameIgnoringCase(s[i..i + |sub|], sub)
  }

  /** Reference meaning of `containsIgnoreCase(s, sub)`: some window matches. */
  predicate ContainsIgnoringCase(s: Bytes, sub: Bytes) {
    exists i: nat | i <= |s| :: MatchesAt(s, sub, i)
  }

  /** `equalIgnoreCase`: a length check, then an early-return scan. */
  method EqualIgnoreCase(a: Bytes, b: Bytes) returns (eq: bool)
    ensures eq == SameIgnoringCase(a, b)
    ensures |a| != |b| ==> !eq
  {
    if |a| != |b| {
      return false;
    }
    var i := 0;
    while i < |a|
      invariant 0 <= i <= |a|
      invariant forall j | 0 <= j < i :: ByteMatches(a[j], b[j])
    {
      if a[i] != b[i] && a[i] != b[i] + 32 && a[i] != b[i] - 32 {
        return false;
      }
      i := i + 1;
    }
    return true;
  }

  /** `containsIgnoreCaseHelper`: try every window start `0 <= i <= len(s)-len(sub)`. */
  method ContainsIgnoreCaseHelper(s: Bytes, sub: Bytes) returns (found: bool)
    ensures found == ContainsIgnoringCase(s, sub)
  {
    var i := 0;
    while i <= |s| - |sub|
      invariant 0 <= i
      invariant |sub| <= |s| ==> i <= |s| - |sub| + 1
      invariant forall j: nat | j < i :: !MatchesAt(s, sub, j)
    {
      var eq := EqualIgnoreCase(s[i..i + |sub|], sub);
      if eq {
        assert MatchesAt(s, sub, i);
        return true;
      }
      i := i + 1;
    }
    forall j: nat ensures !MatchesAt(s, sub, j) {
      if j >= i {
        assert j + |sub| > |s|;
      }
    }
    return false;
  }

  /** `containsIgnoreCase`: `len(s) >= len(sub) && (s == sub || helper(s, sub))`. */
  method ContainsIgnoreCase(s: Bytes, sub: Bytes) returns (r: bool)
    ensures r == ContainsIgnoringCase(s, sub)
    ensures |sub| > |s| ==> !r
  {
    if |s| < |sub| {
      r := false;
      NoMatchWhenLonger(s, sub);
    } else if s == sub {
      r := true;
      SameIgnoringCaseReflexive(s);
      assert s[0..|sub|] == s;
      assert MatchesAt(s, sub, 0);
    } else {
      r := ContainsIgnoreCaseHelper(s, sub);
    }
  }

  // ---- properties ----

  lemma ByteMatchesSymmetric(x: bv8, y: bv8)
    ensures ByteMatches(x, y) <==> ByteMatches(y, x)
  {
  }

  lemma SameIgnoringCaseReflexive(a: Bytes)
    ensures SameIgnoringCase(a, a)
  {
  }

  lemma SameIgnoringCaseSymmetric(a: Bytes, b: Bytes)
    ensures SameIgnoringCase(a, b) <==> SameIgnoringCase(b, a)
  {
    if |a| == |b| {
      forall i | 0 <= i < |a| ensures ByteMatches(a[i], b[i]) <==> ByteMatches(b[i], a[i]) {
        ByteMatchesSymmetric(a[i], b[i]);
      }
    }
  }

  /** A search string longer than the name never matches. */
  lemma NoMatchWhenLonger(s: Bytes, sub: Bytes)
    requires |sub| > |s|
    ensures !ContainsIgnoringCase(s, sub)
  {
  }

  /** The empty search string matches every name (at window 0). */
  lemma EmptyAlwaysMatches(s: Bytes)
    ensures ContainsIgnoringCase(s, [])
  {
    assert s[0..0] == [];
    assert MatchesAt(s, [], 0);
  }

  /** A name contains itself. */
  lemma ContainsItself(s: Bytes)
    ensures ContainsIgnoringCase(s, s)
  {
    assert s[0..|s|] == s;
    SameIgnoringCaseReflexive(s);
    assert MatchesAt(s, s, 0);
  }

  predicate IsUpper(x: bv8) { 0x41 <= x <= 0x5A }
  predicate IsLower(x: bv8) { 0x61 <= x <= 0x7A }

  function ToLower(x: bv8): bv8 {
    if IsUpper(x) then x + 32 else x
  }

  /** On ASCII letters the matcher is exactly case folding. */
  lemma LettersMatchIffSameLetter(x: bv8, y: bv8)
    requires IsUpper(x) || IsLower(x)
    requires IsUpper(y) || IsLower(y)
    ensures ByteMatches(x, y) <==> ToLower(x) == ToLower(y)
  {
  }

  /** The matcher is not restricted to letters: a digit `0` (0x30) matches
      `P` (0x50), a space matches `@`, and the comparison wraps around 256. */
  lemma NonLettersAlsoMatch()
    ensures ByteMatches(0x30, 0x50)
    ensures ByteMatches(0x20, 0x40)
    ensures ByteMatches(0x10, 0xF0)
    ensures ContainsIgnoringCase([0x31, 0x30, 0x38, 0x30], [0x50])
  {
    var s: Bytes := [0x31, 0x30, 0x38, 0x30];
    assert s[1..2] == [0x30];
    assert MatchesAt(s, [0x50], 1);
  }

  /** The accepted relation is not transitive: `A` ~ `a` ~ 0x81, yet `A` !~ 0x81. */
  lemma ByteMatchesNotTransitive()
    ensures ByteMatches(0x41, 0x61) && ByteMatches(0x61, 0x81) && !ByteMatches(0x41, 0x81)
  {
  }
}
