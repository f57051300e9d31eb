/** The string normalisations the handlers apply to their inputs: Python's `str.strip()`
    on form fields and `str.lower()` on the classifier's label. */
module Text {

  /** The characters Python's `str.isspace()` accepts, which `str.strip()` removes. */
  predicate IsSpace(c: char) {
    ('\t' <= c <= '\r') || ('\U{1C}' <= c <= ' ') || c == '\U{85}' || c == '\U{A0}'
    || c == '\U{1680}' || ('\U{2000}' <= c <= '\U{200A}') || c == '\U{2028}' || c == '\U{2029}'
    || c == '\U{202F}' || c == '\U{205F}' || c == '\U{3000}'
  }

  predicate AllSpace(s: string) {
    forall i :: 0 <= i < |s| ==> IsSpace(s[i])
  }

  /** Neither starts nor ends with whitespace. */
  predicate IsTrimmed(s: string) {
    s == [] || (!IsSpace(s[0]) && !IsSpace(s[|s| - 1]))
  }

  /** Length of the longest all-whitespace prefix of `s`. */
  function LeadingSpaces(s: string): (k: nat)
    ensures k <= |s|
    ensures forall i :: 0 <= i < k ==> IsSpace(s[i])
    ensures k < |s| ==> !IsSpace(s[k])
  {
    if |s| > 0 && IsSpace(s[0]) then
      var tail := s[1..];
      var k := LeadingSpaces(tail);
      assert forall i :: 1 <= i < 1 + k ==> s[i] == tail[i - 1];
      1 + k
    else 0
  }

  /** Length of the longest all-whitespace suffix of `s`. */
  function TrailingSpaces(s: string): (k: nat)
    ensures k <= |s|
    ensures forall i :: |s| - k <= i < |s| ==> IsSpace(s[i])
    ensures k < |s| ==> !IsSpace(s[|s| - 1 - k])
  {
    if |s| > 0 && IsSpace(s[|s| - 1]) then
      var init := s[..|s| - 1];
      var k := TrailingSpaces(init);
      assert forall i :: |init| - k <= i < |init| ==> s[i] == init[i];
      1 + k
    else 0
  }

  /** Python's `s.strip()`: `s` without its leading and trailing whitespace. */
  function Strip(s: string): (r: string)
    ensures IsTrimmed(r) && |r| <= |s|
  {
    var rest := s[LeadingSpaces(s)..];
    var r := rest[..|rest| - TrailingSpaces(rest)];
    assert r != [] ==> r[0] == rest[0] && r[|r| - 1] == rest[|rest| - 1 - TrailingSpaces(rest)];
    r
  }

  /** What strip removes is whitespace: the result is the infix of `s` that starts after
      the leading whitespace run, and every character after it is whitespace too. */
  lemma StripSplits(s: string)
    ensures var a, r := LeadingSpaces(s), Strip(s);
      a + |r| <= |s| && r == s[a..a + |r|]
      && (forall i :: 0 <= i < a ==> IsSpace(s[i]))
      && (forall i :: a + |r| <= i < |s| ==> IsSpace(s[i]))
  {
    var a := LeadingSpaces(s);
    var rest := s[a..];
    var t := TrailingSpaces(rest);
    var r := Strip(s);
    assert |r| == |rest| - t;
    assert r == s[a..a + |r|] by {
      assert r == rest[..|rest| - t];
      forall i | 0 <= i < |r| ensures r[i] == s[a + i] {
        assert r[i] == rest[i];
      }
    }
    forall i | a + |r| <= i < |s| ensures IsSpace(s[i]) {
      assert s[i] == rest[i - a];
    }
  }

  /** The length of the leading whitespace run of `a + c` is `|a|` when `a` is whitespace
      and `c` does not start with whitespace. */
  lemma LeadingSpacesOfPadded(a: string, c: string)
    requires AllSpace(a)
    requires c == [] || !IsSpace(c[0])
    ensures LeadingSpaces(a + c) == |a|
  {
    var s := a + c;
    assert forall i :: 0 <= i < |a| ==> s[i] == a[i];
    assert c != [] ==> s[|a|] == c[0];
  }

  lemma TrailingSpacesOfPadded(c: string, b: string)
    requires AllSpace(b)
    requires c == [] || !IsSpace(c[|c| - 1])
    ensures TrailingSpaces(c + b) == |b|
  {
    var s := c + b;
    assert forall i :: 0 <= i < |b| ==> s[|c| + i] == b[i];
    assert c != [] ==> s[|c| - 1] == c[|c| - 1];
  }

  /** The characterisation of strip: whenever `s` splits into whitespace, a trimmed middle
      `t` and whitespace, `Strip(s)` is that middle. */
  lemma {:induction false} StripUnique(a: string, t: string, b: string)
    requires AllSpace(a) && AllSpace(b) && IsTrimmed(t)
    ensures Strip(a + t + b) == t
  {
    var s := a + t + b;
    if t == [] {
      assert AllSpace(s) by {
        forall i | 0 <= i < |s| ensures IsSpace(s[i]) {
          if i < |a| { assert s[i] == a[i]; } else { assert s[i] == b[i - |a|]; }
        }
      }
      var k := LeadingSpaces(s);
      assert k == |s|;
      assert Strip(s) == [];
    } else {
      assert s == a + (t + b);
      LeadingSpacesOfPadded(a, t + b);
      var rest := s[|a|..];
      assert rest == t + b;
      TrailingSpacesOfPadded(t, b);
      assert rest[..|rest| - |b|] == t;
    }
  }

  /** Stripping twice is stripping once. */
  lemma StripIdempotent(s: string)
    ensures Strip(Strip(s)) == Strip(s)
  {
    var r := Strip(s);
    assert r == [] + r + [];
    StripUnique([], r, []);
  }

  /** A string with no surrounding whitespace is left alone. */
  lemma StripTrimmed(s: string)
    requires IsTrimmed(s)
    ensures Strip(s) == s
  {
    assert s == [] + s + [];
    StripUnique([], s, []);
  }

  /** Python's `str.lower()` on one character, for the ASCII letters. */
  function LowerChar(c: char): char {
    if 'A' <= c <= 'Z' then (c as int + 32) as char else c
  }

  predicate IsLower(s: string) {
    forall i :: 0 <= i < |s| ==> !('A' <= s[i] <= 'Z')
  }

  /** Python's `s.lower()`, for the ASCII letters: every upper-case letter replaced by its
      lower-case partner, everything else kept, so the result has no upper-case letter
      and a string without one is its own lower-case form. */
  function Lower(s: string): (r: string)
    ensures |r| == |s| && IsLower(r)
    ensures forall i :: 0 <= i < |s| && 'A' <= s[i] <= 'Z' ==> r[i] as int == s[i] as int + 32
    ensures forall i :: 0 <= i < |s| && !('A' <= s[i] <= 'Z') ==> r[i] == s[i]
    ensures IsLower(s) ==> r == s
  {
    seq(|s|, i requires 0 <= i < |s| => LowerChar(s[i]))
  }
}
