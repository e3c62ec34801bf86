/** Python's `str.strip()` with no arguments: remove leading and trailing
    whitespace, where whitespace is what `str.isspace()` accepts. */
module Text {

  /** The characters for which Python's `str.isspace()` is true: tab, line
      feed, vertical tab, form feed, carriage return, the four information
      separators, space, next line, no-break space, and the Unicode space
      separators, line separator and paragraph separator. */
  const Whitespace: set<char> := {
    '\t', '\n', '\U{0B}', '\U{0C}', '\r', '\U{1C}', '\U{1D}', '\U{1E}', '\U{1F}', ' ', '\U{85}', '\U{A0}',
    '\U{1680}', '\U{2000}', '\U{2001}', '\U{2002}', '\U{2003}', '\U{2004}', '\U{2005}', '\U{2006}',
    '\U{2007}', '\U{2008}', '\U{2009}', '\U{200A}', '\U{2028}', '\U{2029}', '\U{202F}', '\U{205F}', '\U{3000}'
  }

  predicate IsSpace(c: char) {
    c in Whitespace
  }

  predicate AllSpace(s: string) {
    forall k :: 0 <= k < |s| ==> IsSpace(s[k])
  }

  /** How many whitespace characters `s` starts with. */
  function LeadingSpace(s: string): (n: nat)
    ensures n <= |s|
  {
    if s != [] && IsSpace(s[0]) then 1 + LeadingSpace(s[1..]) else 0
  }

  /** How many whitespace characters `s` ends with. */
  function TrailingSpace(s: string): (n: nat)
    ensures n <= |s|
  {
    if s != [] && IsSpace(s[|s| - 1]) then 1 + TrailingSpace(s[..|s| - 1]) else 0
  }

  /** Python's `s.strip()`: `s` without its leading whitespace, then without
      the trailing whitespace of what is left. */
  function Trim(s: string): (r: string)
    ensures |r| <= |s|
  {
    var t := s[LeadingSpace(s)..];
    t[..|t| - TrailingSpace(t)]
  }

  /** `LeadingSpace` counts exactly the whitespace prefix. */
  lemma {:induction false} LeadingSpaceIsPrefix(s: string)
    ensures AllSpace(s[..LeadingSpace(s)])
    ensures LeadingSpace(s) < |s| ==> !IsSpace(s[LeadingSpace(s)])
  {
    if s != [] && IsSpace(s[0]) {
      LeadingSpaceIsPrefix(s[1..]);
      var n := LeadingSpace(s[1..]);
      forall k | 0 <= k < n + 1 ensures IsSpace(s[k]) {
        if k > 0 { assert s[k] == s[1..][..n][k - 1]; }
      }
    }
  }

  /** `TrailingSpace` counts exactly the whitespace suffix. */
  lemma {:induction false} TrailingSpaceIsSuffix(s: string)
    ensures AllSpace(s[|s| - TrailingSpace(s)..])
    ensures TrailingSpace(s) < |s| ==> !IsSpace(s[|s| - 1 - TrailingSpace(s)])
  {
    if s != [] && IsSpace(s[|s| - 1]) {
      var init := s[..|s| - 1];
      TrailingSpaceIsSuffix(init);
      var n := TrailingSpace(init);
      forall k | |s| - (n + 1) <= k < |s| ensures IsSpace(s[k]) {
        if k < |s| - 1 { assert s[k] == init[|init| - n..][k - (|init| - n)]; }
      }
    }
  }

  /** `r` is what remains of `s` once `i` whitespace characters are cut off the
      front and all the whitespace after `r` is cut off the back, and `r`
      neither starts nor ends with whitespace. */
  predicate IsStripAt(s: string, r: string, i: int) {
    && 0 <= i && i + |r| <= |s|
    && r == s[i..i + |r|]
    && (forall k :: 0 <= k < i ==> IsSpace(s[k]))
    && (forall k :: i + |r| <= k < |s| ==> IsSpace(s[k]))
    && (r != [] ==> !IsSpace(r[0]) && !IsSpace(r[|r| - 1]))
  }

  /** What `Trim` keeps is a slice of `s` starting after the leading
      whitespace, and it neither starts nor ends with whitespace. */
  lemma TrimKeepsMiddle(s: string)
    ensures var i, r := LeadingSpace(s), Trim(s);
      && i + |r| <= |s| && r == s[i..i + |r|]
      && (r != [] ==> !IsSpace(r[0]) && !IsSpace(r[|r| - 1]))
  {
    var i := LeadingSpace(s);
    var t := s[i..];
    var j := TrailingSpace(t);
    LeadingSpaceIsPrefix(s);
    TrailingSpaceIsSuffix(t);
    var r := Trim(s);
    assert r == t[..|t| - j];
    if r != [] {
      assert r[0] == t[0] == s[i];
      assert r[|r| - 1] == t[|t| - 1 - j];
    }
  }

  /** What `Trim` cuts off on either side is whitespace. */
  lemma TrimCutsSpace(s: string)
    ensures var i, r := LeadingSpace(s), Trim(s);
      && (forall k :: 0 <= k < i ==> IsSpace(s[k]))
      && (forall k :: i + |r| <= k < |s| ==> IsSpace(s[k]))
  {
    var i := LeadingSpace(s);
    var t := s[i..];
    var j := TrailingSpace(t);
    LeadingSpaceIsPrefix(s);
    TrailingSpaceIsSuffix(t);
    var r := Trim(s);
    assert |r| == |t| - j;
    forall k | 0 <= k < i ensures IsSpace(s[k]) {
      assert s[k] == s[..i][k];
    }
    forall k | i + |r| <= k < |s| ensures IsSpace(s[k]) {
      assert s[k] == t[|t| - j..][k - i - |r|];
    }
  }

  /** `Trim` cuts a whitespace prefix and a whitespace suffix and keeps a
      middle that neither starts nor ends with whitespace. */
  lemma TrimIsStrip(s: string)
    ensures IsStripAt(s, Trim(s), LeadingSpace(s))
  {
    TrimKeepsMiddle(s);
    TrimCutsSpace(s);
  }

  /** `strip()` gives the empty string exactly for all-whitespace strings. */
  lemma TrimEmptyIffAllSpace(s: string)
    ensures Trim(s) == [] <==> AllSpace(s)
  {
    TrimIsStrip(s);
    LeadingSpaceIsPrefix(s);
    var i := LeadingSpace(s);
    if Trim(s) != [] {
      assert s[i] == Trim(s)[0];
    }
  }

  /** The strip of a string is unique: `IsStripAt` determines its result,
      so `Trim` is exactly Python's `strip()`. */
  lemma StripIsUnique(s: string, r1: string, i1: int, r2: string, i2: int)
    requires IsStripAt(s, r1, i1) && IsStripAt(s, r2, i2)
    ensures r1 == r2
  {
  }

  /** A string that neither starts nor ends with whitespace is its own strip. */
  lemma TrimUnpadded(s: string)
    requires s != [] ==> !IsSpace(s[0]) && !IsSpace(s[|s| - 1])
    ensures Trim(s) == s
  {
    assert s[0..0 + |s|] == s;
    TrimIsStrip(s);
    StripIsUnique(s, s, 0, Trim(s), LeadingSpace(s));
  }

  /** Stripping is idempotent. */
  lemma TrimIdempotent(s: string)
    ensures Trim(Trim(s)) == Trim(s)
  {
    TrimIsStrip(s);
    TrimUnpadded(Trim(s));
  }
}
