/** The two `str` methods the core relies on: `str.strip()` (no argument) and
    `str.lower()`. */
module PyStr {

  /** `c.isspace()`: the ASCII white-space and separator characters plus the
      Unicode characters Python classes as white space. */
  predicate IsSpace(c: char) {
    || ('\t' <= c <= '\r')
    || ('\U{1C}' <= c <= ' ')
    || c == '\U{85}' || c == '\U{A0}' || c == '\U{1680}'
    || ('\U{2000}' <= c <= '\U{200A}')
    || c == '\U{2028}' || c == '\U{2029}' || c == '\U{202F}' || c == '\U{205F}'
    || c == '\U{3000}'
  }

  /** The 29 characters for which Python's `str.isspace()` is true, listed
      one by one. */
  const PythonSpaces: string :=
    "\t\n\U{B}\U{C}\r\U{1C}\U{1D}\U{1E}\U{1F} \U{85}\U{A0}\U{1680}"
    + "\U{2000}\U{2001}\U{2002}\U{2003}\U{2004}\U{2005}\U{2006}\U{2007}\U{2008}\U{2009}\U{200A}"
    + "\U{2028}\U{2029}\U{202F}\U{205F}\U{3000}"

  /** `IsSpace`'s ranges hold exactly the characters of the explicit list. */
  lemma IsSpaceIsPythonSet(c: char)
    ensures IsSpace(c) <==> c in PythonSpaces
  {
  }

  /** Every character of `s` in positions `lo` up to (not including) `hi` is white space. */
  predicate SpaceBetween(s: string, lo: int, hi: int) {
    forall k :: lo <= k < hi && 0 <= k < |s| ==> IsSpace(s[k])
  }

  /** Neither the first nor the last character of `s` is white space. */
  predicate NoEdgeSpace(s: string) {
    |s| == 0 || (!IsSpace(s[0]) && !IsSpace(s[|s| - 1]))
  }

  /** `r` is `s` with a white-space prefix and a white-space suffix cut off,
      and nothing more can be cut: the meaning of `s.strip()`. */
  ghost predicate IsStripOf(s: string, r: string) {
    exists i, j :: 0 <= i <= j <= |s| && r == s[i..j] && SpaceBetween(s, 0, i) && SpaceBetween(s, j, |s|) && NoEdgeSpace(r)
  }

  /** The length of the longest white-space prefix of `s`. */
  function LeadingSpaces(s: string): (n: nat)
    ensures n <= |s|
    ensures SpaceBetween(s, 0, n)
    ensures n < |s| ==> !IsSpace(s[n])
  {
    if |s| > 0 && IsSpace(s[0]) then
      var m := LeadingSpaces(s[1..]);
      assert forall k :: 1 <= k < 1 + m ==> s[k] == s[1..][k - 1];
      1 + m
    else 0
  }

  /** The length of the longest white-space suffix of `s`. */
  function TrailingSpaces(s: string): (n: nat)
    ensures n <= |s|
    ensures SpaceBetween(s, |s| - n, |s|)
    ensures n < |s| ==> !IsSpace(s[|s| - n - 1])
  {
    if |s| > 0 && IsSpace(s[|s| - 1]) then
      var t := s[..|s| - 1];
      var m := TrailingSpaces(t);
      assert forall k :: 0 <= k < |t| ==> s[k] == t[k];
      1 + m
    else 0
  }

  /** `s.strip()`. */
  function Strip(s: string): (r: string)
    ensures IsStripOf(s, r)
  {
    var i := LeadingSpaces(s);
    var t := s[i..];
    var n := TrailingSpaces(t);
    var j := |s| - n;
    assert forall k :: j <= k < |s| ==> s[k] == t[k - i];
    assert SpaceBetween(s, j, |s|);
    assert NoEdgeSpace(s[i..j]) by {
      if i < j {
        assert s[i..j][0] == t[0];
        assert s[i..j][j - i - 1] == t[|t| - n - 1];
      }
    }
    s[i..j]
  }

  /** A white-space-only string strips to the empty string. */
  lemma {:induction false} StripOfAllSpace(s: string)
    requires SpaceBetween(s, 0, |s|)
    ensures Strip(s) == ""
  {
  }

  /** The white-space prefix ends at the first non-space character. */
  lemma {:induction false} LeadingSpacesStopsAt(s: string, i: nat)
    requires i < |s| && SpaceBetween(s, 0, i) && !IsSpace(s[i])
    ensures LeadingSpaces(s) == i
  {
  }

  /** The white-space suffix starts after the last non-space character. */
  lemma {:induction false} TrailingSpacesStopsAt(s: string, j: nat)
    requires 0 < j <= |s| && SpaceBetween(s, j, |s|) && !IsSpace(s[j - 1])
    ensures TrailingSpaces(s) == |s| - j
  {
  }

  /** A string with a non-space first and last character between white-space
      edges strips to exactly that middle part. */
  lemma {:induction false} StripOfFramed(s: string, i: nat, j: nat)
    requires i < j <= |s| && SpaceBetween(s, 0, i) && SpaceBetween(s, j, |s|)
    requires !IsSpace(s[i]) && !IsSpace(s[j - 1])
    ensures Strip(s) == s[i..j]
  {
    LeadingSpacesStopsAt(s, i);
    var t := s[i..];
    assert SpaceBetween(t, j - i, |t|);
    TrailingSpacesStopsAt(t, j - i);
    assert t[..j - i] == s[i..j];
  }

  /** `IsStripOf` pins its result down: `s.strip()` is the only string that
      meets it. */
  lemma {:induction false} StripIsUnique(s: string, r: string)
    requires IsStripOf(s, r)
    ensures r == Strip(s)
  {
    var i, j :| 0 <= i <= j <= |s| && r == s[i..j] && SpaceBetween(s, 0, i) && SpaceBetween(s, j, |s|) && NoEdgeSpace(r);
    if i == j {
      StripOfAllSpace(s);
    } else {
      assert s[i] == r[0] && s[j - 1] == r[|r| - 1];
      StripOfFramed(s, i, j);
    }
  }

  /** `s.strip()` characterised: `r` is the strip of `s` exactly when it meets
      `IsStripOf`. */
  lemma {:induction false} StripCharacterised(s: string, r: string)
    ensures IsStripOf(s, r) <==> r == Strip(s)
  {
    if IsStripOf(s, r) { StripIsUnique(s, r); }
  }

  /** Stripping a stripped string changes nothing. */
  lemma {:induction false} StripIsIdempotent(s: string)
    ensures Strip(Strip(s)) == Strip(s)
  {
    var r := Strip(s);
    assert r[0..|r|] == r;
    assert IsStripOf(r, r);
    StripIsUnique(r, r);
  }

  predicate IsAsciiUpper(c: char) {
    'A' <= c <= 'Z'
  }

  /** No character of `s` is an ASCII capital letter. */
  predicate IsLowerCase(s: string) {
    forall k :: 0 <= k < |s| ==> !IsAsciiUpper(s[k])
  }

  function LowerChar(c: char): char {
    if IsAsciiUpper(c) then (c as int + 32) as char else c
  }

  /** `s.lower()`, restricted to ASCII case folding. */
  function Lower(s: string): (r: string)
    ensures |r| == |s|
    ensures forall k :: 0 <= k < |s| ==> r[k] == LowerChar(s[k])
  {
    if s == [] then [] else [LowerChar(s[0])] + Lower(s[1..])
  }

  /** Lowering leaves no capital letter, and a lower-case string is its own
      lower-casing. */
  lemma {:induction false} LowerIsLowerCase(s: string)
    ensures IsLowerCase(Lower(s))
    ensures IsLowerCase(s) <==> Lower(s) == s
  {
    if IsLowerCase(s) {
      assert forall k :: 0 <= k < |s| ==> Lower(s)[k] == s[k];
    }
  }

  /** Lowering twice is lowering once. */
  lemma {:induction false} LowerIsIdempotent(s: string)
    ensures Lower(Lower(s)) == Lower(s)
  {
    LowerIsLowerCase(s);
    LowerIsLowerCase(Lower(s));
  }
}
