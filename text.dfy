/** The two string operations the application applies to typed names:
    `str.strip()` (whitespace trimmed at both ends) and `str.lower()`. */
module Text {

  /** The characters Python's `str.isspace` accepts, which `str.strip()` removes. */
  predicate IsSpace(c: char) {
    || ('\t' <= c <= '\r')
    || ('\U{1C}' <= c <= '\U{1F}')
    || c == ' ' || c == '\U{85}' || c == '\U{A0}' || c == '\U{1680}'
    || ('\U{2000}' <= c <= '\U{200A}')
    || c == '\U{2028}' || c == '\U{2029}' || c == '\U{202F}' || c == '\U{205F}' || c == '\U{3000}'
  }

  /** Every character of `s` is whitespace. */
  predicate AllSpace(s: string) {
    forall i :: 0 <= i < |s| ==> IsSpace(s[i])
  }

  /** How many whitespace characters `s` starts with. */
  function LeadingSpace(s: string): (n: nat)
    ensures n <= |s|
    ensures forall i :: 0 <= i < n ==> IsSpace(s[i])
    ensures n == |s| || !IsSpace(s[n])
  {
    if s != [] && IsSpace(s[0]) then 1 + LeadingSpace(s[1..]) else 0
  }

  /** Where the whitespace that `s` ends with begins. */
  function TrailingSpace(s: string): (n: nat)
    ensures n <= |s|
    ensures forall i :: n <= i < |s| ==> IsSpace(s[i])
    ensures n == 0 || !IsSpace(s[n - 1])
  {
    if s != [] && IsSpace(s[|s| - 1]) then TrailingSpace(s[..|s| - 1]) else |s|
  }

  /** `s.strip()`: `s` without its leading and trailing whitespace. */
  function Strip(s: string): (r: string)
    ensures r == [] <==> AllSpace(s)
    ensures r == [] || (!IsSpace(r[0]) && !IsSpace(r[|r| - 1]))
    ensures |r| <= |s|
    ensures exists a :: 0 <= a <= |s| - |r| && r == s[a..a + |r|] && AllSpace(s[..a]) && AllSpace(s[a + |r|..])
  {
    var a := LeadingSpace(s);
    var b := a + TrailingSpace(s[a..]);
    StripFront(s, a);
    StripBack(s, a, b);
    StripCutEmpty(s, a, b);
    assert s[a..b] == s[a..a + |s[a..b]|];
    s[a..b]
  }

  /** What `Strip` cuts from the front is whitespace. */
  lemma StripFront(s: string, a: nat)
    requires a == LeadingSpace(s)
    ensures AllSpace(s[..a])
  {
    forall i | 0 <= i < |s[..a]| ensures IsSpace(s[..a][i]) {
      assert s[..a][i] == s[i];
    }
  }

  /** What `Strip` cuts from the back is whitespace, and what it keeps does not end in any. */
  lemma StripBack(s: string, a: nat, b: nat)
    requires a <= |s| && b == a + TrailingSpace(s[a..])
    ensures b <= |s| && AllSpace(s[b..])
    ensures a < b ==> !IsSpace(s[b - 1])
  {
    var t := s[a..];
    forall i | 0 <= i < |s[b..]| ensures IsSpace(s[b..][i]) {
      assert s[b..][i] == t[b - a + i];
    }
    if a < b {
      assert s[b - 1] == t[b - 1 - a];
    }
  }

  /** `Strip` cuts everything away exactly when `s` is all whitespace; otherwise
      what it keeps does not start with any. */
  lemma StripCutEmpty(s: string, a: nat, b: nat)
    requires a == LeadingSpace(s) && b == a + TrailingSpace(s[a..])
    ensures a == b <==> AllSpace(s)
    ensures a < b ==> !IsSpace(s[a])
  {
    if a == b {
      assert a == |s|;
      assert s[..a] == s;
    }
  }

  /** A string with no whitespace at either end is its own stripped form. */
  lemma StripTrimmed(t: string)
    requires t == [] || (!IsSpace(t[0]) && !IsSpace(t[|t| - 1]))
    ensures Strip(t) == t
  {
    assert LeadingSpace(t) == 0;
    assert t[0..] == t;
    assert TrailingSpace(t) == |t|;
  }

  /** A stripped string is already stripped. */
  lemma StripIdempotent(s: string)
    ensures Strip(Strip(s)) == Strip(s)
  {
    StripTrimmed(Strip(s));
  }

  /** The upper-case letters `str.lower()` maps in this model: ASCII and Latin-1. */
  predicate IsUpper(c: char) {
    ('A' <= c <= 'Z') || ('\U{C0}' <= c <= '\U{DE}' && c != '\U{D7}')
  }

  function LowerChar(c: char): char {
    if IsUpper(c) then (c as int + 32) as char else c
  }

  /** `s.lower()`: every upper-case letter replaced by its lower-case form. */
  function Lower(s: string): (r: string)
    ensures |r| == |s|
    ensures forall i :: 0 <= i < |s| ==> r[i] == LowerChar(s[i])
    ensures forall i :: 0 <= i < |s| ==> !IsUpper(r[i])
    ensures forall i :: 0 <= i < |s| ==> r[i] == s[i] || IsUpper(s[i])
    ensures forall i :: 0 <= i < |s| ==> IsSpace(r[i]) == IsSpace(s[i])
  {
    seq(|s|, i requires 0 <= i < |s| => LowerChar(s[i]))
  }

  /** A lower-cased string is already lower-case. */
  lemma LowerIdempotent(s: string)
    ensures Lower(Lower(s)) == Lower(s)
  {
  }

}
