// The two Python string methods the booking engine relies on: str.strip(),
// which removes leading and trailing whitespace, and str.lower(). Weekday
// names and the concept filter of list_experts are normalised with them.
//
// The strip functions carry only their length bounds; what they keep and
// what they drop is stated by the lemmas after each, so that a caller does
// not reason about whitespace unless it asks to.

module Strings {

  /** The characters for which Python's str.isspace() holds, so the ones str.strip() removes. */
  predicate IsSpace(c: char) {
    var n := c as int;
    (0x09 <= n <= 0x0D) || (0x1C <= n <= 0x20) || n == 0x85 || n == 0xA0 || n == 0x1680
    || (0x2000 <= n <= 0x200A) || n == 0x2028 || n == 0x2029 || n == 0x202F || n == 0x205F
    || n == 0x3000
  }

  /** Leading whitespace removed. */
  function StripLeft(s: string): (r: string)
    ensures |r| <= |s|
  {
    if |s| > 0 && IsSpace(s[0]) then StripLeft(s[1..]) else s
  }

  /** StripLeft keeps a suffix of s, every dropped character is a space, and the first kept one is not. */
  lemma {:induction false} StripLeftSpec(s: string)
    ensures var r := StripLeft(s);
      && r == s[|s| - |r|..]
      && (forall i :: 0 <= i < |s| - |r| ==> IsSpace(s[i]))
      && (r == [] || !IsSpace(r[0]))
  {
    if |s| > 0 && IsSpace(s[0]) {
      StripLeftSpec(s[1..]);
      var r := StripLeft(s);
      forall i | 0 < i < |s| - |r| ensures IsSpace(s[i]) {
        assert s[i] == s[1..][i - 1];
      }
    }
  }

  /** Trailing whitespace removed. */
  function StripRight(s: string): (r: string)
    ensures |r| <= |s|
  {
    if |s| > 0 && IsSpace(s[|s| - 1]) then StripRight(s[..|s| - 1]) else s
  }

  /** StripRight keeps a prefix of s, every dropped character is a space, and the last kept one is not. */
  lemma {:induction false} StripRightSpec(s: string)
    ensures var r := StripRight(s);
      && r == s[..|r|]
      && (forall i :: |r| <= i < |s| ==> IsSpace(s[i]))
      && (r == [] || !IsSpace(r[|r| - 1]))
  {
    if |s| > 0 && IsSpace(s[|s| - 1]) {
      var t := s[..|s| - 1];
      StripRightSpec(t);
      var r := StripRight(s);
      forall i | |r| <= i < |s| - 1 ensures IsSpace(s[i]) {
        assert s[i] == t[i];
      }
    }
  }

  /** A string with no whitespace at either end. */
  predicate IsStripped(s: string) {
    s == [] || (!IsSpace(s[0]) && !IsSpace(s[|s| - 1]))
  }

  /** Python's str.strip() with no argument. */
  function Strip(s: string): (r: string)
    ensures |r| <= |s|
  {
    StripRight(StripLeft(s))
  }

  /** Strip leaves no whitespace at either end. */
  lemma StripIsStripped(s: string)
    ensures IsStripped(Strip(s))
  {
    var l := StripLeft(s);
    StripLeftSpec(s);
    StripRightSpec(l);
    var r := StripRight(l);
    assert r != [] ==> r[0] == l[0];
  }

  /** A string with no whitespace at either end is left alone by Strip. */
  lemma StripKeepsStripped(s: string)
    requires IsStripped(s)
    ensures Strip(s) == s
  {
  }

  /** A string padded with one space on each side strips to what lies between. */
  lemma StripOnePadding(s: string)
    requires |s| >= 3 && IsSpace(s[0]) && IsSpace(s[|s| - 1])
    requires IsStripped(s[1..|s| - 1])
    ensures Strip(s) == s[1..|s| - 1]
  {
    assert StripLeft(s[1..]) == s[1..];
    assert s[1..][..|s| - 2] == s[1..|s| - 1];
    assert StripRight(s[1..|s| - 1]) == s[1..|s| - 1];
  }

  /** Python's str.lower() on one character; only the ASCII letters A-Z are mapped. */
  function LowerChar(c: char): (d: char)
  {
    if 'A' <= c <= 'Z' then (c as int + 32) as char else c
  }

  /** Python's str.lower(), character by character. */
  function Lower(s: string): (r: string)
    ensures |r| == |s|
    ensures forall i :: 0 <= i < |s| ==> r[i] == LowerChar(s[i])
  {
    if s == [] then [] else [LowerChar(s[0])] + Lower(s[1..])
  }

  /** A string with no upper-case letter is its own lower-case form. */
  lemma LowerKeepsLowercase(s: string)
    requires forall i :: 0 <= i < |s| ==> !('A' <= s[i] <= 'Z')
    ensures Lower(s) == s
  {
  }

  /** Lower-casing neither creates nor removes whitespace, so it keeps a stripped string stripped. */
  lemma LowerKeepsStripped(s: string)
    requires IsStripped(s)
    ensures IsStripped(Lower(s))
  {
  }

  /** The normalisation `value.strip().lower()` applied to weekday names and concept filters. */
  function Normalize(s: string): (r: string)
    ensures |r| <= |s|
  {
    Lower(Strip(s))
  }

  /** A normalised string has no whitespace at either end. */
  lemma NormalizeIsStripped(s: string)
    ensures IsStripped(Normalize(s))
  {
    StripIsStripped(s);
    LowerKeepsStripped(Strip(s));
  }

  /** A string with no whitespace at either end and no upper-case letter is already normalised. */
  lemma NormalizeKeepsNormalForm(s: string)
    requires IsStripped(s)
    requires forall i :: 0 <= i < |s| ==> !('A' <= s[i] <= 'Z')
    ensures Normalize(s) == s
  {
    StripKeepsStripped(s);
    LowerKeepsLowercase(s);
  }

  /** Normalising twice is normalising once: a normalised value is a fixed point. */
  lemma {:induction false} NormalizeIdempotent(s: string)
    ensures Normalize(Normalize(s)) == Normalize(s)
  {
    var n := Normalize(s);
    NormalizeIsStripped(s);
    StripKeepsStripped(n);
    assert Strip(n) == n;
    assert Lower(n) == n by {
      var t := Strip(s);
      forall i | 0 <= i < |n| ensures Lower(n)[i] == n[i] {
        assert n[i] == LowerChar(t[i]);
      }
    }
  }
}
