/**
 * The parts of Python's `str` behaviour that the viewer relies on, over
 * `string` (a sequence of code points): clamped slicing, `strip()`,
 * `upper()`, `isalpha()`, `replace(' ', '')`, the substring test `a in b`
 * and `split(',')[0]`.
 */
module Text {

  // ---------------------------------------------------------------------
  // Slicing with Python's clamping of out-of-range bounds

  /** `s[i:j]` for non-negative `i` and `j`: bounds past the end are clamped. */
  function Slice(s: string, i: nat, j: nat): (r: string)
    ensures |r| == if j <= i || |s| <= i then 0 else (if j < |s| then j else |s|) - i
    ensures i <= j <= |s| ==> r == s[i..j]
  {
    var lo := if i < |s| then i else |s|;
    var hi := if j < |s| then j else |s|;
    if hi <= lo then [] else s[lo..hi]
  }

  /** `s[i:]` for non-negative `i`. */
  function SliceFrom(s: string, i: nat): (r: string)
    ensures i <= |s| ==> r == s[i..]
    ensures |s| <= i ==> r == []
  {
    if i < |s| then s[i..] else []
  }

  /** `s[:-n]` for `n > 0`: everything but the last `n` characters. */
  function DropLast(s: string, n: nat): (r: string)
    requires n > 0
    ensures r <= s
    ensures |r| == if |s| < n then 0 else |s| - n
  {
    if |s| < n then [] else s[..|s| - n]
  }

  // ---------------------------------------------------------------------
  // Character classes

  /** The characters for which Python's `str.isspace()` holds; `strip()` removes these. */
  predicate IsSpace(c: char) {
    || ('\t' <= c <= '\r')
    || ('\U{1C}' <= c <= '\U{1F}')
    || c == ' ' || c == '\U{85}' || c == '\U{A0}' || c == '\U{1680}'
    || ('\U{2000}' <= c <= '\U{200A}')
    || c == '\U{2028}' || c == '\U{2029}' || c == '\U{202F}' || c == '\U{205F}'
    || c == '\U{3000}'
  }

  /** `c.isalpha()`, restricted to the ASCII letters. */
  predicate IsAlpha(c: char) {
    ('a' <= c <= 'z') || ('A' <= c <= 'Z')
  }

  predicate IsDigit(c: char) {
    '0' <= c <= '9'
  }

  /** `c.upper()`, restricted to the ASCII letters. */
  function UpperChar(c: char): (u: char)
    ensures IsAlpha(c) <==> IsAlpha(u)
    ensures !('a' <= u <= 'z')
    ensures c != u ==> 'a' <= c <= 'z' && u as int == c as int - 32
  {
    if 'a' <= c <= 'z' then (c as int - 32) as char else c
  }

  // ---------------------------------------------------------------------
  // upper()

  /** `s.upper()`: every character mapped by UpperChar, the length kept. */
  function Upper(s: string): (r: string)
    ensures |r| == |s|
    ensures forall i :: 0 <= i < |s| ==> r[i] == UpperChar(s[i])
  {
    seq(|s|, i requires 0 <= i < |s| => UpperChar(s[i]))
  }

  /** A string that `upper()` leaves alone. */
  predicate IsUpperCase(s: string) {
    forall i :: 0 <= i < |s| ==> UpperChar(s[i]) == s[i]
  }

  lemma UpperIsUpperCase(s: string)
    ensures IsUpperCase(Upper(s))
    ensures IsUpperCase(s) ==> Upper(s) == s
  {
  }

  // ---------------------------------------------------------------------
  // strip()

  /** The number of whitespace characters at the front of `s`. */
  function LeadingSpaces(s: string): (k: nat)
    ensures k <= |s|
    ensures forall i :: 0 <= i < k ==> IsSpace(s[i])
    ensures k < |s| ==> !IsSpace(s[k])
  {
    if |s| > 0 && IsSpace(s[0]) then 1 + LeadingSpaces(s[1..]) else 0
  }

  /** The number of whitespace characters at the end of `s`. */
  function TrailingSpaces(s: string): (k: nat)
    ensures k <= |s|
    ensures forall i :: |s| - k <= i < |s| ==> IsSpace(s[i])
    ensures k < |s| ==> !IsSpace(s[|s| - 1 - k])
  {
    if |s| > 0 && IsSpace(s[|s| - 1]) then 1 + TrailingSpaces(s[..|s| - 1]) else 0
  }

  /**
   * `s.strip()`: the slice of `s` left after removing whitespace from both
   * ends. It starts after the leading whitespace, only whitespace follows
   * it, and it neither starts nor ends with whitespace.
   */
  function Strip(s: string): (r: string)
    ensures LeadingSpaces(s) + |r| <= |s| && r == s[LeadingSpaces(s)..LeadingSpaces(s) + |r|]
    ensures forall k :: LeadingSpaces(s) + |r| <= k < |s| ==> IsSpace(s[k])
    ensures |r| > 0 ==> !IsSpace(r[0]) && !IsSpace(r[|r| - 1])
    ensures forall c :: c in s && !IsSpace(c) ==> c in r
  {
    var a := LeadingSpaces(s);
    var t := s[a..];
    var b := TrailingSpaces(t);
    assert t[..|t| - b] == s[a..a + |t| - b];
    forall c | c in s && !IsSpace(c) ensures c in t[..|t| - b] {
      var k :| 0 <= k < |s| && s[k] == c;
      assert a <= k < a + |t| - b;
      assert t[..|t| - b][k - a] == c;
    }
    forall k | a + |t| - b <= k < |s| ensures IsSpace(s[k]) {
      assert s[k] == t[k - a];
    }
    t[..|t| - b]
  }

  /** `strip()` leaves a string that does not start or end with whitespace unchanged. */
  lemma StripUnchanged(s: string)
    requires |s| > 0 ==> !IsSpace(s[0]) && !IsSpace(s[|s| - 1])
    ensures Strip(s) == s
  {
    var a := LeadingSpaces(s);
    assert a == 0;
    var t := s[a..];
    assert t == s;
    assert TrailingSpaces(t) == 0;
  }

  // ---------------------------------------------------------------------
  // replace(' ', '')

  /** `s.replace(' ', '')`: `s` with every ordinary space removed, all else kept in order. */
  function RemoveSpaces(s: string): (r: string)
    ensures ' ' !in r
    ensures forall c :: c in r <==> c in s && c != ' '
    ensures ' ' !in s ==> r == s
    ensures |r| <= |s|
  {
    if s == [] then []
    else if s[0] == ' ' then RemoveSpaces(s[1..])
    else [s[0]] + RemoveSpaces(s[1..])
  }

  lemma {:induction false} RemoveSpacesAppend(a: string, b: string)
    ensures RemoveSpaces(a + b) == RemoveSpaces(a) + RemoveSpaces(b)
  {
    if a == [] {
      assert a + b == b;
    } else {
      assert (a + b)[0] == a[0];
      assert (a + b)[1..] == a[1..] + b;
      RemoveSpacesAppend(a[1..], b);
    }
  }

  lemma RemoveSpacesKeepsUpperCase(s: string)
    requires IsUpperCase(s)
    ensures IsUpperCase(RemoveSpaces(s))
  {
    var r := RemoveSpaces(s);
    forall i | 0 <= i < |r| ensures UpperChar(r[i]) == r[i] {
      assert r[i] in s;
    }
  }

  // ---------------------------------------------------------------------
  // The substring test `needle in hay`

  /** Python's `needle in hay` for two strings: `needle` occurs as a contiguous run of `hay`. */
  predicate Contains(needle: string, hay: string)
    decreases |hay|
  {
    needle <= hay || (|hay| > 0 && Contains(needle, hay[1..]))
  }

  /** Every slice of `hay` is contained in it. */
  lemma {:induction false} ContainsSlice(hay: string, i: nat, j: nat)
    requires i <= j <= |hay|
    ensures Contains(hay[i..j], hay)
    decreases i
  {
    if i == 0 {
      assert hay[i..j] <= hay;
    } else {
      assert hay[1..][i - 1..j - 1] == hay[i..j] by {
        forall k | 0 <= k < j - i ensures hay[1..][i - 1..j - 1][k] == hay[i..j][k] {
          assert hay[1..][i - 1..j - 1][k] == hay[1..][i - 1 + k] == hay[i + k];
        }
      }
      ContainsSlice(hay[1..], i - 1, j - 1);
    }
  }

  /** A contained string occurs at some position of `hay`. */
  lemma {:induction false} ContainsAt(needle: string, hay: string) returns (i: nat)
    requires Contains(needle, hay)
    ensures i + |needle| <= |hay| && hay[i..i + |needle|] == needle
    decreases |hay|
  {
    if needle <= hay {
      i := 0;
    } else {
      var k := ContainsAt(needle, hay[1..]);
      assert hay[1..][k..k + |needle|] == hay[k + 1..k + 1 + |needle|];
      i := k + 1;
    }
  }

  // ---------------------------------------------------------------------
  // split(',')[0]

  /**
   * `s.split(',')[0]`: the part of `s` before its first comma, or all of `s`
   * when it has none.
   */
  function BeforeComma(s: string): (r: string)
    ensures r <= s
    ensures ',' !in r
    ensures |r| < |s| ==> s[|r|] == ','
  {
    if s == [] || s[0] == ',' then [] else [s[0]] + BeforeComma(s[1..])
  }

  /** The label `s.split(',')[0].strip()` is a substring of `s`. */
  lemma StrippedPrefixContained(s: string)
    ensures Contains(Strip(BeforeComma(s)), s)
  {
    var p := BeforeComma(s);
    var r := Strip(p);
    var i := LeadingSpaces(p);
    var j := i + |r|;
    assert j <= |p| && r == p[i..j];
    assert p == s[..|p|];
    assert r == s[i..j];
    ContainsSlice(s, i, j);
  }

  /** The number of occurrences of `c` in `s`. */
  function Occurrences(s: string, c: char): (n: nat)
    ensures n <= |s|
    ensures n == 0 <==> c !in s
  {
    if s == [] then 0 else (if s[0] == c then 1 else 0) + Occurrences(s[1..], c)
  }

  /** The position of the first `c` in `s`, when there is one. */
  function FirstIndex(s: string, c: char): (i: nat)
    requires c in s
    ensures i < |s| && s[i] == c && c !in s[..i]
  {
    if s[0] == c then 0 else 1 + FirstIndex(s[1..], c)
  }
}
