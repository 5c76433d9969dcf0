/**
 * Burst names in their three forms: the canonical key stored in the tables'
 * `GRBname` column ("GRB210905A"), the display form with a space after the
 * three-letter prefix ("GRB 210905A") used by the name picker, the click
 * handler and page headers, and the search query typed or picked by a user,
 * which the burst viewer normalises back to a key.
 */
module GrbNames {
  import opened Text

  const Prefix := "GRB"

  // ---------------------------------------------------------------------
  // print_grb_name (functions.py:67-72)

  /** The page header for a burst: "GRB " followed by the name without any leading "GRB". */
  function PrintGrbName(name: string): (r: string)
    ensures "GRB " <= r
    ensures |r| == |name| + (if Prefix <= name then 1 else 4)
  {
    var rest := if Prefix <= name then name[3..] else name;
    "GRB " + rest
  }

  /** A name that already carries the prefix does not get it twice. */
  lemma PrintGrbNameNoDoubledPrefix(s: string)
    ensures PrintGrbName(Prefix + s) == "GRB " + s
  {
    assert Prefix <= Prefix + s;
    assert (Prefix + s)[3..] == s;
  }

  // ---------------------------------------------------------------------
  // The display form (app.py:40, functions.py:242, functions.py:533)

  /** `raw[0:3] + ' ' + raw[3:]`: a space inserted after the first three characters. */
  function DisplayName(raw: string): (r: string)
    ensures |r| == |raw| + 1
    ensures |raw| >= 3 ==> r[..3] == raw[..3] && r[3] == ' ' && r[4..] == raw[3..]
  {
    Slice(raw, 0, 3) + " " + SliceFrom(raw, 3)
  }

  /** Removing the inserted space gives the raw name back. */
  lemma DisplayNameInverse(raw: string)
    requires ' ' !in raw
    ensures RemoveSpaces(DisplayName(raw)) == raw
  {
    var a, b := Slice(raw, 0, 3), SliceFrom(raw, 3);
    assert a + b == raw;
    assert ' ' !in a && ' ' !in b;
    RemoveSpacesAppend(a + " ", b);
    RemoveSpacesAppend(a, " ");
  }

  /** For a key with the prefix, the header and the display form agree. */
  lemma HeaderIsDisplayName(key: string)
    requires Prefix <= key
    ensures PrintGrbName(key) == DisplayName(key)
  {
    assert key[..3] == Prefix;
  }

  // ---------------------------------------------------------------------
  // Search query normalisation (pages/burst_viewer.py:18-21)

  /** Lines 18-19: strip surrounding whitespace, upper-case, drop every space. */
  function Canonicalise(query: string): (r: string)
    ensures ' ' !in r && IsUpperCase(r)
  {
    var u := Upper(Strip(query));
    UpperIsUpperCase(Strip(query));
    RemoveSpacesKeepsUpperCase(u);
    RemoveSpaces(u)
  }

  /** Line 20: "GRB" is prepended exactly when the query does not already start with it. */
  function WithPrefix(s: string): (r: string)
    ensures Prefix <= r
    ensures r == s <==> Prefix <= s
    ensures r != s ==> r == Prefix + s
  {
    if Prefix <= s then s else Prefix + s
  }

  /** Line 21: "A" is appended exactly when the last character is not a letter. */
  function WithSuffix(s: string): (r: string)
    requires |s| > 0
    ensures |r| > 0 && IsAlpha(r[|r| - 1])
    ensures r == s <==> IsAlpha(s[|s| - 1])
    ensures r != s ==> r == s + "A"
  {
    if IsAlpha(s[|s| - 1]) then s else s + "A"
  }

  lemma PrefixKeepsShape(s: string)
    requires ' ' !in s && IsUpperCase(s)
    ensures ' ' !in WithPrefix(s) && IsUpperCase(WithPrefix(s))
  {
    if !(Prefix <= s) {
      var r := Prefix + s;
      forall i | 0 <= i < |r| ensures UpperChar(r[i]) == r[i] {
        if i >= 3 { assert r[i] == s[i - 3]; }
      }
    }
  }

  lemma SuffixKeepsShape(s: string)
    requires Prefix <= s && ' ' !in s && IsUpperCase(s)
    ensures Prefix <= WithSuffix(s) && ' ' !in WithSuffix(s) && IsUpperCase(WithSuffix(s))
  {
    if !IsAlpha(s[|s| - 1]) {
      var r := s + "A";
      assert Prefix <= r;
      forall i | 0 <= i < |r| ensures UpperChar(r[i]) == r[i] {
        if i < |s| { assert r[i] == s[i]; }
      }
    }
  }

  /** Completing a space-free upper-case text gives a canonical key. */
  lemma CompletedKeepsShape(c: string)
    requires ' ' !in c && IsUpperCase(c)
    ensures var r := WithSuffix(WithPrefix(c));
      && ' ' !in r && IsUpperCase(r) && Prefix <= r && IsAlpha(r[|r| - 1])
      && !IsSpace(r[0]) && !IsSpace(r[|r| - 1])
  {
    var p := WithPrefix(c);
    PrefixKeepsShape(c);
    SuffixKeepsShape(p);
    assert WithSuffix(p)[0] == p[0] == 'G';
  }

  /**
   * The whole normalisation: the result is upper case, has no space, starts
   * with "GRB", ends in a letter and has no whitespace at either end.
   */
  function NormaliseQuery(query: string): (r: string)
    ensures ' ' !in r && IsUpperCase(r)
    ensures Prefix <= r
    ensures IsAlpha(r[|r| - 1])
    ensures !IsSpace(r[0]) && !IsSpace(r[|r| - 1])
  {
    var c := Canonicalise(query);
    CompletedKeepsShape(c);
    WithSuffix(WithPrefix(c))
  }

  /** The normal forms: "GRB" first, upper case, no space, and a letter last. */
  predicate CanonicalKey(k: string) {
    && Prefix <= k
    && ' ' !in k
    && IsUpperCase(k)
    && IsAlpha(k[|k| - 1])
  }

  /** Normalising a normalised query changes nothing. */
  lemma NormaliseIdempotent(query: string)
    ensures NormaliseQuery(NormaliseQuery(query)) == NormaliseQuery(query)
  {
    NormalisedIsCanonical(query);
    NormaliseFixesCanonical(NormaliseQuery(query));
  }

  lemma NormalisedIsCanonical(query: string)
    ensures CanonicalKey(NormaliseQuery(query))
  {
  }

  /** A canonical key is its own normal form. */
  lemma NormaliseFixesCanonical(k: string)
    requires CanonicalKey(k)
    ensures NormaliseQuery(k) == k
  {
    assert k[0] == 'G';
    CanonicaliseUnchanged(k);
    assert WithPrefix(k) == k;
  }

  /** Text already trimmed, upper case and free of spaces is its own canonical form. */
  lemma CanonicaliseUnchanged(s: string)
    requires |s| > 0 ==> !IsSpace(s[0]) && !IsSpace(s[|s| - 1])
    requires ' ' !in s && IsUpperCase(s)
    ensures Canonicalise(s) == s
  {
    StripUnchanged(s);
    UpperIsUpperCase(s);
  }

  /**
   * The display form maps back to the key: normalising the option shown in
   * the name picker, or the name the click handler stores, gives the key.
   */
  lemma DisplayNameRoundTrip(k: string)
    requires CanonicalKey(k) && |k| > 3
    ensures NormaliseQuery(DisplayName(k)) == k
  {
    var d := DisplayName(k);
    assert d[0] == 'G' && d[|d| - 1] == d[4..][|k| - 4] == k[3..][|k| - 4];
    StripUnchanged(d);
    assert IsUpperCase(d) by {
      forall i | 0 <= i < |d| ensures UpperChar(d[i]) == d[i] {
        if i < 3 { assert d[i] == k[i]; }
        else if i > 3 { assert d[i] == k[i - 1]; }
      }
    }
    UpperIsUpperCase(d);
    DisplayNameInverse(k);
    assert Canonicalise(d) == k;
  }

  /** The header of a canonical key also normalises back to the key. */
  lemma HeaderRoundTrip(k: string)
    requires CanonicalKey(k) && |k| > 3
    ensures NormaliseQuery(PrintGrbName(k)) == k
  {
    HeaderIsDisplayName(k);
    DisplayNameRoundTrip(k);
  }
}
