/**
 * How the population plots decide what colours the points
 * (functions.py:139-161 for afterglows, 332-368 for flares and pulses):
 * group labels in "Specific GRB" mode, the colour column and legend title
 * for a parameter, the rows dropped for a missing value, and the order of
 * the categories, which sorts the distinct values by `int()`.
 */
module Colouring {
  import opened Wrappers
  import opened Text
  import opened Ordering
  import opened Catalogue

  // ---------------------------------------------------------------------
  // Group labels in "Specific GRB" mode (functions.py:147, 344-348)

  const OtherGrbs := "Other GRBs"

  /** The row's burst name is one of the selected names. */
  predicate Selected(row: Row, selected: seq<string>) {
    Get(row, "GRBname").Text? && Get(row, "GRBname").s in selected
  }

  /** Afterglow label: the burst's own name when it is selected, else "Other GRBs". */
  function AfterglowGroup(row: Row, selected: seq<string>): (g: string)
    ensures Selected(row, selected) ==> g in selected
  {
    if Selected(row, selected) then Get(row, "GRBname").s else OtherGrbs
  }

  /** Flare/pulse label: the burst's own name when it is selected, else "Other " + its Type. */
  function FlaresGroup(row: Row, selected: seq<string>): (g: string)
    requires Get(row, "Type").Text?
    ensures Selected(row, selected) ==> g in selected
  {
    if Selected(row, selected) then Get(row, "GRBname").s else "Other " + Get(row, "Type").s
  }

  /**
   * Every afterglow row is labelled: with its own name exactly when that
   * name is selected, and otherwise with the single background label.
   */
  lemma AfterglowGroupCases(row: Row, selected: seq<string>)
    requires forall n :: n in selected ==> n != OtherGrbs
    ensures Selected(row, selected) <==> AfterglowGroup(row, selected) != OtherGrbs
    ensures Selected(row, selected) ==> AfterglowGroup(row, selected) == Get(row, "GRBname").s
  {
  }

  /**
   * Every plotted flare or pulse row is labelled with its own name when it
   * is selected, and otherwise with exactly one of "Other Flares" (a flare)
   * or "Other Pulses" (a pulse).
   */
  lemma FlaresGroupCases(flares: seq<Row>, pulses: seq<Row>, flareOn: bool, pulseOn: bool,
                         selected: seq<string>, row: Row)
    requires row in PlotRows(flares, pulses, flareOn, pulseOn)
    ensures Get(row, "Type").Text?
    ensures Selected(row, selected) ==> FlaresGroup(row, selected) == Get(row, "GRBname").s
    ensures !Selected(row, selected) && Get(row, "Type") == Text("Flares") ==> FlaresGroup(row, selected) == "Other Flares"
    ensures !Selected(row, selected) && Get(row, "Type") == Text("Pulses") ==> FlaresGroup(row, selected) == "Other Pulses"
    ensures Get(row, "Type") == Text("Flares") || Get(row, "Type") == Text("Pulses")
  {
    PlotRowsKept(flares, pulses, flareOn, pulseOn, row);
    assert "Other " + "Flares" == "Other Flares" && "Other " + "Pulses" == "Other Pulses";
  }

  // ---------------------------------------------------------------------
  // The colour column and the legend title (functions.py:139-155, 332-362)

  /** What the points are coloured by. */
  datatype Colour =
    | Uncoloured                               // "None": a single colour (per Type for flares/pulses)
    | Groups                                   // "Specific GRB": the group labels
    | ByColumn(source: string, column: string) // a parameter: the plotted column and the one it is read from

  datatype ColourPlan = ColourPlan(colour: Colour, title: string)

  /**
   * The colour choice for a selected option: "None", "Specific GRB" or one of
   * the plot's column options (the only values its select box offers).
   */
  function ColourChoice(colorBy: string, dataCols: map<string, string>, reg: Registry): (r: ColourPlan)
    requires colorBy == "None" || colorBy == "Specific GRB" || colorBy in dataCols
    ensures colorBy == "None" ==> r == ColourPlan(Uncoloured, "None")
    ensures colorBy == "Specific GRB" ==> r == ColourPlan(Groups, "Specific GRB")
    ensures r.colour.ByColumn? <==> colorBy != "None" && colorBy != "Specific GRB"
    ensures r.colour.ByColumn? ==> r.colour.source == dataCols[colorBy]
    ensures r.colour.ByColumn? ==>
      (r.colour.column == dataCols[colorBy] + "_log" <==> IsLog(reg, dataCols[colorBy]))
    ensures r.colour.ByColumn? ==> (r.title == "Log " + colorBy <==> IsLog(reg, dataCols[colorBy]))
    ensures r.colour.ByColumn? && !IsLog(reg, dataCols[colorBy]) ==>
      r.colour.column == dataCols[colorBy] && r.title == colorBy
  {
    if colorBy == "Specific GRB" then ColourPlan(Groups, colorBy)
    else if colorBy == "None" then ColourPlan(Uncoloured, colorBy)
    else
      var source := dataCols[colorBy];
      if IsLog(reg, source) then ColourPlan(ByColumn(source, source + "_log"), "Log " + colorBy)
      else
        assert |colorBy| < |"Log " + colorBy|;
        assert |source| < |source + "_log"|;
        ColourPlan(ByColumn(source, source), colorBy)
  }

  // ---------------------------------------------------------------------
  // Rows with a value to colour by (functions.py:157, 364)

  /** `notna() & (value != '<NA>')`. */
  predicate Present(c: Cell) {
    c != Missing && c != Text("<NA>")
  }

  function KeptRows(rows: seq<Row>, col: string): (r: seq<Row>)
    ensures forall row :: row in r <==> row in rows && Present(Get(row, col))
  {
    Filter(rows, (row: Row) => Present(Get(row, col)))
  }

  /** The column `col` of the rows, in order. */
  function Values(rows: seq<Row>, col: string): (r: seq<Cell>)
    ensures |r| == |rows|
    ensures forall i :: 0 <= i < |rows| ==> r[i] == Get(rows[i], col)
  {
    seq(|rows|, i requires 0 <= i < |rows| => Get(rows[i], col))
  }

  /** A value of the kept rows is present and comes from one of the rows. */
  lemma KeptValues(rows: seq<Row>, col: string, v: Cell)
    ensures v in Values(KeptRows(rows, col), col) <==> Present(v) && exists row :: row in rows && Get(row, col) == v
  {
    var kept := KeptRows(rows, col);
    if v in Values(kept, col) {
      var i :| 0 <= i < |kept| && Values(kept, col)[i] == v;
      assert kept[i] in kept;
    }
    if Present(v) && exists row :: row in rows && Get(row, col) == v {
      var row :| row in rows && Get(row, col) == v;
      assert row in kept;
      var i :| 0 <= i < |kept| && kept[i] == row;
      assert Values(kept, col)[i] == v;
    }
  }

  // ---------------------------------------------------------------------
  // Python's int() on the values that reach the sort

  function DigitValue(c: char): (d: nat)
    requires IsDigit(c)
    ensures d < 10
  {
    c as int - '0' as int
  }

  /** Only digits and underscores. */
  predicate DigitsOrUnderscores(d: string) {
    forall i :: 0 <= i < |d| ==> IsDigit(d[i]) || d[i] == '_'
  }

  /** A literal `int()` accepts after the sign: digits, with single underscores between digits. */
  predicate DigitRun(d: string) {
    && |d| > 0
    && DigitsOrUnderscores(d)
    && IsDigit(d[0]) && IsDigit(d[|d| - 1])
    && forall i :: 0 <= i < |d| - 1 ==> d[i] == '_' ==> d[i + 1] != '_'
  }

  /** The number the digits spell, underscores ignored. */
  function DigitsValue(d: string): nat
    requires DigitsOrUnderscores(d)
  {
    if d == [] then 0
    else if d[|d| - 1] == '_' then DigitsValue(d[..|d| - 1])
    else 10 * DigitsValue(d[..|d| - 1]) + DigitValue(d[|d| - 1])
  }

  /**
   * `int(s)`: surrounding whitespace is ignored, then an optional sign and a
   * run of decimal digits; anything else raises ValueError (None here).
   */
  function ParseInt(s: string): Option<int> {
    ParseSigned(Strip(s))
  }

  /** An optional sign followed by a run of digits; anything else is None. */
  function ParseSigned(t: string): (r: Option<int>)
    ensures r.Some? ==> |t| > 0
  {
    var signed := |t| > 0 && (t[0] == '-' || t[0] == '+');
    var body := if signed then t[1..] else t;
    if !DigitRun(body) then None
    else
      var n: int := DigitsValue(body);
      Some(if signed && t[0] == '-' then -n else n)
  }

  /** `int(x)` for a float truncates toward zero. */
  function Truncate(x: real): (n: int)
    ensures x >= 0.0 ==> n as real <= x < n as real + 1.0
    ensures x < 0.0 ==> n as real - 1.0 < x <= n as real
  {
    if x >= 0.0 then x.Floor else -((-x).Floor)
  }

  /** `int(value)` for a table cell; a missing value has no integer reading. */
  function IntOf(c: Cell): Option<int> {
    match c
    case Missing => None
    case Text(s) => ParseInt(s)
    case Number(x) => Some(Truncate(x))
  }

  // `str(n)` for integers, which produces the strings this column holds
  // (the `astype('Int64').astype(str)` conversions of pages/population_stats.py:67, 104-105).

  function DigitChar(d: nat): (c: char)
    requires d < 10
    ensures IsDigit(c) && DigitValue(c) == d
  {
    ('0' as int + d) as char
  }

  /** The decimal digits of `n`, without leading zeros. */
  function ShowNat(n: nat): (s: string)
    ensures |s| > 0 && DigitsOrUnderscores(s)
    ensures forall i :: 0 <= i < |s| ==> IsDigit(s[i])
  {
    if n < 10 then [DigitChar(n)] else ShowNat(n / 10) + [DigitChar(n % 10)]
  }

  /** `str(n)`. */
  function ShowInt(n: int): (s: string)
    ensures |s| > 0
  {
    if n < 0 then "-" + ShowNat(-n) else ShowNat(n)
  }

  lemma {:induction false} ShowNatValue(n: nat)
    ensures DigitRun(ShowNat(n))
    ensures DigitsValue(ShowNat(n)) == n
  {
    var s := ShowNat(n);
    if n >= 10 {
      ShowNatValue(n / 10);
      assert s[..|s| - 1] == ShowNat(n / 10);
    }
  }

  /** `int(str(n)) == n`: the integer strings of the table convert back to their integers. */
  lemma ParseShowInt(n: int)
    ensures ParseInt(ShowInt(n)) == Some(n)
  {
    var m := if n < 0 then -n else n;
    ShowNatValue(m);
    ShowIntStripped(n);
    if n < 0 {
      ParseNegativeDigits(ShowNat(m));
    } else {
      ParseDigits(ShowNat(m));
    }
  }

  /** `str(n)` has no surrounding whitespace. */
  lemma ShowIntStripped(n: int)
    ensures Strip(ShowInt(n)) == ShowInt(n)
  {
    var s := ShowInt(n);
    var d := ShowNat(if n < 0 then -n else n);
    assert IsDigit(d[|d| - 1]) && s[|s| - 1] == d[|d| - 1];
    assert s[0] == '-' || IsDigit(s[0]);
    StripUnchanged(s);
  }

  /** A run of digits alone reads as the number it spells. */
  lemma ParseDigits(t: string)
    requires DigitRun(t)
    ensures ParseSigned(t) == Some(DigitsValue(t))
  {
  }

  /** A '-' followed by a run of digits reads as the negated number. */
  lemma ParseNegativeDigits(t: string)
    requires DigitRun(t)
    ensures ParseSigned("-" + t) == Some(-(DigitsValue(t) as int))
  {
    assert ("-" + t)[1..] == t;
  }

  /**
   * `astype('Int64').astype(str)`: an integer becomes its decimal string and
   * a missing value the string "<NA>".
   */
  function IntegerText(v: Option<int>): (c: Cell) {
    Text(if v.Some? then ShowInt(v.value) else "<NA>")
  }

  /** Such a cell is dropped exactly when it was missing, and otherwise converts back. */
  lemma IntegerTextRoundTrip(v: Option<int>)
    ensures Present(IntegerText(v)) <==> v.Some?
    ensures v.Some? ==> IntOf(IntegerText(v)) == v
  {
    if v.Some? {
      ParseShowInt(v.value);
      assert ShowInt(v.value) != "<NA>" by {
        var s := ShowInt(v.value);
        if v.value >= 0 { assert IsDigit(s[0]); } else { assert IsDigit(s[1]); }
      }
    }
  }

  // ---------------------------------------------------------------------
  // The category order (functions.py:159-161, 366-368)

  /** `int()` raised on this value. */
  datatype CategoryError = NotAnInteger(value: Cell)

  /** Every value paired with its key; the first value without one is the error. */
  function Keyed<T>(vals: seq<T>, key: T -> Option<int>): (r: Result<seq<(T, int)>, T>)
    ensures r.Success? <==> forall i :: 0 <= i < |vals| ==> key(vals[i]).Some?
    ensures r.Success? ==> |r.value| == |vals|
    ensures r.Success? ==> forall i :: 0 <= i < |vals| ==> r.value[i] == (vals[i], key(vals[i]).value)
    ensures r.Failure? ==> r.error in vals && key(r.error).None?
  {
    if vals == [] then Success([])
    else match key(vals[0])
      case None => Failure(vals[0])
      case Some(k) =>
        match Keyed(vals[1..], key)
        case Failure(e) => Failure(e)
        case Success(rest) =>
          assert forall i :: 1 <= i < |vals| ==> vals[i] == vals[1..][i - 1];
          Success([(vals[0], k)] + rest)
  }

  /** The values of keyed pairs. */
  function Firsts<T>(s: seq<(T, int)>): (r: seq<T>)
    ensures |r| == |s|
    ensures forall i :: 0 <= i < |s| ==> r[i] == s[i].0
  {
    seq(|s|, i requires 0 <= i < |s| => s[i].0)
  }

  /** `sorted(vals, key=key)` for a key that may raise: Python's sort is stable. */
  function SortedBy<T>(vals: seq<T>, key: T -> Option<int>): Result<seq<T>, T> {
    match Keyed(vals, key)
    case Failure(v) => Failure(v)
    case Success(ps) => Success(Firsts(SortByKey(ps)))
  }

  /** `sorted(unique_vals, key=lambda x: int(x))`. */
  function SortedCategories(vals: seq<Cell>): Result<seq<Cell>, CategoryError> {
    match SortedBy(vals, IntOf)
    case Failure(v) => Failure(NotAnInteger(v))
    case Success(order) => Success(order)
  }

  /** The category order of column `col` over the rows that are kept. */
  function CategoryOrder(rows: seq<Row>, col: string): Result<seq<Cell>, CategoryError> {
    SortedCategories(Unique(Values(KeptRows(rows, col), col)))
  }

  // Properties of the category order

  lemma {:induction false} FirstsAppend<T>(a: seq<(T, int)>, b: seq<(T, int)>)
    ensures Firsts(a + b) == Firsts(a) + Firsts(b)
  {
  }

  /** Rearranging pairs rearranges their values the same way. */
  lemma {:induction false} FirstsPermutation<T>(a: seq<(T, int)>, b: seq<(T, int)>)
    requires multiset(a) == multiset(b)
    ensures multiset(Firsts(a)) == multiset(Firsts(b))
    decreases |a|
  {
    if a == [] {
      assert |multiset(b)| == 0;
    } else {
      assert a[0] in multiset(b);
      var j :| 0 <= j < |b| && b[j] == a[0];
      var b' := b[..j] + b[j + 1..];
      MultisetRemove(a, b, j);
      FirstsPermutation(a[1..], b');
      FirstsRemove(b, j);
      assert Firsts(a) == [a[0].0] + Firsts(a[1..]);
    }
  }

  lemma MultisetRemove<T>(a: seq<T>, b: seq<T>, j: nat)
    requires multiset(a) == multiset(b) && a != [] && j < |b| && b[j] == a[0]
    ensures multiset(a[1..]) == multiset(b[..j] + b[j + 1..])
  {
    assert a == [a[0]] + a[1..];
    assert multiset(a[1..]) == multiset(a) - multiset{a[0]};
    assert b == b[..j] + [b[j]] + b[j + 1..];
    assert multiset(b) == multiset(b[..j]) + multiset{b[j]} + multiset(b[j + 1..]);
    assert multiset(b[..j] + b[j + 1..]) == multiset(b[..j]) + multiset(b[j + 1..]);
  }

  lemma FirstsRemove<T>(b: seq<(T, int)>, j: nat)
    requires j < |b|
    ensures multiset(Firsts(b)) == multiset(Firsts(b[..j] + b[j + 1..])) + multiset{b[j].0}
  {
    var f, g := Firsts(b), Firsts(b[..j] + b[j + 1..]);
    assert f == f[..j] + [b[j].0] + f[j + 1..];
    assert g == f[..j] + f[j + 1..];
  }

  /** The values whose key is `k`, in order. */
  function WithKeyValue<T(!new)>(vals: seq<T>, key: T -> Option<int>, k: int): seq<T> {
    Filter(vals, (v: T) => key(v) == Some(k))
  }

  lemma {:induction false} WithKeyFirsts<T(!new)>(ps: seq<(T, int)>, key: T -> Option<int>, k: int)
    requires forall i :: 0 <= i < |ps| ==> key(ps[i].0) == Some(ps[i].1)
    ensures Firsts(WithKey(ps, k)) == WithKeyValue(Firsts(ps), key, k)
  {
    if ps != [] {
      var init, last := ps[..|ps| - 1], ps[|ps| - 1];
      WithKeyFirsts(init, key, k);
      assert Firsts(ps) == Firsts(init) + [last.0];
      FilterSnoc(Firsts(init), last.0, (v: T) => key(v) == Some(k));
      FirstsAppend(WithKey(init, k), if last.1 == k then [last] else []);
    }
  }

  /**
   * On success the order holds every value exactly once, the keys never
   * decrease, and values with the same key keep their order.
   */
  lemma SortedByCorrect<T(!new)>(vals: seq<T>, key: T -> Option<int>, k: int)
    requires SortedBy(vals, key).Success?
    ensures |SortedBy(vals, key).value| == |vals|
    ensures multiset(SortedBy(vals, key).value) == multiset(vals)
    ensures forall i :: 0 <= i < |vals| ==> key(SortedBy(vals, key).value[i]).Some?
    ensures forall i, j :: 0 <= i < j < |vals| ==>
      key(SortedBy(vals, key).value[i]).value <= key(SortedBy(vals, key).value[j]).value
    ensures WithKeyValue(SortedBy(vals, key).value, key, k) == WithKeyValue(vals, key, k)
  {
    var ps := Keyed(vals, key).value;
    assert Firsts(ps) == vals;
    SortedPairsKeyed(vals, key);
    SortedFirstsCorrect(ps, key, k);
  }

  /** Sorting keyed pairs and dropping the keys: the shared step of `SortedByCorrect`. */
  lemma SortedFirstsCorrect<T(!new)>(ps: seq<(T, int)>, key: T -> Option<int>, k: int)
    requires forall i :: 0 <= i < |ps| ==> key(ps[i].0) == Some(ps[i].1)
    requires forall i :: 0 <= i < |SortByKey(ps)| ==> key(SortByKey(ps)[i].0) == Some(SortByKey(ps)[i].1)
    ensures |Firsts(SortByKey(ps))| == |ps|
    ensures multiset(Firsts(SortByKey(ps))) == multiset(Firsts(ps))
    ensures forall i :: 0 <= i < |ps| ==> key(Firsts(SortByKey(ps))[i]) == Some(SortByKey(ps)[i].1)
    ensures forall i, j :: 0 <= i < j < |ps| ==> SortByKey(ps)[i].1 <= SortByKey(ps)[j].1
    ensures WithKeyValue(Firsts(SortByKey(ps)), key, k) == WithKeyValue(Firsts(ps), key, k)
  {
    var sorted := SortByKey(ps);
    assert |multiset(sorted)| == |multiset(ps)|;
    FirstsPermutation(sorted, ps);
    SortByKeyStable(ps, k);
    WithKeyFirsts(sorted, key, k);
    WithKeyFirsts(ps, key, k);
  }

  /** After sorting, every pair still carries its value's key. */
  lemma SortedPairsKeyed<T>(vals: seq<T>, key: T -> Option<int>)
    requires Keyed(vals, key).Success?
    ensures forall i :: 0 <= i < |SortByKey(Keyed(vals, key).value)| ==>
      key(SortByKey(Keyed(vals, key).value)[i].0) == Some(SortByKey(Keyed(vals, key).value)[i].1)
  {
    var ps := Keyed(vals, key).value;
    var sorted := SortByKey(ps);
    forall i | 0 <= i < |sorted| ensures key(sorted[i].0) == Some(sorted[i].1) {
      assert sorted[i] in multiset(ps);
      var j :| 0 <= j < |ps| && ps[j] == sorted[i];
    }
  }

  /**
   * The category order holds every value exactly once, its integer
   * readings never decrease, and values with the same reading keep the
   * order in which they first appear.
   */
  lemma SortedCategoriesCorrect(vals: seq<Cell>, k: int)
    requires SortedCategories(vals).Success?
    ensures |SortedCategories(vals).value| == |vals|
    ensures multiset(SortedCategories(vals).value) == multiset(vals)
    ensures forall i :: 0 <= i < |vals| ==> IntOf(SortedCategories(vals).value[i]).Some?
    ensures forall i, j :: 0 <= i < j < |vals| ==>
      IntOf(SortedCategories(vals).value[i]).value <= IntOf(SortedCategories(vals).value[j]).value
    ensures WithKeyValue(SortedCategories(vals).value, IntOf, k) == WithKeyValue(vals, IntOf, k)
  {
    SortedByCorrect(vals, IntOf, k);
  }

  /** The category order fails exactly when some kept value has no integer reading. */
  lemma CategoryOrderFails(rows: seq<Row>, col: string)
    ensures CategoryOrder(rows, col).Failure? <==>
      exists row :: row in rows && Present(Get(row, col)) && IntOf(Get(row, col)).None?
    ensures CategoryOrder(rows, col).Failure? ==>
      var v := CategoryOrder(rows, col).error.value; Present(v) && IntOf(v).None?
  {
    var u := Unique(Values(KeptRows(rows, col), col));
    if Keyed(u, IntOf).Failure? {
      var v := Keyed(u, IntOf).error;
      KeptValues(rows, col, v);
    } else {
      forall row | row in rows && Present(Get(row, col)) ensures IntOf(Get(row, col)).Some? {
        KeptValues(rows, col, Get(row, col));
        var i :| 0 <= i < |u| && u[i] == Get(row, col);
      }
    }
  }

  /** The example of integer-valued strings: "10", "2", "1" are ordered "1", "2", "10". */
  lemma CategoryOrderExample()
    ensures SortedCategories([Text("10"), Text("2"), Text("1")]) == Success([Text("1"), Text("2"), Text("10")])
  {
    ExampleKeys();
    SortedThreeDescending(Text("10"), Text("2"), Text("1"), IntOf, 10, 2, 1);
  }

  /** Three values whose keys strictly decrease come out reversed. */
  lemma SortedThreeDescending<T>(a: T, b: T, c: T, key: T -> Option<int>, x: int, y: int, z: int)
    requires key(a) == Some(x) && key(b) == Some(y) && key(c) == Some(z)
    requires x > y > z
    ensures SortedBy([a, b, c], key) == Success([c, b, a])
  {
    KeyedThree(a, b, c, key, x, y, z);
    SortThreeDescending(a, b, c, x, y, z);
    var sorted := [(c, z), (b, y), (a, x)];
    var fs := Firsts(sorted);
    assert fs[0] == c && fs[1] == b && fs[2] == a;
    assert forall i :: 0 <= i < 3 ==> fs[i] == [c, b, a][i];
    assert fs == [c, b, a];
  }

  lemma KeyedThree<T>(a: T, b: T, c: T, key: T -> Option<int>, x: int, y: int, z: int)
    requires key(a) == Some(x) && key(b) == Some(y) && key(c) == Some(z)
    ensures Keyed([a, b, c], key) == Success([(a, x), (b, y), (c, z)])
  {
    var vals := [a, b, c];
    assert forall i :: 0 <= i < |vals| ==> key(vals[i]).Some? by {
      forall i | 0 <= i < |vals| ensures key(vals[i]).Some? {
        assert vals[i] == a || vals[i] == b || vals[i] == c;
      }
    }
    var r := Keyed(vals, key);
    assert |r.value| == 3;
    assert r.value[0] == (a, x);
    assert r.value[1] == (b, y);
    assert r.value[2] == (c, z);
    var ps := [(a, x), (b, y), (c, z)];
    assert forall i :: 0 <= i < 3 ==> r.value[i] == ps[i];
    assert r.value == ps;
  }

  lemma SortThreeDescending<T>(a: T, b: T, c: T, x: int, y: int, z: int)
    requires x > y > z
    ensures SortByKey([(a, x), (b, y), (c, z)]) == [(c, z), (b, y), (a, x)]
  {
    SortTwoDescending(a, b, x, y);
    var ps := [(a, x), (b, y), (c, z)];
    assert ps[..2] == [(a, x), (b, y)];
    assert InsertByKey((c, z), [(b, y), (a, x)]) == [(c, z), (b, y), (a, x)];
  }

  lemma SortTwoDescending<T>(a: T, b: T, x: int, y: int)
    requires x > y
    ensures SortByKey([(a, x), (b, y)]) == [(b, y), (a, x)]
  {
    var ps := [(a, x), (b, y)];
    assert ps[..1] == [(a, x)] && ps[..1][..0] == [];
    assert SortByKey([(a, x)]) == [(a, x)];
  }

  lemma ExampleKeys()
    ensures IntOf(Text("10")) == Some(10) && IntOf(Text("2")) == Some(2) && IntOf(Text("1")) == Some(1)
  {
    assert ShowInt(10) == "10" by {
      assert ShowNat(1) == "1";
      assert ShowNat(10) == ShowNat(1) + [DigitChar(0)];
    }
    assert ShowInt(2) == "2";
    assert ShowInt(1) == "1";
    ParseShowInt(10);
    ParseShowInt(2);
    ParseShowInt(1);
  }

  // ---------------------------------------------------------------------
  // Marker symbols and faded background colours (functions.py:340-353)

  /**
   * The pulse symbol: `'circle' if color_by in ('None') else 'diamond'`.
   * `('None')` is a plain string, so this is a substring test.
   */
  function PulseSymbol(colorBy: string): (r: string)
    ensures r == "circle" <==> Contains(colorBy, "None")
    ensures r == "circle" || r == "diamond"
  {
    if Contains(colorBy, "None") then "circle" else "diamond"
  }

  lemma {:induction false} ContainsShorter(needle: string, hay: string)
    requires Contains(needle, hay)
    ensures |needle| <= |hay|
  {
    var i := ContainsAt(needle, hay);
  }

  /** The colour options of the flare/pulse plot (pages/population_stats.py:120-134 and "Specific GRB"). */
  const FlareColourOptions := ["Specific GRB", "Fluence", "Duration", "Peak Time", "Rise/Decay Ratio", "Peak Flux",
                               "Isotropic Energy", "Peak Luminosity", "Isotropic Luminosity", "T90", "Redshift",
                               "Afterglow Fluence", "Underlying Afterglow Index", "Dimple"]

  /**
   * For every option the select box can return, the substring test agrees
   * with the evidently intended comparison `color_by == 'None'`.
   */
  lemma PulseSymbolOnOptions(colorBy: string)
    requires colorBy == "None" || colorBy in FlareColourOptions
    ensures PulseSymbol(colorBy) == (if colorBy == "None" then "circle" else "diamond")
  {
    if colorBy == "None" {
      assert "None" <= "None";
    } else if colorBy == "T90" {
      T90NotInNone();
    } else if Contains(colorBy, "None") {
      ContainsShorter(colorBy, "None");
    }
  }

  lemma T90NotInNone()
    ensures !Contains("T90", "None")
  {
    if Contains("T90", "ne") {
      ContainsShorter("T90", "ne");
    }
    assert "None"[1..] == "one" && "one"[1..] == "ne";
    assert "T90"[0] != "None"[0] && "T90"[0] != "one"[0];
    assert Contains("T90", "None") == Contains("T90", "one");
    assert Contains("T90", "one") == Contains("T90", "ne");
  }

  /** `colour[:-3] + '0.5)'`: the last three characters are replaced by an alpha of 0.5. */
  function Faded(colour: string): (r: string)
    ensures |r| >= 4 && r[|r| - 4..] == "0.5)"
    ensures |colour| >= 3 ==> |r| == |colour| + 1
  {
    DropLast(colour, 3) + "0.5)"
  }

  /** For a colour written "rgba(r, g, b, 1)", the result is the same colour at half opacity. */
  lemma FadedReplacesAlpha(prefix: string, alpha: string)
    requires |alpha| == 3
    ensures Faded(prefix + alpha) == prefix + "0.5)"
  {
    assert (prefix + alpha)[..|prefix|] == prefix;
  }
}
