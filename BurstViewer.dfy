/**
 * The burst page's lookup (pages/burst_viewer.py:16-43, 171-172): the
 * picked name is normalised, the three tables are searched by upper-cased
 * `GRBname`, and the page either shows the landing text, reports that no
 * data was found, or shows the burst's header and counts. Each table is
 * given by its `GRBname` column, one entry per row.
 */
module BurstViewer {
  import opened Wrappers
  import opened Text
  import opened Ordering
  import opened GrbNames
  import opened Catalogue

  /** The row filter `table['GRBname'].str.upper() == query`. */
  function NameIs(query: string): string -> bool {
    (name: string) => Upper(name) == query
  }

  /** The rows of one table that belong to the queried burst. */
  function Matching(names: seq<string>, query: string): (r: seq<string>)
    ensures |r| <= |names|
    ensures forall n :: n in r <==> n in names && Upper(n) == query
  {
    Filter(names, NameIs(query))
  }

  /** The summary's right-hand counts; "-" flares when the burst has no afterglow row is `None`. */
  datatype Summary = Summary(header: string, pulseCount: nat, flareCount: Option<nat>)

  datatype Page = Landing | NotFound(query: string) | Found(summary: Summary)

  /** A table has no row of the burst exactly when its filter comes back empty. */
  lemma MatchingEmpty(names: seq<string>, query: string)
    ensures Matching(names, query) == [] <==> forall n :: n in names ==> Upper(n) != query
  {
    if Matching(names, query) != [] {
      assert Matching(names, query)[0] in Matching(names, query);
    }
  }

  /**
   * pages/burst_viewer.py:23-43 and 171-172 for a normalised query: the
   * burst is found exactly when some table has a row of it; the pulse count
   * is the number of its pulse rows, and the flare count is shown exactly
   * when it has an afterglow row.
   */
  function Search(q: string, afterglow: seq<string>, flares: seq<string>, pulses: seq<string>): (p: Page)
    ensures p.Landing? == false
    ensures p.Found? <==> exists n :: (n in afterglow || n in flares || n in pulses) && Upper(n) == q
    ensures p.NotFound? ==> p.query == q
    ensures p.Found? ==> p.summary.header == PrintGrbName(q) && p.summary.pulseCount == |Matching(pulses, q)|
    ensures p.Found? ==> (p.summary.flareCount.None? <==> forall n :: n in afterglow ==> Upper(n) != q)
    ensures p.Found? && p.summary.flareCount.Some? ==> p.summary.flareCount.value == |Matching(flares, q)|
  {
    var a := Matching(afterglow, q);
    var f := Matching(flares, q);
    var u := Matching(pulses, q);
    MatchingEmpty(afterglow, q);
    MatchingEmpty(flares, q);
    MatchingEmpty(pulses, q);
    if a == [] && f == [] && u == [] then NotFound(q)
    else Found(Summary(PrintGrbName(q), |u|, if a == [] then None else Some(|f|)))
  }

  /**
   * pages/burst_viewer.py:16-21: no selection (or an empty one) shows the
   * landing text; any other selection is normalised and searched.
   */
  function Lookup(selection: Option<string>, afterglow: seq<string>, flares: seq<string>, pulses: seq<string>): (p: Page)
    ensures p.Landing? <==> selection.None? || selection.value == ""
    ensures !p.Landing? ==> p == Search(NormaliseQuery(selection.value), afterglow, flares, pulses)
  {
    if selection.None? || selection.value == "" then Landing
    else Search(NormaliseQuery(selection.value), afterglow, flares, pulses)
  }

  /**
   * Every option of the name picker finds its burst: when the catalogue's
   * names are in normal form, picking the i-th option shows the page of the
   * i-th name, with that name's header, and a flare count exactly when the
   * burst has an afterglow row.
   */
  lemma PickedOptionIsFound(afterglow: seq<string>, flares: seq<string>, pulses: seq<string>, i: nat)
    requires forall n :: n in afterglow || n in flares || n in pulses ==> CanonicalKey(n) && |n| > 3
    requires i < |NameOptions(afterglow, flares, pulses)|
    ensures var k := GrbNameList(afterglow, flares, pulses)[i];
      var p := Lookup(Some(NameOptions(afterglow, flares, pulses)[i]), afterglow, flares, pulses);
      && p.Found?
      && p.summary.header == PrintGrbName(k)
      && (p.summary.flareCount.Some? <==> k in afterglow)
  {
    var names := GrbNameList(afterglow, flares, pulses);
    var k := names[i];
    assert k in names;
    var option := NameOptions(afterglow, flares, pulses)[i];
    DisplayNameRoundTrip(k);
    assert Lookup(Some(option), afterglow, flares, pulses) == Search(k, afterglow, flares, pulses);
    SearchCatalogueName(k, afterglow, flares, pulses);
  }

  /** Searching for a name the tables hold, all in normal form, finds it. */
  lemma SearchCatalogueName(k: string, afterglow: seq<string>, flares: seq<string>, pulses: seq<string>)
    requires forall n :: n in afterglow || n in flares || n in pulses ==> CanonicalKey(n)
    requires k in afterglow || k in flares || k in pulses
    ensures Search(k, afterglow, flares, pulses).Found?
    ensures Search(k, afterglow, flares, pulses).summary.header == PrintGrbName(k)
    ensures Search(k, afterglow, flares, pulses).summary.flareCount.Some? <==> k in afterglow
  {
    UpperIsUpperCase(k);
    CanonicalNamesDistinct(afterglow, k);
  }

  /** A table of names in normal form has a row of burst `k` exactly when it holds `k`. */
  lemma CanonicalNamesDistinct(names: seq<string>, k: string)
    requires forall n :: n in names ==> CanonicalKey(n)
    ensures (exists n :: n in names && Upper(n) == k) <==> k in names
  {
    if exists n :: n in names && Upper(n) == k {
      var n :| n in names && Upper(n) == k;
      UpperIsUpperCase(n);
    }
    if k in names {
      UpperIsUpperCase(k);
    }
  }
}
