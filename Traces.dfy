/**
 * The finishing passes over a population plot's traces. Plotly builds one
 * trace per colour group and marker symbol; how it splits the rows is not
 * modelled, so the traces are an input. A trace is the record of the
 * attributes these passes read and write, and the figure holds them in
 * order:
 *
 *  - afterglow highlighting (functions.py:216-229): traces named by a
 *    selected burst get the next palette colour, a larger marker and an
 *    outline, and are then moved after the others;
 *  - flare/pulse highlighting (functions.py:440-456): traces whose name
 *    contains a selected burst take that burst's colour, and the background
 *    ("Other ...") traces are moved first;
 *  - the legend pass (functions.py:462-479): highlighted traces leave the
 *    legend, the others are renamed to the text before the first comma and
 *    only the first trace with each label is listed;
 *  - proxy swatches (functions.py:481-499), one legend entry per selected
 *    burst, and the final reorder that puts them last (functions.py:501-504).
 */
module Traces {
  import opened Wrappers
  import opened Text
  import opened Ordering

  const SpecificGrb := "Specific GRB"

  /** `px.colors.qualitative.Plotly`, the colour cycle of both highlight passes. */
  const Palette: seq<string> := ["#636EFA", "#EF553B", "#00CC96", "#AB63FA", "#FFA15A", "#19D3F3", "#FF6692", "#B6E880", "#FF97FF", "#FECB52"]

  /** `color_cycle[k % len(color_cycle)]`. */
  function PaletteColour(k: nat): (c: string)
    ensures c in Palette
  {
    Palette[k % |Palette|]
  }

  /** A marker outline: its width and, when set, its colour. */
  datatype Line = Line(width: nat, colour: Option<string>)

  /** The attributes of a plot trace that the passes read or write. */
  datatype Trace = Trace(
    name: string,
    showLegend: bool,
    legendGroup: string,
    colour: string,
    size: nat,
    line: Line,
    symbol: string,
    isProxy: bool)

  /** The emphasis a highlighted trace gets: its colour, marker size 12 and a 2-wide outline. */
  function Emphasised(t: Trace, colour: string, outline: string): (r: Trace)
    ensures r.name == t.name && r.showLegend == t.showLegend && r.legendGroup == t.legendGroup
    ensures r.symbol == t.symbol && r.isProxy == t.isProxy
    ensures r.colour == colour && r.size == 12 && r.line == Line(2, Some(outline))
  {
    t.(colour := colour, size := 12, line := Line(2, Some(outline)))
  }

  // ---------------------------------------------------------------------
  // Afterglow highlighting (functions.py:216-229)

  /** The traces whose name is exactly one of the selected names (`trace.name in selected_grbs`). */
  function Named(selected: seq<string>): Trace -> bool {
    (t: Trace) => t.name in selected
  }

  /** How many traces are named by a selected burst. */
  function NamedCount(ts: seq<Trace>, selected: seq<string>): (n: nat)
    ensures n <= |ts|
  {
    if ts == [] then 0
    else NamedCount(ts[..|ts| - 1], selected) + (if ts[|ts| - 1].name in selected then 1 else 0)
  }

  /** One step of the highlight loop, when `k` highlighted traces came before this one. */
  function AfterglowStep(t: Trace, selected: seq<string>, k: nat): Trace {
    if t.name in selected then Emphasised(t, PaletteColour(k), "DarkSlateGrey") else t
  }

  /** The traces after the afterglow highlight loop. */
  function AfterglowRecoloured(ts: seq<Trace>, selected: seq<string>): (r: seq<Trace>)
    ensures |r| == |ts|
  {
    if ts == [] then []
    else
      var init := ts[..|ts| - 1];
      AfterglowRecoloured(init, selected) + [AfterglowStep(ts[|ts| - 1], selected, NamedCount(init, selected))]
  }

  /** The colours of the traces named by a selected burst, in trace order. */
  function NamedColours(ts: seq<Trace>, selected: seq<string>): (r: seq<string>)
    ensures |r| == NamedCount(ts, selected)
  {
    if ts == [] then []
    else NamedColours(ts[..|ts| - 1], selected) + (if ts[|ts| - 1].name in selected then [ts[|ts| - 1].colour] else [])
  }

  /** The palette cycled through `n` times: `color_cycle[k % len]` for k = 0, 1, ... */
  function PaletteRun(n: nat): (r: seq<string>)
    ensures |r| == n
    ensures forall k :: 0 <= k < n ==> r[k] == PaletteColour(k)
  {
    seq(n, k requires 0 <= k < n => PaletteColour(k))
  }

  /**
   * The k-th highlighted trace gets the k-th palette colour (modulo the
   * palette's length): the colour index advances on highlighted traces only.
   */
  lemma {:induction false} AfterglowPaletteOrder(ts: seq<Trace>, selected: seq<string>)
    ensures NamedColours(AfterglowRecoloured(ts, selected), selected) == PaletteRun(NamedCount(ts, selected))
  {
    if ts != [] {
      var init, t := ts[..|ts| - 1], ts[|ts| - 1];
      var r := AfterglowRecoloured(ts, selected);
      AfterglowPaletteOrder(init, selected);
      assert r[..|r| - 1] == AfterglowRecoloured(init, selected);
      assert r[|r| - 1] == AfterglowStep(t, selected, NamedCount(init, selected));
      var n := NamedCount(init, selected);
      assert PaletteRun(n + 1) == PaletteRun(n) + [PaletteColour(n)];
    }
  }

  /**
   * The loop changes only highlighted traces, and only their colour, size
   * and outline; names, legend settings and order are untouched.
   */
  lemma {:induction false} AfterglowKeepsOthers(ts: seq<Trace>, selected: seq<string>, i: nat)
    requires i < |ts|
    ensures AfterglowRecoloured(ts, selected)[i].name == ts[i].name
    ensures ts[i].name !in selected ==> AfterglowRecoloured(ts, selected)[i] == ts[i]
    ensures ts[i].name in selected ==>
      AfterglowRecoloured(ts, selected)[i] == Emphasised(ts[i], PaletteColour(NamedCount(ts[..i], selected)), "DarkSlateGrey")
  {
    var init := ts[..|ts| - 1];
    if i < |ts| - 1 {
      AfterglowKeepsOthers(init, selected, i);
      assert init[..i] == ts[..i];
    }
  }

  /** One more trace through the afterglow highlight loop. */
  lemma AfterglowLoopStep(ts: seq<Trace>, selected: seq<string>, i: nat, data: seq<Trace>)
    requires i < |ts| && data == AfterglowRecoloured(ts[..i], selected) + ts[i..]
    ensures data[i] == ts[i]
    ensures NamedCount(ts[..i + 1], selected) == NamedCount(ts[..i], selected) + (if ts[i].name in selected then 1 else 0)
    ensures ts[i].name in selected ==>
      data[i := AfterglowStep(ts[i], selected, NamedCount(ts[..i], selected))] ==
      AfterglowRecoloured(ts[..i + 1], selected) + ts[i + 1..]
    ensures ts[i].name !in selected ==> data == AfterglowRecoloured(ts[..i + 1], selected) + ts[i + 1..]
  {
    assert ts[..i + 1][..i] == ts[..i];
    var done := AfterglowRecoloured(ts[..i], selected);
    var next := AfterglowStep(ts[i], selected, NamedCount(ts[..i], selected));
    ReplaceNext(done, ts[i..], next);
    assert ts[i..][1..] == ts[i + 1..];
  }

  /** `traces.sort(key=lambda x: 1 if x.name in selected_grbs else 0)`. */
  function HighlightedLast(ts: seq<Trace>, selected: seq<string>): seq<Trace> {
    StablePartition(ts, Named(selected))
  }

  /**
   * The sort is a permutation that puts every highlighted trace after every
   * other trace and keeps the order within both groups.
   */
  lemma HighlightedLastCorrect(ts: seq<Trace>, selected: seq<string>)
    ensures multiset(HighlightedLast(ts, selected)) == multiset(ts)
    ensures forall i, j :: 0 <= i < j < |HighlightedLast(ts, selected)| && HighlightedLast(ts, selected)[i].name in selected ==>
      HighlightedLast(ts, selected)[j].name in selected
    ensures Filter(HighlightedLast(ts, selected), Named(selected)) == Filter(ts, Named(selected))
    ensures Filter(HighlightedLast(ts, selected), Not(Named(selected))) == Filter(ts, Not(Named(selected)))
  {
    StablePartitionCorrect(ts, Named(selected));
    assert forall t :: Named(selected)(t) == (t.name in selected);
  }

  // ---------------------------------------------------------------------
  // Flare and pulse highlighting (functions.py:440-456)

  /** `next((name for name in selected_grbs if name in trace.name), None)`. */
  function FirstMatch(selected: seq<string>, name: string): (r: Option<string>)
    ensures r.Some? ==> r.value in selected && Contains(r.value, name)
    ensures r.None? <==> forall n :: n in selected ==> !Contains(n, name)
  {
    if selected == [] then None
    else if Contains(selected[0], name) then Some(selected[0])
    else FirstMatch(selected[1..], name)
  }

  /** The match is the earliest selected name contained in the trace name. */
  lemma {:induction false} FirstMatchIsFirst(selected: seq<string>, name: string, i: nat)
    requires i < |selected| && Contains(selected[i], name)
    ensures FirstMatch(selected, name).Some?
    ensures exists j :: 0 <= j <= i && selected[j] == FirstMatch(selected, name).value
  {
    if !Contains(selected[0], name) {
      FirstMatchIsFirst(selected[1..], name, i - 1);
      var j :| 0 <= j <= i - 1 && selected[1..][j] == FirstMatch(selected[1..], name).value;
      assert selected[j + 1] == selected[1..][j];
    } else {
      assert selected[0] == FirstMatch(selected, name).value;
    }
  }

  /**
   * `{name: color_cycle[i % len(color_cycle)] for i, name in enumerate(selected_grbs)}`;
   * a name listed twice keeps the colour of its last position.
   */
  function ColourMap(selected: seq<string>): (m: map<string, string>)
    ensures forall n :: n in m <==> n in selected
  {
    if selected == [] then map[]
    else ColourMap(selected[..|selected| - 1])[selected[|selected| - 1] := PaletteColour(|selected| - 1)]
  }

  /** Without repeated names, the i-th selected burst has the i-th palette colour. */
  lemma {:induction false} ColourMapIndex(selected: seq<string>, i: nat)
    requires NoDuplicates(selected) && i < |selected|
    ensures ColourMap(selected)[selected[i]] == PaletteColour(i)
  {
    var init := selected[..|selected| - 1];
    if i < |selected| - 1 {
      assert selected[i] != selected[|selected| - 1];
      assert init[i] == selected[i];
      ColourMapIndex(init, i);
    }
  }

  /** One step of the flare highlight loop; an empty match is false in Python and changes nothing. */
  function FlaresStep(t: Trace, selected: seq<string>): Trace {
    match FirstMatch(selected, t.name)
    case None => t
    case Some(n) =>
      if n == "" then t
      else Emphasised(t, ColourMap(selected)[n], "black").(legendGroup := n)
  }

  /** The traces after the flare highlight loop. */
  function FlaresHighlighted(ts: seq<Trace>, selected: seq<string>): (r: seq<Trace>)
    ensures |r| == |ts|
  {
    seq(|ts|, i requires 0 <= i < |ts| => FlaresStep(ts[i], selected))
  }

  /**
   * A trace whose name contains a selected burst takes that burst's colour,
   * the palette colour of its position in the selection, and joins its
   * legend group; any other trace is unchanged.
   */
  lemma FlaresHighlightColour(ts: seq<Trace>, selected: seq<string>, i: nat, j: nat)
    requires NoDuplicates(selected) && i < |ts| && j < |selected|
    requires FirstMatch(selected, ts[i].name) == Some(selected[j]) && selected[j] != ""
    ensures FlaresHighlighted(ts, selected)[i] ==
      Emphasised(ts[i], PaletteColour(j), "black").(legendGroup := selected[j])
  {
    ColourMapIndex(selected, j);
  }

  lemma FlaresLeaveUnmatched(ts: seq<Trace>, selected: seq<string>, i: nat)
    requires i < |ts| && forall n :: n in selected && n != "" ==> !Contains(n, ts[i].name)
    ensures FlaresHighlighted(ts, selected)[i] == ts[i]
  {
  }

  /** The traces without "Other" in their name. */
  function NotOther(): Trace -> bool {
    (t: Trace) => !Contains("Other", t.name)
  }

  /** `traces.sort(key=lambda x: 0 if "Other" in x.name else 1)`. */
  function OtherFirst(ts: seq<Trace>): seq<Trace> {
    StablePartition(ts, NotOther())
  }

  /** The "Other" traces come first; the sort is a permutation keeping each group's order. */
  lemma OtherFirstCorrect(ts: seq<Trace>)
    ensures multiset(OtherFirst(ts)) == multiset(ts)
    ensures forall i, j :: 0 <= i < j < |OtherFirst(ts)| && Contains("Other", OtherFirst(ts)[j].name) ==>
      Contains("Other", OtherFirst(ts)[i].name)
    ensures Filter(OtherFirst(ts), NotOther()) == Filter(ts, NotOther())
    ensures Filter(OtherFirst(ts), Not(NotOther())) == Filter(ts, Not(NotOther()))
  {
    StablePartitionCorrect(ts, NotOther());
  }

  // ---------------------------------------------------------------------
  // The legend pass (functions.py:462-479)

  /** `any(grb in trace.name for grb in selected_grbs)`. */
  predicate Highlighted(t: Trace, selected: seq<string>) {
    exists n :: n in selected && Contains(n, t.name)
  }

  /** `trace.name.split(',')[0].strip()`. */
  function Label(name: string): (r: string)
    ensures Contains(r, name)
  {
    StrippedPrefixContained(name);
    Strip(BeforeComma(name))
  }

  /** One step of the legend loop, given the labels already seen. */
  function LegendStep(t: Trace, selected: seq<string>, seen: set<string>): Trace {
    if Highlighted(t, selected) then t.(showLegend := false)
    else
      var base := Label(t.name);
      t.(legendGroup := base, name := base, showLegend := base !in seen)
  }

  /** The labels of the traces that are not highlighted: `seen_groups` after the loop. */
  function Seen(ts: seq<Trace>, selected: seq<string>): set<string> {
    if ts == [] then {}
    else
      var t := ts[|ts| - 1];
      Seen(ts[..|ts| - 1], selected) + (if Highlighted(t, selected) then {} else {Label(t.name)})
  }

  /** The traces after the legend loop. */
  function LegendEntries(ts: seq<Trace>, selected: seq<string>): (r: seq<Trace>)
    ensures |r| == |ts|
  {
    if ts == [] then []
    else
      var init := ts[..|ts| - 1];
      LegendEntries(init, selected) + [LegendStep(ts[|ts| - 1], selected, Seen(init, selected))]
  }

  /** The number of traces listed in the legend. */
  function VisibleCount(ts: seq<Trace>): (n: nat)
    ensures n <= |ts|
  {
    if ts == [] then 0 else VisibleCount(ts[..|ts| - 1]) + (if ts[|ts| - 1].showLegend then 1 else 0)
  }

  lemma {:induction false} VisibleCountAppend(a: seq<Trace>, b: seq<Trace>)
    ensures VisibleCount(a + b) == VisibleCount(a) + VisibleCount(b)
    decreases |b|
  {
    if b == [] {
      assert a + b == a;
    } else {
      assert (a + b)[..|a + b| - 1] == a + b[..|b| - 1];
      VisibleCountAppend(a, b[..|b| - 1]);
    }
  }

  /** The legend lists each background label exactly once. */
  lemma {:induction false} LegendVisibleCount(ts: seq<Trace>, selected: seq<string>)
    ensures VisibleCount(LegendEntries(ts, selected)) == |Seen(ts, selected)|
  {
    if ts != [] {
      var init, t := ts[..|ts| - 1], ts[|ts| - 1];
      LegendVisibleCount(init, selected);
      LegendCountStep(ts, selected);
      SeenSizeStep(ts, selected);
    }
  }

  lemma LegendCountStep(ts: seq<Trace>, selected: seq<string>)
    requires ts != []
    ensures var init, t := ts[..|ts| - 1], ts[|ts| - 1];
      VisibleCount(LegendEntries(ts, selected)) == VisibleCount(LegendEntries(init, selected)) +
        (if !Highlighted(t, selected) && Label(t.name) !in Seen(init, selected) then 1 else 0)
  {
    var r := LegendEntries(ts, selected);
    assert r[..|r| - 1] == LegendEntries(ts[..|ts| - 1], selected);
  }

  lemma SeenSizeStep(ts: seq<Trace>, selected: seq<string>)
    requires ts != []
    ensures var init, t := ts[..|ts| - 1], ts[|ts| - 1];
      |Seen(ts, selected)| == |Seen(init, selected)| +
        (if !Highlighted(t, selected) && Label(t.name) !in Seen(init, selected) then 1 else 0)
  {
    var init, t := ts[..|ts| - 1], ts[|ts| - 1];
    var seen := Seen(init, selected);
    if !Highlighted(t, selected) {
      SetAddSize(seen, Label(t.name));
    }
  }

  lemma SetAddSize<T>(s: set<T>, x: T)
    ensures |s + {x}| == |s| + (if x in s then 0 else 1)
  {
    if x in s { assert s + {x} == s; }
  }

  /** The labels seen are those of the traces that are not highlighted. */
  lemma {:induction false} SeenLabels(ts: seq<Trace>, selected: seq<string>, l: string)
    ensures l in Seen(ts, selected) ==> exists i :: 0 <= i < |ts| && !Highlighted(ts[i], selected) && Label(ts[i].name) == l
    ensures forall i :: 0 <= i < |ts| && !Highlighted(ts[i], selected) ==> Label(ts[i].name) in Seen(ts, selected)
  {
    if ts != [] {
      var init, t := ts[..|ts| - 1], ts[|ts| - 1];
      SeenLabels(init, selected, l);
      var seen := Seen(init, selected);
      assert Seen(ts, selected) == seen + (if Highlighted(t, selected) then {} else {Label(t.name)});
      if l in seen {
        var i :| 0 <= i < |init| && !Highlighted(init[i], selected) && Label(init[i].name) == l;
        assert ts[i] == init[i];
      }
      forall i | 0 <= i < |ts| && !Highlighted(ts[i], selected) ensures Label(ts[i].name) in Seen(ts, selected) {
        if i < |init| {
          assert init[i] == ts[i];
          assert Label(init[i].name) in seen;
        } else {
          assert ts[i] == t;
        }
      }
    }
  }

  /**
   * After the loop, no trace both shows in the legend and carries a
   * selected name: highlighted traces are hidden, and a label that equalled
   * a selected name would have made its trace highlighted.
   */
  lemma {:induction false} LegendHasNoSelectedEntry(ts: seq<Trace>, selected: seq<string>)
    ensures forall t :: t in LegendEntries(ts, selected) ==> !(t.name in selected && t.showLegend)
  {
    if ts != [] {
      var init, last := ts[..|ts| - 1], ts[|ts| - 1];
      LegendHasNoSelectedEntry(init, selected);
      var r := LegendEntries(ts, selected);
      assert r == LegendEntries(init, selected) + [LegendStep(last, selected, Seen(init, selected))];
    }
  }

  /** One more trace through the legend loop. */
  lemma LegendLoopStep(ts: seq<Trace>, selected: seq<string>, i: nat, data: seq<Trace>)
    requires i < |ts| && data == LegendEntries(ts[..i], selected) + ts[i..]
    ensures data[i] == ts[i]
    ensures data[i := LegendStep(ts[i], selected, Seen(ts[..i], selected))] ==
      LegendEntries(ts[..i + 1], selected) + ts[i + 1..]
    ensures Seen(ts[..i + 1], selected) ==
      Seen(ts[..i], selected) + (if Highlighted(ts[i], selected) then {} else {Label(ts[i].name)})
  {
    assert ts[..i + 1][..i] == ts[..i];
    ReplaceNext(LegendEntries(ts[..i], selected), ts[i..], LegendStep(ts[i], selected, Seen(ts[..i], selected)));
    assert ts[i..][1..] == ts[i + 1..];
  }

  /** Replacing the first unprocessed element moves it to the processed part. */
  lemma ReplaceNext<T>(done: seq<T>, rest: seq<T>, x: T)
    requires rest != []
    ensures (done + rest)[|done| := x] == done + [x] + rest[1..]
  {
  }

  // ---------------------------------------------------------------------
  // Proxy legend entries and the final order (functions.py:481-504)

  /** `grb_color_map.get(name, 'black')`. */
  function ColourOrBlack(m: map<string, string>, name: string): string {
    if name in m then m[name] else "black"
  }

  /** A zero-data square swatch that stands for one selected burst in the legend. */
  function Proxy(name: string, colour: string): Trace {
    Trace(name, true, name, colour, 12, Line(0, None), "square", true)
  }

  /** The proxies appended for the selected bursts, in selection order. */
  function Proxies(selected: seq<string>): (r: seq<Trace>)
    ensures |r| == |selected|
  {
    seq(|selected|, i requires 0 <= i < |selected| => Proxy(selected[i], ColourOrBlack(ColourMap(selected), selected[i])))
  }

  /**
   * Without repeated names the i-th proxy is a legend entry for the i-th
   * selected burst in the i-th palette colour.
   */
  lemma ProxyColours(selected: seq<string>, i: nat)
    requires NoDuplicates(selected) && i < |selected|
    ensures Proxies(selected)[i].name == selected[i] && Proxies(selected)[i].legendGroup == selected[i]
    ensures Proxies(selected)[i].showLegend && Proxies(selected)[i].isProxy
    ensures Proxies(selected)[i].colour == PaletteColour(i)
  {
    ColourMapIndex(selected, i);
  }

  /** Every proxy is listed in the legend. */
  lemma ProxiesVisible(selected: seq<string>)
    ensures VisibleCount(Proxies(selected)) == |selected|
  {
    var p := Proxies(selected);
    assert forall t :: t in p ==> t.showLegend;
    ProxiesVisibleAll(p);
  }

  lemma {:induction false} ProxiesVisibleAll(ts: seq<Trace>)
    requires forall t :: t in ts ==> t.showLegend
    ensures VisibleCount(ts) == |ts|
  {
    if ts != [] {
      assert forall t :: t in ts[..|ts| - 1] ==> t in ts;
      ProxiesVisibleAll(ts[..|ts| - 1]);
    }
  }

  /** The predicate `t.name in selected_grbs and t.showlegend` that picks the proxies. */
  function ProxyEntry(selected: seq<string>): Trace -> bool {
    (t: Trace) => t.name in selected && t.showLegend
  }

  /**
   * `proxies = [t for t in data if t.name in selected_grbs and t.showlegend]`,
   * `others = [t for t in data if t not in proxies]`, `others + proxies`.
   * `not in` compares traces by value.
   */
  function ProxiesLast(ts: seq<Trace>, selected: seq<string>): seq<Trace> {
    var proxies := Filter(ts, ProxyEntry(selected));
    Filter(ts, (t: Trace) => t !in proxies) + proxies
  }

  /**
   * After the legend pass, with or without the proxies appended, the final
   * reorder leaves the traces as they are: the appended proxies are the only
   * traces it moves, and they are already last.
   */
  lemma ReorderIsIdentity(ts: seq<Trace>, selected: seq<string>, withProxies: bool)
    ensures var all := LegendEntries(ts, selected) + (if withProxies then Proxies(selected) else []);
      ProxiesLast(all, selected) == all
  {
    var l := LegendEntries(ts, selected);
    var p := if withProxies then Proxies(selected) else [];
    LegendHasNoSelectedEntry(ts, selected);
    assert forall t :: t in p ==> ProxyEntry(selected)(t);
    FilterAppend(l, p, ProxyEntry(selected));
    FilterNone(l, ProxyEntry(selected));
    FilterAll(p, ProxyEntry(selected));
    assert l + [] == l;
    assert Filter(l + p, ProxyEntry(selected)) == p;
    var notProxy := (t: Trace) => t !in p;
    FilterAppend(l, p, notProxy);
    FilterAll(l, notProxy);
    FilterNone(p, notProxy);
  }

  /**
   * The visible legend entries of the finished flare/pulse plot: one per
   * distinct background label, plus one proxy per selected name when proxies
   * are added.
   */
  lemma FinishedLegendCount(ts: seq<Trace>, selected: seq<string>, withProxies: bool)
    ensures var all := LegendEntries(ts, selected) + (if withProxies then Proxies(selected) else []);
      VisibleCount(ProxiesLast(all, selected)) == |Seen(ts, selected)| + (if withProxies then |selected| else 0)
  {
    ReorderIsIdentity(ts, selected, withProxies);
    var p := if withProxies then Proxies(selected) else [];
    VisibleCountAppend(LegendEntries(ts, selected), p);
    LegendVisibleCount(ts, selected);
    if withProxies { ProxiesVisible(selected); }
  }

  // ---------------------------------------------------------------------
  // The figure

  /** The plot's trace list (`fig.data`), which the passes rewrite in place. */
  class Figure {
    var data: seq<Trace>

    constructor (traces: seq<Trace>)
      ensures data == traces
    {
      data := traces;
    }

    /** functions.py:218-225: the highlight loop with its running colour index. */
    method RecolourAfterglow(selected: seq<string>)
      modifies this
      ensures data == AfterglowRecoloured(old(data), selected)
    {
      var ts := data;
      var colourIndex := 0;
      for i := 0 to |ts|
        invariant data == AfterglowRecoloured(ts[..i], selected) + ts[i..]
        invariant colourIndex == NamedCount(ts[..i], selected)
      {
        AfterglowLoopStep(ts, selected, i, data);
        if data[i].name in selected {
          data := data[i := Emphasised(data[i], Palette[colourIndex % |Palette|], "DarkSlateGrey")];
          colourIndex := colourIndex + 1;
        }
      }
      assert ts[..|ts|] == ts;
    }

    /** functions.py:216-229: highlighting in "Specific GRB" mode, then highlighted traces last. */
    method HighlightAfterglow(colorBy: string, selected: seq<string>)
      modifies this
      ensures colorBy == SpecificGrb ==> data == HighlightedLast(AfterglowRecoloured(old(data), selected), selected)
      ensures colorBy != SpecificGrb ==> data == old(data)
    {
      if colorBy == SpecificGrb {
        RecolourAfterglow(selected);
        data := HighlightedLast(data, selected);
      }
    }

    /** functions.py:445-452: the flare highlight loop. */
    method HighlightFlares(selected: seq<string>)
      modifies this
      ensures data == FlaresHighlighted(old(data), selected)
    {
      var ts := data;
      var colourMap := ColourMap(selected);
      for i := 0 to |ts|
        invariant |data| == |ts|
        invariant forall k :: 0 <= k < i ==> data[k] == FlaresStep(ts[k], selected)
        invariant forall k :: i <= k < |ts| ==> data[k] == ts[k]
      {
        var matched := FirstMatch(selected, data[i].name);
        if matched.Some? && matched.value != "" {
          data := data[i := Emphasised(data[i], colourMap[matched.value], "black").(legendGroup := matched.value)];
        }
      }
    }

    /** functions.py:462-479: the legend loop with its set of labels already listed. */
    method SetLegend(selected: seq<string>)
      modifies this
      ensures data == LegendEntries(old(data), selected)
    {
      var ts := data;
      var seenGroups: set<string> := {};
      for i := 0 to |ts|
        invariant data == LegendEntries(ts[..i], selected) + ts[i..]
        invariant seenGroups == Seen(ts[..i], selected)
      {
        LegendLoopStep(ts, selected, i, data);
        var t := data[i];
        var next: Trace;
        if Highlighted(t, selected) {
          next := t.(showLegend := false);
        } else {
          var baseLabel := Strip(BeforeComma(t.name));
          if baseLabel in seenGroups {
            next := t.(legendGroup := baseLabel, name := baseLabel, showLegend := false);
          } else {
            next := t.(legendGroup := baseLabel, name := baseLabel, showLegend := true);
            seenGroups := seenGroups + {baseLabel};
          }
        }
        data := data[i := next];
      }
      assert ts[..|ts|] == ts;
    }

    /** functions.py:481-499: one proxy per selected burst in "Specific GRB" mode. */
    method AddProxies(colorBy: string, selected: seq<string>)
      modifies this
      ensures colorBy == SpecificGrb && selected != [] ==> data == old(data) + Proxies(selected)
      ensures !(colorBy == SpecificGrb && selected != []) ==> data == old(data)
    {
      if colorBy == SpecificGrb && selected != [] {
        var ts := data;
        var colourMap := ColourMap(selected);
        for i := 0 to |selected|
          invariant data == ts + Proxies(selected)[..i]
        {
          var colour := ColourOrBlack(colourMap, selected[i]);
          assert Proxies(selected)[i] == Proxy(selected[i], colour);
          data := data + [Proxy(selected[i], colour)];
          assert Proxies(selected)[..i + 1] == Proxies(selected)[..i] + [Proxies(selected)[i]];
        }
        assert Proxies(selected)[..|selected|] == Proxies(selected);
      }
    }

    /** functions.py:501-504. */
    method MoveProxiesLast(selected: seq<string>)
      modifies this
      ensures data == ProxiesLast(old(data), selected)
    {
      data := ProxiesLast(data, selected);
    }

    /**
     * functions.py:440-504 in order: highlighting and the background-first
     * sort in "Specific GRB" mode, the legend pass, the proxies and the final
     * reorder. The legend then lists each background label once and one
     * swatch per selected burst.
     */
    method FinishFlares(colorBy: string, selected: seq<string>)
      modifies this
      ensures var before := if colorBy == SpecificGrb then OtherFirst(FlaresHighlighted(old(data), selected)) else old(data);
        var withProxies := colorBy == SpecificGrb && selected != [];
        && data == LegendEntries(before, selected) + (if withProxies then Proxies(selected) else [])
        && VisibleCount(data) == |Seen(before, selected)| + (if withProxies then |selected| else 0)
    {
      if colorBy == SpecificGrb {
        HighlightFlares(selected);
        data := OtherFirst(data);
      }
      ghost var before := data;
      SetLegend(selected);
      AddProxies(colorBy, selected);
      ghost var withProxies := colorBy == SpecificGrb && selected != [];
      assert data == LegendEntries(before, selected) + (if withProxies then Proxies(selected) else []);
      MoveProxiesLast(selected);
      ReorderIsIdentity(before, selected, withProxies);
      FinishedLegendCount(before, selected, withProxies);
    }
  }
}
