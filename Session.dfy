/**
 * What the population page keeps in `st.session_state` between reruns, and
 * the decisions it takes from it: the plot settings each view restores and
 * writes back (functions.py:85-133, 259-309), the population switch
 * (pages/population_stats.py:41-51) and the click that opens a burst
 * (functions.py:240-245, 531-536). Widgets are inputs: each returns its
 * default until the user sets it, and navigation is a returned command.
 */
module Session {
  import opened Wrappers
  import opened Text
  import opened GrbNames
  import Traces

  /** The two population plots, each with its own stored settings. */
  datatype View = AfterglowPlot | FlarePlot

  /** The stored settings of one plot. A scale control can be cleared, hence the Option. */
  datatype PlotConfig = PlotConfig(
    xAxis: string,
    xLog: Option<string>,
    yAxis: string,
    yLog: Option<string>,
    colorBy: string)

  const LogScale := "Log-scale"

  /** The settings a view starts with: the first two columns, log scales, no colouring. */
  function DefaultConfig(columns: seq<string>): PlotConfig
    requires |columns| >= 2
  {
    PlotConfig(columns[0], Some(LogScale), columns[1], Some(LogScale), "None")
  }

  /** `["None", "Specific GRB"] + column_options`. */
  function ColourOptions(columns: seq<string>): seq<string> {
    ["None", Traces.SpecificGrb] + columns
  }

  // ---------------------------------------------------------------------
  // Restoring a stored choice (functions.py:108, 113, 119, 284, 289, 295)

  /** `options.index(x)`: the first position holding `x`. */
  function IndexOf(options: seq<string>, x: string): (i: nat)
    requires x in options
    ensures i < |options| && options[i] == x
    ensures forall j :: 0 <= j < i ==> options[j] != x
  {
    if options[0] == x then 0 else 1 + IndexOf(options[1..], x)
  }

  /** `options.index(stored) if stored in options else fallback`. */
  function SelectIndex(options: seq<string>, stored: string, fallback: nat): (i: nat)
    ensures stored in options ==> i < |options| && options[i] == stored
    ensures stored in options ==> forall j :: 0 <= j < i ==> options[j] != stored
    ensures stored !in options ==> i == fallback
  {
    if stored in options then IndexOf(options, stored) else fallback
  }

  /**
   * With at least two columns every restored index is a valid position: the
   * stored choice's own, or the fallbacks 0 (x axis and colour) and 1 (y axis).
   */
  lemma SelectIndicesValid(columns: seq<string>, p: PlotConfig)
    requires |columns| >= 2
    ensures SelectIndex(columns, p.xAxis, 0) < |columns|
    ensures SelectIndex(columns, p.yAxis, 1) < |columns|
    ensures SelectIndex(ColourOptions(columns), p.colorBy, 0) < |ColourOptions(columns)|
  {
  }

  // ---------------------------------------------------------------------
  // Widgets

  /** A widget the user has left alone, or the value the user gave it. */
  datatype Input<T> = Untouched | Set(value: T)

  /** What a widget returns: its default until the user sets it. */
  function Widget<T>(input: Input<T>, default: T): T {
    if input.Set? then input.value else default
  }

  /**
   * The inputs of one plot's controls: the three select boxes (as positions
   * in their options), the two scale controls and the burst picker.
   */
  datatype Widgets = Widgets(
    x: Input<nat>,
    xLog: Input<Option<string>>,
    y: Input<nat>,
    yLog: Input<Option<string>>,
    colour: Input<nat>,
    grbs: Input<seq<string>>)

  const NoInput: Widgets := Widgets(Untouched, Untouched, Untouched, Untouched, Untouched, Untouched)

  /** A select box can only return one of its options. */
  predicate WidgetsFit(w: Widgets, columns: seq<string>) {
    && (w.x.Set? ==> w.x.value < |columns|)
    && (w.y.Set? ==> w.y.value < |columns|)
    && (w.colour.Set? ==> w.colour.value < |columns| + 2)
  }

  /**
   * The settings the page writes back: each select box starts at the stored
   * choice when it is still offered, at its fallback otherwise, and returns
   * the user's pick if there is one; the scale controls start at the stored
   * scale.
   */
  function Configured(p: PlotConfig, columns: seq<string>, w: Widgets): (c: PlotConfig)
    requires |columns| >= 2 && WidgetsFit(w, columns)
    ensures c.xAxis in columns && c.yAxis in columns && c.colorBy in ColourOptions(columns)
  {
    var options := ColourOptions(columns);
    PlotConfig(
      columns[Widget(w.x, SelectIndex(columns, p.xAxis, 0))],
      Widget(w.xLog, p.xLog),
      columns[Widget(w.y, SelectIndex(columns, p.yAxis, 1))],
      Widget(w.yLog, p.yLog),
      options[Widget(w.colour, SelectIndex(options, p.colorBy, 0))])
  }

  /**
   * Without user input a stored choice is kept when it is still offered and
   * otherwise replaced by the first column (x axis), the second column
   * (y axis) or "None" (colour); the scales are kept.
   */
  lemma ConfiguredRecovers(p: PlotConfig, columns: seq<string>)
    requires |columns| >= 2
    ensures var c := Configured(p, columns, NoInput);
      && c.xAxis == (if p.xAxis in columns then p.xAxis else columns[0])
      && c.yAxis == (if p.yAxis in columns then p.yAxis else columns[1])
      && c.colorBy == (if p.colorBy in ColourOptions(columns) then p.colorBy else "None")
      && c.xLog == p.xLog && c.yLog == p.yLog
  {
  }

  /** The settings written back are restored unchanged by the next run without input. */
  lemma ConfiguredIsStable(p: PlotConfig, columns: seq<string>, w: Widgets)
    requires |columns| >= 2 && WidgetsFit(w, columns)
    ensures Configured(Configured(p, columns, w), columns, NoInput) == Configured(p, columns, w)
  {
    var c := Configured(p, columns, w);
    ConfiguredRecovers(c, columns);
  }

  // ---------------------------------------------------------------------
  // The bursts to highlight (functions.py:95-98, 126-129, 269-272, 300-303)

  /** The burst names after the picker: the new shared list and the names the highlight passes use. */
  datatype Selection = Selection(shared: seq<string>, selected: seq<string>)

  /**
   * In "Specific GRB" mode the picker's names become the shared list and,
   * with spaces removed, the selection; in every other mode the shared list
   * is used as it is.
   */
  function Select(colorBy: string, shared: seq<string>, grbs: Input<seq<string>>): (r: Selection)
    ensures colorBy != Traces.SpecificGrb ==> r == Selection(shared, shared)
    ensures colorBy == Traces.SpecificGrb ==> r.shared == Widget(grbs, shared)
    ensures colorBy == Traces.SpecificGrb ==> |r.selected| == |r.shared|
    ensures colorBy == Traces.SpecificGrb ==>
      forall i :: 0 <= i < |r.shared| ==> ' ' !in r.selected[i] && r.selected[i] == RemoveSpaces(r.shared[i])
  {
    if colorBy == Traces.SpecificGrb then
      var chosen := Widget(grbs, shared);
      Selection(chosen, seq(|chosen|, i requires 0 <= i < |chosen| => RemoveSpaces(chosen[i])))
    else Selection(shared, shared)
  }

  /**
   * The picker offers the catalogue's names, which have no spaces: then the
   * selection is exactly the picked names, and an untouched picker keeps the
   * shared list.
   */
  lemma SelectFromCatalogue(shared: seq<string>, grbs: Input<seq<string>>)
    requires forall n :: n in Widget(grbs, shared) ==> ' ' !in n
    ensures Select(Traces.SpecificGrb, shared, grbs).selected == Widget(grbs, shared)
    ensures grbs.Untouched? ==> Select(Traces.SpecificGrb, shared, grbs).shared == shared
  {
    var r := Select(Traces.SpecificGrb, shared, grbs);
    var chosen := Widget(grbs, shared);
    forall i | 0 <= i < |chosen| ensures r.selected[i] == chosen[i] {
      assert chosen[i] in chosen;
    }
  }

  // ---------------------------------------------------------------------
  // The population switch (pages/population_stats.py:41-51)

  const Populations := ["Afterglows", "Pulses/Flares"]

  /** The population shown, the choice stored and whether the page reruns. */
  datatype PopulationStep = PopulationStep(shown: string, stored: string, rerun: bool)

  /**
   * A cleared control falls back to the stored choice; a different choice
   * is stored and the page reruns; the same choice changes nothing.
   */
  function PopulationChoice(stored: Option<string>, control: Option<string>): (r: PopulationStep)
    ensures r.stored == r.shown
    ensures control.None? ==> r.shown == (if stored.Some? then stored.value else Populations[0]) && !r.rerun
    ensures control.Some? ==> r.shown == control.value
    ensures r.rerun <==> stored != Some(r.shown) && (stored.Some? || r.shown != Populations[0])
  {
    var current := if stored.Some? then stored.value else Populations[0];
    var shown := if control.Some? then control.value else current;
    PopulationStep(shown, shown, shown != current)
  }

  /** After the rerun the same control value settles: nothing changes and no further rerun happens. */
  lemma PopulationSettles(stored: Option<string>, control: Option<string>)
    ensures var first := PopulationChoice(stored, control);
      var second := PopulationChoice(Some(first.stored), control);
      second == PopulationStep(first.shown, first.stored, false)
  {
  }

  // ---------------------------------------------------------------------
  // Clicking a point (functions.py:240-245, 531-536)

  /** A selected point; `key` is its first custom-data value, the burst's `GRBname`. */
  datatype Point = Point(key: string)

  datatype Command = Stay | SwitchPage(page: string)

  const BurstViewerPage := "pages/burst_viewer.py"

  /**
   * The burst a click opens: the first selected point's key in display
   * form, or nothing when there is no selection or it holds no point.
   */
  function ClickedGrb(points: Option<seq<Point>>): (r: Option<string>)
    ensures r.None? <==> points.None? || points.value == []
  {
    if points.Some? && |points.value| > 0 then Some(DisplayName(points.value[0].key)) else None
  }

  /**
   * The stored name finds the clicked burst again: the burst viewer's query
   * normalisation maps it back to the key that was clicked.
   */
  lemma ClickedGrbFindsBurst(key: string, others: seq<Point>)
    requires CanonicalKey(key) && |key| > 3
    ensures ClickedGrb(Some([Point(key)] + others)).Some?
    ensures NormaliseQuery(ClickedGrb(Some([Point(key)] + others)).value) == key
  {
    DisplayNameRoundTrip(key);
  }

  // ---------------------------------------------------------------------
  // The session state

  /** `st.session_state`: the entries the population and burst pages share. */
  class State {
    var configs: map<View, PlotConfig>      // 'popstats_afterglow', 'popstats_flares'
    var sharedGrbs: Option<seq<string>>     // 'popstats_shared_grbs'
    var viewerGrb: Option<string>           // 'viewer_grb'
    var tabChoice: Option<string>           // 'plotting_tab_choice'

    /** A new session holds none of the entries. */
    constructor ()
      ensures configs == map[] && sharedGrbs == None && viewerGrb == None && tabChoice == None
    {
      configs := map[];
      sharedGrbs := None;
      viewerGrb := None;
      tabChoice := None;
    }

    /**
     * functions.py:85-133 and 259-309: seed the view's settings and the
     * shared burst list when absent, restore every control, read the burst
     * picker in "Specific GRB" mode, and write the settings back.
     */
    method ConfigureView(view: View, columns: seq<string>, w: Widgets) returns (config: PlotConfig, selected: seq<string>)
      requires |columns| >= 2 && WidgetsFit(w, columns)
      modifies this
      ensures var p := if view in old(configs) then old(configs)[view] else DefaultConfig(columns);
        var shared := if old(sharedGrbs).Some? then old(sharedGrbs).value else [];
        var s := Select(config.colorBy, shared, w.grbs);
        && config == Configured(p, columns, w)
        && configs == old(configs)[view := config]
        && sharedGrbs == Some(s.shared)
        && selected == s.selected
      ensures viewerGrb == old(viewerGrb) && tabChoice == old(tabChoice)
    {
      if view !in configs {
        configs := configs[view := DefaultConfig(columns)];
      }
      var persistent := configs[view];
      if sharedGrbs.None? {
        sharedGrbs := Some([]);
      }
      var shared := sharedGrbs.value;
      selected := shared;

      var xIdx := SelectIndex(columns, persistent.xAxis, 0);
      var xAxis := columns[Widget(w.x, xIdx)];
      var xLog := Widget(w.xLog, persistent.xLog);
      var yIdx := SelectIndex(columns, persistent.yAxis, 1);
      var yAxis := columns[Widget(w.y, yIdx)];
      var yLog := Widget(w.yLog, persistent.yLog);
      var colourOptions := ColourOptions(columns);
      var cIdx := SelectIndex(colourOptions, persistent.colorBy, 0);
      var colorBy := colourOptions[Widget(w.colour, cIdx)];

      if colorBy == Traces.SpecificGrb {
        var chosen := Widget(w.grbs, shared);
        sharedGrbs := Some(chosen);
        var stored := sharedGrbs.value;
        selected := seq(|stored|, i requires 0 <= i < |stored| => RemoveSpaces(stored[i]));
      }

      config := PlotConfig(xAxis, xLog, yAxis, yLog, colorBy);
      configs := configs[view := config];
    }

    /** pages/population_stats.py:41-51. */
    method ChoosePopulation(control: Option<string>) returns (shown: string, rerun: bool)
      modifies this
      ensures var step := PopulationChoice(old(tabChoice), control);
        shown == step.shown && rerun == step.rerun && tabChoice == Some(step.stored)
      ensures configs == old(configs) && sharedGrbs == old(sharedGrbs) && viewerGrb == old(viewerGrb)
    {
      if tabChoice.None? {
        tabChoice := Some(Populations[0]);
      }
      shown := if control.Some? then control.value else tabChoice.value;
      rerun := false;
      if shown != tabChoice.value {
        tabChoice := Some(shown);
        rerun := true;
      }
    }

    /** functions.py:240-245 and 531-536: store the clicked burst and open the burst page. */
    method OnClick(points: Option<seq<Point>>) returns (cmd: Command)
      modifies this
      ensures ClickedGrb(points).None? ==> cmd == Stay && viewerGrb == old(viewerGrb)
      ensures ClickedGrb(points).Some? ==> cmd == SwitchPage(BurstViewerPage) && viewerGrb == ClickedGrb(points)
      ensures configs == old(configs) && sharedGrbs == old(sharedGrbs) && tabChoice == old(tabChoice)
    {
      cmd := Stay;
      if points.Some? && |points.value| > 0 {
        var clicked := points.value[0].key;
        clicked := Slice(clicked, 0, 3) + " " + SliceFrom(clicked, 3);
        viewerGrb := Some(clicked);
        cmd := SwitchPage(BurstViewerPage);
      }
    }
  }
}
