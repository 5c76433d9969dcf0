/**
 * The burst tables as the population page prepares them: cells and rows,
 * the parameter registry (pages/population_stats.py:11-34), the catalogue of
 * burst names (pages/population_stats.py:36, app.py:38-40), the columns
 * added in place before plotting (pages/population_stats.py:107-118) and the
 * combined flare/pulse table (functions.py:315-327).
 */
module Catalogue {
  import opened Wrappers
  import opened Text
  import opened Ordering
  import opened GrbNames

  // ---------------------------------------------------------------------
  // Cells, rows and the parameter registry

  /** A table cell: pandas' missing value (NaN, None or pd.NA), a string, or a number. */
  datatype Cell = Missing | Text(s: string) | Number(x: real)

  /** One table row, by column name. */
  type Row = map<string, Cell>

  /** `row[col]`, where a column the row never had reads as missing (as after `pd.concat`). */
  function Get(row: Row, col: string): (c: Cell)
    ensures col !in row ==> c == Missing
  {
    if col in row then row[col] else Missing
  }

  /** One registry entry: the optional `'units'` and `'log'` keys. */
  datatype Setting = Setting(units: Option<string>, log: Option<bool>)

  /**
   * A dict of settings: its keys in insertion order (the order `.items()`
   * visits them) and the setting of each key.
   */
  datatype Registry = Registry(order: seq<string>, entries: map<string, Setting>)

  const FluenceUnits := "erg\U{2009}cm<sup>-2</sup>"
  const FluxUnits := "erg\U{2009}cm<sup>-2</sup>\U{2009}s<sup>-1</sup>"
  const LuminosityUnits := "erg\U{2009}s<sup>-1</sup>"

  /** PARAM_SETTINGS (pages/population_stats.py:11-34). */
  const ParamSettings := Registry(
    ["T90", "redshift", "dimple", "fluence", "duration", "t_peak", "t_ratio", "underlying_index",
     "peak_flux", "e_iso", "L_p", "L_iso", "afterglow_fluence", "total_flare_fluence", "total_pulse_fluence"],
    map[
      "T90" := Setting(Some("s"), Some(true)),
      "redshift" := Setting(None, Some(false)),
      "dimple" := Setting(None, None),
      "fluence" := Setting(Some(FluenceUnits), Some(true)),
      "duration" := Setting(Some("s"), Some(true)),
      "t_peak" := Setting(Some("s"), Some(true)),
      "t_ratio" := Setting(None, None),
      "underlying_index" := Setting(None, None),
      "peak_flux" := Setting(Some(FluxUnits), Some(true)),
      "e_iso" := Setting(Some("erg"), Some(true)),
      "L_p" := Setting(Some(LuminosityUnits), Some(true)),
      "L_iso" := Setting(Some(LuminosityUnits), Some(true)),
      "afterglow_fluence" := Setting(Some(FluenceUnits), Some(true)),
      "total_flare_fluence" := Setting(Some(FluenceUnits), Some(true)),
      "total_pulse_fluence" := Setting(Some(FluenceUnits), Some(true))
    ])

  /**
   * `PARAM_SETTINGS.get(p, {}).get('log')` is truthy (functions.py:153, 360),
   * which for these settings is the same as `.get('log') == True`
   * (pages/population_stats.py:114).
   */
  predicate IsLog(reg: Registry, p: string) {
    p in reg.entries && reg.entries[p].log == Some(true)
  }

  /** `PARAM_SETTINGS.get(col, {}).get('units', '')` (functions.py:167-168, 374-375). */
  function Units(reg: Registry, p: string): (u: string)
    ensures p in reg.entries && reg.entries[p].units.Some? ==> u == reg.entries[p].units.value
    ensures p !in reg.entries || reg.entries[p].units.None? ==> u == ""
  {
    if p in reg.entries && reg.entries[p].units.Some? then reg.entries[p].units.value else ""
  }

  /** The axis title (functions.py:184-185): the option's name, with the units in brackets when there are any. */
  function AxisLabel(reg: Registry, option: string, col: string): (r: string)
    ensures option <= r
    ensures r == option <==> Units(reg, col) == ""
    ensures r != option ==> r == option + " (" + Units(reg, col) + ")"
  {
    var u := Units(reg, col);
    if u != "" then option + " (" + u + ")" else option
  }

  const LogParams := ["T90", "fluence", "duration", "t_peak", "peak_flux", "e_iso", "L_p", "L_iso",
                      "afterglow_fluence", "total_flare_fluence", "total_pulse_fluence"]
  const LinearParams := ["redshift", "dimple", "t_ratio", "underlying_index"]

  /** The registry puts these parameters on a log scale ... */
  lemma LogParamsAreLog()
    ensures forall p :: p in LogParams ==> IsLog(ParamSettings, p)
  {
  }

  /** ... and no others ... */
  lemma OnlyLogParamsAreLog(p: string)
    requires IsLog(ParamSettings, p)
    ensures p in LogParams
  {
  }

  /** ... while these registered parameters stay linear. */
  lemma LinearParamsNotLog(p: string)
    requires p in LinearParams
    ensures p in ParamSettings.entries && !IsLog(ParamSettings, p)
  {
  }

  // ---------------------------------------------------------------------
  // Tables updated in place

  /** A table's column names (in order) and its rows. */
  datatype Frame = Frame(columns: seq<string>, rows: seq<Row>)

  /** `df[name] = ...` appends `name` to the columns unless it is already one of them. */
  function AddColumn(cols: seq<string>, name: string): (r: seq<string>)
    ensures cols <= r && name in r
    ensures forall c :: c in r <==> c in cols || c == name
  {
    if name in cols then cols else cols + [name]
  }

  /** The values of the companion column of `p`. */
  function LogValues(rows: seq<Row>, p: string, log10: Cell -> Cell): (r: seq<Cell>)
    ensures |r| == |rows|
    ensures forall i :: 0 <= i < |rows| ==> r[i] == log10(Get(rows[i], p))
  {
    seq(|rows|, i requires 0 <= i < |rows| => log10(Get(rows[i], p)))
  }

  /** The companion column filled from `p` by `log10` (which maps 0 to NaN before the logarithm). */
  function WithLog(rows: seq<Row>, p: string, log10: Cell -> Cell): (r: seq<Row>)
    ensures |r| == |rows|
    ensures forall i :: 0 <= i < |rows| ==> r[i] == rows[i][p + "_log" := log10(Get(rows[i], p))]
  {
    seq(|rows|, i requires 0 <= i < |rows| => rows[i][p + "_log" := log10(Get(rows[i], p))])
  }

  /** One iteration of the loop at pages/population_stats.py:113-118, for one table. */
  function LogStep(f: Frame, reg: Registry, p: string, log10: Cell -> Cell): (r: Frame)
    ensures f.columns <= r.columns && |r.rows| == |f.rows|
    ensures r != f ==> IsLog(reg, p) && p in f.columns
  {
    if IsLog(reg, p) && p in f.columns then Frame(AddColumn(f.columns, p + "_log"), WithLog(f.rows, p, log10)) else f
  }

  /** The table after the loop has visited the keys `params` in order. */
  function LogPass(f: Frame, reg: Registry, params: seq<string>, log10: Cell -> Cell): (r: Frame)
    ensures f.columns <= r.columns && |r.rows| == |f.rows|
  {
    if params == [] then f
    else LogStep(LogPass(f, reg, params[..|params| - 1], log10), reg, params[|params| - 1], log10)
  }

  /** `c` is the companion column of one of the log-scale keys among `params`. */
  predicate IsCompanion(reg: Registry, params: seq<string>, c: string) {
    exists i :: 0 <= i < |params| && IsLog(reg, params[i]) && c == params[i] + "_log"
  }

  /** Every log-scale parameter that is a column of the table gets its companion column. */
  lemma {:induction false} LogPassAddsCompanions(f: Frame, reg: Registry, params: seq<string>, log10: Cell -> Cell, i: nat)
    requires i < |params| && IsLog(reg, params[i]) && params[i] in f.columns
    ensures params[i] + "_log" in LogPass(f, reg, params, log10).columns
  {
    var init := params[..|params| - 1];
    if i == |params| - 1 {
      assert params[i] in LogPass(f, reg, init, log10).columns;
    } else {
      assert init[i] == params[i];
      LogPassAddsCompanions(f, reg, init, log10, i);
    }
  }

  /** Every column the loop adds is the companion of a log-scale key. */
  lemma {:induction false} LogPassOnlyCompanions(f: Frame, reg: Registry, params: seq<string>, log10: Cell -> Cell)
    ensures forall c :: c in LogPass(f, reg, params, log10).columns ==> c in f.columns || IsCompanion(reg, params, c)
  {
    if params != [] {
      var init, last := params[..|params| - 1], params[|params| - 1];
      LogPassOnlyCompanions(f, reg, init, log10);
      forall c | c in LogPass(f, reg, params, log10).columns && c !in f.columns ensures IsCompanion(reg, params, c) {
        if c in LogPass(f, reg, init, log10).columns {
          var j :| 0 <= j < |init| && IsLog(reg, init[j]) && c == init[j] + "_log";
          assert params[j] == init[j];
        } else {
          assert c == last + "_log";
        }
      }
    }
  }

  /** A table holding none of the log-scale parameters is left exactly as it was. */
  lemma {:induction false} LogPassUnchanged(f: Frame, reg: Registry, params: seq<string>, log10: Cell -> Cell)
    requires forall i :: 0 <= i < |params| && IsLog(reg, params[i]) ==> params[i] !in f.columns
    ensures LogPass(f, reg, params, log10) == f
  {
    if params != [] {
      var init := params[..|params| - 1];
      assert forall i :: 0 <= i < |init| ==> init[i] == params[i];
      LogPassUnchanged(f, reg, init, log10);
    }
  }

  lemma SuffixCancel(a: string, b: string, t: string)
    ensures a + t == b + t ==> a == b
  {
    if a + t == b + t {
      assert |a| == |b|;
      assert (a + t)[..|a|] == a;
      assert (b + t)[..|b|] == b;
    }
  }

  /**
   * With the registry of the population page, a parameter that is not on a
   * log scale ('redshift', 'dimple', 't_ratio', 'underlying_index') never
   * gets a companion column from the loop.
   */
  lemma NoCompanionForLinear(f: Frame, p: string, log10: Cell -> Cell)
    requires p in LinearParams
    requires p + "_log" !in f.columns
    ensures p + "_log" !in LogPass(f, ParamSettings, ParamSettings.order, log10).columns
  {
    var reg := ParamSettings;
    LinearParamsNotLog(p);
    LogPassOnlyCompanions(f, reg, reg.order, log10);
    forall i | 0 <= i < |reg.order| ensures p + "_log" == reg.order[i] + "_log" ==> reg.order[i] == p {
      SuffixCancel(p, reg.order[i], "_log");
    }
  }

  /** A table whose columns and rows change in place. */
  class Table {
    var columns: seq<string>
    var rows: seq<Row>

    constructor (columns: seq<string>, rows: seq<Row>)
      ensures this.columns == columns && this.rows == rows
    {
      this.columns := columns;
      this.rows := rows;
    }

    function Value(): Frame
      reads this
    {
      Frame(columns, rows)
    }

    /** `df[name] = values`: the column is added or overwritten row by row. */
    method SetColumn(name: string, values: seq<Cell>)
      requires |values| == |rows|
      modifies this
      ensures columns == AddColumn(old(columns), name)
      ensures |rows| == |old(rows)|
      ensures forall i :: 0 <= i < |rows| ==> rows[i] == old(rows)[i][name := values[i]]
    {
      columns := AddColumn(columns, name);
      var before := rows;
      rows := seq(|before|, i requires 0 <= i < |before| => before[i][name := values[i]]);
    }

    /** `df[dst] = df[src]` (pages/population_stats.py:107-108); indexing a column the table lacks raises. */
    method CopyColumn(src: string, dst: string)
      requires src in columns
      modifies this
      ensures columns == AddColumn(old(columns), dst)
      ensures |rows| == |old(rows)|
      ensures forall i :: 0 <= i < |rows| ==> rows[i] == old(rows)[i][dst := Get(old(rows)[i], src)]
    {
      var before := rows;
      var values := seq(|before|, i requires 0 <= i < |before| => Get(before[i], src));
      SetColumn(dst, values);
    }
  }

  /**
   * pages/population_stats.py:107-108: both tables get a "Pulse/Flare
   * Number" column, a copy of `flarenum` for flares and of `pulse_num` for pulses.
   */
  method AddNumberColumns(flares: Table, pulses: Table)
    requires flares != pulses
    requires "flarenum" in flares.columns && "pulse_num" in pulses.columns
    modifies flares, pulses
    ensures flares.columns == AddColumn(old(flares.columns), "Pulse/Flare Number")
    ensures pulses.columns == AddColumn(old(pulses.columns), "Pulse/Flare Number")
    ensures |flares.rows| == |old(flares.rows)| && |pulses.rows| == |old(pulses.rows)|
    ensures forall i :: 0 <= i < |flares.rows| ==>
      flares.rows[i] == old(flares.rows)[i]["Pulse/Flare Number" := Get(old(flares.rows)[i], "flarenum")]
    ensures forall i :: 0 <= i < |pulses.rows| ==>
      pulses.rows[i] == old(pulses.rows)[i]["Pulse/Flare Number" := Get(old(pulses.rows)[i], "pulse_num")]
  {
    flares.CopyColumn("flarenum", "Pulse/Flare Number");
    pulses.CopyColumn("pulse_num", "Pulse/Flare Number");
  }

  /**
   * The loop of pages/population_stats.py:113-118: for each registry entry
   * with `'log'` set, each table holding that parameter gets `<param>_log`.
   */
  method AddLogCompanions(flares: Table, pulses: Table, reg: Registry, log10: Cell -> Cell)
    requires flares != pulses
    requires forall p :: p in reg.order ==> p in reg.entries
    modifies flares, pulses
    ensures flares.Value() == LogPass(old(flares.Value()), reg, reg.order, log10)
    ensures pulses.Value() == LogPass(old(pulses.Value()), reg, reg.order, log10)
  {
    ghost var f0, p0 := flares.Value(), pulses.Value();
    var params := reg.order;
    for i := 0 to |params|
      invariant flares.Value() == LogPass(f0, reg, params[..i], log10)
      invariant pulses.Value() == LogPass(p0, reg, params[..i], log10)
    {
      assert params[..i + 1][..i] == params[..i];
      var param := params[i];
      var settings := reg.entries[param];
      if settings.log == Some(true) {
        if param in flares.columns {
          flares.SetColumn(param + "_log", LogValues(flares.rows, param, log10));
        }
        if param in pulses.columns {
          pulses.SetColumn(param + "_log", LogValues(pulses.rows, param, log10));
        }
      }
    }
    assert params[..|params|] == params;
  }

  // ---------------------------------------------------------------------
  // The combined flare/pulse table (functions.py:315-327)

  /** `df['Type'] = kind` on a copy. */
  function Tagged(rows: seq<Row>, kind: string): (r: seq<Row>)
    ensures |r| == |rows|
    ensures forall i :: 0 <= i < |rows| ==> r[i] == rows[i]["Type" := Text(kind)]
  {
    seq(|rows|, i requires 0 <= i < |rows| => rows[i]["Type" := Text(kind)])
  }

  /** The types whose toggle is on, in the order the code appends them. */
  function Sources(flareOn: bool, pulseOn: bool): (r: seq<string>)
    ensures "Flares" in r <==> flareOn
    ensures "Pulses" in r <==> pulseOn
  {
    (if flareOn then ["Flares"] else []) + (if pulseOn then ["Pulses"] else [])
  }

  /** The row's Type is one of the shown sources. */
  predicate TypeShown(row: Row, sources: seq<string>) {
    Get(row, "Type").Text? && Get(row, "Type").s in sources
  }

  /** `combined_df[combined_df['Type'].isin(sources_to_show)]`. */
  function PlotRows(flares: seq<Row>, pulses: seq<Row>, flareOn: bool, pulseOn: bool): seq<Row> {
    var sources := Sources(flareOn, pulseOn);
    Filter(Tagged(flares, "Flares") + Tagged(pulses, "Pulses"), (r: Row) => TypeShown(r, sources))
  }

  /**
   * The plotted rows are the flare rows when the flare toggle is on,
   * followed by the pulse rows when the pulse toggle is on; with both
   * toggles off nothing is plotted.
   */
  lemma PlotRowsByToggle(flares: seq<Row>, pulses: seq<Row>, flareOn: bool, pulseOn: bool)
    ensures PlotRows(flares, pulses, flareOn, pulseOn) ==
      (if flareOn then Tagged(flares, "Flares") else []) + (if pulseOn then Tagged(pulses, "Pulses") else [])
    ensures !flareOn && !pulseOn ==> PlotRows(flares, pulses, flareOn, pulseOn) == []
  {
    var sources := Sources(flareOn, pulseOn);
    var shown := (r: Row) => TypeShown(r, sources);
    var f, p := Tagged(flares, "Flares"), Tagged(pulses, "Pulses");
    FilterAppend(f, p, shown);
    assert forall r :: r in f ==> Get(r, "Type") == Text("Flares");
    assert forall r :: r in p ==> Get(r, "Type") == Text("Pulses");
    if flareOn { FilterAll(f, shown); } else { FilterNone(f, shown); }
    if pulseOn { FilterAll(p, shown); } else { FilterNone(p, shown); }
  }

  /** Every plotted row is a flare with the flare toggle on or a pulse with the pulse toggle on. */
  lemma PlotRowsKept(flares: seq<Row>, pulses: seq<Row>, flareOn: bool, pulseOn: bool, row: Row)
    requires row in PlotRows(flares, pulses, flareOn, pulseOn)
    ensures (Get(row, "Type") == Text("Flares") && flareOn) || (Get(row, "Type") == Text("Pulses") && pulseOn)
  {
    PlotRowsByToggle(flares, pulses, flareOn, pulseOn);
  }

  // ---------------------------------------------------------------------
  // The burst-name catalogue

  /** GRB_NAMES (pages/population_stats.py:36): the sorted set of the three tables' names. */
  function GrbNameList(afterglow: seq<string>, flares: seq<string>, pulses: seq<string>): (r: seq<string>)
    ensures StrictlySorted(r)
    ensures forall n :: n in r <==> n in afterglow || n in flares || n in pulses
  {
    SortedNames(afterglow + flares + pulses)
  }

  /** A strictly increasing list has no repeated name. */
  lemma StrictlySortedNoDuplicates(s: seq<string>)
    requires StrictlySorted(s)
    ensures NoDuplicates(s)
  {
    forall i, j | 0 <= i < j < |s| ensures s[i] != s[j] {
      StrLessIrreflexive(s[i]);
    }
  }

  /** `name_options` (app.py:38-40): the display form of each name, in sorted order. */
  function NameOptions(afterglow: seq<string>, flares: seq<string>, pulses: seq<string>): (r: seq<string>)
    ensures |r| == |GrbNameList(afterglow, flares, pulses)|
    ensures forall i :: 0 <= i < |r| ==> r[i] == DisplayName(GrbNameList(afterglow, flares, pulses)[i])
  {
    var names := SortedNames(Unique(afterglow) + Unique(flares) + Unique(pulses));
    StrictlySortedUnique(names, GrbNameList(afterglow, flares, pulses));
    seq(|names|, i requires 0 <= i < |names| => DisplayName(names[i]))
  }

  /**
   * The name picker of the population page and the option list of the app
   * hold the same names, and every option, with its space removed, is the
   * name it came from.
   */
  lemma NameOptionsMatchCatalogue(afterglow: seq<string>, flares: seq<string>, pulses: seq<string>)
    requires forall n :: n in afterglow || n in flares || n in pulses ==> ' ' !in n
    ensures NoDuplicates(GrbNameList(afterglow, flares, pulses))
    ensures forall i :: 0 <= i < |NameOptions(afterglow, flares, pulses)| ==>
      RemoveSpaces(NameOptions(afterglow, flares, pulses)[i]) == GrbNameList(afterglow, flares, pulses)[i]
  {
    var names := GrbNameList(afterglow, flares, pulses);
    StrictlySortedNoDuplicates(names);
    forall i | 0 <= i < |names| ensures RemoveSpaces(DisplayName(names[i])) == names[i] {
      assert names[i] in names;
      DisplayNameInverse(names[i]);
    }
  }
}
