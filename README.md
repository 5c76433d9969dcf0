# LAFF viewer: population plot controller, burst lookup and name handling

LAFF viewer is a Streamlit application for browsing the results of the
Lightcurve and Flare Fitter over Swift gamma-ray bursts (GRBs). It reads three
tables (afterglows, flares, pulses), offers a burst viewer page and a
population statistics page, and moves between them through the session state.
This project models in Dafny the decisions those pages make:

- **Burst names** (`GrbNames`). A burst has three forms:
  - the canonical key `GRB210905A` held in the `GRBname` column;
  - the display form `GRB 210905A`, used by the name picker, the click handler and the headers;
  - the search query, which the burst viewer normalises back to a key.
  `print_grb_name`, the display spacing and the query normalisation are
  modelled, and the round trip between them is proved.
- **Dataset labels** (`Datasets`). `beautify_dataset_name` and the label→folder
  map, with the failure on folder names that do not split into exactly two parts.
- **The catalogue** (`Catalogue`). It covers:
  - the parameter registry `PARAM_SETTINGS`;
  - the sorted, de-duplicated name list `GRB_NAMES` and the picker's `name_options`;
  - the in-place column additions on the flare and pulse tables (the `Pulse/Flare Number` copy and the `<param>_log` companion loop), as a `Table` class;
  - the combined flare/pulse table with its two toggles.
- **Colouring** (`Colouring`). It covers:
  - the group label of each row in "Specific GRB" mode;
  - the colour column and legend title of a column choice;
  - the removal of rows without a value;
  - the category order by `int()`, with its failure on values that are not integers;
  - the marker symbol and the faded background colours of the flare plot.
- **Trace compositing** (`Traces`). The figure is a `Figure` class holding a
  sequence of trace records. Each pass is a method with a loop, proved against
  a specification function:
  - the afterglow highlight and its stable reorder;
  - the flare highlight;
  - the legend pass (labels before the first comma, first occurrence shown);
  - the proxy legend swatches and the final reorder.
  The number of visible legend entries is proved to be the number of distinct
  background labels plus the number of selected bursts.
- **Session state** (`Session`). `st.session_state` is a `State` class. The
  module covers:
  - the plot settings each view restores (stored choice if still offered, else index 0, 1 or 0) and writes back;
  - the shared burst selection;
  - the population switch with its rerun;
  - the click on a point, which stores the burst and returns a page switch command.
- **Burst lookup** (`BurstViewer`). The found/not-found decision, the page
  header and the pulse and flare counts of the burst viewer. Every option of
  the name picker is proved to find its burst.

`Wrappers` holds `Option` and `Result`. `Text` holds the Python string
operations the code relies on (`strip`, `upper`, `replace(' ', '')`, substring
`in`, `split(',')[0]`). `Ordering` holds code-point string order, sorting,
`unique()`, filters and the stable sorts used by `list.sort` and `sorted`.

## Model

| member | source | states |
|---|---|---|
| Text.Strip | pages/burst_viewer.py:18 | `strip()` returns the slice that starts right after the leading whitespace and is followed only by whitespace; it neither starts nor ends with whitespace and keeps every non-whitespace character |
| Text.RemoveSpaces | functions.py:125 | `replace(' ', '')` leaves no space, keeps exactly the other characters, and is the identity on a string without spaces |
| Text.BeforeComma | functions.py:471 | `split(',')[0]` is a comma-free prefix of the name that stops at the first comma |
| Text.StrippedPrefixContained | functions.py:471 | the trimmed pre-comma label is a substring of the trace name |
| GrbNames.PrintGrbName | functions.py:67-72 | the header always starts with "GRB ", and its length shows the prefix is dropped exactly when present |
| GrbNames.PrintGrbNameNoDoubledPrefix | functions.py:69-72 | for "GRB"+s the header is "GRB "+s, never a doubled prefix |
| GrbNames.DisplayName | app.py:40 | the option is one character longer: the first three characters, a space, then the rest |
| GrbNames.DisplayNameInverse | app.py:40 | removing the space from the display form of a space-free name gives the name back |
| GrbNames.HeaderIsDisplayName | functions.py:67-72 | for a key starting with "GRB" the header equals the display form |
| GrbNames.Canonicalise | pages/burst_viewer.py:18-19 | the stripped, upper-cased, space-free query has no space and is upper case |
| GrbNames.WithPrefix | pages/burst_viewer.py:20 | the result starts with "GRB"; "GRB" is prepended exactly when it is missing |
| GrbNames.WithSuffix | pages/burst_viewer.py:21 | the result ends in a letter; "A" is appended exactly when the last character is not a letter |
| GrbNames.NormaliseQuery | pages/burst_viewer.py:18-21 | the normalised query is upper case and space-free, starts with "GRB", ends in a letter and has no whitespace at either end |
| GrbNames.NormalisedIsCanonical | pages/burst_viewer.py:18-21 | every normalised query is a canonical key |
| GrbNames.NormaliseFixesCanonical | pages/burst_viewer.py:18-21 | a canonical key normalises to itself |
| GrbNames.NormaliseIdempotent | pages/burst_viewer.py:18-21 | normalising twice equals normalising once |
| GrbNames.DisplayNameRoundTrip | pages/burst_viewer.py:18-21 | the display form of a canonical key (picker option, stored click) normalises back to the key |
| GrbNames.HeaderRoundTrip | pages/burst_viewer.py:29 | the header of a canonical key also normalises back to the key |
| Ordering.SortedNames | pages/population_stats.py:36 | `sorted(set(...))` is strictly increasing and holds exactly the input names |
| Ordering.StrictlySortedUnique | app.py:39 | two strictly sorted lists with the same names are equal, so both name catalogues coincide |
| Ordering.Unique | app.py:38 | `unique()` has no duplicates, keeps exactly the input's values, and lists them in order of first appearance |
| Ordering.StablePartitionCorrect | functions.py:228 | sorting by a 0/1 key is a permutation, puts every key-1 element after every key-0 element, and keeps the order within each group |
| Ordering.SortByKeyStable | functions.py:160 | the keyed sort keeps the original order of elements with equal keys |
| Datasets.SplitUnderscore | app.py:25 | the two-way unpacking succeeds exactly when the folder has one '_', and then rebuilds the folder |
| Datasets.BeautifyDatasetName | app.py:24-28 | the label fails exactly on folders without exactly one '_' |
| Datasets.BeautifyInverse | app.py:24-28 | for a four-character date the label determines the folder |
| Datasets.BeautifyExample | app.py:24-28 | "2505_5.0" gives "05/2025 (laff v5.0)" |
| Datasets.DatasetNameMap | app.py:29 | every value of the map is a listed folder |
| Datasets.DatasetNameMapFails | app.py:29 | building the map fails exactly when some folder does not have one '_' |
| Datasets.DatasetNameMapLabels | app.py:29 | every key is the label of its folder, and every folder's label is a key |
| Catalogue.Get | functions.py:321 | a column a row never had reads as missing, as after `pd.concat` |
| Catalogue.Units | functions.py:167-168 | the units are the registered entry's units when it has some, and empty for unregistered columns or entries without units |
| Catalogue.AxisLabel | functions.py:183-186 | the axis title is the option name, followed by the units in brackets exactly when there are units |
| Catalogue.LogParamsAreLog | pages/population_stats.py:11-34 | the listed log-scale parameters are marked log in the registry |
| Catalogue.OnlyLogParamsAreLog | pages/population_stats.py:11-34 | no other registry entry is marked log |
| Catalogue.LinearParamsNotLog | pages/population_stats.py:13-22 | 'redshift', 'dimple', 't_ratio' and 'underlying_index' are registered but not log |
| Catalogue.LogStep | pages/population_stats.py:114-118 | one iteration keeps the columns and row count, and changes the table only for a log parameter present in it |
| Catalogue.LogPass | pages/population_stats.py:113-118 | the loop only adds columns and keeps the row count |
| Catalogue.LogPassAddsCompanions | pages/population_stats.py:113-118 | every log parameter that is a column gets its `<param>_log` column |
| Catalogue.LogPassOnlyCompanions | pages/population_stats.py:113-118 | every column after the loop was there before or is the companion of a log parameter |
| Catalogue.LogPassUnchanged | pages/population_stats.py:113-118 | a table lacking every log parameter is left unchanged |
| Catalogue.NoCompanionForLinear | pages/population_stats.py:113-118 | a parameter without `log == True` gets no companion column |
| Catalogue.Table.SetColumn | pages/population_stats.py:116 | assigning a column adds its name and sets that entry of every row |
| Catalogue.Table.CopyColumn | pages/population_stats.py:107 | copying a column sets the new entry of every row to the source entry |
| Catalogue.AddNumberColumns | pages/population_stats.py:107-108 | both tables gain the "Pulse/Flare Number" column; each row is its old row with that column set to its `flarenum` (flare table) or `pulse_num` (pulse table); no row is added or dropped |
| Catalogue.AddLogCompanions | pages/population_stats.py:113-118 | the loop leaves each table equal to the log pass over the registry's order applied to it |
| Catalogue.Tagged | functions.py:315-319 | every row gets its 'Type' and nothing else changes |
| Catalogue.Sources | functions.py:323-325 | "Flares" is shown iff the flare toggle is on, "Pulses" iff the pulse toggle is on |
| Catalogue.PlotRowsByToggle | functions.py:315-327 | the plotted rows are the flare rows if their toggle is on, then the pulse rows if theirs is; both off plots nothing |
| Catalogue.PlotRowsKept | functions.py:327 | a plotted row is a flare row with its toggle on or a pulse row with its toggle on |
| Catalogue.GrbNameList | pages/population_stats.py:36 | `GRB_NAMES` is strictly sorted and is the union of the three tables' names |
| Catalogue.StrictlySortedNoDuplicates | pages/population_stats.py:36 | `GRB_NAMES` has no duplicates |
| Catalogue.NameOptions | app.py:38-40 | `name_options` is the display form of each `GRB_NAMES` entry, in the same order |
| Catalogue.NameOptionsMatchCatalogue | app.py:38-40 | removing the space from each option gives the matching `GRB_NAMES` entry, which has no duplicates |
| Colouring.AfterglowGroup | functions.py:147 | a selected burst is labelled with a selected name |
| Colouring.AfterglowGroupCases | functions.py:147 | a row is labelled "Other GRBs" iff its burst is not selected, and otherwise with its own name |
| Colouring.FlaresGroup | functions.py:344-348 | a selected burst is labelled with a selected name |
| Colouring.FlaresGroupCases | functions.py:344-348 | every plotted row is a flare or pulse row, labelled with its own name when selected, else "Other Flares" or "Other Pulses" by its type |
| Colouring.ColourChoice | functions.py:139-155 | "None" colours nothing, "Specific GRB" colours by group; a column choice colours `<col>_log` with title "Log "+choice iff the registry marks the column log, else the column itself |
| Colouring.KeptRows | functions.py:157 | a row is kept iff its value is neither missing nor '<NA>' |
| Colouring.KeptValues | functions.py:157-159 | the values left are exactly the present values of the rows |
| Colouring.Truncate | functions.py:160 | `int()` of a float truncates toward zero |
| Colouring.ParseDigits | functions.py:160 | `int()` of a digit run is its value |
| Colouring.ParseNegativeDigits | functions.py:160 | `int()` of "-" and a digit run is the negated value |
| Colouring.ParseShowInt | functions.py:160 | `int(str(n)) == n` for every integer |
| Colouring.IntegerTextRoundTrip | pages/population_stats.py:104-105 | a converted cell is dropped exactly when it was missing ("<NA>"), and otherwise reads back as the same integer |
| Colouring.Keyed | functions.py:160 | the keys exist iff every value converts; a failure names a value that does not |
| Colouring.SortedByCorrect | functions.py:160 | a successful keyed sort is a permutation of its input, non-decreasing by key, and stable for equal keys |
| Colouring.SortedCategoriesCorrect | functions.py:159-161 | the category order is a permutation of the distinct values, non-decreasing by integer value, and stable for equal values |
| Colouring.CategoryOrderFails | functions.py:157-161 | ordering fails iff some kept value has no integer reading, and the error names such a value |
| Colouring.CategoryOrderExample | functions.py:160 | "10", "2", "1" are ordered "1", "2", "10" |
| Colouring.PulseSymbol | functions.py:341 | pulses are circles iff the choice is a substring of "None", else diamonds |
| Colouring.PulseSymbolOnOptions | functions.py:341 | over the actual colour options, pulses are circles exactly for "None" |
| Colouring.T90NotInNone | functions.py:341 | "T90" is not a substring of "None" |
| Colouring.Faded | functions.py:352-353 | the faded colour ends in "0.5)" and is one character longer than a colour of three or more characters |
| Colouring.FadedReplacesAlpha | functions.py:352-353 | the last three characters are replaced by "0.5)" |
| Traces.PaletteColour | functions.py:222 | `palette[k % len]` is a palette colour |
| Traces.Emphasised | functions.py:222-224 | a highlighted trace gets the colour, size 12 and the width-2 outline, and keeps its name, legend and symbol |
| Traces.AfterglowPaletteOrder | functions.py:218-225 | the k-th highlighted trace gets `palette[k % len]`, the index advancing only on highlighted traces |
| Traces.AfterglowKeepsOthers | functions.py:220-225 | traces not named in the selection are untouched; a named one is emphasised with the colour of its rank |
| Traces.HighlightedLastCorrect | functions.py:227-229 | the reorder is a permutation putting every highlighted trace after every other, each group in its original order |
| Traces.FirstMatch | functions.py:446 | a match is a selected name contained in the trace name; none iff no selected name is contained |
| Traces.FirstMatchIsFirst | functions.py:446 | the match is no later than any selected name that is contained |
| Traces.ColourMap | functions.py:443 | the colour map has a key iff the name is selected |
| Traces.ColourMapIndex | functions.py:443 | for distinct names the i-th selected name maps to `palette[i % len]` |
| Traces.FlaresHighlightColour | functions.py:445-452 | a trace whose first match is the j-th selected name is emphasised in that name's colour and joins its legend group |
| Traces.FlaresLeaveUnmatched | functions.py:445-452 | a trace no non-empty selected name matches is unchanged |
| Traces.OtherFirstCorrect | functions.py:454-456 | the reorder is a permutation putting every "Other" trace before the rest; the "Other" traces and the rest each keep their original order |
| Traces.Label | functions.py:471 | the legend label is a substring of the trace name |
| Traces.LegendVisibleCount | functions.py:462-479 | after the legend pass the visible entries are exactly the distinct background labels |
| Traces.SeenLabels | functions.py:462-479 | the labels seen are exactly the labels of the non-highlighted traces |
| Traces.LegendHasNoSelectedEntry | functions.py:465-469 | no trace left visible by the legend pass is named after a selected burst |
| Traces.ProxyColours | functions.py:483-499 | the i-th proxy is a visible swatch named and grouped by the i-th selected name, coloured `palette[i % len]` |
| Traces.ProxiesVisible | functions.py:483-499 | the proxies add one visible legend entry per selected name |
| Traces.ReorderIsIdentity | functions.py:501-504 | after the legend pass and the proxies, moving proxies to the end changes nothing |
| Traces.FinishedLegendCount | functions.py:462-504 | the final figure shows the distinct background labels plus one entry per selected name |
| Traces.Figure.RecolourAfterglow | functions.py:218-225 | the loop with its running colour index leaves the traces recoloured as specified |
| Traces.Figure.HighlightAfterglow | functions.py:216-229 | in "Specific GRB" mode the traces are recoloured and highlighted ones moved last; otherwise unchanged |
| Traces.Figure.HighlightFlares | functions.py:445-452 | the loop leaves every trace highlighted by its first match |
| Traces.Figure.SetLegend | functions.py:462-479 | the loop with its set of seen labels produces the legend entries as specified |
| Traces.Figure.AddProxies | functions.py:481-499 | in "Specific GRB" mode with a selection, one proxy per selected name is appended in order; otherwise unchanged |
| Traces.Figure.MoveProxiesLast | functions.py:501-504 | the traces become the non-proxies followed by the proxies |
| Traces.Figure.FinishFlares | functions.py:440-504 | the whole flare pass gives the legend entries plus proxies, with the background labels plus selected names visible |
| Session.IndexOf | functions.py:108 | `options.index(x)` is the first position holding x |
| Session.SelectIndex | functions.py:108 | the index is the stored choice's first position when it is offered, else the fallback |
| Session.SelectIndicesValid | functions.py:284-295 | with at least two columns the x, y and colour indices are all valid |
| Session.Configured | functions.py:107-133 | the settings written back are offered columns and an offered colour option |
| Session.ConfiguredRecovers | functions.py:108-120 | without input a stored choice is kept if still offered, else replaced by column 0, column 1 or "None"; scales are kept |
| Session.ConfiguredIsStable | functions.py:303-309 | the settings written back are restored unchanged by the next run without input |
| Session.Select | functions.py:122-125 | outside "Specific GRB" mode the shared list is used as is; in it the picked names are stored and used without spaces |
| Session.SelectFromCatalogue | functions.py:298-301 | for space-free catalogue names the selection is exactly the picked names, and an untouched picker keeps the shared list |
| Session.PopulationChoice | pages/population_stats.py:41-51 | a cleared control falls back to the stored choice; a different choice is stored and reruns; an equal one changes nothing |
| Session.PopulationSettles | pages/population_stats.py:44-51 | after the rerun the same control value causes no further rerun or change |
| Session.ClickedGrb | functions.py:240-242 | a click opens a burst iff the selection holds at least one point |
| Session.ClickedGrbFindsBurst | functions.py:531-536 | the name stored for a clicked canonical key normalises back to that key |
| Session.State.constructor | functions.py:85-97 | a new session holds none of the entries |
| Session.State.ConfigureView | functions.py:85-133 | seeds absent entries, writes the configured settings back, stores the picker's names and returns the selection; nothing else changes |
| Session.State.ChoosePopulation | pages/population_stats.py:41-51 | the shown population, the stored choice and the rerun follow the population choice; nothing else changes |
| Session.State.OnClick | functions.py:531-536 | without a point nothing changes; otherwise the spaced name is stored and the burst page is opened |
| BurstViewer.Matching | pages/burst_viewer.py:23-25 | the matching rows are exactly those whose upper-cased name is the query |
| BurstViewer.MatchingEmpty | pages/burst_viewer.py:27 | a table has no match iff no row's upper-cased name is the query |
| BurstViewer.Search | pages/burst_viewer.py:23-43 | found iff some table has a matching row; header from `print_grb_name`; pulse count is the pulse matches; flare count is "-" iff there is no afterglow match, else the flare matches |
| BurstViewer.Lookup | pages/burst_viewer.py:16-21 | an empty selection shows the landing text; any other is normalised and searched |
| BurstViewer.PickedOptionIsFound | pages/burst_viewer.py:11-27 | with canonical names, every picker option finds its burst, with its header, and a flare count iff it has an afterglow row |
| BurstViewer.SearchCatalogueName | pages/burst_viewer.py:23-27 | a name the tables hold is found, with a flare count iff an afterglow row holds it |

## Left out

- Streamlit and Plotly are not modelled. Widgets are inputs, the session state is a class, and page switches are returned commands. `st.rerun` is a returned flag. How `px.scatter` splits rows into traces is not modelled: the traces are the figure's input sequence.
- Axis, colour bar and layout settings, and the interaction loop (functions.py:510-521), are left out. The loop changes no modelled field.
- The `np.log10` values (with 0 replaced by NaN first) are an input function `log10` on cells: each companion cell is `log10` of the parameter's cell, but the logarithm itself is not modelled. `afterglow_fluence`, the `underlying_index` float conversion and the other floating-point columns (pages/population_stats.py:60-74, 110-111) are left out.
- `get_table_value`, `get_table_multiple_values`, `get_converted_fluence` and `get_table_list` format floats or evaluate Python literals, so the summary values other than the two counts are left out.
- I/O is left out: `pd.read_csv`, `os.listdir` (the folder list is a parameter), `os.path.exists` and images.
- pages/burst_viewer.py:102 and 158 (a bad keyword argument and an undefined `bat_path`) are in the parts of the page that are not modelled.
- `COL_PRIMARY`, `COL_SECONDARY` and `COL_TERTIARTY` are opaque strings. `functions.main_functions` is not part of this model.
- `upper()`, `isalpha()` and the digits accepted by `int()` are modelled on ASCII only. `int()` of an infinite or NaN float is not modelled.
- The seeded `'selected_grbs': []` entry of a view's settings is not modelled. No code reads it, and the first write-back drops it.
- Traces are compared by value in `t not in proxies` (functions.py:503), as plain records. Object identity is not modelled.
- Session.State.OnClick: the stored `viewer_grb` is the spaced display form, as the code writes it (functions.py:242-244), not the raw key. The burst viewer's picker has no key and never reads it, so that hand-over is not modelled.
- Colouring.PulseSymbol: `color_by in ('None')` is modelled as written, a substring test on the string "None".
- Colouring.CategoryOrderExample: the example fixes the string cells; the ordering of `Number` cells relies on `Truncate` alone.
- Session.Configured: a widget's value is taken as given when the user sets it; Streamlit's checks that a default is among the options are not modelled.
- Traces.ColourMapIndex and Traces.ProxyColours: with a repeated name in the selection the dict comprehension keeps the last colour; those two lemmas assume distinct names.
