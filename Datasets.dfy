/**
 * Dataset selection labels (app.py:22-29): every folder under `results/` is
 * named `<YYMM>_<version>` and is offered in the sidebar as
 * "MM/20YY (laff v<version>)". Listing the folder is I/O and is not modelled:
 * the folder names are an input.
 */
module Datasets {
  import opened Wrappers
  import opened Text

  /** `date, version = folder_name.split('_')` raises unless there is exactly one '_'. */
  datatype DatasetError = NotOneUnderscore(folder: string)

  /** The two halves around the only '_' of a folder name, or None when there is not exactly one. */
  function SplitUnderscore(folder: string): (r: Option<(string, string)>)
    ensures r.None? <==> Occurrences(folder, '_') != 1
    ensures r.Some? ==> folder == r.value.0 + "_" + r.value.1
    ensures r.Some? ==> '_' !in r.value.0 && '_' !in r.value.1
  {
    if Occurrences(folder, '_') != 1 then None
    else
      var i := FirstIndex(folder, '_');
      OccurrencesSplit(folder, i);
      assert folder == folder[..i] + "_" + folder[i + 1..];
      Some((folder[..i], folder[i + 1..]))
  }

  lemma {:induction false} OccurrencesAppend(a: string, b: string, c: char)
    ensures Occurrences(a + b, c) == Occurrences(a, c) + Occurrences(b, c)
  {
    if a != [] {
      assert (a + b)[1..] == a[1..] + b;
      OccurrencesAppend(a[1..], b, c);
    } else {
      assert a + b == b;
    }
  }

  lemma {:induction false} OccurrencesSplit(s: string, i: nat)
    requires i < |s|
    ensures Occurrences(s, s[i]) == Occurrences(s[..i], s[i]) + 1 + Occurrences(s[i + 1..], s[i])
  {
    if i > 0 {
      assert s[1..][i - 1] == s[i];
      assert s[1..][..i - 1] == s[..i][1..];
      assert s[1..][i..] == s[i + 1..];
      OccurrencesSplit(s[1..], i - 1);
    }
  }

  /** beautify_dataset_name (app.py:24-28). */
  function BeautifyDatasetName(folder: string): (r: Result<string, DatasetError>)
    ensures r.Failure? <==> Occurrences(folder, '_') != 1
    ensures r.Failure? ==> r.error == NotOneUnderscore(folder)
  {
    match SplitUnderscore(folder)
    case None => Failure(NotOneUnderscore(folder))
    case Some((date, version)) =>
      var yy := Slice(date, 0, 2);
      var mm := Slice(date, 2, 4);
      Success(mm + "/20" + yy + " (laff v" + version + ")")
  }

  /** Reads the folder name back out of a label made from a four-character date. */
  function FolderOfLabel(shown: string): string {
    if |shown| < 16 then "" else shown[5..7] + shown[..2] + "_" + shown[15..|shown| - 1]
  }

  /**
   * For the folder names the application expects (a four-character date
   * before the '_'), the label determines the folder: two such folders never
   * share a label.
   */
  lemma BeautifyInverse(folder: string)
    requires SplitUnderscore(folder).Some? && |SplitUnderscore(folder).value.0| == 4
    ensures BeautifyDatasetName(folder).Success?
    ensures FolderOfLabel(BeautifyDatasetName(folder).value) == folder
  {
    var (date, version) := SplitUnderscore(folder).value;
    var shown := BeautifyDatasetName(folder).value;
    assert shown == date[2..4] + "/20" + date[..2] + " (laff v" + version + ")";
    assert shown[5..7] == date[..2] && shown[..2] == date[2..4];
    assert shown[15..|shown| - 1] == version;
    assert date == date[..2] + date[2..4];
  }

  /** The example from the application's own data: "2505_5.0" is shown as "05/2025 (laff v5.0)". */
  lemma BeautifyExample()
    ensures BeautifyDatasetName("2505_5.0") == Success("05/2025 (laff v5.0)")
  {
    SplitExample();
    var d := "2505";
    assert Slice(d, 0, 2) == d[0..2] == "25";
    assert Slice(d, 2, 4) == d[2..4] == "05";
    assert BeautifyDatasetName("2505_5.0") == Success("05" + "/20" + "25" + " (laff v" + "5.0" + ")");
    LabelExample();
  }

  /** The label's parts for that folder, joined. */
  lemma LabelExample()
    ensures "05" + "/20" + "25" + " (laff v" + "5.0" + ")" == "05/2025 (laff v5.0)"
  {
  }

  /** The folder "2505_5.0" splits into its date and version. */
  lemma SplitExample()
    ensures SplitUnderscore("2505_5.0") == Some(("2505", "5.0"))
  {
    var f := "2505_5.0";
    assert f[4] == '_' && f[..4] == "2505" && f[5..] == "5.0";
    OccurrencesSplit(f, 4);
    assert FirstIndex(f, '_') == 4;
  }

  /**
   * `dataset_name_map = {beautify_dataset_name(d): d for d in datasets}`
   * (app.py:29): the first folder with a malformed name aborts the whole map;
   * otherwise each label maps to the last folder that produced it.
   */
  function DatasetNameMap(datasets: seq<string>): (r: Result<map<string, string>, DatasetError>)
    ensures r.Success? ==> forall k :: k in r.value ==> r.value[k] in datasets
  {
    if datasets == [] then Success(map[])
    else
      var init, last := datasets[..|datasets| - 1], datasets[|datasets| - 1];
      match DatasetNameMap(init)
      case Failure(e) => Failure(e)
      case Success(m) =>
        match BeautifyDatasetName(last)
        case Failure(e) => Failure(e)
        case Success(shown) => Success(m[shown := last])
  }

  /** The map fails exactly when some folder name does not have exactly one '_'. */
  lemma {:induction false} DatasetNameMapFails(datasets: seq<string>)
    ensures DatasetNameMap(datasets).Failure? <==> exists d :: d in datasets && Occurrences(d, '_') != 1
  {
    if datasets != [] {
      var init, last := datasets[..|datasets| - 1], datasets[|datasets| - 1];
      assert datasets == init + [last];
      DatasetNameMapFails(init);
      if DatasetNameMap(init).Failure? {
        var d :| d in init && Occurrences(d, '_') != 1;
        assert d in datasets;
      } else {
        assert forall d :: d in datasets ==> d in init || d == last;
        if Occurrences(last, '_') != 1 {
          assert last in datasets;
        }
      }
    }
  }

  /**
   * On success, every label is the beautified name of the folder it maps to,
   * and every folder's label is a key of the map.
   */
  lemma {:induction false} DatasetNameMapLabels(datasets: seq<string>)
    requires DatasetNameMap(datasets).Success?
    ensures forall k :: k in DatasetNameMap(datasets).value ==>
      BeautifyDatasetName(DatasetNameMap(datasets).value[k]) == Success(k)
    ensures forall d :: d in datasets ==>
      BeautifyDatasetName(d).Success? && BeautifyDatasetName(d).value in DatasetNameMap(datasets).value
  {
    if datasets != [] {
      var init, last := datasets[..|datasets| - 1], datasets[|datasets| - 1];
      assert datasets == init + [last];
      DatasetNameMapLabels(init);
    }
  }
}
