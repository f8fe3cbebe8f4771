/**
 * The names the controllers derive from text: the two export file names of
 * `export_data` / `export_results`, and the curve label `process_results`
 * takes from an lmfit component prefix.
 */
module Names {
  import opened Wrappers
  import opened Text
  import opened Models

  /** The extension both exporters look for. */
  const Csv: string := ".csv"

  /** The suffix of the parameters file. */
  const ParamsSuffix: string := ".params.csv"

  /** The position just after a name is the first place `".csv"` occurs in `name + ".csv"` when `name` lacks it. */
  lemma FindAppendedCsv(name: string)
    requires !Contains(name, Csv)
    ensures Find(name + Csv, Csv) == |name|
  {
    var s := name + Csv;
    assert OccursAt(s, Csv, |name|) by {
      assert s[|name|..|name| + 4] == Csv;
    }
    forall k | 0 <= k < |name| ensures !OccursAt(s, Csv, k) {
      if k + 4 <= |name| {
        assert s[k..k + 4] == name[k..k + 4];
        assert !OccursAt(name, Csv, k);
      } else {
        // the '.' of the appended extension sits inside the window at offset |name| - k > 0
        var j := |name| - k;
        assert s[k..k + 4][j] == '.';
        assert Csv[j] != '.';
      }
    }
  }

  /** A name without `.` has no `".csv"`. */
  lemma NoDotNoCsv(name: string)
    requires '.' !in name
    ensures !Contains(name, Csv)
  {
    forall k | 0 <= k <= |name| ensures !OccursAt(name, Csv, k) {
      if k + 4 <= |name| {
        assert name[k..k + 4][0] == name[k];
      }
    }
  }

  /** Stripping a name at its first `".csv"` leaves a stem that has none. */
  lemma StemLacksCsv(name: string)
    requires Contains(name, Csv)
    ensures !Contains(name[..Find(name, Csv)], Csv)
  {
    var i := Find(name, Csv);
    var stem := name[..i];
    forall k | 0 <= k <= |stem| ensures !OccursAt(stem, Csv, k) {
      if OccursAt(stem, Csv, k) {
        assert name[k..k + 4] == stem[k..k + 4];
        assert OccursAt(name, Csv, k);
      }
    }
  }

  // ----- kfit/kfit.py export_data -----

  /** The curves file of the GTK exporter: `".csv"` is appended when the chosen name lacks it. */
  function CurvesFile(name: string): (r: string)
    ensures Contains(r, Csv)
    ensures Contains(name, Csv) ==> r == name
    ensures !Contains(name, Csv) ==> r == name + Csv
  {
    if Find(name, Csv) == -1 then
      FindAppendedCsv(name);
      name + Csv
    else name
  }

  /** The parameters file of the GTK exporter: the curves file cut at its first `".csv"`, then `".params.csv"`. */
  function ParamsFile(name: string): string {
    var f := CurvesFile(name);
    SliceTo(f, Find(f, Csv)) + ParamsSuffix
  }

  /**
   * The GTK parameters file is the chosen name up to its first `".csv"`
   * followed by `".params.csv"`, or the whole name followed by it when the
   * name has no `".csv"`; the stem itself never contains `".csv"`.
   */
  lemma ParamsFileStem(name: string)
    ensures Contains(name, Csv) ==>
      ParamsFile(name) == name[..Find(name, Csv)] + ParamsSuffix && !Contains(name[..Find(name, Csv)], Csv)
    ensures !Contains(name, Csv) ==> ParamsFile(name) == name + ParamsSuffix
  {
    if Contains(name, Csv) {
      StemLacksCsv(name);
    } else {
      FindAppendedCsv(name);
      assert (name + Csv)[..|name|] == name;
    }
  }

  // ----- kfit/kfit_old.py export_results -----

  /**
   * The Qt exporter as written: the chosen name, cut at `find(".csv")`, then
   * `".params.csv"`. When the name has no `".csv"`, `find` gives -1 and the
   * slice `[:-1]` drops the name's last character.
   */
  function ParamsFileQtAsWritten(name: string): string {
    SliceTo(name, Find(name, Csv)) + ParamsSuffix
  }

  /** The Qt exporter with the stem taken as the whole name when there is no `".csv"`. */
  function ParamsFileQt(name: string): string {
    var i := Find(name, Csv);
    (if i == -1 then name else name[..i]) + ParamsSuffix
  }

  /**
   * The export of the Qt version: None when the save dialog is cancelled
   * (the empty name), otherwise the curves and parameters file names; the
   * curves file is the chosen name verbatim.
   */
  function ExportQt(name: string): (r: Option<(string, string)>)
    ensures r.None? <==> name == ""
    ensures r.Some? ==> r.value == (name, ParamsFileQt(name))
  {
    if name == "" then None else Some((name, ParamsFileQt(name)))
  }

  /** For a name with `".csv"` both Qt versions agree: the text before the first `".csv"`, then `".params.csv"`. */
  lemma ParamsFileQtStem(name: string)
    requires Contains(name, Csv)
    ensures ParamsFileQtAsWritten(name) == ParamsFileQt(name) == name[..Find(name, Csv)] + ParamsSuffix
  {
  }

  /** Without `".csv"` the code as written loses the name's last character. */
  lemma ParamsFileQtAsWrittenDropsLast(name: string)
    requires !Contains(name, Csv) && |name| > 0
    ensures ParamsFileQtAsWritten(name) == name[..|name| - 1] + ParamsSuffix
    ensures ParamsFileQtAsWritten(name) != name + ParamsSuffix
  {
    var r := ParamsFileQtAsWritten(name);
    assert |r| == |name| - 1 + |ParamsSuffix|;
  }

  /** The default name the Qt dialog offers with the extension removed shows the lost character. */
  lemma ParamsFileQtAsWrittenExample()
    ensures ParamsFileQtAsWritten("fit_results") == "fit_result.params.csv"
  {
    var name := "fit_results";
    NoDotNoCsv(name);
    assert Find(name, Csv) == -1;
    assert SliceTo(name, -1) == name[..10] == "fit_result";
    assert ParamsFileQtAsWritten(name) == "fit_result" + ParamsSuffix;
  }

  /** The corrected Qt name is the GTK exporter's name for every chosen name. */
  lemma ParamsFileQtAgrees(name: string)
    ensures ParamsFileQt(name) == ParamsFile(name)
  {
    ParamsFileStem(name);
  }

  // ----- process_results curve labels -----

  /** `comp[:comp.find('_')]`: the text before the first `_`. */
  function Label(name: string): string {
    SliceTo(name, Find(name, "_"))
  }

  /**
   * A name with `_` is its label, `_`, and the rest, and the label has no
   * `_`; a non-empty name without `_` loses its last character, as the
   * slice `[:-1]` does.
   */
  lemma LabelSplit(name: string)
    ensures Contains(name, "_") ==>
      var i := Find(name, "_");
      Label(name) == name[..i] && '_' !in Label(name) && name == Label(name) + "_" + name[i + 1..]
    ensures !Contains(name, "_") && |name| > 0 ==> Label(name) == name[..|name| - 1]
  {
    if Contains(name, "_") {
      var i := Find(name, "_");
      forall k | 0 <= k < i ensures name[k] != '_' {
        assert !OccursAt(name, "_", k);
        assert name[k..k + 1] == [name[k]];
      }
      assert name[i..i + 1] == "_";
      assert name == name[..i] + "_" + name[i + 1..];
    }
  }

  /** The curve of component `c`, whose lmfit prefix is `gau1_` and the like, is labelled `gau1`. */
  lemma LabelOfPrefix(c: Component)
    ensures Label(c.Prefix()) == c.Label()
  {
    ParamNameSplit(c, "");
    assert c.Prefix() + "" == c.Prefix();
  }
}
