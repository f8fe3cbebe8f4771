/**
 * The controller state the three kfit applications share: the component
 * counts and the composite model made from them, the guesses, the user
 * values and the lmfit parameters merged from both, the data columns and
 * the paired `x`/`y` arrays fitted, the fit result and the tables exported
 * from it, and the import settings.
 */
module Kfit {
  import opened Wrappers
  import opened Text
  import opened Data
  import opened Models
  import opened Params
  import opened Names
  import opened Results
  import opened Settings

  // ----- increment -----

  /** The `val` keys `increment` recognises, one per shape. */
  const Kinds: seq<string> := ["gau", "lor", "voi", "lin"]

  /** `ngau`, `nlor`, `nvoi` and `nlin`. */
  datatype Counts = Counts(gau: int, lor: int, voi: int, lin: int) {
    /** The floors `increment` clamps to: no peaks of a shape, but at least one line. */
    predicate Valid() {
      gau >= 0 && lor >= 0 && voi >= 0 && lin >= 1
    }

    /** The count named by `val`. */
    function Of(val: string): int {
      if val == "gau" then gau
      else if val == "lor" then lor
      else if val == "voi" then voi
      else if val == "lin" then lin
      else 0
    }
  }

  /** The counts the controllers start from and `hard_reset` restores. */
  const Initial: Counts := Counts(0, 0, 0, 1)

  /** The lowest value `increment` lets a count take. */
  function Floor(val: string): int {
    if val == "lin" then 1 else 0
  }

  /** Counts that agree on every kind are equal. */
  lemma CountsExt(a: Counts, b: Counts)
    requires forall v :: v in Kinds ==> a.Of(v) == b.Of(v)
    ensures a == b
  {
    assert a.Of("gau") == b.Of("gau") && a.Of("lor") == b.Of("lor");
    assert a.Of("voi") == b.Of("voi") && a.Of("lin") == b.Of("lin");
  }

  /**
   * `increment(val, add)`: the named count moves by one, then every count
   * is clamped to its floor. The counts are always valid afterwards; from
   * valid counts only the named one changes, adding raises it by exactly
   * one, removing lowers it by one unless it is at its floor, and an
   * unknown key changes nothing.
   */
  function Incremented(c: Counts, val: string, add: bool): (r: Counts)
    ensures r.Valid()
    ensures c.Valid() ==> forall v :: v in Kinds && v != val ==> r.Of(v) == c.Of(v)
    ensures c.Valid() && val in Kinds && add ==> r.Of(val) == c.Of(val) + 1
    ensures c.Valid() && val in Kinds && !add && c.Of(val) > Floor(val) ==> r.Of(val) == c.Of(val) - 1
    ensures c.Valid() && val in Kinds && !add && c.Of(val) == Floor(val) ==> r == c
    ensures c.Valid() && val !in Kinds ==> r == c
  {
    var d := if add then 1 else -1;
    var b := Counts(
      c.gau + (if val == "gau" then d else 0), c.lor + (if val == "lor" then d else 0),
      c.voi + (if val == "voi" then d else 0), c.lin + (if val == "lin" then d else 0));
    var r := Counts(
      if b.gau < 0 then 0 else b.gau, if b.lor < 0 then 0 else b.lor,
      if b.voi < 0 then 0 else b.voi, if b.lin < 1 then 1 else b.lin);
    if c.Valid() && ((val in Kinds && !add && c.Of(val) == Floor(val)) || val !in Kinds) then
      CountsExt(r, c);
      r
    else r
  }

  /** Adding a component and removing it again restores the counts; so does removing one above the floor and adding it back. */
  lemma IncrementUndo(c: Counts, val: string)
    requires c.Valid() && val in Kinds
    ensures Incremented(Incremented(c, val, true), val, false) == c
    ensures c.Of(val) > Floor(val) ==> Incremented(Incremented(c, val, false), val, true) == c
  {
    var up := Incremented(c, val, true);
    var back := Incremented(up, val, false);
    assert up.Of(val) > Floor(val);
    CountsExt(back, c);
    if c.Of(val) > Floor(val) {
      var down := Incremented(c, val, false);
      CountsExt(Incremented(down, val, true), c);
    }
  }

  // ----- get_column_index / column_index_set / xset_click / yset_click -----

  /** The selected column indices and the arrays read from them. */
  datatype View = View(xcol: int, ycol: int, x: Column, y: Column)

  /** How a column selection ended: `int()` rejected a text, an index was out of range, or both arrays were read. */
  datatype Outcome = TypeError | RangeError | Updated

  /**
   * The two `try` blocks that read `data.iloc[:, xcol_idx]` into `x` and
   * then `data.iloc[:, ycol_idx]` into `y`: an IndexError stops the
   * reading, so a missing x column leaves both arrays, and a missing y
   * column leaves `y`. Both arrays are read exactly when both columns
   * exist, and then they are equally long.
   */
  function LoadColumns(data: seq<Column>, v: View): (r: (View, bool))
    ensures r.0.xcol == v.xcol && r.0.ycol == v.ycol
    ensures r.1 <==> ColumnAt(data, v.xcol).Some? && ColumnAt(data, v.ycol).Some?
    ensures r.0.x == ColumnAt(data, v.xcol).GetOr(v.x)
    ensures ColumnAt(data, v.xcol).None? ==> r.0.y == v.y
    ensures ColumnAt(data, v.xcol).Some? ==> r.0.y == ColumnAt(data, v.ycol).GetOr(v.y)
    ensures r.1 && Rectangular(data) ==> |r.0.x| == |r.0.y|
  {
    match ColumnAt(data, v.xcol)
    case None => (v, false)
    case Some(xc) =>
      match ColumnAt(data, v.ycol)
      case None => (v.(x := xc), false)
      case Some(yc) => (v.(x := xc, y := yc), true)
  }

  /**
   * `get_column_index` (and `column_index_set`): when either text is not
   * an integer nothing changes; otherwise both indices are stored, whatever
   * the range check then finds, and the columns are read.
   */
  function SelectColumns(data: seq<Column>, v: View, xText: string, yText: string): (r: (View, Outcome))
    ensures r.1 == TypeError <==> ParseInt(xText).None? || ParseInt(yText).None?
    ensures r.1 == TypeError ==> r.0 == v
    ensures r.1 != TypeError ==> r.0.xcol == ParseInt(xText).value && r.0.ycol == ParseInt(yText).value
    ensures r.1 != TypeError ==>
      r.0 == LoadColumns(data, v.(xcol := r.0.xcol, ycol := r.0.ycol)).0
      && (r.1 == Updated <==> ColumnAt(data, r.0.xcol).Some? && ColumnAt(data, r.0.ycol).Some?)
  {
    match (ParseInt(xText), ParseInt(yText))
    case (Some(i), Some(j)) =>
      var (w, ok) := LoadColumns(data, v.(xcol := i, ycol := j));
      (w, if ok then Updated else RangeError)
    case _ => (v, TypeError)
  }

  /** `xset_click`: a new x index when the text is an integer, then both columns read. */
  function SelectX(data: seq<Column>, v: View, text: string): (r: (View, Outcome))
    ensures r.1 == TypeError <==> ParseInt(text).None?
    ensures r.1 == TypeError ==> r.0 == v
    ensures r.1 != TypeError ==> r.0.xcol == ParseInt(text).value && r.0.ycol == v.ycol
    ensures r.1 != TypeError ==>
      r.0 == LoadColumns(data, v.(xcol := r.0.xcol)).0
      && (r.1 == Updated <==> ColumnAt(data, r.0.xcol).Some? && ColumnAt(data, v.ycol).Some?)
  {
    match ParseInt(text)
    case Some(i) =>
      var (w, ok) := LoadColumns(data, v.(xcol := i));
      (w, if ok then Updated else RangeError)
    case None => (v, TypeError)
  }

  /** `yset_click`: a new y index when the text is an integer, then both columns read; the x index is left alone. */
  function SelectY(data: seq<Column>, v: View, text: string): (r: (View, Outcome))
    ensures r.1 == TypeError <==> ParseInt(text).None?
    ensures r.1 == TypeError ==> r.0 == v
    ensures r.0.xcol == v.xcol
    ensures r.1 != TypeError ==> r.0.ycol == ParseInt(text).value
    ensures r.1 != TypeError ==>
      r.0 == LoadColumns(data, v.(ycol := r.0.ycol)).0
      && (r.1 == Updated <==> ColumnAt(data, v.xcol).Some? && ColumnAt(data, r.0.ycol).Some?)
  {
    match ParseInt(text)
    case Some(j) =>
      var (w, ok) := LoadColumns(data, v.(ycol := j));
      (w, if ok then Updated else RangeError)
    case None => (v, TypeError)
  }

  /** Entering the same column texts again changes nothing more. */
  lemma SelectColumnsIdempotent(data: seq<Column>, v: View, xText: string, yText: string)
    ensures var (w, o) := SelectColumns(data, v, xText, yText);
      SelectColumns(data, w, xText, yText) == (w, o)
  {
  }

  /** A successful selection reads exactly the two chosen columns, which have equal length in a DataFrame. */
  lemma SelectColumnsUpdated(data: seq<Column>, v: View, xText: string, yText: string)
    requires Rectangular(data)
    requires SelectColumns(data, v, xText, yText).1 == Updated
    ensures var w := SelectColumns(data, v, xText, yText).0;
      && w.x == ColumnAt(data, w.xcol).value && w.y == ColumnAt(data, w.ycol).value
      && |w.x| == |w.y|
  {
  }

  /**
   * Setting the x and then the y index one at a time, as the newer Qt
   * application does, ends where setting both at once does, whenever both
   * columns exist.
   */
  lemma SelectXThenY(data: seq<Column>, v: View, xText: string, yText: string)
    requires SelectColumns(data, v, xText, yText).1 == Updated
    ensures SelectY(data, SelectX(data, v, xText).0, yText) == SelectColumns(data, v, xText, yText)
  {
  }

  // ----- set_params -----

  /**
   * The loop of `set_params`: for each name in order, value, min and max
   * taken from the user values or else the guesses, and the parameter
   * added; a KeyError, or lmfit's ValueError for equal bounds, stops the
   * loop with the parameters added so far.
   */
  method MergeParams(names: seq<string>, u: Table<real>, g: Table<Bound>) returns (r: (seq<Param>, bool))
    ensures r == BuildParams(names, u, g)
  {
    var added: seq<Param> := [];
    var i := 0;
    while i < |names|
      invariant 0 <= i <= |names|
      invariant (added, true) == BuildParams(names[..i], u, g)
    {
      BuildParamsStep(names, i, u, g);
      var vals := (Pick(u, g, Value, names[i]), Pick(u, g, Min, names[i]), Pick(u, g, Max, names[i]));
      if vals.0.None? || vals.1.None? || vals.2.None? {
        BuildParamsStops(names, i + 1, u, g);
        return (added, false);
      }
      var p := AddParam(names[i], vals.0.value, vals.1.value, vals.2.value);
      if p.None? {
        BuildParamsStops(names, i + 1, u, g);
        return (added, false);
      }
      assert MakeParam(u, g, names[i]) == p;
      added := added + [p.value];
      i := i + 1;
    }
    assert names[..i] == names;
    return (added, true);
  }

  // ----- the controller -----

  /**
   * One kfit controller. Methods named after a method of one version model
   * that version; the others are common to all three.
   */
  class App {
    var ngau: int
    var nlor: int
    var nvoi: int
    var nlin: int
    /** The components of `self.model`, in composition order. */
    var model: seq<Component>
    var guesses: Table<Bound>
    var usrVals: Table<real>
    /** `self.params`, in insertion order. */
    var params: seq<Param>
    var result: Option<FitResult>
    /** `params_df`: the best value of each parameter. */
    var paramsDf: Option<map<string, real>>
    var curvesDf: Option<Curves>
    /** The imported DataFrame, column by column. */
    const data: seq<Column>
    var x: Column
    var y: Column
    var xcolIdx: int
    var ycolIdx: int
    var editMode: bool
    /** The GTK version's `pandas.read_csv` settings. */
    var settings: ImportSettings
    /** The Qt version's `pandas.read_csv` settings. */
    var qtSettings: QtImportSettings
    /** `fit_method`, which the GTK version only sets from the settings dialog. */
    var fitMethod: Option<string>

    function CurrentCounts(): Counts
      reads this`ngau, this`nlor, this`nvoi, this`nlin
    {
      Counts(ngau, nlor, nvoi, nlin)
    }

    function CurrentView(): View
      reads this`xcolIdx, this`ycolIdx, this`x, this`y
    {
      View(xcolIdx, ycolIdx, x, y)
    }

    /** Valid counts, a DataFrame with one entry per row in every column, and a model without repeated components. */
    predicate Valid()
      reads this`ngau, this`nlor, this`nvoi, this`nlin, this`model
    {
      CurrentCounts().Valid() && Rectangular(data) && NoDup(model)
    }

    /**
     * `__init__`: the demo DataFrame with its first two columns as `x` and
     * `y`, one line and no peaks, empty guesses and user values, no result,
     * and the default import settings.
     */
    constructor(data0: seq<Column>)
      requires |data0| >= 2 && Rectangular(data0)
      ensures Valid()
      ensures CurrentCounts() == Initial && model == ComposedModel(0, 0, 0, 1)
      ensures data == data0 && xcolIdx == 0 && ycolIdx == 1 && x == data0[0] && y == data0[1]
      ensures guesses == EmptyTable() && usrVals == EmptyTable() && params == []
      ensures result == None && paramsDf == None && curvesDf == None && !editMode
      ensures settings == Defaults && qtSettings == QtImportSettings(",", "infer", None, None, None) && fitMethod == None
    {
      data := data0;
      xcolIdx, ycolIdx := 0, 1;
      x, y := data0[0], data0[1];
      ngau, nlor, nvoi, nlin := 0, 0, 0, 1;
      model := [];
      guesses, usrVals, params := EmptyTable(), EmptyTable(), [];
      result, paramsDf, curvesDf := None, None, None;
      editMode := false;
      settings := Defaults;
      qtSettings := QtImportSettings(",", "infer", None, None, None);
      fitMethod := None;
      new;
      InitModel();
    }

    /** `increment`, identical in the three versions. */
    method Increment(val: string, add: bool)
      modifies this`ngau, this`nlor, this`nvoi, this`nlin
      ensures CurrentCounts() == Incremented(old(CurrentCounts()), val, add)
    {
      if add {
        if val == "gau" { ngau := ngau + 1; }
        if val == "lor" { nlor := nlor + 1; }
        if val == "voi" { nvoi := nvoi + 1; }
        if val == "lin" { nlin := nlin + 1; }
      }
      if !add {
        if val == "gau" { ngau := ngau - 1; }
        if val == "lor" { nlor := nlor - 1; }
        if val == "voi" { nvoi := nvoi - 1; }
        if val == "lin" { nlin := nlin - 1; }
      }
      if ngau < 0 { ngau := 0; }
      if nlor < 0 { nlor := 0; }
      if nvoi < 0 { nvoi := 0; }
      if nlin < 1 { nlin := 1; }
    }

    /** `init_model`: the lines, then the Gaussians, Lorentzians and Voigts whose count is not zero. */
    method InitModel()
      modifies this`model
      ensures model == ComposedModel(ngau, nlor, nvoi, nlin) && NoDup(model)
    {
      var m := LineX(nlin);
      if ngau != 0 {
        var gau := GaussX(ngau);
        m := m + gau;
      }
      if nlor != 0 {
        var lor := LorX(nlor);
        m := m + lor;
      }
      if nvoi != 0 {
        var voi := VoigtX(nvoi);
        m := m + voi;
      }
      ComposedModelNoDup(ngau, nlor, nvoi, nlin);
      model := m;
    }

    /** `guess_params`: the components seeded in order; false where an IndexError stopped it. */
    method GuessParams(st: Stats) returns (ok: bool)
      modifies this`guesses
      ensures (guesses, ok) == SeedAll(old(guesses), model, data, xcolIdx, ycolIdx, st)
    {
      var i := 0;
      while i < |model|
        invariant 0 <= i <= |model|
        invariant (guesses, true) == SeedAll(old(guesses), model[..i], data, xcolIdx, ycolIdx, st)
      {
        assert model[..i + 1][..i] == model[..i];
        var (g, done) := SeedComponent(guesses, model[i], data, xcolIdx, ycolIdx, st);
        guesses := g;
        if !done {
          SeedAllStops(old(guesses), model, i + 1, data, xcolIdx, ycolIdx, st);
          return false;
        }
        i := i + 1;
      }
      assert model[..i] == model;
      return true;
    }

    /** `update_usr_vals`: the entries of the `'value'`, `'min'` and `'max'` widgets, each dictionary in turn. */
    method UpdateUsrVals(texts: Table<string>)
      modifies this`usrVals
      ensures usrVals == Overlaid(old(usrVals), texts)
    {
      var value := OverlayEntries(usrVals.value, texts.value);
      var min := OverlayEntries(usrVals.min, texts.min);
      var max := OverlayEntries(usrVals.max, texts.max);
      usrVals := Table(value, min, max);
    }

    /**
     * `set_params`: empty parameters, the guesses, the user values, then
     * one parameter per model parameter name. When the guesses raise
     * nothing is merged; otherwise every name is known, and the merge
     * completes exactly when no name has equal min and max. Then each name
     * gets one parameter, in order: lmfit's Parameter for the user's value
     * in each field where there is one and the guess elsewhere.
     */
    method SetParams(texts: Table<string>, st: Stats) returns (ok: bool)
      requires Valid()
      modifies this`params, this`guesses, this`usrVals
      ensures Valid()
      ensures guesses == SeedAll(old(guesses), model, data, xcolIdx, ycolIdx, st).0
      ensures !SeedAll(old(guesses), model, data, xcolIdx, ycolIdx, st).1 ==> !ok && params == [] && usrVals == old(usrVals)
      ensures SeedAll(old(guesses), model, data, xcolIdx, ycolIdx, st).1 ==>
        usrVals == Overlaid(old(usrVals), texts) && (params, ok) == BuildParams(ModelParamNames(model), usrVals, guesses)
      ensures ok <==> (SeedAll(old(guesses), model, data, xcolIdx, ycolIdx, st).1
        && forall k :: 0 <= k < |ModelParamNames(model)| ==> !EqualBounds(usrVals, guesses, ModelParamNames(model)[k]))
      ensures ok ==> |params| == |ModelParamNames(model)|
      ensures ok ==> forall k :: 0 <= k < |params| ==> params[k].name == ModelParamNames(model)[k]
      ensures ok ==> forall k :: 0 <= k < |params| ==> Some(params[k]) == AddParam(params[k].name,
        Passed(usrVals, guesses, Value, params[k].name), Passed(usrVals, guesses, Min, params[k].name), Passed(usrVals, guesses, Max, params[k].name))
    {
      params := [];
      ghost var g0 := guesses;
      ok := GuessParams(st);
      if !ok {
        return;
      }
      UpdateUsrVals(texts);
      MergeComplete(g0, usrVals, model, data, xcolIdx, ycolIdx, st);
      var merged := MergeParams(ModelParamNames(model), usrVals, guesses);
      params, ok := merged.0, merged.1;
    }

    /** `set_xlims`: the padded limits of the current x array, when numpy gives finite ones. */
    method SetXLims() returns (lims: Option<(real, real)>)
      ensures lims == PaddedLimits(x)
      ensures lims.Some? ==> forall i :: 0 <= i < |x| ==> lims.value.0 <= x[i].value <= lims.value.1
    {
      lims := PaddedLimits(x);
      if lims.Some? {
        PaddedLimitsEnclose(x);
      }
    }

    /**
     * `set_xrange_to_zoom`: `x` and then `y` masked by the rows whose x
     * lies in the plot's x range. A `y` of another length makes numpy raise
     * after `x` was masked.
     */
    method SetXRangeToZoom(xmin: real, xmax: real) returns (ok: bool)
      modifies this`x, this`y
      ensures ok <==> |old(x)| == |old(y)|
      ensures ok ==> (x, y) == KeepInRange(old(x), old(y), xmin, xmax)
      ensures !ok ==> x == Masked(old(x), RangeMask(old(x), xmin, xmax)) && y == old(y)
    {
      var rangeBool := RangeMask(x, xmin, xmax);
      x := Masked(x, rangeBool);
      if |y| != |rangeBool| {
        return false;
      }
      y := Masked(y, rangeBool);
      return true;
    }

    /**
     * `filter_nan`: when an entry is missing, both arrays are masked by the
     * rows where neither is. numpy broadcasts the mask: arrays of different
     * lengths raise at `&` unless one has length 1; a one-entry `x` then
     * raises at `self.x[nanbool]` before anything is assigned, while a
     * one-entry `y` lets `x` be masked before `self.y[nanbool]` raises.
     */
    method FilterNan() returns (ok: bool)
      modifies this`x, this`y
      ensures ok <==> !AnyMissing(old(x), old(y)) || |old(x)| == |old(y)|
      ensures ok && |old(x)| == |old(y)| ==> (x, y) == DropMissing(old(x), old(y))
      ensures !AnyMissing(old(x), old(y)) ==> x == old(x) && y == old(y)
      ensures !ok && |old(y)| == 1 ==>
        x == (if old(y)[0].Some? then Filter(old(x), IsPresent) else []) && y == old(y)
      ensures !ok && |old(y)| != 1 ==> x == old(x) && y == old(y)
    {
      if AnyMissing(x, y) {
        var nanBool := BroadcastMask(x, y);
        if nanBool.None? || |x| != |nanBool.value| {
          return false;
        }
        if |y| != |x| {
          assert nanBool.value == PresentMask(x, Stretch(y, |x|));
          StretchedMasked(x, y);
          x := Masked(x, nanBool.value);
          return false;
        }
        assert nanBool.value == PresentMask(x, y);
        x, y := Masked(x, nanBool.value), Masked(y, nanBool.value);
      }
      return true;
    }

    /**
     * `set_xy_range`: both arrays read afresh from the selected columns,
     * then masked by the rows whose x lies in the plot's x range; an index
     * out of range raises at the column it names.
     */
    method SetXYRange(xmin: real, xmax: real) returns (ok: bool)
      requires Valid()
      modifies this`x, this`y
      ensures ok <==> ColumnAt(data, xcolIdx).Some? && ColumnAt(data, ycolIdx).Some?
      ensures ok ==> |ColumnAt(data, xcolIdx).value| == |ColumnAt(data, ycolIdx).value|
      ensures ok ==> (x, y) == KeepInRange(ColumnAt(data, xcolIdx).value, ColumnAt(data, ycolIdx).value, xmin, xmax)
      ensures !ok ==> (x, y) == (LoadColumns(data, old(CurrentView())).0.x, LoadColumns(data, old(CurrentView())).0.y)
    {
      match ColumnAt(data, xcolIdx)
      case None =>
        return false;
      case Some(xc) =>
        x := xc;
        match ColumnAt(data, ycolIdx)
        case None =>
          return false;
        case Some(yc) =>
          y := yc;
          var rangeBool := RangeMask(x, xmin, xmax);
          x, y := Masked(x, rangeBool), Masked(y, rangeBool);
          return true;
    }

    /**
     * `get_column_index` (GTK) and `column_index_set` (Qt): the selection
     * of both columns; the result is cleared once both texts are integers.
     */
    method GetColumnIndex(xText: string, yText: string) returns (outcome: Outcome)
      modifies this`xcolIdx, this`ycolIdx, this`x, this`y, this`result
      ensures (CurrentView(), outcome) == SelectColumns(data, old(CurrentView()), xText, yText)
      ensures result == if outcome == TypeError then old(result) else None
    {
      var idxX := ParseInt(xText);
      if idxX.None? {
        return TypeError;
      }
      var idxY := ParseInt(yText);
      if idxY.None? {
        return TypeError;
      }
      xcolIdx, ycolIdx := idxX.value, idxY.value;
      result := None;
      outcome := ReadColumns();
    }

    /** The two reads of `data.iloc[:, ...]` into `x` and `y`. */
    method ReadColumns() returns (outcome: Outcome)
      modifies this`x, this`y
      ensures outcome != TypeError
      ensures CurrentView() == LoadColumns(data, old(CurrentView())).0
      ensures outcome == Updated <==> LoadColumns(data, old(CurrentView())).1
    {
      match ColumnAt(data, xcolIdx)
      case None =>
        return RangeError;
      case Some(xc) =>
        x := xc;
        match ColumnAt(data, ycolIdx)
        case None =>
          return RangeError;
        case Some(yc) =>
          y := yc;
          return Updated;
    }

    /** `xset_click`: a new x column. */
    method XSetClick(text: string) returns (outcome: Outcome)
      modifies this`xcolIdx, this`x, this`y, this`result
      ensures (CurrentView(), outcome) == SelectX(data, old(CurrentView()), text)
      ensures result == if outcome == TypeError then old(result) else None
    {
      var idx := ParseInt(text);
      if idx.None? {
        return TypeError;
      }
      xcolIdx := idx.value;
      result := None;
      outcome := ReadColumns();
    }

    /** `yset_click`: a new y column. */
    method YSetClick(text: string) returns (outcome: Outcome)
      modifies this`ycolIdx, this`x, this`y, this`result
      ensures (CurrentView(), outcome) == SelectY(data, old(CurrentView()), text)
      ensures result == if outcome == TypeError then old(result) else None
    {
      var idx := ParseInt(text);
      if idx.None? {
        return TypeError;
      }
      ycolIdx := idx.value;
      result := None;
      outcome := ReadColumns();
    }

    /** `toggle_edit_mode`: edit mode follows the edit button. */
    method ToggleEditMode(checked: bool)
      modifies this`editMode
      ensures editMode == checked
    {
      if checked {
        editMode := true;
      } else {
        editMode := false;
      }
    }

    /**
     * `init_param_widgets`: the model rebuilt from the counts and fresh
     * blank entries made for its parameters; when a fit result exists the
     * parameters are set again, and the blank entries leave the user values
     * as they were.
     */
    method RebuildModel(st: Stats) returns (ok: bool)
      requires Valid()
      modifies this`model, this`params, this`guesses, this`usrVals
      ensures Valid()
      ensures model == ComposedModel(ngau, nlor, nvoi, nlin)
      ensures usrVals == old(usrVals)
      ensures old(result).None? ==> ok && params == old(params) && guesses == old(guesses)
      ensures old(result).Some? ==> guesses == SeedAll(old(guesses), model, data, xcolIdx, ycolIdx, st).0
      ensures old(result).Some? && !SeedAll(old(guesses), model, data, xcolIdx, ycolIdx, st).1 ==> !ok && params == []
      ensures old(result).Some? && SeedAll(old(guesses), model, data, xcolIdx, ycolIdx, st).1 ==>
        (params, ok) == BuildParams(ModelParamNames(model), usrVals, guesses)
    {
      InitModel();
      ok := true;
      if result.Some? {
        var entries := BlankEntries(ModelParamNames(model));
        OverlaidBlank(usrVals, ModelParamNames(model));
        ok := SetParams(entries, st);
      }
    }

    /** What `hard_reset` restores in every version. */
    predicate IsReset()
      reads this`ngau, this`nlor, this`nvoi, this`nlin, this`model, this`params
      reads this`result, this`paramsDf, this`curvesDf, this`guesses, this`usrVals
    {
      && CurrentCounts() == Initial && model == ComposedModel(0, 0, 0, 1)
      && params == [] && result == None && paramsDf == None && curvesDf == None
      && guesses == EmptyTable() && usrVals == EmptyTable()
    }

    /** The fit state `hard_reset` discards: parameters, result, exported tables, guesses and user values. */
    method ClearFit()
      modifies this`params, this`result, this`paramsDf, this`curvesDf, this`guesses, this`usrVals
      ensures params == [] && result == None && paramsDf == None && curvesDf == None
      ensures guesses == EmptyTable() && usrVals == EmptyTable()
    {
      params := [];
      result, paramsDf, curvesDf := None, None, None;
      guesses, usrVals := EmptyTable(), EmptyTable();
    }

    /** `hard_reset` (GTK): the Qt reset, then the column selection from the entries. */
    method HardReset(xText: string, yText: string) returns (outcome: Outcome)
      requires Valid()
      modifies this`ngau, this`nlor, this`nvoi, this`nlin, this`model, this`params, this`guesses, this`usrVals
      modifies this`result, this`paramsDf, this`curvesDf, this`xcolIdx, this`ycolIdx, this`x, this`y
      ensures Valid() && IsReset()
      ensures (CurrentView(), outcome) == SelectColumns(data, old(CurrentView()), xText, yText)
    {
      ghost var v0 := CurrentView();
      HardResetQt();
      assert CurrentView() == v0;
      outcome := GetColumnIndex(xText, yText);
      assert (CurrentView(), outcome) == SelectColumns(data, v0, xText, yText);
    }

    /**
     * `hard_reset` (Qt), and the GTK `hard_reset` before its column
     * selection: counts, model and fit state reset. The result is cleared
     * before `init_param_widgets` runs, so no parameters are set again.
     */
    method HardResetQt()
      requires Valid()
      modifies this`ngau, this`nlor, this`nvoi, this`nlin, this`model, this`params, this`guesses, this`usrVals
      modifies this`result, this`paramsDf, this`curvesDf
      ensures Valid() && IsReset()
    {
      ngau, nlor, nvoi, nlin := 0, 0, 0, 1;
      InitModel();
      ClearFit();
      InitModel();
    }

    /**
     * `process_results`: with a fit result, the best values become
     * `params_df` and the curves `curves_df`, indexed by `x`, as `Process`
     * says; pandas raises when the curves or `x` differ in length, which a
     * result left from an earlier range allows. Without a result nothing
     * changes and nothing is raised.
     */
    method ProcessResults() returns (ok: bool)
      modifies this`paramsDf, this`curvesDf
      ensures result.None? ==> !ok && paramsDf == old(paramsDf) && curvesDf == old(curvesDf)
      ensures result.Some? ==> var p := Process(result.value, x, y, old(curvesDf));
        paramsDf == Some(p.0) && curvesDf == p.1 && ok == p.2
    {
      if result.None? {
        return false;
      }
      var r := result.value;
      paramsDf := Some(r.bestValues);
      var curvesDict := BaseCurves(y, r.bestFit);
      var comps := r.components;
      assert comps[..0] == [] && Labelled([]) == [];
      var i := 0;
      while i < |comps|
        invariant 0 <= i <= |comps|
        invariant curvesDict == CurveColumns(y, r.bestFit, comps[..i])
        invariant paramsDf == Some(r.bestValues) && curvesDf == old(curvesDf)
      {
        var comp := comps[i];
        CurveColumnsStep(y, r.bestFit, comps, i);
        curvesDict := DictPut(curvesDict, Label(comp.0), comp.1);
        i := i + 1;
      }
      assert comps[..i] == comps;
      if !AllRows(curvesDict, |y|) {
        return false;
      }
      curvesDf := Some(Curves(RowNumbers(|y|), curvesDict));
      if |x| != |y| {
        return false;
      }
      curvesDf := Some(Curves(x, curvesDict));
      return true;
    }

    /** Whether `process_results` raises: there is a result and `Process` does not complete. */
    predicate ProcessFails()
      reads this`result, this`x, this`y
    {
      result.Some? && !Process(result.value, x, y, None).2
    }

    /**
     * `export_data` once a file name was chosen (None when the dialog is
     * cancelled): the results processed, then the curves written to the
     * name with `.csv` ensured and the parameters beside it. Without a
     * result the tables an earlier fit left are written. A raise in
     * `process_results` stops the export, and `to_csv` on a table that
     * does not exist raises.
     */
    method ExportData(chosen: Option<string>) returns (curvesFile: Option<string>, paramsFile: Option<string>)
      modifies this`paramsDf, this`curvesDf
      ensures chosen.None? ==> curvesFile.None? && paramsFile.None? && paramsDf == old(paramsDf) && curvesDf == old(curvesDf)
      ensures chosen.Some? && result.None? ==> paramsDf == old(paramsDf) && curvesDf == old(curvesDf)
      ensures chosen.Some? && result.Some? ==> var p := Process(result.value, x, y, old(curvesDf));
        paramsDf == Some(p.0) && curvesDf == p.1
      ensures curvesFile.Some? <==> chosen.Some? && !ProcessFails() && curvesDf.Some?
      ensures curvesFile.Some? ==> curvesFile.value == CurvesFile(chosen.value) && Contains(curvesFile.value, Csv)
      ensures paramsFile.Some? <==> curvesFile.Some? && paramsDf.Some?
      ensures paramsFile.Some? ==> paramsFile.value == ParamsFile(chosen.value)
    {
      curvesFile, paramsFile := None, None;
      if chosen.None? {
        return;
      }
      var name := CurvesFile(chosen.value);
      var done := ProcessResults();
      if result.Some? && !done {
        return;
      }
      if curvesDf.None? {
        return;
      }
      curvesFile := Some(name);
      if paramsDf.None? {
        return;
      }
      paramsFile := Some(ParamsFile(chosen.value));
    }

    /**
     * `export_results` (Qt): the results processed, and for a chosen name
     * (the empty name when the dialog is cancelled) processed again, which
     * changes nothing more, and written to the name verbatim and to the
     * corrected parameters name. A raise in `process_results` stops it, and
     * `to_csv` on a table that does not exist raises.
     */
    method ExportResultsQt(chosen: string) returns (curvesFile: Option<string>, paramsFile: Option<string>)
      modifies this`paramsDf, this`curvesDf
      ensures result.None? ==> paramsDf == old(paramsDf) && curvesDf == old(curvesDf)
      ensures result.Some? ==> var p := Process(result.value, x, y, old(curvesDf));
        paramsDf == Some(p.0) && curvesDf == p.1
      ensures curvesFile.Some? <==> chosen != "" && !ProcessFails() && curvesDf.Some?
      ensures paramsFile.Some? <==> curvesFile.Some? && paramsDf.Some?
      ensures curvesFile.Some? ==> ExportQt(chosen).Some? && curvesFile.value == ExportQt(chosen).value.0
      ensures paramsFile.Some? ==> paramsFile.value == ExportQt(chosen).value.1
    {
      ghost var c0 := curvesDf;
      curvesFile, paramsFile := None, None;
      var done := ProcessResults();
      if result.Some? && !done {
        return;
      }
      if chosen == "" {
        return;
      }
      if result.Some? {
        ProcessIdempotent(result.value, x, y, c0);
      }
      done := ProcessResults();
      if curvesDf.None? {
        return;
      }
      curvesFile := Some(chosen);
      if paramsDf.None? {
        return;
      }
      paramsFile := Some(ParamsFileQt(chosen));
    }

    /** `run_settings_dialog` (GTK), field by field; false where `int()` raised, and nothing changes when the dialog is not applied. */
    method RunSettingsDialog(apply: bool, t: DialogTexts) returns (ok: bool)
      modifies this`settings, this`fitMethod
      ensures !apply ==> ok && settings == old(settings) && fitMethod == old(fitMethod)
      ensures apply ==> (settings, fitMethod, ok) == ApplyDialog(old(settings), old(fitMethod), t)
    {
      if !apply {
        return true;
      }
      settings := settings.(sep := t.sep);
      if t.header != "infer" {
        var h := ParseInt(t.header);
        if h.None? {
          return false;
        }
        settings := settings.(header := Row(h.value));
      } else {
        settings := settings.(header := Infer);
      }
      if t.skiprows == "None" {
        settings := settings.(skiprows := None);
      } else {
        var k := ParseInt(t.skiprows);
        if k.None? {
          return false;
        }
        settings := settings.(skiprows := k);
      }
      settings := settings.(dtype := if t.dtype == "None" then None else Some(t.dtype));
      settings := settings.(encoding := if t.encoding == "None" then None else Some(t.encoding));
      if t.fitMethod != "least_squares" {
        fitMethod := Some(t.fitMethod);
      } else {
        fitMethod := Some("least_squares");
      }
      return true;
    }

    /** `set_import_settings` (Qt), field by field. */
    method SetImportSettingsQt(t: QtTexts)
      modifies this`qtSettings
      ensures qtSettings == SetImportSettings(t)
    {
      qtSettings := qtSettings.(sep := t.sep, header := t.header);
      qtSettings := qtSettings.(skiprows := if t.skiprows == "None" then None else Some(t.skiprows));
      qtSettings := qtSettings.(dtype := if t.dtype == "None" then None else Some(t.dtype));
      qtSettings := qtSettings.(encoding := if t.encoding == "None" then None else Some(t.encoding));
    }
  }
}
