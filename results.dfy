/**
 * What `process_results` makes of an lmfit fit: the parameters table
 * (`params_df`) from the best values, and the curves table (`curves_df`)
 * holding the data, the total fit and one column per component, each
 * component labelled by the text of its name before the first `_`.
 */
module Results {
  import opened Wrappers
  import opened Text
  import opened Data
  import opened Models
  import opened Names

  /** What the program reads from an lmfit ModelResult: `best_values`, `best_fit` and `eval_components()`. */
  datatype FitResult = FitResult(bestValues: map<string, real>, bestFit: Column, components: seq<(string, Column)>)

  /** `curves_df`: its index (the x values) and its columns, in insertion order. */
  datatype Curves = Curves(index: Column, columns: seq<(string, Column)>)

  /** The keys of an insertion-ordered dictionary. */
  function Keys(d: seq<(string, Column)>): (ks: seq<string>)
    ensures |ks| == |d| && forall i :: 0 <= i < |d| ==> ks[i] == d[i].0
  {
    seq(|d|, i requires 0 <= i < |d| => d[i].0)
  }

  /** `d[k] = v` on a Python dictionary: an existing key keeps its place and takes `v`, a new key goes last. */
  function DictPut(d: seq<(string, Column)>, k: string, v: Column): (r: seq<(string, Column)>)
    ensures k in Keys(d) ==> |r| == |d|
    ensures k !in Keys(d) ==> r == d + [(k, v)]
    ensures forall i :: 0 <= i < |d| && d[i].0 != k ==> r[i] == d[i]
    ensures NoDup(Keys(d)) ==> NoDup(Keys(r)) && forall i :: 0 <= i < |d| && d[i].0 == k ==> r[i] == (k, v)
  {
    if d == [] then [(k, v)]
    else if d[0].0 == k then [(k, v)] + d[1..]
    else
      assert Keys(d[1..]) == Keys(d)[1..];
      [d[0]] + DictPut(d[1..], k, v)
  }

  /** `d[k] = v` for each pair of `kvs` in order. */
  function PutAll(d: seq<(string, Column)>, kvs: seq<(string, Column)>): seq<(string, Column)> {
    if kvs == [] then d else DictPut(PutAll(d, kvs[..|kvs| - 1]), kvs[|kvs| - 1].0, kvs[|kvs| - 1].1)
  }

  /** Storing pairs whose keys are all new, and distinct, appends them in order. */
  lemma {:induction false} PutAllFresh(d: seq<(string, Column)>, kvs: seq<(string, Column)>)
    requires NoDup(Keys(d + kvs))
    ensures PutAll(d, kvs) == d + kvs
  {
    if kvs != [] {
      var init, last := kvs[..|kvs| - 1], kvs[|kvs| - 1];
      assert d + kvs == (d + init) + [last];
      assert NoDup(Keys(d + init)) by {
        assert forall i :: 0 <= i < |d + init| ==> (d + init)[i] == (d + kvs)[i];
      }
      PutAllFresh(d, init);
      assert last.0 !in Keys(d + init) by {
        forall i | 0 <= i < |d + init| ensures (d + init)[i].0 != last.0 {
          assert (d + init)[i] == (d + kvs)[i];
          assert last == (d + kvs)[|d + kvs| - 1];
        }
      }
    }
  }

  /** Each component under its label, in order. */
  function Labelled(comps: seq<(string, Column)>): (r: seq<(string, Column)>)
    ensures |r| == |comps| && forall i :: 0 <= i < |comps| ==> r[i] == (Label(comps[i].0), comps[i].1)
  {
    seq(|comps|, i requires 0 <= i < |comps| => (Label(comps[i].0), comps[i].1))
  }

  /** The columns `process_results` starts from. */
  function BaseCurves(y: Column, bestFit: Column): seq<(string, Column)> {
    [("data", y), ("total_fit", bestFit)]
  }

  /**
   * The columns of `curves_df`: `data` and `total_fit`, then
   * `curves_dict[comp[:comp.find('_')]] = components[comp]` for each
   * component in order.
   */
  function CurveColumns(y: Column, bestFit: Column, comps: seq<(string, Column)>): seq<(string, Column)> {
    PutAll(BaseCurves(y, bestFit), Labelled(comps))
  }

  /** One more component puts its curve under its label into the columns built so far. */
  lemma CurveColumnsStep(y: Column, bestFit: Column, comps: seq<(string, Column)>, i: nat)
    requires i < |comps|
    ensures CurveColumns(y, bestFit, comps[..i + 1])
      == DictPut(CurveColumns(y, bestFit, comps[..i]), Label(comps[i].0), comps[i].1)
  {
    var l := Labelled(comps[..i + 1]);
    assert l[..|l| - 1] == Labelled(comps[..i]);
  }

  /** The component labels are distinct and differ from `data` and `total_fit`. */
  predicate FreshLabels(comps: seq<(string, Column)>) {
    && (forall i :: 0 <= i < |comps| ==> Label(comps[i].0) != "data" && Label(comps[i].0) != "total_fit")
    && forall i, j :: 0 <= i < j < |comps| ==> Label(comps[i].0) != Label(comps[j].0)
  }

  /**
   * With fresh labels, `curves_df` holds the data, the total fit and then
   * every component under its label, in the order of the components.
   */
  lemma CurveColumnsLabelled(y: Column, bestFit: Column, comps: seq<(string, Column)>)
    requires FreshLabels(comps)
    ensures CurveColumns(y, bestFit, comps) == [("data", y), ("total_fit", bestFit)] + Labelled(comps)
  {
    var all := BaseCurves(y, bestFit) + Labelled(comps);
    forall i, j | 0 <= i < j < |all| ensures Keys(all)[i] != Keys(all)[j] {
      if i >= 2 {
        assert all[i] == Labelled(comps)[i - 2] && all[j] == Labelled(comps)[j - 2];
      } else if j >= 2 {
        assert all[j] == Labelled(comps)[j - 2];
      }
    }
    PutAllFresh(BaseCurves(y, bestFit), Labelled(comps));
  }

  /** The component curves of a fit of a model without repeated components already have fresh labels. */
  lemma ModelLabelsFresh(m: seq<Component>, comps: seq<(string, Column)>)
    requires NoDup(m) && |comps| == |m|
    requires forall i :: 0 <= i < |m| ==> comps[i].0 == m[i].Prefix()
    ensures FreshLabels(comps)
    ensures forall i :: 0 <= i < |comps| ==> Label(comps[i].0) == m[i].Label()
  {
    forall i | 0 <= i < |comps| ensures Label(comps[i].0) == m[i].Label() {
      LabelOfPrefix(m[i]);
    }
    forall i | 0 <= i < |comps| ensures Label(comps[i].0) != "data" && Label(comps[i].0) != "total_fit" {
      assert m[i].Label()[..3] == Stem(m[i].shape);
    }
    forall i, j | 0 <= i < j < |comps| ensures Label(comps[i].0) != Label(comps[j].0) {
      if m[i].Label() == m[j].Label() {
        assert m[i].Prefix() == m[j].Prefix();
        PrefixInjective(m[i], m[j]);
      }
    }
  }

  // ----- process_results -----

  /** The index pandas gives a frame built from arrays: the row numbers 0, 1, ..., n-1. */
  function RowNumbers(n: nat): (r: Column)
    ensures |r| == n && forall i :: 0 <= i < n ==> r[i] == Some(i as real)
  {
    seq(n, i requires 0 <= i < n => Some(i as real))
  }

  /** Every column holds `n` entries. */
  predicate AllRows(cols: seq<(string, Column)>, n: int) {
    forall i :: 0 <= i < |cols| ==> |cols[i].1| == n
  }

  /**
   * `process_results` with a fit result, given `x`, `y` and the old
   * `curves_df`: the new `params_df`, the new `curves_df`, and whether it
   * completed. `pd.DataFrame.from_dict` raises ValueError when the columns
   * differ in length, and `curves_df` keeps its old value; setting the
   * index to `x` raises when `x` has another length, once the frame with
   * its row numbers is stored.
   */
  function Process(r: FitResult, x: Column, y: Column, curves: Option<Curves>): (map<string, real>, Option<Curves>, bool) {
    var cols := CurveColumns(y, r.bestFit, r.components);
    if !AllRows(cols, |y|) then (r.bestValues, curves, false)
    else if |x| != |y| then (r.bestValues, Some(Curves(RowNumbers(|y|), cols)), false)
    else (r.bestValues, Some(Curves(x, cols)), true)
  }

  /** Storing a column of `n` entries keeps every column `n` long. */
  lemma {:induction false} PutAllRows(d: seq<(string, Column)>, kvs: seq<(string, Column)>, n: int)
    requires AllRows(d, n) && AllRows(kvs, n)
    ensures AllRows(PutAll(d, kvs), n)
  {
    if kvs != [] {
      var init, last := kvs[..|kvs| - 1], kvs[|kvs| - 1];
      assert AllRows(init, n) by {
        forall i | 0 <= i < |init| ensures |init[i].1| == n {
          assert init[i] == kvs[i];
        }
      }
      PutAllRows(d, init, n);
      DictPutRows(PutAll(d, init), last.0, last.1, n);
    }
  }

  /** `d[k] = v` with `v` of `n` entries keeps every column `n` long. */
  lemma {:induction false} DictPutRows(d: seq<(string, Column)>, k: string, v: Column, n: int)
    requires AllRows(d, n) && |v| == n
    ensures AllRows(DictPut(d, k, v), n)
  {
    if d != [] && d[0].0 != k {
      assert AllRows(d[1..], n) by {
        forall i | 0 <= i < |d[1..]| ensures |d[1..][i].1| == n {
          assert d[1..][i] == d[i + 1];
        }
      }
      DictPutRows(d[1..], k, v, n);
    }
  }

  /**
   * The curves table has `n` rows when the data, the total fit and every
   * component curve have `n` entries; with fresh labels, only then.
   */
  lemma CurveColumnsRows(y: Column, bestFit: Column, comps: seq<(string, Column)>)
    ensures |bestFit| == |y| && (forall i :: 0 <= i < |comps| ==> |comps[i].1| == |y|)
      ==> AllRows(CurveColumns(y, bestFit, comps), |y|)
    ensures FreshLabels(comps) && AllRows(CurveColumns(y, bestFit, comps), |y|)
      ==> |bestFit| == |y| && forall i :: 0 <= i < |comps| ==> |comps[i].1| == |y|
  {
    if |bestFit| == |y| && (forall i :: 0 <= i < |comps| ==> |comps[i].1| == |y|) {
      PutAllRows(BaseCurves(y, bestFit), Labelled(comps), |y|);
    }
    if FreshLabels(comps) && AllRows(CurveColumns(y, bestFit, comps), |y|) {
      CurveColumnsLabelled(y, bestFit, comps);
      var cols := CurveColumns(y, bestFit, comps);
      assert cols[1].1 == bestFit;
      forall i | 0 <= i < |comps| ensures |comps[i].1| == |y| {
        assert cols[i + 2] == Labelled(comps)[i];
      }
    }
  }

  /**
   * For fresh labels `process_results` completes exactly when `x`, `y`,
   * the total fit and every component curve have one length; the curves
   * table then has the data, the total fit and each labelled component,
   * with one entry per x value, and `params_df` holds the best values.
   */
  lemma ProcessCompletes(r: FitResult, x: Column, y: Column, curves: Option<Curves>)
    requires FreshLabels(r.components)
    ensures Process(r, x, y, curves).0 == r.bestValues
    ensures Process(r, x, y, curves).2 <==>
      |x| == |y| && |r.bestFit| == |y| && forall i :: 0 <= i < |r.components| ==> |r.components[i].1| == |y|
    ensures Process(r, x, y, curves).2 ==>
      Process(r, x, y, curves).1 == Some(Curves(x, [("data", y), ("total_fit", r.bestFit)] + Labelled(r.components)))
    ensures Process(r, x, y, curves).2 ==> AllRows(Process(r, x, y, curves).1.value.columns, |x|)
  {
    CurveColumnsRows(y, r.bestFit, r.components);
    CurveColumnsLabelled(y, r.bestFit, r.components);
  }

  /**
   * With fresh labels, a total fit or a component curve whose length is
   * not the data's makes `from_dict` raise, and `curves_df` keeps the
   * table an earlier call left.
   */
  lemma ProcessRaises(r: FitResult, x: Column, y: Column, curves: Option<Curves>)
    requires FreshLabels(r.components)
    requires |r.bestFit| != |y| || exists i :: 0 <= i < |r.components| && |r.components[i].1| != |y|
    ensures !Process(r, x, y, curves).2 && Process(r, x, y, curves).1 == curves
  {
    CurveColumnsRows(y, r.bestFit, r.components);
  }

  /** Running `process_results` twice on the same state is running it once. */
  lemma ProcessIdempotent(r: FitResult, x: Column, y: Column, curves: Option<Curves>)
    ensures Process(r, x, y, Process(r, x, y, curves).1) == Process(r, x, y, curves)
  {
  }
}
