/**
 * The Bokeh notebook prototype: the results table built by `create_table`,
 * the range sliders made from the fitted parameters, and the `update_fit`
 * and `reset_fit` callbacks that move slider ranges into parameter bounds
 * and back.
 */
module Notebook {
  import opened Wrappers
  import opened Text
  import opened Models
  import opened Names

  // ----- create_table -----

  /** `(header[:header.find("_")], header[header.find("_")+1:])`. */
  function SplitHeader(h: string): (string, string) {
    (Label(h), SliceFrom(h, Find(h, "_") + 1))
  }

  /**
   * A header with `_` is split at its first `_`: prefix, `_` and parameter
   * give back the header, and the prefix has no `_`. A header without `_`
   * keeps the whole text as its parameter.
   */
  lemma SplitHeaderRebuilds(h: string)
    ensures Contains(h, "_") ==>
      var (p, q) := SplitHeader(h); p + "_" + q == h && '_' !in p
    ensures !Contains(h, "_") ==> SplitHeader(h).1 == h
  {
    LabelSplit(h);
  }

  /** The distinct prefixes of the headers of `d`. */
  function PrefixSet(d: map<string, real>): set<string> {
    set h | h in d :: SplitHeader(h).0
  }

  /** The distinct parameter names of the headers of `d`. */
  function SuffixSet(d: map<string, real>): set<string> {
    set h | h in d :: SplitHeader(h).1
  }

  /** The list `e` holds each member of `s` exactly once. */
  ghost predicate Enumerates(e: seq<string>, s: set<string>) {
    NoDup(e) && forall x :: x in e <==> x in s
  }

  /** Every prefix paired with every parameter names an entry of `d`. */
  predicate AllCombinations(d: map<string, real>, prefixes: seq<string>, parameters: seq<string>) {
    forall a, b :: 0 <= a < |parameters| && 0 <= b < |prefixes| ==> prefixes[b] + "_" + parameters[a] in d
  }

  /** The table has one column per parameter, and the column holds that parameter's value for each prefix, in prefix order. */
  ghost predicate Clusters(d: map<string, real>, prefixes: seq<string>, parameters: seq<string>, table: map<string, seq<real>>) {
    && (forall q :: q in table <==> q in parameters)
    && forall q :: q in table ==>
         && |table[q]| == |prefixes|
         && forall j :: 0 <= j < |prefixes| ==> prefixes[j] + "_" + q in d && table[q][j] == d[prefixes[j] + "_" + q]
  }

  /**
   * What `create_table` promises: the rows and the columns enumerate the
   * distinct prefixes and parameters; the table exists exactly when every
   * combination is an entry (otherwise `param_dict[header]` raises
   * KeyError), and then it clusters the entries by parameter.
   */
  ghost predicate Tabulates(d: map<string, real>, prefixes: seq<string>, parameters: seq<string>, table: Option<map<string, seq<real>>>) {
    && Enumerates(prefixes, PrefixSet(d))
    && Enumerates(parameters, SuffixSet(d))
    && (table.Some? <==> AllCombinations(d, prefixes, parameters))
    && (table.Some? ==> Clusters(d, prefixes, parameters, table.value))
  }

  /** Iterating over a Python set: each member once, in some order. */
  method Enumerate(s: set<string>) returns (e: seq<string>)
    ensures Enumerates(e, s)
  {
    e := [];
    var rest := s;
    while rest != {}
      invariant rest <= s
      invariant NoDup(e)
      invariant forall x :: x in e <==> x in s && x !in rest
      decreases |rest|
    {
      var x :| x in rest;
      e := e + [x];
      rest := rest - {x};
    }
  }

  /**
   * `create_table(param_dict)`: the prefixes and parameters of the headers
   * as sets, then for each parameter the cluster of its values over the
   * prefixes. The returned rows and columns are the orders in which the
   * two sets were iterated.
   */
  method CreateTable(d: map<string, real>) returns (prefixes: seq<string>, parameters: seq<string>, table: Option<map<string, seq<real>>>)
    ensures Tabulates(d, prefixes, parameters, table)
  {
    prefixes := Enumerate(PrefixSet(d));
    parameters := Enumerate(SuffixSet(d));
    var clustered: map<string, seq<real>> := map[];
    var i := 0;
    while i < |parameters|
      invariant 0 <= i <= |parameters|
      invariant forall q :: q in clustered <==> q in parameters[..i]
      invariant forall q :: q in clustered ==>
        && |clustered[q]| == |prefixes|
        && forall j :: 0 <= j < |prefixes| ==> prefixes[j] + "_" + q in d && clustered[q][j] == d[prefixes[j] + "_" + q]
      invariant forall a, b :: 0 <= a < i && 0 <= b < |prefixes| ==> prefixes[b] + "_" + parameters[a] in d
    {
      var q := parameters[i];
      var cluster: seq<real> := [];
      var j := 0;
      while j < |prefixes|
        invariant 0 <= j <= |prefixes|
        invariant |cluster| == j
        invariant forall b :: 0 <= b < j ==> prefixes[b] + "_" + q in d && cluster[b] == d[prefixes[b] + "_" + q]
      {
        var h := prefixes[j] + "_" + q;
        if h !in d {
          table := None;
          return;
        }
        cluster := cluster + [d[h]];
        j := j + 1;
      }
      clustered := clustered[q := cluster];
      assert parameters[..i + 1] == parameters[..i] + [q];
      i := i + 1;
    }
    assert parameters[..i] == parameters;
    table := Some(clustered);
  }

  // ----- sliders -----

  /** A fitted lmfit parameter: its value and its bounds. */
  datatype FitParam = FitParam(value: real, min: Option<real>, max: Option<real>)

  /** `slider_range`: each slider spans half the parameter's value on either side. */
  const SliderSpan: real := 0.5

  /**
   * The `(start, end)` of a parameter's slider. The range is centred on
   * the value and as wide as the value, so it is only the right way round
   * for a value that is not negative.
   */
  function SliderRange(p: real): (r: (real, real))
    ensures r.0 <= r.1 <==> p >= 0.0
    ensures r.1 - r.0 == p
    ensures r.0 + r.1 == 2.0 * p
  {
    (p - p * SliderSpan, p + p * SliderSpan)
  }

  /** `constraint_sliders` and their initial values: one slider per name, set to its full range. */
  function SliderValues(params: map<string, FitParam>, keys: set<string>): map<string, (real, real)>
    requires keys <= params.Keys
  {
    map k | k in keys :: SliderRange(params[k].value)
  }

  /** There is exactly one slider per name, and each is ordered exactly when its parameter is not negative. */
  lemma SliderValuesOrdered(params: map<string, FitParam>, keys: set<string>, k: string)
    requires keys <= params.Keys
    ensures k in SliderValues(params, keys) <==> k in keys
    ensures k in keys ==>
      var r := SliderValues(params, keys)[k]; (r.0 <= r.1 <==> params[k].value >= 0.0) && r.1 - r.0 == params[k].value
  {
  }

  /**
   * The notebook session: the Parameters object the callbacks update, the
   * names of the constrainable parameters, the slider positions, the
   * snapshot taken when the sliders were made, and the results table.
   */
  class Session {
    var params: map<string, FitParam>
    var sliderKeys: set<string>
    var sliders: map<string, (real, real)>
    const initSliders: map<string, (real, real)>
    var rows: seq<string>
    var columns: seq<string>
    var table: Option<map<string, seq<real>>>

    /** Every constrainable parameter has a slider and a snapshot, and is a parameter. */
    predicate Valid()
      reads this
    {
      sliders.Keys == sliderKeys && initSliders.Keys == sliderKeys && sliderKeys <= params.Keys
    }

    /**
     * The session after the first fit: sliders for the best-value names,
     * made from the parameters and snapshotted; the table of the fitted
     * values.
     */
    constructor(params0: map<string, FitParam>, best: set<string>, paramDict: map<string, real>)
      requires best <= params0.Keys
      ensures Valid()
      ensures params == params0 && sliderKeys == best
      ensures sliders == initSliders == SliderValues(params0, best)
      ensures Tabulates(paramDict, rows, columns, table)
    {
      params := params0;
      sliderKeys := best;
      sliders := SliderValues(params0, best);
      initSliders := SliderValues(params0, best);
      var r, c, t := CreateTable(paramDict);
      rows, columns, table := r, c, t;
    }

    /**
     * The user drags a `RangeSlider` in the browser: Bokeh stores the new
     * `(low, high)` as that slider's value, and no other slider moves.
     */
    method MoveSlider(k: string, low: real, high: real)
      requires Valid() && k in sliderKeys
      modifies this`sliders
      ensures Valid()
      ensures sliders == old(sliders)[k := (low, high)]
    {
      sliders := sliders[k := (low, high)];
    }

    /**
     * `update_fit`: every constrainable parameter takes its slider's
     * `(low, high)` as its `(min, max)`; the other parameters are left
     * alone. The refit is lmfit's; its value dictionary `newDict` becomes
     * the table.
     */
    method UpdateFit(newDict: map<string, real>)
      requires Valid()
      modifies this`params, this`rows, this`columns, this`table
      ensures Valid()
      ensures params.Keys == old(params).Keys
      ensures forall k :: k in params && k in sliderKeys ==>
        params[k] == old(params)[k].(min := Some(sliders[k].0), max := Some(sliders[k].1))
      ensures forall k :: k in params && k !in sliderKeys ==> params[k] == old(params)[k]
      ensures Tabulates(newDict, rows, columns, table)
    {
      var rest := sliderKeys;
      while rest != {}
        invariant rest <= sliderKeys
        invariant params.Keys == old(params).Keys
        invariant forall k :: k in params && k in sliderKeys - rest ==>
          params[k] == old(params)[k].(min := Some(sliders[k].0), max := Some(sliders[k].1))
        invariant forall k :: k in params && (k !in sliderKeys || k in rest) ==> params[k] == old(params)[k]
        decreases |rest|
      {
        var k :| k in rest;
        params := params[k := params[k].(min := Some(sliders[k].0), max := Some(sliders[k].1))];
        rest := rest - {k};
      }
      var r, c, t := CreateTable(newDict);
      rows, columns, table := r, c, t;
    }

    /**
     * `reset_fit`: the parameters of a fresh fit `newParams` replace the
     * current ones, every slider returns to its snapshot, and the fresh
     * fit's value dictionary becomes the table.
     */
    method ResetFit(newParams: map<string, FitParam>, newDict: map<string, real>)
      requires Valid() && sliderKeys <= newParams.Keys
      modifies this`params, this`sliders, this`rows, this`columns, this`table
      ensures Valid()
      ensures params == newParams && sliders == initSliders
      ensures Tabulates(newDict, rows, columns, table)
    {
      params := newParams;
      var rest := initSliders.Keys;
      while rest != {}
        invariant rest <= initSliders.Keys
        invariant params == newParams
        invariant sliders.Keys == initSliders.Keys
        invariant forall k :: k in sliders && k !in rest ==> sliders[k] == initSliders[k]
        decreases |rest|
      {
        var k :| k in rest;
        sliders := sliders[k := initSliders[k]];
        rest := rest - {k};
      }
      var r, c, t := CreateTable(newDict);
      rows, columns, table := r, c, t;
    }
  }
}
