/**
 * The parameter bookkeeping shared by the three controllers: the
 * `guesses` and `usr_vals` dictionaries keyed first by `'value'`, `'min'`
 * and `'max'` and then by parameter name, the seeding done by
 * `guess_params`, the parsing done by `update_usr_vals`, and the merge done
 * by `set_params`.
 */
module Params {
  import opened Wrappers
  import opened Text
  import opened Models
  import opened Data

  /** An lmfit bound or guess: None where the program stores Python's `None`. */
  type Bound = Option<real>

  /** The outer keys `'value'`, `'min'` and `'max'`. */
  datatype Field = Value | Min | Max

  /** `{'value': {...}, 'min': {...}, 'max': {...}}`, each inner dictionary keyed by parameter name. */
  datatype Table<T> = Table(value: map<string, T>, min: map<string, T>, max: map<string, T>) {
    function Get(f: Field): map<string, T> {
      match f
      case Value => value
      case Min => min
      case Max => max
    }

    /** `table[f][k] = v`. */
    function Put(f: Field, k: string, v: T): (t: Table<T>)
      ensures t.Get(f) == Get(f)[k := v]
      ensures forall g :: g != f ==> t.Get(g) == Get(g)
    {
      match f
      case Value => this.(value := value[k := v])
      case Min => this.(min := min[k := v])
      case Max => this.(max := max[k := v])
    }
  }

  function EmptyTable<T>(): Table<T> {
    Table(map[], map[], map[])
  }

  /** pandas' `mean()` and `std()` of a column, left uninterpreted. */
  datatype Stats = Stats(mean: Column -> real, std: Column -> real)

  // ----- guess_params -----

  /**
   * The statements of `guess_params` for one component, in order. A
   * missing column raises IndexError at the first statement that reads
   * it; the writes before it stay, and the flag is false.
   */
  function SeedComponent(g: Table<Bound>, c: Component, data: seq<Column>, xcol: int, ycol: int, st: Stats): (Table<Bound>, bool) {
    var p := c.Prefix();
    if IsPeakPrefix(p) then
      match ColumnAt(data, xcol)
      case None => (g, false)
      case Some(xc) =>
        var g1 := g.Put(Value, p + "center", Some(st.mean(xc)));
        match ColumnAt(data, ycol)
        case None => (g1, false)
        case Some(yc) => (PeakGuesses(g1, p, xc, yc, st, Contains(p, "voi")), true)
    else
      match ColumnAt(data, ycol)
      case None => (g, false)
      case Some(yc) => (LineGuesses(g, p, yc, st), true)
  }

  /** The peak branch after the center value: amplitude and sigma values, then the bounds. */
  function PeakGuesses(g: Table<Bound>, p: string, xc: Column, yc: Column, st: Stats, voigt: bool): Table<Bound> {
    var center, amplitude, sigma, fraction := p + "center", p + "amplitude", p + "sigma", p + "fraction";
    var g2 := g.Put(Value, amplitude, Some(st.mean(yc))).Put(Value, sigma, Some(st.std(xc)))
      .Put(Min, center, None).Put(Min, amplitude, Some(0.0)).Put(Min, sigma, Some(0.0))
      .Put(Max, center, None).Put(Max, amplitude, None).Put(Max, sigma, None);
    if voigt then g2.Put(Value, fraction, Some(0.5)).Put(Min, fraction, Some(0.0)).Put(Max, fraction, Some(1.0))
    else g2
  }

  /** The line branch: `for p in [slope, intc]`, value, min and max for each. */
  function LineGuesses(g: Table<Bound>, p: string, yc: Column, st: Stats): Table<Bound> {
    var slope, intercept := p + "slope", p + "intercept";
    g.Put(Value, slope, Some(st.mean(yc))).Put(Min, slope, None).Put(Max, slope, None)
      .Put(Value, intercept, Some(st.mean(yc))).Put(Min, intercept, None).Put(Max, intercept, None)
  }

  /** `guess_params` over the components of `m` in order, stopping at the first IndexError. */
  function SeedAll(g: Table<Bound>, m: seq<Component>, data: seq<Column>, xcol: int, ycol: int, st: Stats): (Table<Bound>, bool) {
    if m == [] then (g, true)
    else
      var (g1, ok) := SeedAll(g, m[..|m| - 1], data, xcol, ycol, st);
      if ok then SeedComponent(g1, m[|m| - 1], data, xcol, ycol, st) else (g1, false)
  }

  /** The columns a component's guesses read: the y column always, the x column for a peak. */
  predicate ColumnsFor(c: Component, data: seq<Column>, xcol: int, ycol: int) {
    ColumnAt(data, ycol).Some? && (c.shape != Linear ==> ColumnAt(data, xcol).Some?)
  }

  /** What `guess_params` stores under field `f` for the parameter `c.Prefix() + b`. */
  function Seed(c: Component, f: Field, b: string, data: seq<Column>, xcol: int, ycol: int, st: Stats): Bound {
    var xc, yc := ColumnAt(data, xcol).GetOr([]), ColumnAt(data, ycol).GetOr([]);
    if c.shape == Linear then
      if f == Value then Some(st.mean(yc)) else None
    else
      match f
      case Value =>
        if b == "center" then Some(st.mean(xc))
        else if b == "amplitude" then Some(st.mean(yc))
        else if b == "sigma" then Some(st.std(xc))
        else Some(0.5)
      case Min => if b == "center" then None else Some(0.0)
      case Max => if b == "fraction" then Some(1.0) else None
  }

  lemma SuffixDistinct(p: string, a: string, b: string)
    requires |a| > 0 && |b| > 0 && a[0] != b[0]
    ensures p + a != p + b
  {
    assert (p + a)[|p|] == a[0];
    assert (p + b)[|p|] == b[0];
  }

  lemma PeakGuessesFrame(g: Table<Bound>, p: string, xc: Column, yc: Column, st: Stats, voigt: bool, f: Field, k: string)
    requires k != p + "center" && k != p + "amplitude" && k != p + "sigma" && (voigt ==> k != p + "fraction")
    ensures var t := PeakGuesses(g, p, xc, yc, st, voigt);
      (k in t.Get(f) <==> k in g.Get(f)) && (k in g.Get(f) ==> t.Get(f)[k] == g.Get(f)[k])
  {
  }

  lemma LineGuessesFrame(g: Table<Bound>, p: string, yc: Column, st: Stats, f: Field, k: string)
    requires k != p + "slope" && k != p + "intercept"
    ensures var t := LineGuesses(g, p, yc, st);
      (k in t.Get(f) <==> k in g.Get(f)) && (k in g.Get(f) ==> t.Get(f)[k] == g.Get(f)[k])
  {
  }

  lemma PeakGuessesSets(g: Table<Bound>, p: string, xc: Column, yc: Column, st: Stats, voigt: bool)
    ensures var t, center, amplitude, sigma := PeakGuesses(g, p, xc, yc, st, voigt), p + "center", p + "amplitude", p + "sigma";
      && amplitude in t.value && t.value[amplitude] == Some(st.mean(yc))
      && sigma in t.value && t.value[sigma] == Some(st.std(xc))
      && (center in g.value ==> center in t.value && t.value[center] == g.value[center])
      && center in t.min && t.min[center] == None
      && amplitude in t.min && t.min[amplitude] == Some(0.0)
      && sigma in t.min && t.min[sigma] == Some(0.0)
      && center in t.max && t.max[center] == None
      && amplitude in t.max && t.max[amplitude] == None
      && sigma in t.max && t.max[sigma] == None
    ensures var t, fraction := PeakGuesses(g, p, xc, yc, st, voigt), p + "fraction";
      voigt ==> (fraction in t.value && t.value[fraction] == Some(0.5)
        && fraction in t.min && t.min[fraction] == Some(0.0)
        && fraction in t.max && t.max[fraction] == Some(1.0))
  {
    SuffixDistinct(p, "center", "amplitude");
    SuffixDistinct(p, "center", "sigma");
    SuffixDistinct(p, "center", "fraction");
    SuffixDistinct(p, "amplitude", "sigma");
    SuffixDistinct(p, "amplitude", "fraction");
    SuffixDistinct(p, "sigma", "fraction");
  }

  lemma LineGuessesSets(g: Table<Bound>, p: string, yc: Column, st: Stats)
    ensures var t, slope, intercept := LineGuesses(g, p, yc, st), p + "slope", p + "intercept";
      && slope in t.value && t.value[slope] == Some(st.mean(yc))
      && intercept in t.value && t.value[intercept] == Some(st.mean(yc))
      && slope in t.min && t.min[slope] == None
      && intercept in t.min && t.min[intercept] == None
      && slope in t.max && t.max[slope] == None
      && intercept in t.max && t.max[intercept] == None
  {
    SuffixDistinct(p, "slope", "intercept");
  }

  lemma ParamNamesOf(c: Component, k: string)
    requires k !in ParamNames(c)
    ensures c.shape == Linear ==> k != c.Prefix() + "slope" && k != c.Prefix() + "intercept"
    ensures c.shape != Linear ==> k != c.Prefix() + "center" && k != c.Prefix() + "amplitude" && k != c.Prefix() + "sigma"
    ensures c.shape == PseudoVoigt ==> k != c.Prefix() + "fraction"
  {
    var n := ParamNames(c);
    if c.shape == Linear {
      assert n[0] == c.Prefix() + "slope" && n[1] == c.Prefix() + "intercept";
    } else {
      assert n[0] == c.Prefix() + "amplitude" && n[1] == c.Prefix() + "center" && n[2] == c.Prefix() + "sigma";
      if c.shape == PseudoVoigt {
        assert n[3] == c.Prefix() + "fraction";
      }
    }
  }

  /** `guess_params` writes no key outside the parameter names of the component. */
  lemma SeedComponentFrame(g: Table<Bound>, c: Component, data: seq<Column>, xcol: int, ycol: int, st: Stats, f: Field, k: string)
    requires k !in ParamNames(c)
    ensures var t := SeedComponent(g, c, data, xcol, ycol, st).0;
      (k in t.Get(f) <==> k in g.Get(f)) && (k in g.Get(f) ==> t.Get(f)[k] == g.Get(f)[k])
  {
    PeakPrefixIffPeak(c);
    ParamNamesOf(c, k);
    var p := c.Prefix();
    if c.shape == Linear {
      if ColumnAt(data, ycol).Some? {
        LineGuessesFrame(g, p, ColumnAt(data, ycol).value, st, f, k);
      }
    } else if ColumnAt(data, xcol).Some? {
      var xc := ColumnAt(data, xcol).value;
      var g1 := g.Put(Value, p + "center", Some(st.mean(xc)));
      if ColumnAt(data, ycol).Some? {
        PeakGuessesFrame(g1, p, xc, ColumnAt(data, ycol).value, st, Contains(p, "voi"), f, k);
      }
    }
  }

  /** `guess_params` gets through a component exactly when the columns it reads exist. */
  lemma SeedComponentOk(g: Table<Bound>, c: Component, data: seq<Column>, xcol: int, ycol: int, st: Stats)
    ensures SeedComponent(g, c, data, xcol, ycol, st).1 <==> ColumnsFor(c, data, xcol, ycol)
  {
    PeakPrefixIffPeak(c);
  }

  /** Once its columns exist, a component's guesses are all stored, as `Seed` gives them. */
  lemma SeedComponentSets(g: Table<Bound>, c: Component, data: seq<Column>, xcol: int, ycol: int, st: Stats, f: Field, b: string)
    requires b in BaseNames(c.shape)
    ensures var (t, ok) := SeedComponent(g, c, data, xcol, ycol, st);
      ok ==> c.Prefix() + b in t.Get(f) && t.Get(f)[c.Prefix() + b] == Seed(c, f, b, data, xcol, ycol, st)
  {
    PeakPrefixIffPeak(c);
    if c.shape == Linear {
      if ColumnAt(data, ycol).Some? {
        LineSeedSets(g, c, ColumnAt(data, ycol).value, st, f, b);
      }
    } else if ColumnAt(data, xcol).Some? && ColumnAt(data, ycol).Some? {
      PeakSeedSets(g, c, ColumnAt(data, xcol).value, ColumnAt(data, ycol).value, st, f, b);
    }
  }

  /** The line branch stores the seed of every line parameter. */
  lemma LineSeedSets(g: Table<Bound>, c: Component, yc: Column, st: Stats, f: Field, b: string)
    requires c.shape == Linear && b in BaseNames(c.shape)
    ensures var t := LineGuesses(g, c.Prefix(), yc, st);
      c.Prefix() + b in t.Get(f) && t.Get(f)[c.Prefix() + b] == if f == Value then Some(st.mean(yc)) else None
  {
    LineGuessesSets(g, c.Prefix(), yc, st);
  }

  /** The peak branch stores the seed of every peak parameter. */
  lemma PeakSeedSets(g: Table<Bound>, c: Component, xc: Column, yc: Column, st: Stats, f: Field, b: string)
    requires c.shape != Linear && b in BaseNames(c.shape)
    ensures var p := c.Prefix();
      var t := PeakGuesses(g.Put(Value, p + "center", Some(st.mean(xc))), p, xc, yc, st, c.shape == PseudoVoigt);
      p + b in t.Get(f) && t.Get(f)[p + b] ==
        match f
        case Value =>
          if b == "center" then Some(st.mean(xc))
          else if b == "amplitude" then Some(st.mean(yc))
          else if b == "sigma" then Some(st.std(xc))
          else Some(0.5)
        case Min => if b == "center" then None else Some(0.0)
        case Max => if b == "fraction" then Some(1.0) else None
  {
    var p := c.Prefix();
    PeakGuessesSets(g.Put(Value, p + "center", Some(st.mean(xc))), p, xc, yc, st, c.shape == PseudoVoigt);
  }

  /** Every component whose guesses were attempted before the end of `m` got its columns. */
  lemma {:induction false} SeedAllOk(g: Table<Bound>, m: seq<Component>, data: seq<Column>, xcol: int, ycol: int, st: Stats)
    ensures SeedAll(g, m, data, xcol, ycol, st).1 <==> forall j :: 0 <= j < |m| ==> ColumnsFor(m[j], data, xcol, ycol)
  {
    if m != [] {
      var init, c := m[..|m| - 1], m[|m| - 1];
      SeedAllOk(g, init, data, xcol, ycol, st);
      var g1 := SeedAll(g, init, data, xcol, ycol, st).0;
      SeedComponentOk(g1, c, data, xcol, ycol, st);
      assert forall j :: 0 <= j < |init| ==> init[j] == m[j];
    }
  }

  /** Keys that are not parameter names of the model keep what they held. */
  lemma {:induction false} SeedAllFrame(g: Table<Bound>, m: seq<Component>, data: seq<Column>, xcol: int, ycol: int, st: Stats, f: Field, k: string)
    requires k !in ModelParamNames(m)
    ensures var t := SeedAll(g, m, data, xcol, ycol, st).0;
      (k in t.Get(f) <==> k in g.Get(f)) && (k in g.Get(f) ==> t.Get(f)[k] == g.Get(f)[k])
  {
    if m != [] {
      var init, c := m[..|m| - 1], m[|m| - 1];
      SeedAllFrame(g, init, data, xcol, ycol, st, f, k);
      var (g1, ok) := SeedAll(g, init, data, xcol, ycol, st);
      if ok {
        SeedComponentFrame(g1, c, data, xcol, ycol, st, f, k);
      }
    }
  }

  /** After a complete `guess_params` over a model without repeated components, every parameter holds its seed. */
  lemma {:induction false} SeedAllSets(g: Table<Bound>, m: seq<Component>, data: seq<Column>, xcol: int, ycol: int, st: Stats, j: nat, f: Field, b: string)
    requires NoDup(m) && j < |m| && b in BaseNames(m[j].shape)
    requires SeedAll(g, m, data, xcol, ycol, st).1
    ensures var t := SeedAll(g, m, data, xcol, ycol, st).0;
      m[j].Prefix() + b in t.Get(f) && t.Get(f)[m[j].Prefix() + b] == Seed(m[j], f, b, data, xcol, ycol, st)
  {
    var init, c := m[..|m| - 1], m[|m| - 1];
    var (g1, ok) := SeedAll(g, init, data, xcol, ycol, st);
    if j == |m| - 1 {
      SeedComponentSets(g1, c, data, xcol, ycol, st, f, b);
    } else {
      assert init[j] == m[j];
      assert NoDup(init) by {
        forall a, a' | 0 <= a < a' < |init| ensures init[a] != init[a'] {
          assert init[a] == m[a] && init[a'] == m[a'];
        }
      }
      SeedAllSets(g, init, data, xcol, ycol, st, j, f, b);
      var k := m[j].Prefix() + b;
      assert k !in ParamNames(c) by {
        forall x | 0 <= x < |ParamNames(c)| ensures ParamNames(c)[x] != k {
          assert m[j] != m[|m| - 1];
          if ParamNames(c)[x] == k {
            ParamNameInjective(c, BaseNames(c.shape)[x], m[j], b);
          }
        }
      }
      SeedComponentFrame(g1, c, data, xcol, ycol, st, f, k);
    }
  }

  /**
   * A peak's amplitude and sigma are bounded below by 0 and its center is
   * unbounded; a pseudo-Voigt's fraction starts at 0.5 within [0, 1].
   */
  lemma GuessedPeakBounds(g: Table<Bound>, m: seq<Component>, data: seq<Column>, xcol: int, ycol: int, st: Stats, j: nat)
    requires NoDup(m) && j < |m| && m[j].shape != Linear
    requires SeedAll(g, m, data, xcol, ycol, st).1
    ensures var t, p := SeedAll(g, m, data, xcol, ycol, st).0, m[j].Prefix();
      && p + "amplitude" in t.min && t.min[p + "amplitude"] == Some(0.0)
      && p + "sigma" in t.min && t.min[p + "sigma"] == Some(0.0)
      && p + "center" in t.min && t.min[p + "center"] == None
      && p + "center" in t.max && t.max[p + "center"] == None
      && p + "amplitude" in t.max && t.max[p + "amplitude"] == None
      && p + "sigma" in t.max && t.max[p + "sigma"] == None
  {
    SeedAllSets(g, m, data, xcol, ycol, st, j, Min, "amplitude");
    SeedAllSets(g, m, data, xcol, ycol, st, j, Min, "sigma");
    SeedAllSets(g, m, data, xcol, ycol, st, j, Min, "center");
    SeedAllSets(g, m, data, xcol, ycol, st, j, Max, "center");
    SeedAllSets(g, m, data, xcol, ycol, st, j, Max, "amplitude");
    SeedAllSets(g, m, data, xcol, ycol, st, j, Max, "sigma");
  }

  lemma GuessedVoigtFraction(g: Table<Bound>, m: seq<Component>, data: seq<Column>, xcol: int, ycol: int, st: Stats, j: nat)
    requires NoDup(m) && j < |m| && m[j].shape == PseudoVoigt
    requires SeedAll(g, m, data, xcol, ycol, st).1
    ensures var t, p := SeedAll(g, m, data, xcol, ycol, st).0, m[j].Prefix() + "fraction";
      && p in t.value && t.value[p] == Some(0.5)
      && p in t.min && t.min[p] == Some(0.0)
      && p in t.max && t.max[p] == Some(1.0)
  {
    assert BaseNames(m[j].shape)[3] == "fraction";
    SeedAllSets(g, m, data, xcol, ycol, st, j, Value, "fraction");
    SeedAllSets(g, m, data, xcol, ycol, st, j, Min, "fraction");
    SeedAllSets(g, m, data, xcol, ycol, st, j, Max, "fraction");
    assert Seed(m[j], Value, "fraction", data, xcol, ycol, st) == Some(0.5);
    assert Seed(m[j], Min, "fraction", data, xcol, ycol, st) == Some(0.0);
    assert Seed(m[j], Max, "fraction", data, xcol, ycol, st) == Some(1.0);
  }

  /** A peak's center and sigma come from the x column, its amplitude from the y column. */
  lemma GuessedPeakValues(g: Table<Bound>, m: seq<Component>, data: seq<Column>, xcol: int, ycol: int, st: Stats, j: nat)
    requires NoDup(m) && j < |m| && m[j].shape != Linear
    requires SeedAll(g, m, data, xcol, ycol, st).1
    ensures ColumnAt(data, xcol).Some? && ColumnAt(data, ycol).Some?
    ensures var t, p := SeedAll(g, m, data, xcol, ycol, st).0, m[j].Prefix();
      var xc, yc := ColumnAt(data, xcol).value, ColumnAt(data, ycol).value;
      && p + "center" in t.value && t.value[p + "center"] == Some(st.mean(xc))
      && p + "amplitude" in t.value && t.value[p + "amplitude"] == Some(st.mean(yc))
      && p + "sigma" in t.value && t.value[p + "sigma"] == Some(st.std(xc))
  {
    SeedAllOk(g, m, data, xcol, ycol, st);
    assert ColumnsFor(m[j], data, xcol, ycol);
    var xc, yc := ColumnAt(data, xcol).value, ColumnAt(data, ycol).value;
    assert Seed(m[j], Value, "center", data, xcol, ycol, st) == Some(st.mean(xc));
    assert Seed(m[j], Value, "amplitude", data, xcol, ycol, st) == Some(st.mean(yc));
    assert Seed(m[j], Value, "sigma", data, xcol, ycol, st) == Some(st.std(xc));
    SeedAllSets(g, m, data, xcol, ycol, st, j, Value, "center");
    SeedAllSets(g, m, data, xcol, ycol, st, j, Value, "amplitude");
    SeedAllSets(g, m, data, xcol, ycol, st, j, Value, "sigma");
  }

  /** A line's slope and intercept both start at the mean of the y column, with no bounds. */
  lemma GuessedLine(g: Table<Bound>, m: seq<Component>, data: seq<Column>, xcol: int, ycol: int, st: Stats, j: nat)
    requires NoDup(m) && j < |m| && m[j].shape == Linear
    requires SeedAll(g, m, data, xcol, ycol, st).1
    ensures ColumnAt(data, ycol).Some?
    ensures var t, s, i := SeedAll(g, m, data, xcol, ycol, st).0, m[j].Prefix() + "slope", m[j].Prefix() + "intercept";
      && s in t.value && i in t.value && t.value[s] == t.value[i] == Some(st.mean(ColumnAt(data, ycol).value))
      && s in t.min && t.min[s] == None && i in t.min && t.min[i] == None
      && s in t.max && t.max[s] == None && i in t.max && t.max[i] == None
  {
    SeedAllOk(g, m, data, xcol, ycol, st);
    SeedAllSets(g, m, data, xcol, ycol, st, j, Value, "slope");
    SeedAllSets(g, m, data, xcol, ycol, st, j, Value, "intercept");
    SeedAllSets(g, m, data, xcol, ycol, st, j, Min, "slope");
    SeedAllSets(g, m, data, xcol, ycol, st, j, Min, "intercept");
    SeedAllSets(g, m, data, xcol, ycol, st, j, Max, "slope");
    SeedAllSets(g, m, data, xcol, ycol, st, j, Max, "intercept");
  }

  /** After a complete `guess_params`, every parameter name of the model has a guess in every field. */
  lemma SeedAllCovers(g: Table<Bound>, m: seq<Component>, data: seq<Column>, xcol: int, ycol: int, st: Stats, f: Field, name: string)
    requires NoDup(m) && name in ModelParamNames(m)
    requires SeedAll(g, m, data, xcol, ycol, st).1
    ensures name in SeedAll(g, m, data, xcol, ycol, st).0.Get(f)
  {
    InModelParamNames(m, name);
    var j :| 0 <= j < |m| && name in ParamNames(m[j]);
    var x :| 0 <= x < |ParamNames(m[j])| && ParamNames(m[j])[x] == name;
    SeedAllSets(g, m, data, xcol, ycol, st, j, f, BaseNames(m[j].shape)[x]);
  }

  // ----- update_usr_vals -----

  /** A text-to-number conversion such as `float()`, None where it raises. */
  type Parser = string -> Option<real>

  /** The entries of `t` under `keys` whose text `parse` accepts, as numbers. */
  function ParsedBy(t: map<string, string>, keys: set<string>, parse: Parser): map<string, real> {
    map k | k in t && k in keys && parse(t[k]).Some? :: parse(t[k]).value
  }

  /** One inner dictionary overwritten, entry by entry, by the texts that `parse` accepts. */
  function OverlayBy(u: map<string, real>, t: map<string, string>, parse: Parser): (r: map<string, real>)
    ensures forall k :: k in r <==> k in u || (k in t && parse(t[k]).Some?)
    ensures forall k :: k in t && parse(t[k]).Some? ==> r[k] == parse(t[k]).value
    ensures forall k :: k in u && (k !in t || parse(t[k]).None?) ==> r[k] == u[k]
  {
    u + ParsedBy(t, t.Keys, parse)
  }

  /** One inner dictionary after `update_usr_vals`: each text that `float()` accepts overwrites its entry. */
  function Overlay(u: map<string, real>, t: map<string, string>): map<string, real> {
    OverlayBy(u, t, ParseFloat)
  }

  /** `update_usr_vals`: the overlay applied to each of the three dictionaries. */
  function Overlaid(u: Table<real>, texts: Table<string>): Table<real> {
    Table(Overlay(u.value, texts.value), Overlay(u.min, texts.min), Overlay(u.max, texts.max))
  }

  /**
   * `update_usr_vals` never removes an entry; an entry whose text parses
   * takes the parsed number, and any other entry keeps its value.
   */
  lemma OverlaidKeeps(u: Table<real>, texts: Table<string>, f: Field, k: string)
    ensures var r, t := Overlaid(u, texts).Get(f), texts.Get(f);
      && (k in r <==> k in u.Get(f) || (k in t && ParseFloat(t[k]).Some?))
      && (k in t && ParseFloat(t[k]).Some? ==> r[k] == ParseFloat(t[k]).value)
      && (k in u.Get(f) && (k !in t || ParseFloat(t[k]).None?) ==> r[k] == u.Get(f)[k])
  {
    assert Overlaid(u, texts).Get(f) == OverlayBy(u.Get(f), texts.Get(f), ParseFloat);
  }

  /** lmfit entries start blank, and a blank entry leaves the user values as they were. */
  lemma OverlayBlank(u: map<string, real>, t: map<string, string>)
    requires forall k :: k in t ==> t[k] == ""
    ensures Overlay(u, t) == u
  {
    ParseFloatOfEmpty();
    assert ParsedBy(t, t.Keys, ParseFloat) == map[];
  }

  /** The entries `init_param_widgets` makes: a blank one under every field for each parameter name. */
  function BlankEntries(names: seq<string>): (t: Table<string>)
    ensures forall f: Field, k :: k in t.Get(f) <==> k in names
    ensures forall f: Field, k :: k in t.Get(f) ==> t.Get(f)[k] == ""
  {
    var blank := map k | k in names :: "";
    Table(blank, blank, blank)
  }

  /** Fresh blank entries leave every user value as it was. */
  lemma OverlaidBlank(u: Table<real>, names: seq<string>)
    ensures Overlaid(u, BlankEntries(names)) == u
  {
    var t := BlankEntries(names);
    OverlayBlank(u.value, t.value);
    OverlayBlank(u.min, t.min);
    OverlayBlank(u.max, t.max);
  }

  // ----- set_params and lmfit's Parameters.add -----

  /**
   * One lmfit parameter as `Parameters.add` stores it (always with
   * `vary=True`). A missing min is `-inf`, a missing max `inf`, and a
   * missing value `-inf`.
   */
  datatype Param = Param(name: string, value: Bound, min: Bound, max: Bound) {
    function Get(f: Field): Bound {
      match f
      case Value => value
      case Min => min
      case Max => max
    }
  }

  /** `v >= lo`, with None as `-inf` on both sides. */
  predicate AtLeast(v: Bound, lo: Bound) {
    lo.Some? ==> v.Some? && v.value >= lo.value
  }

  /** `v <= hi`, with a missing value as `-inf` and a missing bound as `inf`. */
  predicate AtMost(v: Bound, hi: Bound) {
    hi.Some? && v.Some? ==> v.value <= hi.value
  }

  /** A parameter lmfit accepts: min strictly below max, and the value between them. */
  predicate Consistent(p: Param) {
    && (p.min.Some? && p.max.Some? ==> p.min.value < p.max.value)
    && AtLeast(p.value, p.min) && AtMost(p.value, p.max)
  }

  /** Both bounds are given and equal: lmfit's `min == max`. */
  predicate SameBounds(lo: Bound, hi: Bound) {
    lo.Some? && hi.Some? && lo.value == hi.value
  }

  /**
   * The Parameter that `Parameters.add(name, value=v, min=lo, max=hi)`
   * makes, or None where it raises ValueError because min equals max.
   * Bounds given the wrong way round are swapped, and the value is moved
   * to the nearer bound when it lies outside them.
   */
  function AddParam(name: string, v: Bound, lo: Bound, hi: Bound): (r: Option<Param>)
    ensures r.None? <==> SameBounds(lo, hi)
    ensures r.Some? ==> r.value.name == name && Consistent(r.value)
  {
    if SameBounds(lo, hi) then None
    else
      var (l, h) := if lo.Some? && hi.Some? && lo.value > hi.value then (hi, lo) else (lo, hi);
      var w := if !AtMost(v, h) then h else if !AtLeast(v, l) then l else v;
      Some(Param(name, w, l, h))
  }

  /**
   * The bounds lmfit stores are the two given, in order; the value is kept
   * when it lies between them and moved to the nearer bound otherwise.
   */
  lemma AddParamBounds(name: string, v: Bound, lo: Bound, hi: Bound)
    requires AddParam(name, v, lo, hi).Some?
    ensures var p := AddParam(name, v, lo, hi).value;
      && multiset{p.min, p.max} == multiset{lo, hi}
      && (AtLeast(v, p.min) && AtMost(v, p.max) ==> p.value == v)
      && (!AtLeast(v, p.min) ==> p.value == p.min)
      && (!AtMost(v, p.max) ==> p.value == p.max)
  {
    var p := AddParam(name, v, lo, hi).value;
    if lo.Some? && hi.Some? && lo.value > hi.value {
      assert p.min == hi && p.max == lo;
    } else {
      assert p.min == lo && p.max == hi;
    }
  }

  /** A parameter lmfit made is kept as it is when its own fields are added again. */
  lemma AddParamStable(name: string, v: Bound, lo: Bound, hi: Bound)
    requires AddParam(name, v, lo, hi).Some?
    ensures var p := AddParam(name, v, lo, hi).value;
      AddParam(p.name, p.value, p.min, p.max) == Some(p)
  {
    var p := AddParam(name, v, lo, hi).value;
    assert !SameBounds(p.min, p.max);
    assert AtLeast(p.value, p.min) && AtMost(p.value, p.max);
  }

  /**
   * `vals[f]` for one name: the user value when there is one, otherwise the
   * guess; None when neither exists (`guesses[f][name]` raises KeyError).
   */
  function Pick(u: Table<real>, g: Table<Bound>, f: Field, name: string): (r: Option<Bound>)
    ensures name in u.Get(f) ==> r == Some(Some(u.Get(f)[name]))
    ensures name !in u.Get(f) && name in g.Get(f) ==> r == Some(g.Get(f)[name])
    ensures r.None? <==> name !in u.Get(f) && name !in g.Get(f)
  {
    if name in u.Get(f) then Some(Some(u.Get(f)[name]))
    else if name in g.Get(f) then Some(g.Get(f)[name])
    else None
  }

  /** The argument `set_params` passes to `Parameters.add` for one field of a known name. */
  function Passed(u: Table<real>, g: Table<Bound>, f: Field, name: string): Bound {
    Pick(u, g, f, name).GetOr(None)
  }

  /** The parameter for one name; None at the KeyError and at lmfit's ValueError. */
  function MakeParam(u: Table<real>, g: Table<Bound>, name: string): Option<Param> {
    match (Pick(u, g, Value, name), Pick(u, g, Min, name), Pick(u, g, Max, name))
    case (Some(v), Some(lo), Some(hi)) => AddParam(name, v, lo, hi)
    case _ => None
  }

  /** Whether every field of `g` or `u` holds a value for `name`. */
  predicate Known(u: Table<real>, g: Table<Bound>, name: string) {
    forall f: Field :: name in u.Get(f) || name in g.Get(f)
  }

  /** The min and max picked for `name` are equal, so `Parameters.add` raises ValueError. */
  predicate EqualBounds(u: Table<real>, g: Table<Bound>, name: string) {
    SameBounds(Passed(u, g, Min, name), Passed(u, g, Max, name))
  }

  /** For a known name, the parameter made is lmfit's for the picked fields. */
  lemma MakeParamKnown(u: Table<real>, g: Table<Bound>, name: string)
    requires Known(u, g, name)
    ensures MakeParam(u, g, name)
      == AddParam(name, Passed(u, g, Value, name), Passed(u, g, Min, name), Passed(u, g, Max, name))
  {
    assert name in u.Get(Value) || name in g.Get(Value);
    assert name in u.Get(Min) || name in g.Get(Min);
    assert name in u.Get(Max) || name in g.Get(Max);
  }

  /**
   * The loop of `set_params`: parameters added one name at a time to an
   * empty `Parameters()`; the flag is false when a KeyError or lmfit's
   * ValueError stopped it, and the parameters added before it stay.
   */
  function BuildParams(names: seq<string>, u: Table<real>, g: Table<Bound>): (seq<Param>, bool) {
    if names == [] then ([], true)
    else
      var (ps, ok) := BuildParams(names[..|names| - 1], u, g);
      if !ok then (ps, false)
      else match MakeParam(u, g, names[|names| - 1])
        case Some(p) => (ps + [p], true)
        case None => (ps, false)
  }

  /** The loop completes exactly when every name makes a parameter, and then adds those parameters in order. */
  lemma {:induction false} BuildParamsMade(names: seq<string>, u: Table<real>, g: Table<Bound>)
    ensures BuildParams(names, u, g).1 <==> forall k :: 0 <= k < |names| ==> MakeParam(u, g, names[k]).Some?
    ensures var ps := BuildParams(names, u, g).0;
      BuildParams(names, u, g).1 ==> |ps| == |names| && forall k :: 0 <= k < |names| ==> Some(ps[k]) == MakeParam(u, g, names[k])
  {
    if names != [] {
      var init, last := names[..|names| - 1], names[|names| - 1];
      BuildParamsMade(init, u, g);
      var (ps0, ok0) := BuildParams(init, u, g);
      var made := MakeParam(u, g, last);
      if !ok0 {
        assert BuildParams(names, u, g) == (ps0, false);
        var j :| 0 <= j < |init| && MakeParam(u, g, init[j]).None?;
        assert names[j] == init[j];
      } else if made.None? {
        assert BuildParams(names, u, g) == (ps0, false);
      } else {
        var ps := ps0 + [made.value];
        assert BuildParams(names, u, g) == (ps, true);
        forall k | 0 <= k < |names| ensures Some(ps[k]) == MakeParam(u, g, names[k]) {
          if k < |init| {
            assert ps[k] == ps0[k] && names[k] == init[k];
          }
        }
      }
    }
  }

  /**
   * When every name is known, `set_params` completes exactly when no name
   * has equal min and max; it then adds one parameter per name, in order,
   * each lmfit's Parameter for the user's value in each field where there
   * is one and the guess otherwise.
   */
  lemma BuildParamsPicks(names: seq<string>, u: Table<real>, g: Table<Bound>)
    requires forall k :: 0 <= k < |names| ==> Known(u, g, names[k])
    ensures BuildParams(names, u, g).1 <==> forall k :: 0 <= k < |names| ==> !EqualBounds(u, g, names[k])
    ensures BuildParams(names, u, g).1 ==> |BuildParams(names, u, g).0| == |names|
    ensures var ps := BuildParams(names, u, g).0;
      BuildParams(names, u, g).1 ==> forall k :: 0 <= k < |names| ==> ps[k].name == names[k]
    ensures var ps := BuildParams(names, u, g).0;
      BuildParams(names, u, g).1 ==> forall k :: 0 <= k < |names| ==>
        Some(ps[k]) == AddParam(names[k], Passed(u, g, Value, names[k]), Passed(u, g, Min, names[k]), Passed(u, g, Max, names[k]))
  {
    BuildParamsMade(names, u, g);
    BuildParamsPrefix(names, u, g);
    forall k | 0 <= k < |names|
      ensures MakeParam(u, g, names[k])
        == AddParam(names[k], Passed(u, g, Value, names[k]), Passed(u, g, Min, names[k]), Passed(u, g, Max, names[k]))
    {
      MakeParamKnown(u, g, names[k]);
    }
  }

  /** One more name: the parameter it makes is appended, unless the loop already stopped or it raises. */
  lemma BuildParamsStep(names: seq<string>, i: nat, u: Table<real>, g: Table<Bound>)
    requires i < |names|
    ensures BuildParams(names[..i + 1], u, g)
      == var (ps, ok) := BuildParams(names[..i], u, g);
         if !ok then (ps, false)
         else match MakeParam(u, g, names[i])
           case Some(p) => (ps + [p], true)
           case None => (ps, false)
  {
    assert names[..i + 1][..i] == names[..i];
  }

  /** A name that no field knows stops `set_params` with a KeyError. */
  lemma {:induction false} BuildParamsMissing(names: seq<string>, u: Table<real>, g: Table<Bound>, k: nat)
    requires k < |names| && !Known(u, g, names[k])
    ensures !BuildParams(names, u, g).1
  {
    var init, last := names[..|names| - 1], names[|names| - 1];
    if k < |names| - 1 {
      assert init[k] == names[k];
      BuildParamsMissing(init, u, g, k);
    } else {
      var f: Field :| !(last in u.Get(f) || last in g.Get(f));
      assert Pick(u, g, f, last).None?;
    }
  }

  /** Parameters of distinct names: `Parameters.add` never replaces one added earlier. */
  lemma BuildParamsDistinct(names: seq<string>, u: Table<real>, g: Table<Bound>)
    requires NoDup(names)
    ensures var ps := BuildParams(names, u, g).0;
      forall j, k :: 0 <= j < k < |ps| ==> ps[j].name != ps[k].name
  {
    BuildParamsPrefix(names, u, g);
  }

  /** The parameters added carry the leading names, one each, and all of them when nothing raised. */
  lemma {:induction false} BuildParamsPrefix(names: seq<string>, u: Table<real>, g: Table<Bound>)
    ensures var ps := BuildParams(names, u, g).0;
      |ps| <= |names| && forall k :: 0 <= k < |ps| ==> ps[k].name == names[k]
    ensures BuildParams(names, u, g).1 ==> |BuildParams(names, u, g).0| == |names|
  {
    if names != [] {
      var init := names[..|names| - 1];
      BuildParamsPrefix(init, u, g);
      assert forall k :: 0 <= k < |init| ==> init[k] == names[k];
    }
  }

  /**
   * After a complete `guess_params` over a model without repeated
   * components, `set_params` completes exactly when no name has equal min
   * and max, whatever else the user typed; then there is one parameter
   * per model parameter name, in order, each lmfit's Parameter for the
   * user's value in each field where there is one and the guess otherwise.
   */
  lemma MergeComplete(g: Table<Bound>, u: Table<real>, m: seq<Component>, data: seq<Column>, xcol: int, ycol: int, st: Stats)
    requires NoDup(m) && SeedAll(g, m, data, xcol, ycol, st).1
    ensures var t, names := SeedAll(g, m, data, xcol, ycol, st).0, ModelParamNames(m);
      BuildParams(names, u, t).1 <==> forall k :: 0 <= k < |names| ==> !EqualBounds(u, t, names[k])
    ensures var t, names := SeedAll(g, m, data, xcol, ycol, st).0, ModelParamNames(m);
      BuildParams(names, u, t).1 ==> |BuildParams(names, u, t).0| == |names|
    ensures var t, names := SeedAll(g, m, data, xcol, ycol, st).0, ModelParamNames(m);
      BuildParams(names, u, t).1 ==> forall k :: 0 <= k < |names| ==> BuildParams(names, u, t).0[k].name == names[k]
    ensures var t, names := SeedAll(g, m, data, xcol, ycol, st).0, ModelParamNames(m);
      BuildParams(names, u, t).1 ==> forall k :: 0 <= k < |names| ==>
        Some(BuildParams(names, u, t).0[k]) == AddParam(names[k], Passed(u, t, Value, names[k]), Passed(u, t, Min, names[k]), Passed(u, t, Max, names[k]))
  {
    var t, names := SeedAll(g, m, data, xcol, ycol, st).0, ModelParamNames(m);
    forall k | 0 <= k < |names| ensures Known(u, t, names[k]) {
      forall f: Field ensures names[k] in t.Get(f) {
        SeedAllCovers(g, m, data, xcol, ycol, st, f, names[k]);
      }
    }
    BuildParamsPicks(names, u, t);
  }

  /** Once a component's guesses fail, the rest of the model is not seeded. */
  lemma {:induction false} SeedAllStops(g: Table<Bound>, m: seq<Component>, k: nat, data: seq<Column>, xcol: int, ycol: int, st: Stats)
    requires k <= |m| && !SeedAll(g, m[..k], data, xcol, ycol, st).1
    ensures SeedAll(g, m, data, xcol, ycol, st) == SeedAll(g, m[..k], data, xcol, ycol, st)
  {
    if k < |m| {
      var init := m[..|m| - 1];
      assert init[..k] == m[..k];
      SeedAllStops(g, init, k, data, xcol, ycol, st);
    } else {
      assert m[..k] == m;
    }
  }

  /** Once a name raises KeyError, no later name is added. */
  lemma {:induction false} BuildParamsStops(names: seq<string>, k: nat, u: Table<real>, g: Table<Bound>)
    requires k <= |names| && !BuildParams(names[..k], u, g).1
    ensures BuildParams(names, u, g) == BuildParams(names[..k], u, g)
  {
    if k < |names| {
      var init := names[..|names| - 1];
      assert init[..k] == names[..k];
      BuildParamsStops(init, k, u, g);
    } else {
      assert names[..k] == names;
    }
  }

  /** Visiting one more entry overwrites it exactly when its text parses. */
  lemma OverlayStep(u: map<string, real>, t: map<string, string>, done: set<string>, k: string, parse: Parser)
    requires k in t
    ensures parse(t[k]).Some? ==>
      u + ParsedBy(t, done + {k}, parse) == (u + ParsedBy(t, done, parse))[k := parse(t[k]).value]
    ensures parse(t[k]).None? ==> u + ParsedBy(t, done + {k}, parse) == u + ParsedBy(t, done, parse)
  {
  }

  /** The loop of `update_usr_vals` over one dictionary of entries, visited in any order. */
  method OverlayEntries(u: map<string, real>, t: map<string, string>) returns (r: map<string, real>)
    ensures r == Overlay(u, t)
  {
    r := u;
    var done: set<string> := {};
    while done != t.Keys
      invariant done <= t.Keys
      invariant r == u + ParsedBy(t, done, ParseFloat)
      decreases |t.Keys - done|
    {
      var k :| k in t.Keys - done;
      var parsed := ParseFloat(t[k]);
      OverlayStep(u, t, done, k, ParseFloat);
      if parsed.Some? {
        r := r[k := parsed.value];
      }
      done := done + {k};
    }
  }
}
