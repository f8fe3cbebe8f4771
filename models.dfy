/**
 * The built-in lmfit models: a composite model is a list of components,
 * each a peak or line shape named by the prefix of its parameters
 * (`gau1_`, `gau2_`, ..., `lor1_`, ..., `voi1_`, ..., `lin1_`, ...).
 */
module Models {
  import opened Text

  datatype Shape = Gaussian | Lorentzian | PseudoVoigt | Linear

  /** The three letters that open every prefix of a shape. */
  function Stem(sh: Shape): (s: string)
    ensures |s| == 3 && forall k :: 0 <= k < 3 ==> IsLetter(s[k])
  {
    match sh
    case Gaussian => "gau"
    case Lorentzian => "lor"
    case PseudoVoigt => "voi"
    case Linear => "lin"
  }

  /** One lmfit model of a composite: its shape and its number within the shape. */
  datatype Component = Component(shape: Shape, number: nat) {
    /** The name of the component: the stem followed by the number. */
    function Label(): string {
      Stem(shape) + NatToString(number)
    }

    /** `stem + str(number) + '_'`, which every parameter name of the component starts with. */
    function Prefix(): string {
      Label() + "_"
    }
  }

  /** The parameters each lmfit model function takes besides `x`, in signature order. */
  function BaseNames(sh: Shape): (names: seq<string>)
    ensures forall k :: 0 <= k < |names| ==> '_' !in names[k]
  {
    match sh
    case Gaussian => ["amplitude", "center", "sigma"]
    case Lorentzian => ["amplitude", "center", "sigma"]
    case PseudoVoigt => ["amplitude", "center", "sigma", "fraction"]
    case Linear => ["slope", "intercept"]
  }

  /** How many components `gaussx(n)` and its siblings build: `range(n - 1)` adds none for `n <= 1`. */
  function Count(n: int): (k: nat)
    ensures k >= 1
  {
    if n < 1 then 1 else n
  }

  /** The components numbered 1 to `Count(n)` of one shape, in numbering order. */
  function Numbered(sh: Shape, n: int): seq<Component> {
    seq(Count(n), j requires 0 <= j < Count(n) => Component(sh, j + 1))
  }

  /**
   * `gaussx`, `lorx`, `voigtx` and `linex`: the first component numbered 1,
   * then one more for each `i` in `range(n - 1)`, numbered `i + 2`.
   */
  method Composite(sh: Shape, n: int) returns (m: seq<Component>)
    ensures m == Numbered(sh, n)
  {
    m := [Component(sh, 1)];
    var i := 0;
    while i < n - 1
      invariant 0 <= i && (i <= n - 1 || i == 0)
      invariant |m| == i + 1
      invariant forall j :: 0 <= j < |m| ==> m[j] == Component(sh, j + 1)
    {
      m := m + [Component(sh, i + 2)];
      i := i + 1;
    }
  }

  method GaussX(n: int) returns (m: seq<Component>)
    ensures m == Numbered(Gaussian, n)
  {
    m := Composite(Gaussian, n);
  }

  method LorX(n: int) returns (m: seq<Component>)
    ensures m == Numbered(Lorentzian, n)
  {
    m := Composite(Lorentzian, n);
  }

  method VoigtX(n: int) returns (m: seq<Component>)
    ensures m == Numbered(PseudoVoigt, n)
  {
    m := Composite(PseudoVoigt, n);
  }

  method LineX(n: int) returns (m: seq<Component>)
    ensures m == Numbered(Linear, n)
  {
    m := Composite(Linear, n);
  }

  /** The names of a component's parameters: its prefix glued to each base name. */
  function ParamNames(c: Component): (names: seq<string>)
    ensures |names| == |BaseNames(c.shape)|
    ensures forall k :: 0 <= k < |names| ==> names[k] == c.Prefix() + BaseNames(c.shape)[k]
  {
    seq(|BaseNames(c.shape)|, k requires 0 <= k < |BaseNames(c.shape)| => c.Prefix() + BaseNames(c.shape)[k])
  }

  /** A composite model's `param_names`: its components' parameter names, in component order. */
  function ModelParamNames(m: seq<Component>): seq<string> {
    if m == [] then [] else ModelParamNames(m[..|m| - 1]) + ParamNames(m[|m| - 1])
  }

  /**
   * `init_model`: `linex(nlin)`, followed by `gaussx(ngau)`, `lorx(nlor)`
   * and `voigtx(nvoi)` for each count that is not zero.
   */
  function ComposedModel(ngau: int, nlor: int, nvoi: int, nlin: int): seq<Component> {
    Numbered(Linear, nlin)
    + (if ngau != 0 then Numbered(Gaussian, ngau) else [])
    + (if nlor != 0 then Numbered(Lorentzian, nlor) else [])
    + (if nvoi != 0 then Numbered(PseudoVoigt, nvoi) else [])
  }

  predicate NoDup<T(==)>(s: seq<T>) {
    forall j, k :: 0 <= j < k < |s| ==> s[j] != s[k]
  }

  /** Whether a prefix is routed to the peak branch of `guess_params`, by the stems it contains. */
  predicate IsPeakPrefix(p: string) {
    Contains(p, "gau") || Contains(p, "lor") || Contains(p, "voi")
  }

  // ----- prefixes -----

  lemma LabelUnderscoreFree(c: Component)
    ensures '_' !in c.Label()
  {
    var l := c.Label();
    forall k | 0 <= k < |l| ensures l[k] != '_' {
      if k >= 3 {
        assert l[k] == NatToString(c.number)[k - 3];
      }
    }
  }

  /** A prefix holds exactly one `_`, its last character, and starts with the stem. */
  lemma PrefixShape(c: Component)
    ensures |c.Prefix()| > 3 && c.Prefix()[..3] == Stem(c.shape)
    ensures c.Prefix()[|c.Prefix()| - 1] == '_'
    ensures Find(c.Prefix(), "_") == |c.Prefix()| - 1
  {
    LabelUnderscoreFree(c);
    FindAfterFree(c.Label(), '_', []);
    assert c.Label() + ['_'] + [] == c.Prefix();
  }

  /** Different components have different prefixes. */
  lemma PrefixInjective(c1: Component, c2: Component)
    requires c1.Prefix() == c2.Prefix()
    ensures c1 == c2
  {
    var p1, p2 := c1.Prefix(), c2.Prefix();
    assert Stem(c1.shape) == p1[..3] == p2[..3] == Stem(c2.shape);
    assert c1.shape == c2.shape;
    assert NatToString(c1.number) == p1[3..|p1| - 1];
    assert NatToString(c2.number) == p2[3..|p2| - 1];
    NatToStringInjective(c1.number, c2.number);
  }

  /** `gaussx(n)` and its siblings never repeat a prefix. */
  lemma NumberedPrefixesDistinct(sh: Shape, n: int)
    ensures forall j, k :: 0 <= j < k < |Numbered(sh, n)| ==> Numbered(sh, n)[j].Prefix() != Numbered(sh, n)[k].Prefix()
  {
    var m := Numbered(sh, n);
    forall j, k | 0 <= j < k < |m| ensures m[j].Prefix() != m[k].Prefix() {
      if m[j].Prefix() == m[k].Prefix() {
        PrefixInjective(m[j], m[k]);
      }
    }
  }

  /** With `n <= 1` the loop body never runs, and the one component is `stem1_`. */
  lemma NumberedSingle(sh: Shape, n: int)
    requires n <= 1
    ensures Numbered(sh, n) == [Component(sh, 1)]
    ensures Numbered(sh, n)[0].Prefix() == Stem(sh) + "1_"
  {
    assert NatToString(1) == "1";
  }

  /** A stem occurs in a prefix exactly when the prefix belongs to that stem's shape. */
  lemma StemInPrefix(c: Component, sh: Shape)
    ensures Contains(c.Prefix(), Stem(sh)) <==> c.shape == sh
  {
    var p, st := c.Prefix(), Stem(sh);
    PrefixShape(c);
    LabelUnderscoreFree(c);
    if c.shape == sh {
      assert OccursAt(p, st, 0);
    } else {
      forall k | 0 <= k <= |p| ensures !OccursAt(p, st, k) {
        if k == 0 {
          assert Stem(c.shape) == p[..3];
        } else if k + 3 <= |p| {
          assert IsLetter(st[2]);
          if k + 2 < |p| - 1 {
            assert p[k + 2] == NatToString(c.number)[k - 1];
          }
          assert !IsLetter(p[k + 2]);
          assert p[k..k + 3][2] == p[k + 2];
        }
      }
    }
  }

  /** `guess_params` takes the peak branch exactly for the peak shapes. */
  lemma PeakPrefixIffPeak(c: Component)
    ensures IsPeakPrefix(c.Prefix()) <==> c.shape != Linear
    ensures Contains(c.Prefix(), "voi") <==> c.shape == PseudoVoigt
  {
    StemInPrefix(c, Gaussian);
    StemInPrefix(c, Lorentzian);
    StemInPrefix(c, PseudoVoigt);
  }

  // ----- parameter names -----

  /** The first `_` of a parameter name ends its prefix. */
  lemma ParamNameSplit(c: Component, b: string)
    requires '_' !in b
    ensures Find(c.Prefix() + b, "_") == |c.Label()|
    ensures c.Prefix() + b == c.Label() + "_" + b
  {
    LabelUnderscoreFree(c);
    FindAfterFree(c.Label(), '_', b);
    assert c.Label() + ['_'] + b == c.Prefix() + b;
  }

  lemma ParamNameInjective(c1: Component, b1: string, c2: Component, b2: string)
    requires '_' !in b1 && '_' !in b2
    requires c1.Prefix() + b1 == c2.Prefix() + b2
    ensures c1 == c2 && b1 == b2
  {
    ParamNameSplit(c1, b1);
    ParamNameSplit(c2, b2);
    var name := c1.Prefix() + b1;
    assert c1.Prefix() == name[..|c1.Prefix()|] == c2.Prefix();
    PrefixInjective(c1, c2);
    assert b1 == name[|c1.Prefix()|..] == b2;
  }

  lemma ParamNamesDistinct(c: Component)
    ensures NoDup(ParamNames(c))
  {
    var names := ParamNames(c);
    forall j, k | 0 <= j < k < |names| ensures names[j] != names[k] {
      if names[j] == names[k] {
        ParamNameInjective(c, BaseNames(c.shape)[j], c, BaseNames(c.shape)[k]);
      }
    }
  }

  /** A name of a composite model belongs to one of its components. */
  lemma {:induction false} InModelParamNames(m: seq<Component>, name: string)
    requires name in ModelParamNames(m)
    ensures exists j :: 0 <= j < |m| && name in ParamNames(m[j])
  {
    var init := m[..|m| - 1];
    if name in ModelParamNames(init) {
      InModelParamNames(init, name);
      var j :| 0 <= j < |init| && name in ParamNames(init[j]);
      assert init[j] == m[j];
    } else {
      assert name in ParamNames(m[|m| - 1]);
    }
  }

  /** Every parameter name of every component is a name of the composite model. */
  lemma {:induction false} ModelParamNamesCover(m: seq<Component>, j: nat)
    requires j < |m|
    ensures forall name :: name in ParamNames(m[j]) ==> name in ModelParamNames(m)
  {
    var init := m[..|m| - 1];
    if j < |m| - 1 {
      ModelParamNamesCover(init, j);
      assert init[j] == m[j];
    }
  }

  /** A composite model whose components differ has pairwise different parameter names. */
  lemma {:induction false} ModelParamNamesDistinct(m: seq<Component>)
    requires NoDup(m)
    ensures NoDup(ModelParamNames(m))
  {
    if m != [] {
      var init, c := m[..|m| - 1], m[|m| - 1];
      assert NoDup(init) by {
        forall j, k | 0 <= j < k < |init| ensures init[j] != init[k] {
          assert init[j] == m[j] && init[k] == m[k];
        }
      }
      ModelParamNamesDistinct(init);
      ParamNamesDistinct(c);
      var a, b := ModelParamNames(init), ParamNames(c);
      forall j, k | 0 <= j < k < |a + b| ensures (a + b)[j] != (a + b)[k] {
        if j < |a| && k >= |a| {
          var name := a[j];
          InModelParamNames(init, name);
          var i :| 0 <= i < |init| && name in ParamNames(init[i]);
          var x :| 0 <= x < |ParamNames(init[i])| && ParamNames(init[i])[x] == name;
          assert m[i] == init[i] && m[|m| - 1] == c;
          assert (a + b)[j] == init[i].Prefix() + BaseNames(init[i].shape)[x];
          assert (a + b)[k] == c.Prefix() + BaseNames(c.shape)[k - |a|];
          if (a + b)[j] == (a + b)[k] {
            ParamNameInjective(init[i], BaseNames(init[i].shape)[x], c, BaseNames(c.shape)[k - |a|]);
          }
        }
      }
    }
  }

  /** The model `init_model` builds repeats no component. */
  lemma ComposedModelNoDup(ngau: int, nlor: int, nvoi: int, nlin: int)
    ensures NoDup(ComposedModel(ngau, nlor, nvoi, nlin))
  {
    var l := Numbered(Linear, nlin);
    var g := if ngau != 0 then Numbered(Gaussian, ngau) else [];
    var r := if nlor != 0 then Numbered(Lorentzian, nlor) else [];
    var v := if nvoi != 0 then Numbered(PseudoVoigt, nvoi) else [];
    var m := ComposedModel(ngau, nlor, nvoi, nlin);
    assert m == l + g + r + v;
    forall j, k | 0 <= j < k < |m| ensures m[j] != m[k] {
      var a, b := |l|, |l| + |g|;
      var c := b + |r|;
      if j < a {
        assert m[j] == l[j];
        if k < a { assert m[k] == l[k]; }
      } else if j < b {
        assert m[j] == g[j - a];
        if k < b { assert m[k] == g[k - a]; }
      } else if j < c {
        assert m[j] == r[j - b];
        if k < c { assert m[k] == r[k - b]; }
      } else {
        assert m[j] == v[j - c] && m[k] == v[k - c];
      }
    }
  }

  /** The model `init_model` builds repeats no component, hence no parameter name. */
  lemma ComposedModelDistinct(ngau: int, nlor: int, nvoi: int, nlin: int)
    ensures NoDup(ComposedModel(ngau, nlor, nvoi, nlin))
    ensures NoDup(ModelParamNames(ComposedModel(ngau, nlor, nvoi, nlin)))
  {
    ComposedModelNoDup(ngau, nlor, nvoi, nlin);
    ModelParamNamesDistinct(ComposedModel(ngau, nlor, nvoi, nlin));
  }
}
