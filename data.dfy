/**
 * The numeric data the controllers hold: DataFrame columns with missing
 * entries, numpy's boolean-mask indexing of the paired `x`/`y` arrays, and
 * the padded axis limits of `set_xlims`.
 */
module Data {
  import opened Wrappers

  /** A pandas column: one entry per row, None where the cell is missing (NaN). */
  type Column = seq<Option<real>>

  /** One row of the paired `x`/`y` arrays. */
  type Row = (Option<real>, Option<real>)

  /** `data.iloc[:, idx]`: Python indexing, negative indices counting from the end; None for an IndexError. */
  function ColumnAt(data: seq<Column>, idx: int): (r: Option<Column>)
    ensures r.Some? <==> -|data| <= idx < |data|
    ensures r.Some? ==> r.value == data[if idx < 0 then |data| + idx else idx]
  {
    if 0 <= idx < |data| then Some(data[idx])
    else if -|data| <= idx < 0 then Some(data[|data| + idx])
    else None
  }

  /** A DataFrame: every column has one entry per row. */
  predicate Rectangular(data: seq<Column>) {
    forall i, j :: 0 <= i < |data| && 0 <= j < |data| ==> |data[i]| == |data[j]|
  }

  // ----- mask indexing -----

  /** numpy's `s[mask]`: the entries whose mask entry is true, in their original order. */
  function Masked<T>(s: seq<T>, mask: seq<bool>): (r: seq<T>)
    requires |s| == |mask|
    ensures |r| == Trues(mask)
  {
    if |s| == 0 then []
    else (if mask[0] then [s[0]] else []) + Masked(s[1..], mask[1..])
  }

  /** The number of true entries of a mask. */
  function Trues(mask: seq<bool>): nat {
    if |mask| == 0 then 0 else (if mask[0] then 1 else 0) + Trues(mask[1..])
  }

  /** The reference definition of keeping the entries that satisfy `p`, in order. */
  function Filter<T>(s: seq<T>, p: T -> bool): seq<T> {
    if |s| == 0 then []
    else (if p(s[0]) then [s[0]] else []) + Filter(s[1..], p)
  }

  /** The rows of two equally long arrays, as pairs. */
  function Zip<A, B>(a: seq<A>, b: seq<B>): (r: seq<(A, B)>)
    requires |a| == |b|
    ensures |r| == |a|
    ensures forall i :: 0 <= i < |a| ==> r[i] == (a[i], b[i])
  {
    if |a| == 0 then [] else [(a[0], b[0])] + Zip(a[1..], b[1..])
  }

  /** Masking both arrays with one mask masks their rows. */
  lemma {:induction false} MaskedZip<A, B>(a: seq<A>, b: seq<B>, mask: seq<bool>)
    requires |a| == |b| == |mask|
    ensures |Masked(a, mask)| == |Masked(b, mask)|
    ensures Zip(Masked(a, mask), Masked(b, mask)) == Masked(Zip(a, b), mask)
  {
    if |a| > 0 {
      MaskedZip(a[1..], b[1..], mask[1..]);
      assert Zip(a, b)[1..] == Zip(a[1..], b[1..]);
    }
  }

  /** A mask computed entry by entry from `p` selects exactly what `Filter` keeps. */
  lemma {:induction false} MaskedIsFilter<T>(s: seq<T>, mask: seq<bool>, p: T -> bool)
    requires |s| == |mask|
    requires forall i :: 0 <= i < |s| ==> mask[i] == p(s[i])
    ensures Masked(s, mask) == Filter(s, p)
  {
    if |s| > 0 {
      MaskedIsFilter(s[1..], mask[1..], p);
    }
  }

  /** `Filter` keeps an entry if and only if it occurs in the input and satisfies `p`. */
  lemma {:induction false} FilterMembers<T>(s: seq<T>, p: T -> bool, e: T)
    ensures e in Filter(s, p) <==> e in s && p(e)
  {
    if |s| > 0 {
      FilterMembers(s[1..], p, e);
      assert s == [s[0]] + s[1..];
    }
  }

  /** When every entry satisfies `p`, `Filter` changes nothing. */
  lemma {:induction false} FilterAll<T>(s: seq<T>, p: T -> bool)
    requires forall i :: 0 <= i < |s| ==> p(s[i])
    ensures Filter(s, p) == s
  {
    if |s| > 0 {
      FilterAll(s[1..], p);
    }
  }

  // ----- set_xrange_to_zoom / set_xy_range -----

  /** `xmin <= x <= xmax` on a row; a missing x compares false, as NaN does. */
  function InRange(lo: real, hi: real): Row -> bool {
    (row: Row) => row.0.Some? && lo <= row.0.value <= hi
  }

  /** `(x >= xmin) & (x <= xmax)`. */
  function RangeMask(x: Column, lo: real, hi: real): (m: seq<bool>)
    ensures |m| == |x|
  {
    seq(|x|, i requires 0 <= i < |x| => x[i].Some? && lo <= x[i].value <= hi)
  }

  /**
   * `x[range_bool]`, `y[range_bool]`: x and y stay equally long and their
   * rows are exactly the input rows whose x lies in `[lo, hi]`, in order.
   */
  function KeepInRange(x: Column, y: Column, lo: real, hi: real): (r: (Column, Column))
    requires |x| == |y|
    ensures |r.0| == |r.1|
    ensures Zip(r.0, r.1) == Filter(Zip(x, y), InRange(lo, hi))
  {
    var m := RangeMask(x, lo, hi);
    MaskedZip(x, y, m);
    MaskedIsFilter(Zip(x, y), m, InRange(lo, hi));
    (Masked(x, m), Masked(y, m))
  }

  /** A row survives the range filter if and only if it was a row of the input with x in `[lo, hi]`. */
  lemma KeepInRangeRows(x: Column, y: Column, lo: real, hi: real, row: Row)
    requires |x| == |y|
    ensures var r := KeepInRange(x, y, lo, hi);
      row in Zip(r.0, r.1) <==> row in Zip(x, y) && row.0.Some? && lo <= row.0.value <= hi
  {
    FilterMembers(Zip(x, y), InRange(lo, hi), row);
  }

  // ----- filter_nan -----

  /** `~isnan(x) & ~isnan(y)` on a row. */
  function Present(row: Row): bool {
    row.0.Some? && row.1.Some?
  }

  /** `~np.isnan(x) & ~np.isnan(y)`. */
  function PresentMask(x: Column, y: Column): (m: seq<bool>)
    requires |x| == |y|
    ensures |m| == |x|
  {
    seq(|x|, i requires 0 <= i < |x| => x[i].Some? && y[i].Some?)
  }

  /** `True in np.isnan(x) or True in np.isnan(y)`. */
  predicate AnyMissing(x: Column, y: Column) {
    (exists i :: 0 <= i < |x| && x[i].None?) || (exists i :: 0 <= i < |y| && y[i].None?)
  }

  /**
   * `filter_nan`: when some entry is missing, both arrays are masked by
   * the rows where neither is; otherwise they are left as they are. Either
   * way the result is exactly the complete rows, in order.
   */
  function DropMissing(x: Column, y: Column): (r: (Column, Column))
    requires |x| == |y|
    ensures |r.0| == |r.1|
    ensures Zip(r.0, r.1) == Filter(Zip(x, y), Present)
    ensures !AnyMissing(x, y) ==> r == (x, y)
  {
    if AnyMissing(x, y) then
      var m := PresentMask(x, y);
      MaskedZip(x, y, m);
      MaskedIsFilter(Zip(x, y), m, Present);
      (Masked(x, m), Masked(y, m))
    else
      FilterAll(Zip(x, y), Present);
      (x, y)
  }

  /** A row survives `filter_nan` if and only if it was a row of the input with both values present. */
  lemma DropMissingRows(x: Column, y: Column, row: Row)
    requires |x| == |y|
    ensures var r := DropMissing(x, y);
      row in Zip(r.0, r.1) <==> row in Zip(x, y) && row.0.Some? && row.1.Some?
  {
    FilterMembers(Zip(x, y), Present, row);
  }

  /** An entry that is not NaN. */
  function IsPresent(e: Option<real>): bool { e.Some? }

  /** A length-1 array stretched by numpy broadcasting to `n` rows. */
  function Stretch(y: Column, n: nat): (r: Column)
    requires |y| == 1
    ensures |r| == n
    ensures forall i :: 0 <= i < n ==> r[i] == y[0]
  {
    seq(n, _ => y[0])
  }

  /**
   * `~np.isnan(x) & ~np.isnan(y)` under numpy broadcasting: arrays of
   * one length are combined row by row, an array of length 1 is stretched
   * to the other's length, and any other pair of lengths raises.
   */
  function BroadcastMask(x: Column, y: Column): (m: Option<seq<bool>>)
    ensures m.Some? <==> |x| == |y| || |x| == 1 || |y| == 1
    ensures m.Some? ==> |m.value| == (if |x| == 1 then |y| else |x|)
    ensures m.Some? ==> forall i :: 0 <= i < |m.value| ==>
      m.value[i] == (x[if |x| == 1 then 0 else i].Some? && y[if |y| == 1 then 0 else i].Some?)
  {
    if |x| == |y| then Some(PresentMask(x, y))
    else if |x| == 1 then Some(PresentMask(Stretch(x, |y|), y))
    else if |y| == 1 then Some(PresentMask(x, Stretch(y, |x|)))
    else None
  }

  /**
   * Masking `x` by its rows against a stretched length-1 `y` keeps the
   * present entries of `x` when `y`'s one entry is present, and nothing
   * when it is missing.
   */
  lemma {:induction false} StretchedMasked(x: Column, y: Column)
    requires |y| == 1
    ensures Masked(x, PresentMask(x, Stretch(y, |x|))) == if y[0].Some? then Filter(x, IsPresent) else []
    decreases |x|
  {
    if |x| > 0 {
      var m := PresentMask(x, Stretch(y, |x|));
      assert m[1..] == PresentMask(x[1..], Stretch(y, |x| - 1));
      StretchedMasked(x[1..], y);
    }
  }

  // ----- set_xlims -----

  /** Every entry of the column is present. */
  predicate Complete(x: Column) {
    forall i :: 0 <= i < |x| ==> x[i].Some?
  }

  /** `np.min` of a non-empty complete column. */
  function MinOf(x: Column): (m: real)
    requires |x| > 0 && Complete(x)
    ensures forall i :: 0 <= i < |x| ==> m <= x[i].value
    ensures exists i :: 0 <= i < |x| && m == x[i].value
  {
    if |x| == 1 then x[0].value
    else
      var t := MinOf(x[1..]);
      assert forall i :: 1 <= i < |x| ==> x[i] == x[1..][i - 1];
      if x[0].value <= t then x[0].value else t
  }

  /** `np.max` of a non-empty complete column. */
  function MaxOf(x: Column): (m: real)
    requires |x| > 0 && Complete(x)
    ensures forall i :: 0 <= i < |x| ==> x[i].value <= m
    ensures exists i :: 0 <= i < |x| && m == x[i].value
  {
    if |x| == 1 then x[0].value
    else
      var t := MaxOf(x[1..]);
      assert forall i :: 1 <= i < |x| ==> x[i] == x[1..][i - 1];
      if x[0].value >= t then x[0].value else t
  }

  /**
   * `set_xlims`: the x range widened by 2% of its width on each side.
   * None where numpy gives no finite limits: an empty array raises, and a
   * missing entry makes both limits NaN.
   */
  function PaddedLimits(x: Column): (r: Option<(real, real)>)
    ensures r.Some? <==> |x| > 0 && Complete(x)
  {
    if |x| > 0 && Complete(x) then
      var lo, hi := MinOf(x), MaxOf(x);
      Some((lo - 0.02 * (hi - lo), hi + 0.02 * (hi - lo)))
    else None
  }

  /**
   * The padded limits enclose every x value, and each lies 2% of the data
   * width beyond an extreme value of the data.
   */
  lemma PaddedLimitsEnclose(x: Column)
    requires |x| > 0 && Complete(x)
    ensures var r := PaddedLimits(x).value;
      && (forall i :: 0 <= i < |x| ==> r.0 <= x[i].value <= r.1)
      && (exists i, j :: 0 <= i < |x| && 0 <= j < |x| &&
            r.0 == x[i].value - 0.02 * (x[j].value - x[i].value) &&
            r.1 == x[j].value + 0.02 * (x[j].value - x[i].value))
  {
    var lo, hi := MinOf(x), MaxOf(x);
    var i :| 0 <= i < |x| && lo == x[i].value;
    var j :| 0 <= j < |x| && hi == x[j].value;
    assert lo <= hi;
  }
}
