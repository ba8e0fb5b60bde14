/**
 * The `GPR1D` regression object of GPR1D.py without its numerics: the
 * settings its setters validate, the bounds table they derive, the flag
 * that marks the error-kernel fit as current, the result accessors and the
 * choice between a plain fit and the random-restart search.
 */
module Engine {
  import opened Wrappers
  import opened Kernels
  import opened Construction
  import Search

  /** A scalar argument: omitted (or of a type the setter ignores), a number, or a string. */
  datatype Arg = Omitted | Number(value: real) | Str

  /**
   * A data argument: omitted (or of another type), a numpy array, a list or
   * tuple whose items may be `None`, or a string.
   */
  datatype Column = Unset | Values(values: seq<Float>) | Items(items: seq<Option<Float>>) | Label

  /**
   * A bounds argument: omitted, a one-dimensional sequence, a
   * two-dimensional one given by its rows and width, or an array of more
   * than two dimensions.
   */
  datatype Bounds = NoBounds | Vector(entries: seq<Float>) | Matrix(rows: seq<seq<Float>>, width: nat) | Deeper

  type Table = seq<(real, real)>
  type Grid = seq<seq<real>>

  /** The second and fourth parts of `get_gp_results`: a covariance matrix or a vector of standard deviations. */
  datatype Spread = Cov(matrix: Grid) | Std(deviations: seq<real>)

  function AsCov(v: Option<Grid>): Option<Spread>
  {
    if v.Some? then Some(Cov(v.value)) else None
  }

  function AsStd(s: Option<seq<real>>): Option<Spread>
  {
    if s.Some? then Some(Std(s.value)) else None
  }

  // ----------------------------------------------------------------------
  // The bounds table
  // ----------------------------------------------------------------------

  predicate Rectangular(b: Bounds)
  {
    b.Matrix? ==> forall i :: 0 <= i < |b.rows| ==> |b.rows[i]| == b.width
  }

  /** The rows of `np.atleast_2d(kbounds)`: a vector becomes a single row. */
  function Rows(b: Bounds): seq<seq<Float>>
  {
    match b
    case Vector(e) => [e]
    case Matrix(m, _) => m
    case _ => []
  }

  function Width(b: Bounds): nat
  {
    match b
    case Vector(e) => |e|
    case Matrix(_, w) => w
    case _ => 0
  }

  predicate PositiveFinite(f: Float)
  {
    f.Finite? && f.v > 0.0
  }

  /** No entry is NaN, infinite or at most zero. */
  predicate Admissible(b: Bounds)
  {
    forall i, j :: 0 <= i < |Rows(b)| && 0 <= j < |Rows(b)[i]| ==> PositiveFinite(Rows(b)[i][j])
  }

  /**
   * The table `set_kernel` stores for `nh` hyperparameters: the base-10
   * logarithms of the bounds as `nh` rows `(lo, hi)`, read from a 2 x nh
   * array by columns and from an nh x 2 array by rows, or `None` when an
   * entry is not a positive finite number, the array has more than two
   * dimensions, or neither orientation fits.
   */
  function BoundsTable(b: Bounds, nh: nat, log10: real -> real): Option<Table>
    requires b != NoBounds && Rectangular(b)
  {
    if b.Deeper? || !Admissible(b) then None
    else
      var m, w := Rows(b), Width(b);
      if |m| == 2 then
        if w == nh then
          Some(seq(w, j requires 0 <= j < w => (log10(m[0][j].v), log10(m[1][j].v))))
        else None
      else if w == 2 then
        if |m| == nh then
          Some(seq(|m|, i requires 0 <= i < |m| => (log10(m[i][0].v), log10(m[i][1].v))))
        else None
      else None
  }

  /**
   * A table is stored exactly when every entry is a positive finite number
   * and the array is 2 x nh, or nh x 2 with other than two rows; it then
   * has one row per hyperparameter.
   */
  lemma {:induction false} BoundsTableSpec(b: Bounds, nh: nat, log10: real -> real)
    requires b != NoBounds && Rectangular(b)
    ensures BoundsTable(b, nh, log10).Some? <==>
      !b.Deeper? && Admissible(b)
      && ((|Rows(b)| == 2 && Width(b) == nh) || (|Rows(b)| != 2 && Width(b) == 2 && |Rows(b)| == nh))
    ensures BoundsTable(b, nh, log10).Some? ==> |BoundsTable(b, nh, log10).value| == nh
  {
  }

  function Transpose(m: seq<seq<Float>>, w: nat): (t: seq<seq<Float>>)
    requires forall i :: 0 <= i < |m| ==> |m[i]| == w
    ensures |t| == w && forall j :: 0 <= j < w ==> |t[j]| == |m|
  {
    seq(w, j requires 0 <= j < w => seq(|m|, i requires 0 <= i < |m| => m[i][j]))
  }

  /**
   * Both orientations give the same table, except for two hyperparameters,
   * where a 2 x 2 array is always read by columns.
   */
  lemma {:induction false} BoundsOrientation(m: seq<seq<Float>>, nh: nat, log10: real -> real)
    requires |m| == nh && nh != 2 && forall i :: 0 <= i < |m| ==> |m[i]| == 2
    ensures BoundsTable(Matrix(m, 2), nh, log10) == BoundsTable(Matrix(Transpose(m, 2), nh), nh, log10)
  {
    var t := Transpose(m, 2);
    assert Rows(Matrix(m, 2)) == m && Rows(Matrix(t, nh)) == t;
    assert Admissible(Matrix(m, 2)) <==> Admissible(Matrix(t, nh)) by {
      if Admissible(Matrix(m, 2)) {
        forall j, i | 0 <= j < |t| && 0 <= i < |t[j]|
          ensures PositiveFinite(t[j][i])
        {
          assert t[j][i] == m[i][j];
        }
      }
      if Admissible(Matrix(t, nh)) {
        forall i, j | 0 <= i < |m| && 0 <= j < |m[i]|
          ensures PositiveFinite(m[i][j])
        {
          assert t[j][i] == m[i][j];
        }
      }
    }
    if Admissible(Matrix(m, 2)) {
      var a := seq(nh, i requires 0 <= i < nh => (log10(m[i][0].v), log10(m[i][1].v)));
      var b := seq(nh, j requires 0 <= j < nh => (log10(t[0][j].v), log10(t[1][j].v)));
      assert BoundsTable(Matrix(m, 2), nh, log10) == Some(a);
      assert BoundsTable(Matrix(t, nh), nh, log10) == Some(b);
      forall i | 0 <= i < nh
        ensures a[i] == b[i]
      {
        assert t[0][i] == m[i][0] && t[1][i] == m[i][1];
      }
      assert a == b;
    }
  }

  // ----------------------------------------------------------------------
  // The argument rules of the setters
  // ----------------------------------------------------------------------

  /** `int(r)`: truncation toward zero. */
  function Trunc(r: real): (n: int)
    ensures 0.0 <= r ==> n as real <= r < n as real + 1.0
    ensures r < 0.0 ==> n as real - 1.0 < r <= n as real
  {
    if r >= 0.0 then r.Floor else -((-r).Floor)
  }

  /** A setting kept only when the argument is a positive number. */
  function PositiveOr(a: Arg, current: real): real
  {
    if a.Number? && a.value > 0.0 then a.value else current
  }

  /** A setting cleared by a non-positive number or a string, left alone otherwise. */
  function PositiveOrNone(a: Arg, current: Option<real>): Option<real>
  {
    match a
    case Number(v) => if v > 0.0 then Some(v) else None
    case Str => None
    case Omitted => current
  }

  /** A bound set by any number and cleared by a string. */
  function NumberOrNone(a: Arg, current: Option<real>): Option<real>
  {
    match a
    case Number(v) => Some(v)
    case Str => None
    case Omitted => current
  }

  /** The positive part of `int(nrestarts)`. */
  function Restarts(n: real): (r: nat)
    ensures r > 0 <==> n >= 1.0
    ensures r > 0 ==> r as real <= n < r as real + 1.0
  {
    var t := Trunc(n);
    if t > 0 then t else 0
  }

  predicate Given(c: Column)
  {
    (c.Values? && |c.values| > 0) || (c.Items? && |c.items| > 0)
  }

  /** The items of a list, `None` standing for NaN. */
  function Holes(items: seq<Option<Float>>): (r: seq<Float>)
    ensures |r| == |items|
    ensures forall i :: 0 <= i < |items| ==> r[i] == (if items[i].Some? then items[i].value else NaN)
  {
    seq(|items|, i requires 0 <= i < |items| => if items[i].Some? then items[i].value else NaN)
  }

  /** A list of plain numbers, as `np.array` reads it. */
  predicate Plain(c: Column)
  {
    c.Items? ==> None !in c.items
  }

  function Flatten(c: Column): seq<Float>
    requires Given(c)
  {
    if c.Values? then c.values else Holes(c.items)
  }

  /** A data column: replaced by a non-empty sequence, and, where `clearable`, cleared by a string. */
  function DataUpdate(c: Column, current: Option<seq<Float>>, clearable: bool): Option<seq<Float>>
  {
    if Given(c) then Some(Flatten(c))
    else if c.Label? && clearable then None
    else current
  }

  /**
   * A numeric setting only ever takes a positive value: it keeps its value
   * unless given a positive number, which then replaces it.
   */
  lemma {:induction false} PositiveOrSpec(a: Arg, current: real)
    ensures PositiveOr(a, current) == current || (a.Number? && a.value > 0.0 && PositiveOr(a, current) == a.value)
    ensures current > 0.0 ==> PositiveOr(a, current) > 0.0
  {
  }

  /**
   * An optional threshold is kept by an omitted argument, set by a positive
   * number, and cleared by any other number or by a string; so it stays
   * `None` or positive.
   */
  lemma {:induction false} PositiveOrNoneSpec(a: Arg, current: Option<real>)
    ensures a.Omitted? ==> PositiveOrNone(a, current) == current
    ensures a.Number? && a.value > 0.0 ==> PositiveOrNone(a, current) == Some(a.value)
    ensures (a.Number? && a.value <= 0.0) || a.Str? ==> PositiveOrNone(a, current).None?
    ensures NoneOrPositive(current) ==> NoneOrPositive(PositiveOrNone(a, current))
  {
  }

  /** A data column is replaced by any non-empty sequence, cleared by a string where clearable, and kept otherwise. */
  lemma {:induction false} DataUpdateSpec(c: Column, current: Option<seq<Float>>, clearable: bool)
    ensures Given(c) ==> DataUpdate(c, current, clearable) == Some(Flatten(c))
    ensures c.Label? && clearable ==> DataUpdate(c, current, clearable).None?
    ensures !Given(c) && !(c.Label? && clearable) ==> DataUpdate(c, current, clearable) == current
    ensures DataUpdate(c, current, clearable).Some? && DataUpdate(c, current, clearable) != current ==>
      |DataUpdate(c, current, clearable).value| > 0
  {
  }

  // ----------------------------------------------------------------------
  // The state of the regression object
  // ----------------------------------------------------------------------

  predicate NoneOrPositive(r: Option<real>)
  {
    r.Some? ==> r.value > 0.0
  }

  predicate Square(m: Grid)
  {
    forall i :: 0 <= i < |m| ==> |m[i]| == |m|
  }

  /** A covariance matrix and the noise matrix added to it are square and of one size. */
  predicate Covariances(v: Option<Grid>, n: Option<Grid>)
  {
    (v.Some? ==> Square(v.value)) && (n.Some? ==> Square(n.value))
    && (v.Some? && n.Some? ==> |v.value| == |n.value|)
  }

  function MatrixSum(a: Grid, b: Grid): (c: Grid)
    requires Square(a) && Square(b) && |a| == |b|
    ensures |c| == |a| && Square(c)
    ensures forall i, j :: 0 <= i < |c| && 0 <= j < |c| ==> c[i][j] == a[i][j] + b[i][j]
  {
    seq(|a|, i requires 0 <= i < |a| => seq(|a|, j requires 0 <= j < |a| => a[i][j] + b[i][j]))
  }

  /** `np.sqrt(np.diag(m))`. */
  function RootDiagonal(m: Grid, sqrt: real -> real): (d: seq<real>)
    requires Square(m)
    ensures |d| == |m| && forall i :: 0 <= i < |m| ==> d[i] == sqrt(m[i][i])
  {
    seq(|m|, i requires 0 <= i < |m| => sqrt(m[i][i]))
  }

  /** A covariance, with the noise matrix added when asked for and present. */
  function WithNoise(v: Option<Grid>, n: Option<Grid>, noiseFlag: bool): (r: Option<Grid>)
    requires Covariances(v, n)
    ensures r.Some? <==> v.Some?
    ensures r.Some? ==> Square(r.value) && |r.value| == |v.value|
    ensures v.Some? && n.Some? && noiseFlag ==>
      forall i, j :: 0 <= i < |v.value| && 0 <= j < |v.value| ==> r.value[i][j] == v.value[i][j] + n.value[i][j]
    ensures !(n.Some? && noiseFlag) ==> r == v
  {
    if v.Some? && n.Some? && noiseFlag then Some(MatrixSum(v.value, n.value)) else v
  }

  function StdOf(v: Option<Grid>, sqrt: real -> real): (r: Option<seq<real>>)
    requires v.Some? ==> Square(v.value)
    ensures r.Some? <==> v.Some?
    ensures r.Some? ==> r.value == RootDiagonal(v.value, sqrt)
  {
    if v.Some? then Some(RootDiagonal(v.value, sqrt)) else None
  }

  /** A copy of a kernel fails only with `ValueError`, and a successful one is well shaped. */
  lemma {:induction false} CopyOutcome(k: Kernel)
    requires WellShaped(k)
    ensures Copy(k).Err? ==> Copy(k).error == ValueError
    ensures Copy(k).Ok? ==> WellShaped(Copy(k).value)
  {
    CopySpec(k);
  }

  /** The kernel a setter holds afterwards: a copy of a kernel argument, or the one it held. */
  function Adopted(kernel: Option<Kernel>, current: Option<Kernel>): Option<Kernel>
    requires kernel.Some? ==> WellShaped(kernel.value) && Copy(kernel.value).Ok?
  {
    if kernel.Some? then Some(Copy(kernel.value).value) else current
  }

  /** The bounds table afterwards: derived from given bounds whenever a kernel is held, else kept. */
  function TableUpdate(k: Option<Kernel>, kbounds: Bounds, current: Option<Table>, log10: real -> real): Option<Table>
    requires Rectangular(kbounds)
  {
    if k.Some? && kbounds != NoBounds then BoundsTable(kbounds, |Params(k.value, Hyp)|, log10) else current
  }

  /** A kernel's name and its hyperparameters followed by its constants, or `(None, None)` without a kernel. */
  function Details(k: Option<Kernel>): (r: (Option<string>, Option<seq<real>>))
    ensures r.0.Some? <==> k.Some?
    ensures r.1.Some? <==> k.Some?
    ensures k.Some? ==> r.0.value == Name(k.value)
    ensures k.Some? ==> |r.1.value| == |Params(k.value, Hyp)| + |Params(k.value, Cst)|
    ensures k.Some? ==> r.1.value[..|Params(k.value, Hyp)|] == Params(k.value, Hyp)
    ensures k.Some? ==> r.1.value[|Params(k.value, Hyp)|..] == Params(k.value, Cst)
  {
    if k.Some? then (Some(Name(k.value)), Some(Params(k.value, Hyp) + Params(k.value, Cst)))
    else (None, None)
  }

  class Gpr {
    var kk: Option<Kernel>
    var kb: Option<Table>
    var lp: real
    var xx: Option<seq<Float>>
    var xe: Option<seq<Float>>
    var yy: Option<seq<Float>>
    var ye: Option<seq<Float>>
    var dxx: Option<seq<Float>>
    var dyy: Option<seq<Float>>
    var dye: Option<seq<Float>>
    var eps: Option<real>
    var slh: real
    var dlh: real
    var lb: Option<real>
    var ub: Option<real>
    var cn: Option<real>
    var ekk: Option<Kernel>
    var ekb: Option<Table>
    var elp: Option<real>
    var enr: int
    var esflag: bool
    var ikk: Option<Kernel>
    var xF: Option<seq<real>>
    var barF: Option<seq<real>>
    var varF: Option<Grid>
    var dbarF: Option<seq<real>>
    var dvarF: Option<Grid>
    var lml: Option<real>
    /** Set once the error kernel has been fitted to the current data and settings. */
    var eflag: bool
    var varN: Option<Grid>
    var dvarN: Option<Grid>
    var nye: Option<seq<real>>

    /** What the setters keep: a positive regularisation parameter, gain and step, and positive optional thresholds. */
    predicate SettingsValid()
      reads this`lp, this`slh, this`dlh, this`eps, this`cn
    {
      lp > 0.0 && slh > 0.0 && dlh > 0.0 && NoneOrPositive(eps) && NoneOrPositive(cn)
    }

    /** The error kernel's regularisation parameter is positive when set, and its restart count is not negative. */
    predicate ErrorSettingsValid()
      reads this`elp, this`enr
    {
      NoneOrPositive(elp) && enr >= 0
    }

    /** The kernels held are well formed trees. */
    predicate KernelsValid()
      reads this`kk, this`ikk, this`ekk
    {
      (kk.Some? ==> WellShaped(kk.value)) && (ikk.Some? ==> WellShaped(ikk.value)) && (ekk.Some? ==> WellShaped(ekk.value))
    }

    /** Each covariance matrix and the noise matrix added to it are square and of one size. */
    predicate ResultsValid()
      reads this`varF, this`varN, this`dvarF, this`dvarN
    {
      Covariances(varF, varN) && Covariances(dvarF, dvarN)
    }

    /** No fit has stored results yet. */
    predicate Unfitted()
      reads this
    {
      xF.None? && barF.None? && varF.None? && dbarF.None? && dvarF.None?
      && lml.None? && varN.None? && dvarN.None? && nye.None?
    }

    /** The object as `__init__` leaves it: nothing set, default search settings, no results. */
    constructor ()
      ensures SettingsValid() && ErrorSettingsValid() && KernelsValid() && ResultsValid()
      ensures kk.None? && ikk.None? && kb.None? && lp == 1.0
      ensures eps.None? && slh == 0.005 && dlh == 0.01 && lb.None? && ub.None? && cn.None?
      ensures ekk.None? && ekb.None? && elp.None? && enr == 5 && esflag
      ensures xx.None? && xe.None? && yy.None? && ye.None? && dxx.None? && dyy.None? && dye.None?
      ensures Unfitted() && !eflag
    {
      kk, kb, lp := None, None, 1.0;
      xx, xe, yy, ye := None, None, None, None;
      dxx, dyy, dye := None, None, None;
      eps, slh, dlh := None, 0.005, 0.01;
      lb, ub, cn := None, None, None;
      ekk, ekb, elp, enr, esflag := None, None, None, 5, true;
      ikk, xF, barF, varF, dbarF, dvarF, lml := None, None, None, None, None, None, None;
      eflag := false;
      varN, dvarN, nye := None, None, None;
    }

    /**
     * `set_kernel`: a kernel argument is copied in as both the kernel and
     * the input kernel (a failing copy raises and changes nothing); given
     * bounds replace the table whenever a kernel is set; a positive
     * `regpar` replaces the regularisation parameter.
     */
    method SetKernel(kernel: Option<Kernel>, kbounds: Bounds, regpar: Arg, log10: real -> real) returns (r: Option<Error>)
      requires SettingsValid() && KernelsValid() && Rectangular(kbounds)
      requires kernel.Some? ==> WellShaped(kernel.value)
      modifies this`kk, this`ikk, this`kb, this`lp
      ensures SettingsValid() && KernelsValid()
      ensures r.Some? <==> kernel.Some? && Copy(kernel.value).Err?
      ensures r.Some? ==> r.value == ValueError && kk == old(kk) && ikk == old(ikk) && kb == old(kb) && lp == old(lp)
      ensures r.None? ==> kk == Adopted(kernel, old(kk)) && (if kernel.Some? then ikk == kk else ikk == old(ikk))
      ensures r.None? ==> kb == TableUpdate(kk, kbounds, old(kb), log10) && lp == PositiveOr(regpar, old(lp))
    {
      var k, ik := kk, ikk;
      if kernel.Some? {
        var c := Copy(kernel.value);
        CopyOutcome(kernel.value);
        if c.Err? {
          return Some(c.error);
        }
        k := Some(c.value);
        CopyIdempotent(kernel.value);
        ik := Some(Copy(c.value).value);
      }
      var b := TableUpdate(k, kbounds, kb, log10);
      PositiveOrSpec(regpar, lp);
      var p := PositiveOr(regpar, lp);
      kk, ikk, kb, lp := k, ik, b, p;
      r := None;
    }

    /**
     * `set_raw_data`: each non-empty sequence replaces its column (list
     * items that are `None` becoming NaN in the derivative columns); a
     * string clears every column but `xdata` and `ydata`. New x-values or
     * y-errors mark the error-kernel fit as stale; new y-values do not.
     */
    method SetRawData(xdata: Column, ydata: Column, xerr: Column, yerr: Column,
                      dxdata: Column, dydata: Column, dyerr: Column)
      requires Plain(xdata) && Plain(ydata) && Plain(xerr) && Plain(yerr)
      modifies this`xx, this`xe, this`yy, this`ye, this`dxx, this`dyy, this`dye, this`eflag
      ensures xx == DataUpdate(xdata, old(xx), false) && yy == DataUpdate(ydata, old(yy), false)
      ensures xe == DataUpdate(xerr, old(xe), true) && ye == DataUpdate(yerr, old(ye), true)
      ensures dxx == DataUpdate(dxdata, old(dxx), true) && dyy == DataUpdate(dydata, old(dyy), true)
      ensures dye == DataUpdate(dyerr, old(dye), true)
      ensures eflag == (old(eflag) && !Given(xdata) && !Given(yerr) && !yerr.Label?)
    {
      var x, y := DataUpdate(xdata, xx, false), DataUpdate(ydata, yy, false);
      var ex, ey := DataUpdate(xerr, xe, true), DataUpdate(yerr, ye, true);
      var dx, dy, de := DataUpdate(dxdata, dxx, true), DataUpdate(dydata, dyy, true), DataUpdate(dyerr, dye, true);
      var flag := eflag && !Given(xdata) && !Given(yerr) && !yerr.Label?;
      xx, yy, xe, ye, dxx, dyy, dye, eflag := x, y, ex, ey, dx, dy, de, flag;
    }

    /** `set_conditioner`: the condition number must be positive to be kept; the bounds take any number. */
    method SetConditioner(condnum: Arg, lbound: Arg, ubound: Arg)
      requires SettingsValid()
      modifies this`cn, this`lb, this`ub
      ensures SettingsValid()
      ensures cn == PositiveOrNone(condnum, old(cn)) && lb == NumberOrNone(lbound, old(lb)) && ub == NumberOrNone(ubound, old(ub))
    {
      cn := PositiveOrNone(condnum, cn);
      lb := NumberOrNone(lbound, lb);
      ub := NumberOrNone(ubound, ub);
    }

    /**
     * The kernel half of `set_error_kernel`: a kernel argument is copied in
     * (a failing copy raises and changes nothing), and given bounds replace
     * the table whenever an error kernel is set; either marks the error fit
     * as stale.
     */
    method SetErrorKernelBounds(kernel: Option<Kernel>, kbounds: Bounds, log10: real -> real) returns (r: Option<Error>)
      requires KernelsValid() && Rectangular(kbounds)
      requires kernel.Some? ==> WellShaped(kernel.value)
      modifies this`ekk, this`ekb, this`eflag
      ensures KernelsValid()
      ensures r.Some? <==> kernel.Some? && Copy(kernel.value).Err?
      ensures r.Some? ==> r.value == ValueError && ekk == old(ekk) && ekb == old(ekb) && eflag == old(eflag)
      ensures r.None? ==> ekk == Adopted(kernel, old(ekk)) && ekb == TableUpdate(ekk, kbounds, old(ekb), log10)
      ensures r.None? ==> eflag == (old(eflag) && kernel.None? && !(ekk.Some? && kbounds != NoBounds))
    {
      if kernel.Some? {
        var c := Copy(kernel.value);
        CopyOutcome(kernel.value);
        if c.Err? {
          return Some(c.error);
        }
        ekk := Some(c.value);
        eflag := false;
      }
      if ekk.Some? && kbounds != NoBounds {
        eflag := false;
      }
      ekb := TableUpdate(ekk, kbounds, ekb, log10);
      r := None;
    }

    /**
     * `set_error_kernel`: the kernel and bounds as above, then a positive
     * `regpar` replaces the regularisation parameter (also marking the error
     * fit as stale), a number replaces the restart count, brought to zero
     * when negative, and the search flag is replaced.
     */
    method SetErrorKernel(kernel: Option<Kernel>, kbounds: Bounds, regpar: Arg, nrestarts: Arg,
                          searchflag: bool, log10: real -> real) returns (r: Option<Error>)
      requires ErrorSettingsValid() && KernelsValid() && Rectangular(kbounds)
      requires kernel.Some? ==> WellShaped(kernel.value)
      modifies this`ekk, this`ekb, this`elp, this`enr, this`esflag, this`eflag
      ensures ErrorSettingsValid() && KernelsValid()
      ensures r.Some? <==> kernel.Some? && Copy(kernel.value).Err?
      ensures r.Some? ==> r.value == ValueError && ekk == old(ekk) && ekb == old(ekb) && elp == old(elp)
      ensures r.Some? ==> enr == old(enr) && esflag == old(esflag) && eflag == old(eflag)
      ensures r.None? ==> ekk == Adopted(kernel, old(ekk)) && ekb == TableUpdate(ekk, kbounds, old(ekb), log10)
      ensures r.None? ==> elp == (if regpar.Number? && regpar.value > 0.0 then Some(regpar.value) else old(elp))
      ensures r.None? ==> enr == (if nrestarts.Number? then Restarts(nrestarts.value) else old(enr)) && esflag == searchflag
      ensures r.None? ==> eflag == (old(eflag) && kernel.None? && !(ekk.Some? && kbounds != NoBounds) && !(regpar.Number? && regpar.value > 0.0))
    {
      r := SetErrorKernelBounds(kernel, kbounds, log10);
      if r.None? {
        SetErrorSearch(regpar, nrestarts, searchflag);
      }
    }

    /** The search half of `set_error_kernel`, reached once the kernel argument was accepted. */
    method SetErrorSearch(regpar: Arg, nrestarts: Arg, searchflag: bool)
      requires ErrorSettingsValid()
      modifies this`elp, this`enr, this`esflag, this`eflag
      ensures ErrorSettingsValid()
      ensures elp == (if regpar.Number? && regpar.value > 0.0 then Some(regpar.value) else old(elp))
      ensures enr == (if nrestarts.Number? then Restarts(nrestarts.value) else old(enr)) && esflag == searchflag
      ensures eflag == (old(eflag) && !(regpar.Number? && regpar.value > 0.0))
    {
      if regpar.Number? && regpar.value > 0.0 {
        elp := Some(regpar.value);
        eflag := false;
      }
      if nrestarts.Number? {
        enr := Restarts(nrestarts.value);
      }
      esflag := searchflag;
    }

    /** `set_search_parameters`: a threshold must be positive to be kept; the gain and step only change to positive values. */
    method SetSearchParameters(epsilon: Arg, sgain: Arg, sdiff: Arg)
      requires SettingsValid()
      modifies this`eps, this`slh, this`dlh
      ensures SettingsValid()
      ensures eps == PositiveOrNone(epsilon, old(eps)) && slh == PositiveOr(sgain, old(slh)) && dlh == PositiveOr(sdiff, old(dlh))
    {
      eps := PositiveOrNone(epsilon, eps);
      slh := PositiveOr(sgain, slh);
      dlh := PositiveOr(sdiff, dlh);
    }

    /** `get_gp_variance`. */
    function GpVariance(noiseFlag: bool): (v: Option<Grid>)
      requires ResultsValid()
      reads this
      ensures v == WithNoise(varF, varN, noiseFlag)
    {
      WithNoise(varF, varN, noiseFlag)
    }

    /** `get_gp_std`: the rooted diagonal of the variance. */
    function GpStd(noiseFlag: bool, sqrt: real -> real): (s: Option<seq<real>>)
      requires ResultsValid()
      reads this
      ensures s.Some? <==> varF.Some?
      ensures s.Some? ==> |s.value| == |varF.value|
    {
      StdOf(GpVariance(noiseFlag), sqrt)
    }

    /** `get_gp_drv_variance`: the derivative covariance, under the same noise rule. */
    function GpDrvVariance(noiseFlag: bool): (v: Option<Grid>)
      requires ResultsValid()
      reads this
      ensures v == WithNoise(dvarF, dvarN, noiseFlag)
    {
      WithNoise(dvarF, dvarN, noiseFlag)
    }

    /** `get_gp_drv_std`: the rooted diagonal of the derivative variance. */
    function GpDrvStd(noiseFlag: bool, sqrt: real -> real): (s: Option<seq<real>>)
      requires ResultsValid()
      reads this
      ensures s.Some? <==> dvarF.Some?
      ensures s.Some? ==> |s.value| == |dvarF.value|
    {
      StdOf(GpDrvVariance(noiseFlag), sqrt)
    }

    /**
     * `get_gp_results`: the mean, its covariance (`rtnCov`) or standard
     * deviation, and the same two for the derivative.
     */
    function GpResults(rtnCov: bool, noiseFlag: bool, sqrt: real -> real): (r: (Option<seq<real>>, Option<Spread>, Option<seq<real>>, Option<Spread>))
      requires ResultsValid()
      reads this
      ensures r.0 == barF && r.2 == dbarF
      ensures r.1.Some? <==> varF.Some?
      ensures r.3.Some? <==> dvarF.Some?
      ensures rtnCov ==> r.1 == AsCov(GpVariance(noiseFlag)) && r.3 == AsCov(GpDrvVariance(noiseFlag))
      ensures !rtnCov ==> r.1 == AsStd(GpStd(noiseFlag, sqrt)) && r.3 == AsStd(GpDrvStd(noiseFlag, sqrt))
    {
      if rtnCov then (barF, AsCov(GpVariance(noiseFlag)), dbarF, AsCov(GpDrvVariance(noiseFlag)))
      else (barF, AsStd(GpStd(noiseFlag, sqrt)), dbarF, AsStd(GpDrvStd(noiseFlag, sqrt)))
    }

    /** `get_gp_kernel_details`. */
    function GpKernelDetails(): (r: (Option<string>, Option<seq<real>>))
      reads this`kk
      ensures r == Details(kk)
    {
      Details(kk)
    }

    /** `get_gp_error_kernel_details`: the same for the error kernel. */
    function GpErrorKernelDetails(): (r: (Option<string>, Option<seq<real>>))
      reads this`ekk
      ensures r == Details(ekk)
    {
      Details(ekk)
    }

    /**
     * The start of `GPRFit`: a prediction grid that is not a non-empty
     * sequence raises `ValueError`; with a kernel, a bounds table and a
     * positive restart count the restart search picks the kernel to refit
     * (its result), otherwise the configured kernel is fitted directly
     * (`None`). Once the grid is accepted the stored noise-corrected
     * y-errors `nye` are cleared, before the restart search runs.
     */
    method ChooseStart(xnew: Column, nrestarts: Arg, us: seq<seq<real>>,
                       fit: Kernel -> Option<(real, Kernel)>, pow10: real -> real)
      returns (r: Result<Option<(nat, Kernel)>>)
      modifies this`nye
      requires nrestarts.Number? && kb.Some? ==> |us| == Restarts(nrestarts.value)
      requires kb.Some? ==> forall i :: 0 <= i < |us| ==> |us[i]| == |kb.value|
      ensures !Given(xnew) ==> r == Err(ValueError) && nye == old(nye)
      ensures Given(xnew) ==> nye.None?
      ensures Given(xnew) && !(kk.Some? && kb.Some? && nrestarts.Number? && Restarts(nrestarts.value) > 0) ==> r == Ok(None)
      ensures Given(xnew) && kk.Some? && kb.Some? && nrestarts.Number? && Restarts(nrestarts.value) > 0 ==>
        r == (match Search.SelectRestart(kk.value, kb.value, us, fit, pow10)
              case Ok(c) => Ok(Some(c))
              case Err(e) => Err(e))
    {
      var nr := if nrestarts.Number? then Restarts(nrestarts.value) else 0;
      if !Given(xnew) {
        return Err(ValueError);
      }
      nye := None;
      if kk.Some? && kb.Some? && nr > 0 {
        var c := Search.RunRestarts(kk.value, kb.value, us, fit, pow10);
        r := match c case Ok(v) => Ok(Some(v)) case Err(e) => Err(e);
      } else {
        r := Ok(None);
      }
    }
  }

  /** Before any fit every accessor returns `None`. */
  lemma {:induction false} UnfittedAccessors(g: Gpr, rtnCov: bool, noiseFlag: bool, sqrt: real -> real)
    requires g.ResultsValid() && g.Unfitted()
    ensures var r := g.GpResults(rtnCov, noiseFlag, sqrt);
      r.0.None? && r.1.None? && r.2.None? && r.3.None?
    ensures g.GpVariance(noiseFlag).None? && g.GpStd(noiseFlag, sqrt).None?
  {
  }

  /** With the noise matrix present and asked for, the standard deviation is the root of the summed diagonals. */
  lemma {:induction false} StdWithNoise(g: Gpr, sqrt: real -> real)
    requires g.ResultsValid() && g.varF.Some? && g.varN.Some?
    ensures var s := g.GpStd(true, sqrt).value;
      forall i :: 0 <= i < |s| ==> s[i] == sqrt(g.varF.value[i][i] + g.varN.value[i][i])
  {
  }

  /** The same two facts for the derivative's standard deviation. */
  lemma {:induction false} DrvStdWithNoise(g: Gpr, sqrt: real -> real)
    requires g.ResultsValid() && g.dvarF.Some? && g.dvarN.Some?
    ensures var s := g.GpDrvStd(true, sqrt).value;
      forall i :: 0 <= i < |s| ==> s[i] == sqrt(g.dvarF.value[i][i] + g.dvarN.value[i][i])
  {
  }

  lemma {:induction false} DrvStdWithoutNoise(g: Gpr, sqrt: real -> real)
    requires g.ResultsValid() && g.dvarF.Some?
    ensures var s := g.GpDrvStd(false, sqrt).value;
      forall i :: 0 <= i < |s| ==> s[i] == sqrt(g.dvarF.value[i][i])
  {
  }

  /** Without the noise flag the standard deviation ignores the noise matrix. */
  lemma {:induction false} StdWithoutNoise(g: Gpr, sqrt: real -> real)
    requires g.ResultsValid() && g.varF.Some?
    ensures var s := g.GpStd(false, sqrt).value;
      forall i :: 0 <= i < |s| ==> s[i] == sqrt(g.varF.value[i][i])
  {
  }
}
