/**
 * The hyperparameter search of GPR1D.py with the numerics abstracted: the
 * gradient-ascent loop of `__gp_grad_ascent` against an oracle giving the
 * log-marginal-likelihood (LML) of a log-space hyperparameter vector, and
 * the random-restart selection of `GPRFit` against an oracle giving the
 * outcome of one fit.
 */
module Search {
  import opened Wrappers
  import opened Kernels

  function Abs(r: real): real
  {
    if r < 0.0 then -r else r
  }

  // ----------------------------------------------------------------------
  // Gradient ascent
  // ----------------------------------------------------------------------

  /** The iteration limit `itermax` of the gradient ascent. */
  const IterMax: nat := 500

  /** Entry `i` of the central-difference gradient with step `dlh`. */
  function Slope(theta: seq<real>, i: nat, lml: seq<real> -> real, dlh: real): real
    requires i < |theta| && dlh != 0.0
  {
    (lml(theta[i := theta[i] + 0.5 * dlh]) - lml(theta[i := theta[i] - 0.5 * dlh])) / dlh
  }

  function Gradient(theta: seq<real>, lml: seq<real> -> real, dlh: real): (g: seq<real>)
    requires dlh != 0.0
    ensures |g| == |theta|
    ensures forall i :: 0 <= i < |theta| ==> g[i] == Slope(theta, i, lml, dlh)
  {
    seq(|theta|, i requires 0 <= i < |theta| => Slope(theta, i, lml, dlh))
  }

  /** `theta_old + slh * gradtheta`. */
  function Advance(theta: seq<real>, g: seq<real>, slh: real): (r: seq<real>)
    requires |g| == |theta|
    ensures |r| == |theta|
    ensures forall i :: 0 <= i < |theta| ==> r[i] == theta[i] + slh * g[i]
  {
    seq(|theta|, i requires 0 <= i < |theta| => theta[i] + slh * g[i])
  }

  /** Where the search stops: the last hyperparameters, their LML, the number of steps and the last change. */
  datatype Ascent = Ascent(theta: seq<real>, lml: real, count: nat, delta: real)

  /**
   * The loop from the state (`theta`, `lmlold`, `lmlnew`, `dlml`, `count`):
   * while the last change exceeds `eps` and fewer than `IterMax` steps were
   * made, step along the gradient and measure the change in LML.
   */
  function Climb(theta: seq<real>, lmlold: real, lmlnew: real, dlml: real, count: nat,
                 lml: seq<real> -> real, eps: real, slh: real, dlh: real): (r: Ascent)
    requires dlh != 0.0 && count <= IterMax
    ensures |r.theta| == |theta|
    decreases IterMax - count
  {
    if dlml > eps && count < IterMax then
      var next := Advance(theta, Gradient(theta, lml, dlh), slh);
      var l := lml(next);
      Climb(next, l, l, Abs(lmlold - l), count + 1, lml, eps, slh, dlh)
    else Ascent(theta, lmlnew, count, dlml)
  }

  /** The search from `theta0`: the first change is measured against an LML of 0. */
  function Ascend(theta0: seq<real>, lml: seq<real> -> real, eps: real, slh: real, dlh: real): Ascent
    requires dlh != 0.0
  {
    var l0 := lml(theta0);
    Climb(theta0, l0, 0.0, Abs(l0), 0, lml, eps, slh, dlh)
  }

  /**
   * `__gp_grad_ascent` on the log-space hyperparameters of the kernel:
   * returns the hyperparameters left in `newkk` and the LML returned with it.
   */
  method GradAscent(theta0: seq<real>, lml: seq<real> -> real, eps: real, slh: real, dlh: real)
    returns (theta: seq<real>, lmlnew: real)
    requires dlh != 0.0
    ensures theta == Ascend(theta0, lml, eps, slh, dlh).theta
    ensures lmlnew == Ascend(theta0, lml, eps, slh, dlh).lml
  {
    var gradtheta := seq(|theta0|, _ => 0.0);
    var thetaOld := theta0;
    var lmlold := lml(theta0);
    lmlnew := 0.0;
    var dlml := Abs(lmlold - lmlnew);
    var icount := 0;
    while dlml > eps && icount < IterMax
      invariant 0 <= icount <= IterMax
      invariant |thetaOld| == |theta0| && |gradtheta| == |theta0|
      invariant Climb(thetaOld, lmlold, lmlnew, dlml, icount, lml, eps, slh, dlh) == Ascend(theta0, lml, eps, slh, dlh)
      decreases IterMax - icount
    {
      gradtheta := CentralGradient(thetaOld, gradtheta, lml, dlh);
      var thetaNew := Advance(thetaOld, gradtheta, slh);
      lmlnew := lml(thetaNew);
      dlml := Abs(lmlold - lmlnew);
      thetaOld := thetaNew;
      lmlold := lmlnew;
      icount := icount + 1;
    }
    theta := thetaOld;
  }

  /** The inner loop: each entry of the gradient buffer overwritten by its central difference. */
  method CentralGradient(thetaOld: seq<real>, buffer: seq<real>, lml: seq<real> -> real, dlh: real) returns (gradtheta: seq<real>)
    requires dlh != 0.0 && |buffer| == |thetaOld|
    ensures gradtheta == Gradient(thetaOld, lml, dlh)
  {
    gradtheta := buffer;
    var ii := 0;
    while ii < |thetaOld|
      invariant 0 <= ii <= |thetaOld| && |gradtheta| == |thetaOld|
      invariant forall j :: 0 <= j < ii ==> gradtheta[j] == Slope(thetaOld, j, lml, dlh)
    {
      var thetaIn := thetaOld[ii := thetaOld[ii] - 0.5 * dlh];
      var llml := lml(thetaIn);
      thetaIn := thetaOld[ii := thetaOld[ii] + 0.5 * dlh];
      var ulml := lml(thetaIn);
      gradtheta := gradtheta[ii := (ulml - llml) / dlh];
      ii := ii + 1;
    }
  }

  /**
   * The search makes at most `IterMax` steps, and stops before the limit
   * only once the change in LML is at most `eps`.
   */
  lemma {:induction false} ClimbStops(theta: seq<real>, lmlold: real, lmlnew: real, dlml: real, count: nat,
                                      lml: seq<real> -> real, eps: real, slh: real, dlh: real)
    requires dlh != 0.0 && count <= IterMax
    ensures var r := Climb(theta, lmlold, lmlnew, dlml, count, lml, eps, slh, dlh);
      count <= r.count <= IterMax && (r.count < IterMax ==> r.delta <= eps)
    decreases IterMax - count
  {
    if dlml > eps && count < IterMax {
      var next := Advance(theta, Gradient(theta, lml, dlh), slh);
      var l := lml(next);
      ClimbStops(next, l, l, Abs(lmlold - l), count + 1, lml, eps, slh, dlh);
    }
  }

  /** When the starting LML is already within `eps` of 0 no step is made and the LML returned is 0. */
  lemma {:induction false} EarlyReturn(theta0: seq<real>, lml: seq<real> -> real, eps: real, slh: real, dlh: real)
    requires dlh != 0.0 && Abs(lml(theta0)) <= eps
    ensures Ascend(theta0, lml, eps, slh, dlh) == Ascent(theta0, 0.0, 0, Abs(lml(theta0)))
  {
  }

  /** After a step the LML returned is that of the hyperparameters returned. */
  lemma {:induction false} ClimbConsistent(theta: seq<real>, lmlold: real, dlml: real, count: nat,
                                           lml: seq<real> -> real, eps: real, slh: real, dlh: real)
    requires dlh != 0.0 && count <= IterMax
    requires dlml > eps && count < IterMax
    ensures var r := Climb(theta, lmlold, lmlold, dlml, count, lml, eps, slh, dlh);
      r.count > count && r.lml == lml(r.theta)
    decreases IterMax - count
  {
    var next := Advance(theta, Gradient(theta, lml, dlh), slh);
    var l := lml(next);
    var d := Abs(lmlold - l);
    if d > eps && count + 1 < IterMax {
      ClimbConsistent(next, l, d, count + 1, lml, eps, slh, dlh);
    }
  }

  function Dot(a: seq<real>, t: seq<real>): real
    requires |a| == |t|
  {
    if a == [] then 0.0 else a[0] * t[0] + Dot(a[1..], t[1..])
  }

  lemma {:induction false} DotUpdate(a: seq<real>, t: seq<real>, i: nat, v: real)
    requires |a| == |t| && i < |t|
    ensures Dot(a, t[i := v]) == Dot(a, t) + a[i] * (v - t[i])
  {
    if i > 0 {
      DotUpdate(a[1..], t[1..], i - 1, v);
      assert t[i := v][1..] == t[1..][i - 1 := v];
    }
  }

  /**
   * The central difference is exact on an LML that is linear in the
   * hyperparameters: each gradient entry is that coordinate's slope.
   */
  lemma {:induction false} SlopeOfLinear(a: seq<real>, c: real, theta: seq<real>, i: nat, dlh: real)
    requires |a| == |theta| && i < |theta| && dlh != 0.0
    ensures Slope(theta, i, Affine(a, c), dlh) == a[i]
  {
    var f := Affine(a, c);
    var d := c + Dot(a, theta);
    var hi := theta[i := theta[i] + 0.5 * dlh];
    var lo := theta[i := theta[i] - 0.5 * dlh];
    AffineShift(a, c, theta, i, theta[i] + 0.5 * dlh);
    AffineShift(a, c, theta, i, theta[i] - 0.5 * dlh);
    CentralDifference(d, a[i], theta[i], dlh);
    assert f(hi) - f(lo) == a[i] * dlh;
    Quotient(f(hi) - f(lo), a[i], dlh);
    assert Slope(theta, i, f, dlh) == (f(hi) - f(lo)) / dlh;
  }

  /** Moving one coordinate of an affine function's argument moves its value along that coordinate's slope. */
  lemma {:induction false} AffineShift(a: seq<real>, c: real, theta: seq<real>, i: nat, v: real)
    requires |a| == |theta| && i < |theta|
    ensures Affine(a, c)(theta[i := v]) == (c + Dot(a, theta)) + a[i] * (v - theta[i])
  {
    DotUpdate(a, theta, i, v);
  }

  /** An LML that is affine in the hyperparameters: `c + a . theta`. */
  function Affine(a: seq<real>, c: real): seq<real> -> real
  {
    t => if |t| == |a| then c + Dot(a, t) else 0.0
  }

  /** The two sides of a central difference on a line of slope `s` lie `s * dlh` apart. */
  lemma {:induction false} CentralDifference(d: real, s: real, t: real, dlh: real)
    ensures (d + s * ((t + 0.5 * dlh) - t)) - (d + s * ((t - 0.5 * dlh) - t)) == s * dlh
  {
  }

  lemma {:induction false} Quotient(x: real, s: real, dlh: real)
    requires dlh != 0.0 && x == s * dlh
    ensures x / dlh == s
  {
  }

  // ----------------------------------------------------------------------
  // Random restarts
  // ----------------------------------------------------------------------

  function Min(a: real, b: real): real
  {
    if a <= b then a else b
  }

  /**
   * A random start inside the log-space bounds table `kb` (rows `(lo, hi)`):
   * `|hi - lo| * u + min(lo, hi)` for the uniform draws `u`.
   */
  function RandomStart(kb: seq<(real, real)>, u: seq<real>): (theta: seq<real>)
    requires |u| == |kb|
    ensures |theta| == |kb|
  {
    seq(|kb|, i requires 0 <= i < |kb| => Abs(kb[i].1 - kb[i].0) * u[i] + Min(kb[i].0, kb[i].1))
  }

  function Max(a: real, b: real): real
  {
    if a <= b then b else a
  }

  /** A draw in [0, 1) gives a start inside each row's bounds, below the upper one when they differ. */
  lemma {:induction false} RandomStartInBounds(kb: seq<(real, real)>, u: seq<real>, i: nat)
    requires |u| == |kb| && i < |kb| && 0.0 <= u[i] < 1.0
    ensures var t := RandomStart(kb, u)[i];
      Min(kb[i].0, kb[i].1) <= t <= Max(kb[i].0, kb[i].1) && (kb[i].0 != kb[i].1 ==> t < Max(kb[i].0, kb[i].1))
  {
    assert RandomStart(kb, u)[i] == Abs(kb[i].1 - kb[i].0) * u[i] + Min(kb[i].0, kb[i].1);
    StartInRow(kb[i].0, kb[i].1, u[i]);
  }

  lemma {:induction false} StartInRow(lo: real, hi: real, u: real)
    requires 0.0 <= u < 1.0
    ensures var t := Abs(hi - lo) * u + Min(lo, hi);
      Min(lo, hi) <= t <= Max(lo, hi) && (lo != hi ==> t < Max(lo, hi))
  {
    var w := Abs(hi - lo);
    Fraction(w, u);
    var p := Times(w, u);
    assert Min(lo, hi) + w == Max(lo, hi);
    assert Min(lo, hi) <= p + Min(lo, hi) <= Max(lo, hi);
  }

  function Times(a: real, b: real): real
  {
    a * b
  }

  lemma {:induction false} Fraction(w: real, u: real)
    requires w >= 0.0 && 0.0 <= u < 1.0
    ensures 0.0 <= Times(w, u) <= w && (w > 0.0 ==> Times(w, u) < w)
  {
    if w > 0.0 {
      assert w * u < w * 1.0;
    }
  }

  /**
   * The index of the first trial attaining the largest LML among the
   * trials that succeeded (`None` marks a failure), if any did.
   */
  function Best(lmls: seq<Option<real>>): (r: Option<nat>)
    ensures r.Some? <==> exists i :: 0 <= i < |lmls| && lmls[i].Some?
    ensures r.Some? ==> r.value < |lmls| && lmls[r.value].Some?
    ensures r.Some? ==> forall i :: 0 <= i < |lmls| && lmls[i].Some? ==> lmls[i].value <= lmls[r.value].value
    ensures r.Some? ==> forall i :: 0 <= i < r.value && lmls[i].Some? ==> lmls[i].value < lmls[r.value].value
    decreases |lmls|
  {
    if lmls == [] then None
    else
      var rest := Best(lmls[1..]);
      assert forall i :: 1 <= i < |lmls| ==> lmls[i] == lmls[1..][i - 1];
      if lmls[0].None? then
        if rest.Some? then
          assert lmls[rest.value + 1] == lmls[1..][rest.value];
          Some(rest.value + 1)
        else
          assert forall i :: 0 <= i < |lmls| ==> lmls[i].None?;
          None
      else if rest.None? || lmls[1..][rest.value].value <= lmls[0].value then
        Some(0)
      else
        assert lmls[rest.value + 1] == lmls[1..][rest.value];
        Some(rest.value + 1)
  }

  /** The trials of `GPRFit`: the kernels fitted (`None` for a failure) and their LMLs. */
  datatype Trials = Trials(kernels: seq<Option<Kernel>>, lmls: seq<Option<real>>)

  /**
   * One trial: a fit that succeeds records its kernel and LML and becomes
   * the kernel the next start is set into; a failure (`ValueError` or
   * `LinAlgError`) records none and leaves that kernel as it was.
   */
  function Record(tr: Trials, tkk: Kernel, fit: Kernel -> Option<(real, Kernel)>): (Trials, Kernel)
  {
    match fit(tkk)
    case Some((l, k)) => (Trials(tr.kernels + [Some(k)], tr.lmls + [Some(l)]), k)
    case None => (Trials(tr.kernels + [None], tr.lmls + [None]), tkk)
  }

  /** The random starts `us[from..]`, each set into the current kernel and fitted. */
  function Restarts(tr: Trials, tkk: Kernel, kb: seq<(real, real)>, us: seq<seq<real>>, from: nat,
                    fit: Kernel -> Option<(real, Kernel)>, pow10: real -> real): (r: Result<Trials>)
    requires from <= |us| && forall i :: 0 <= i < |us| ==> |us[i]| == |kb|
    ensures r.Ok? ==> |r.value.kernels| == |tr.kernels| + |us| - from && |r.value.lmls| == |tr.lmls| + |us| - from
    decreases |us| - from
  {
    if from == |us| then Ok(tr)
    else
      match WithParams(tkk, Hyp, RandomStart(kb, us[from]), true, pow10)
      case Err(e) => Err(e)
      case Ok(started) =>
        var (tr', tkk') := Record(tr, started, fit);
        Restarts(tr', tkk', kb, us, from + 1, fit, pow10)
  }

  /**
   * The restart branch of `GPRFit`: the configured kernel is fitted first,
   * then one random start per draw; the kernel of the first trial with the
   * largest LML is chosen, and `ValueError` raised when every trial failed.
   * An error from setting a start's hyperparameters is not caught.
   */
  function SelectRestart(kk: Kernel, kb: seq<(real, real)>, us: seq<seq<real>>,
                         fit: Kernel -> Option<(real, Kernel)>, pow10: real -> real): (r: Result<(nat, Kernel)>)
    requires forall i :: 0 <= i < |us| ==> |us[i]| == |kb|
  {
    var (first, tkk) := Record(Trials([], []), kk, fit);
    match Restarts(first, tkk, kb, us, 0, fit, pow10)
    case Err(e) => Err(e)
    case Ok(tr) =>
      match Best(tr.lmls)
      case None => Err(ValueError)
      case Some(i) =>
        if i < |tr.kernels| && tr.kernels[i].Some? then Ok((i, tr.kernels[i].value)) else Err(ValueError)
  }

  method RunRestarts(kk: Kernel, kb: seq<(real, real)>, us: seq<seq<real>>,
                     fit: Kernel -> Option<(real, Kernel)>, pow10: real -> real)
    returns (r: Result<(nat, Kernel)>)
    requires forall i :: 0 <= i < |us| ==> |us[i]| == |kb|
    ensures r == SelectRestart(kk, kb, us, fit, pow10)
  {
    var kkvec: seq<Option<Kernel>> := [];
    var lmlvec: seq<Option<real>> := [];
    var tkk := kk;
    match fit(tkk) {
      case Some((tlml, k)) =>
        kkvec := kkvec + [Some(k)];
        lmlvec := lmlvec + [Some(tlml)];
        tkk := k;
      case None =>
        kkvec := kkvec + [None];
        lmlvec := lmlvec + [None];
    }
    var ii := 0;
    while ii < |us|
      invariant 0 <= ii <= |us|
      invariant Restarts(Trials(kkvec, lmlvec), tkk, kb, us, ii, fit, pow10) == Restarts(Record(Trials([], []), kk, fit).0, Record(Trials([], []), kk, fit).1, kb, us, 0, fit, pow10)
      invariant |kkvec| == |lmlvec| == ii + 1
    {
      var theta := RandomStart(kb, us[ii]);
      var started := WithParams(tkk, Hyp, theta, true, pow10);
      if started.Err? {
        return Err(started.error);
      }
      tkk := started.value;
      match fit(tkk) {
        case Some((tlml, k)) =>
          kkvec := kkvec + [Some(k)];
          lmlvec := lmlvec + [Some(tlml)];
          tkk := k;
        case None =>
          kkvec := kkvec + [None];
          lmlvec := lmlvec + [None];
      }
      ii := ii + 1;
    }
    var imax := Best(lmlvec);
    if imax.None? {
      return Err(ValueError);
    }
    if imax.value < |kkvec| && kkvec[imax.value].Some? {
      r := Ok((imax.value, kkvec[imax.value].value));
    } else {
      r := Err(ValueError);
    }
  }

  /** Every recorded kernel sits beside its LML: a trial has a kernel exactly when it has an LML. */
  predicate Paired(tr: Trials)
  {
    |tr.kernels| == |tr.lmls| && forall i :: 0 <= i < |tr.lmls| ==> (tr.kernels[i].Some? <==> tr.lmls[i].Some?)
  }

  lemma {:induction false} RestartsPaired(tr: Trials, tkk: Kernel, kb: seq<(real, real)>, us: seq<seq<real>>, from: nat,
                                          fit: Kernel -> Option<(real, Kernel)>, pow10: real -> real)
    requires from <= |us| && forall i :: 0 <= i < |us| ==> |us[i]| == |kb|
    requires Paired(tr)
    ensures var r := Restarts(tr, tkk, kb, us, from, fit, pow10); r.Ok? ==> Paired(r.value)
    decreases |us| - from
  {
    if from < |us| {
      match WithParams(tkk, Hyp, RandomStart(kb, us[from]), true, pow10)
      case Err(_) =>
      case Ok(started) =>
        var (tr', tkk') := Record(tr, started, fit);
        RestartsPaired(tr', tkk', kb, us, from + 1, fit, pow10);
    }
  }

  /**
   * With every start settable, the restart branch records `|us| + 1` trials,
   * and it fails with `ValueError` exactly when every one of them failed;
   * otherwise the chosen trial is the first with the largest LML.
   */
  lemma {:induction false} SelectRestartSpec(kk: Kernel, kb: seq<(real, real)>, us: seq<seq<real>>,
                          fit: Kernel -> Option<(real, Kernel)>, pow10: real -> real)
    requires forall i :: 0 <= i < |us| ==> |us[i]| == |kb|
    requires Restarts(Record(Trials([], []), kk, fit).0, Record(Trials([], []), kk, fit).1, kb, us, 0, fit, pow10).Ok?
    ensures var tr := Restarts(Record(Trials([], []), kk, fit).0, Record(Trials([], []), kk, fit).1, kb, us, 0, fit, pow10).value;
      && |tr.lmls| == |us| + 1
      && (SelectRestart(kk, kb, us, fit, pow10) == Err(ValueError) <==> forall i :: 0 <= i < |tr.lmls| ==> tr.lmls[i].None?)
      && (SelectRestart(kk, kb, us, fit, pow10).Ok? ==>
            var i := SelectRestart(kk, kb, us, fit, pow10).value.0;
            Best(tr.lmls) == Some(i) && tr.kernels[i] == Some(SelectRestart(kk, kb, us, fit, pow10).value.1))
  {
    var (first, tkk) := Record(Trials([], []), kk, fit);
    RestartsPaired(first, tkk, kb, us, 0, fit, pow10);
  }
}
