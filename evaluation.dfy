/**
 * Evaluation of a kernel at one pair of points, `k(x1, x2, der, hder)`.
 *
 * The polynomial primitives (constant, noise, linear, polynomial) are exact
 * real arithmetic; the others are built on exp, sqrt, arcsin and factorials
 * and come from an oracle, keeping only the conditions under which they
 * raise. The operators route the hyperparameter index `hder` to their
 * children by subtracting the sizes of the children before them, and the
 * product distributes the derivative order over its factors through the
 * rows of `DerMat` (as written) or of `LeibnizRows` (the product rule).
 *
 * Derivative orders: 0 none, 1 d/dx2, -1 d/dx1, 2 and -2 d2/dx1dx2.
 */
module Evaluation {
  import opened Wrappers
  import opened Kernels
  import opened Construction
  import opened Dermat

  /** How a product distributes a derivative over its factors. */
  datatype ProductRule = AsWritten | Leibniz

  /**
   * Values of the primitives whose formulas are left out (SE, RQ, Matérn,
   * NN, Gibbs): kind, stored hyperparameters and constants, the two points,
   * the derivative order and the hyperparameter index.
   */
  type Oracle = (PrimKind, seq<real>, seq<real>, real, real, int, Option<int>) -> real

  /** The index a child receives once `n` hyperparameters lie before it. */
  function Shift(h: Option<int>, n: nat): (r: Option<int>)
    ensures r.None? <==> h.None?
    ensures h.Some? ==> r.value == h.value - n
  {
    if h.None? then None else Some(h.value - n)
  }

  lemma {:induction false} ShiftShift(h: Option<int>, a: nat, b: nat)
    ensures Shift(Shift(h, a), b) == Shift(h, a + b)
  {
  }

  function NHyps(k: Kernel): nat
  {
    |Params(k, Hyp)|
  }

  function Vec(v: Option<seq<real>>): seq<real>
  {
    if v.None? then [] else v.value
  }

  /** How many hyperparameters and constants each class reads when evaluated. */
  function Reads(kind: PrimKind): (nat, nat)
  {
    match kind
    case Constant => (0, 1)
    case Noise => (1, 0)
    case Linear => (1, 0)
    case PolyOrder => (2, 0)
    case SquaredExp => (2, 0)
    case RationalQuadratic => (3, 0)
    case MaternHI => (2, 1)
    case NeuralNet => (3, 0)
    case GibbsGaussianLS => (4, 1)
  }

  // ----------------------------------------------------------------------
  // Polynomial primitives
  // ----------------------------------------------------------------------

  function ConstantValue(c: real, der: int, hder: Option<int>): real
  {
    if der == 0 && hder.None? then c else 0.0
  }

  /** The noise variance sits on the diagonal `x1 == x2` only. */
  function NoiseValue(n: real, x1: real, x2: real, der: int, hder: Option<int>): real
  {
    if der != 0 || x1 != x2 then 0.0
    else if hder.None? then n * n
    else if hder == Some(0) then 2.0 * n
    else 0.0
  }

  /** The factor of `x1 * x2` left after differentiating in the order `der`. */
  function LinearFactor(x1: real, x2: real, der: int): Option<real>
  {
    if der == 0 then Some(x1 * x2)
    else if der == 1 then Some(x1)
    else if der == -1 then Some(x2)
    else if der == 2 || der == -2 then Some(1.0)
    else None
  }

  function LinearValue(v: real, x1: real, x2: real, der: int, hder: Option<int>): real
  {
    var p := LinearFactor(x1, x2, der);
    if p.None? then 0.0
    else if hder.None? then v * v * p.value
    else if hder == Some(0) then 2.0 * v * p.value
    else 0.0
  }

  function PolyValue(v: real, b: real, x1: real, x2: real, der: int, hder: Option<int>): real
  {
    if der == 0 then
      if hder.None? then v * v * (x1 * x2) + b * b
      else if hder == Some(0) then 2.0 * v * (x1 * x2)
      else if hder == Some(1) then b
      else 0.0
    else LinearValue(v, x1, x2, der, hder)
  }

  /** One primitive's `__calc_covm`. */
  function EvalPrim(kind: PrimKind, hv: Option<seq<real>>, cv: Option<seq<real>>,
                    x1: real, x2: real, der: int, hder: Option<int>, o: Oracle): Result<real>
  {
    var h, c := Vec(hv), Vec(cv);
    if |h| < Reads(kind).0 || |c| < Reads(kind).1 then Err(IndexError)
    else
      match kind
      case Constant => Ok(ConstantValue(c[0], der, hder))
      case Noise => Ok(NoiseValue(h[0], x1, x2, der, hder))
      case Linear => Ok(LinearValue(h[0], x1, x2, der, hder))
      case PolyOrder => Ok(PolyValue(h[0], h[1], x1, x2, der, hder))
      case MaternHI =>
        if c[0] < Abs(der) as real then Err(ValueError)
        else if Abs(der) > 2 then Err(NotImplementedError)
        else Ok(o(kind, h, c, x1, x2, der, hder))
      case _ =>
        if Abs(der) > 2 then Err(NotImplementedError)
        else Ok(o(kind, h, c, x1, x2, der, hder))
  }

  // ----------------------------------------------------------------------
  // Kernels
  // ----------------------------------------------------------------------

  function Rows(rule: ProductRule, nks: nat, der: int): (r: seq<seq<int>>)
    requires nks >= 1
    ensures Rect(r, nks)
  {
    if rule == AsWritten then (DerMatShape(nks, der); DerMat(nks, der)) else LeibnizRows(nks, der)
  }

  function Eval(k: Kernel, x1: real, x2: real, der: int, hder: Option<int>, rule: ProductRule, o: Oracle): Result<real>
    requires WellShaped(k)
    decreases k, 0, 0
  {
    match k
    case Prim(kind, h, c) => EvalPrim(kind, h, c, x1, x2, der, hder, o)
    case Op(SumOp, _, ks) => EvalSum(ks, x1, x2, der, hder, rule, o)
    case Op(SymmetricOp, _, ks) => EvalSym(ks, x1, x2, der, hder, rule, o)
    case Op(ProductOp, _, ks) => EvalRows(ks, Rows(rule, |ks|, der), x1, x2, hder, rule, o)
  }

  /** Product of two factors, kept as a function so that equal factors give equal products. */
  function Times(a: real, b: real): real
  {
    a * b
  }

  predicate AllWellShaped(ks: seq<Kernel>)
  {
    forall i :: 0 <= i < |ks| ==> WellShaped(ks[i])
  }

  /** `Sum_Kernel`: the children's values added in order. */
  function EvalSum(ks: seq<Kernel>, x1: real, x2: real, der: int, hder: Option<int>, rule: ProductRule, o: Oracle): Result<real>
    requires AllWellShaped(ks)
    decreases ks, 0, 0
  {
    if ks == [] then Ok(0.0)
    else
      var v := Eval(ks[0], x1, x2, der, hder, rule, o);
      if v.Err? then v
      else
        var rest := EvalSum(ks[1..], x1, x2, der, Shift(hder, NHyps(ks[0])), rule, o);
        if rest.Err? then rest else Ok(v.value + rest.value)
  }

  /** `Symmetric_Kernel`: each child at `x1` and at `-x1`. */
  function EvalSym(ks: seq<Kernel>, x1: real, x2: real, der: int, hder: Option<int>, rule: ProductRule, o: Oracle): Result<real>
    requires AllWellShaped(ks)
    decreases ks, 0, 0
  {
    if ks == [] then Ok(0.0)
    else
      var v := Eval(ks[0], x1, x2, der, hder, rule, o);
      if v.Err? then v
      else
        var w := Eval(ks[0], -x1, x2, der, hder, rule, o);
        if w.Err? then w
        else
          var rest := EvalSym(ks[1..], x1, x2, der, Shift(hder, NHyps(ks[0])), rule, o);
          if rest.Err? then rest else Ok(v.value + w.value + rest.value)
  }

  /** `Product_Kernel`: one product per row, the rows added in order. */
  function EvalRows(ks: seq<Kernel>, rows: seq<seq<int>>, x1: real, x2: real, hder: Option<int>, rule: ProductRule, o: Oracle): Result<real>
    requires AllWellShaped(ks) && Rect(rows, |ks|)
    decreases ks, 2, |rows|
  {
    if rows == [] then Ok(0.0)
    else
      var t := EvalRow(ks, rows[0], x1, x2, hder, rule, o);
      if t.Err? then t
      else
        var rest := EvalRows(ks, rows[1..], x1, x2, hder, rule, o);
        if rest.Err? then rest else Ok(t.value + rest.value)
  }

  /** One row: factor `j` differentiated in the order `row[j]`, the index restarting at `hder`. */
  function EvalRow(ks: seq<Kernel>, row: seq<int>, x1: real, x2: real, hder: Option<int>, rule: ProductRule, o: Oracle): Result<real>
    requires AllWellShaped(ks) && |row| == |ks|
    decreases ks, 1, |row|
  {
    if ks == [] then Ok(1.0)
    else
      var v := Eval(ks[0], x1, x2, row[0], hder, rule, o);
      if v.Err? then v
      else
        var rest := EvalRow(ks[1..], row[1..], x1, x2, Shift(hder, NHyps(ks[0])), rule, o);
        if rest.Err? then rest else Ok(Times(v.value, rest.value))
  }

  // ----------------------------------------------------------------------
  // Routing of the hyperparameter index
  // ----------------------------------------------------------------------

  /** The number of hyperparameters of the children before child `j`. */
  function Offset(ks: seq<Kernel>, j: nat): nat
    requires j <= |ks|
  {
    |ParamsList(ks[..j], Hyp)|
  }

  lemma {:induction false} OffsetTail(ks: seq<Kernel>, j: nat)
    requires 1 <= |ks| && j < |ks|
    ensures Offset(ks, j + 1) == NHyps(ks[0]) + Offset(ks[1..], j)
  {
    assert ks[..j + 1] == [ks[0]] + ks[1..][..j];
    ParamsListCons(ks[0], ks[1..][..j], Hyp);
  }

  lemma {:induction false} OffsetZero(ks: seq<Kernel>)
    ensures Offset(ks, 0) == 0
  {
    assert ks[..0] == [];
  }

  lemma {:induction false} OffsetAll(ks: seq<Kernel>)
    ensures Offset(ks, |ks|) == |ParamsList(ks, Hyp)|
  {
    assert ks[..|ks|] == ks;
  }

  /** Child `j` receives an index inside its own range `[0, NHyps(ks[j]))`. */
  predicate Owns(ks: seq<Kernel>, j: nat, h: int)
    requires j < |ks|
  {
    var s := Shift(Some(h), Offset(ks, j));
    0 <= s.value < NHyps(ks[j])
  }

  /**
   * For an index inside the operator's range exactly one child receives an
   * index inside its own range: the child that owns that hyperparameter.
   */
  lemma {:induction false} OwnerUnique(ks: seq<Kernel>, h: int)
    requires 0 <= h < |ParamsList(ks, Hyp)|
    ensures exists j :: 0 <= j < |ks| && Owns(ks, j, h)
    ensures forall i, j :: 0 <= i < |ks| && 0 <= j < |ks| && Owns(ks, i, h) && Owns(ks, j, h) ==> i == j
    decreases |ks|
  {
    assert ks != [];
    OffsetZero(ks);
    assert ParamsList(ks, Hyp) == Params(ks[0], Hyp) + ParamsList(ks[1..], Hyp);
    forall j | 0 <= j < |ks[1..]| ensures Offset(ks, j + 1) == NHyps(ks[0]) + Offset(ks[1..], j) {
      OffsetTail(ks, j);
    }
    if h < NHyps(ks[0]) {
      assert Owns(ks, 0, h);
      forall j | 1 <= j < |ks| ensures !Owns(ks, j, h) {
        assert Offset(ks, j) >= NHyps(ks[0]);
      }
    } else {
      var h' := h - NHyps(ks[0]);
      OwnerUnique(ks[1..], h');
      var j' :| 0 <= j' < |ks[1..]| && Owns(ks[1..], j', h');
      assert Owns(ks, j' + 1, h);
      assert !Owns(ks, 0, h);
      forall i, j | 0 <= i < |ks| && 0 <= j < |ks| && Owns(ks, i, h) && Owns(ks, j, h) ensures i == j {
        assert i >= 1 && j >= 1;
        assert Owns(ks[1..], i - 1, h') && Owns(ks[1..], j - 1, h');
      }
    }
  }

  /** First error in order, else the sum. */
  function SumOf(rs: seq<Result<real>>): Result<real>
  {
    if rs == [] then Ok(0.0)
    else if rs[0].Err? then rs[0]
    else
      var rest := SumOf(rs[1..]);
      if rest.Err? then rest else Ok(rs[0].value + rest.value)
  }

  /** First error in order, else the product. */
  function ProductOf(rs: seq<Result<real>>): Result<real>
  {
    if rs == [] then Ok(1.0)
    else if rs[0].Err? then rs[0]
    else
      var rest := ProductOf(rs[1..]);
      if rest.Err? then rest else Ok(Times(rs[0].value, rest.value))
  }

  /** Each child of a sum evaluated at the index routed to it. */
  function SumTerms(ks: seq<Kernel>, x1: real, x2: real, der: int, hder: Option<int>, rule: ProductRule, o: Oracle): (r: seq<Result<real>>)
    requires AllWellShaped(ks)
    ensures |r| == |ks|
  {
    seq(|ks|, j requires 0 <= j < |ks| => Eval(ks[j], x1, x2, der, Shift(hder, Offset(ks, j)), rule, o))
  }

  /** Each factor of a row evaluated at its order and at the index routed to it. */
  function RowTerms(ks: seq<Kernel>, row: seq<int>, x1: real, x2: real, hder: Option<int>, rule: ProductRule, o: Oracle): (r: seq<Result<real>>)
    requires AllWellShaped(ks) && |row| == |ks|
    ensures |r| == |ks|
  {
    seq(|ks|, j requires 0 <= j < |ks| => Eval(ks[j], x1, x2, row[j], Shift(hder, Offset(ks, j)), rule, o))
  }

  lemma {:induction false} SumTermsTail(ks: seq<Kernel>, x1: real, x2: real, der: int, hder: Option<int>, rule: ProductRule, o: Oracle)
    requires AllWellShaped(ks) && ks != []
    ensures SumTerms(ks, x1, x2, der, hder, rule, o)
         == [Eval(ks[0], x1, x2, der, hder, rule, o)] + SumTerms(ks[1..], x1, x2, der, Shift(hder, NHyps(ks[0])), rule, o)
  {
    var a := SumTerms(ks, x1, x2, der, hder, rule, o);
    var b := SumTerms(ks[1..], x1, x2, der, Shift(hder, NHyps(ks[0])), rule, o);
    OffsetZero(ks);
    assert Shift(hder, Offset(ks, 0)) == hder;
    forall j | 0 <= j < |b| ensures a[1..][j] == b[j] {
      RoutedTail(ks, hder, j);
    }
    assert a == [a[0]] + a[1..];
  }

  lemma {:induction false} RowTermsTail(ks: seq<Kernel>, row: seq<int>, x1: real, x2: real, hder: Option<int>, rule: ProductRule, o: Oracle)
    requires AllWellShaped(ks) && |row| == |ks| && ks != []
    ensures RowTerms(ks, row, x1, x2, hder, rule, o)
         == [Eval(ks[0], x1, x2, row[0], hder, rule, o)] + RowTerms(ks[1..], row[1..], x1, x2, Shift(hder, NHyps(ks[0])), rule, o)
  {
    var a := RowTerms(ks, row, x1, x2, hder, rule, o);
    var b := RowTerms(ks[1..], row[1..], x1, x2, Shift(hder, NHyps(ks[0])), rule, o);
    OffsetZero(ks);
    assert Shift(hder, Offset(ks, 0)) == hder;
    forall j | 0 <= j < |b| ensures a[1..][j] == b[j] {
      RoutedTail(ks, hder, j);
    }
    assert a == [a[0]] + a[1..];
  }

  /** Child `j + 1` of a list is child `j` of its tail, and the index routed to it agrees. */
  lemma {:induction false} RoutedTail(ks: seq<Kernel>, hder: Option<int>, j: nat)
    requires j + 1 < |ks|
    ensures ks[j + 1] == ks[1..][j]
    ensures Shift(hder, Offset(ks, j + 1)) == Shift(Shift(hder, NHyps(ks[0])), Offset(ks[1..], j))
  {
    OffsetTail(ks, j);
    ShiftShift(hder, NHyps(ks[0]), Offset(ks[1..], j));
  }

  /** A sum is the sum of its children, child `j` at `hder - Offset(ks, j)`. */
  lemma {:induction false} EvalSumRouted(ks: seq<Kernel>, x1: real, x2: real, der: int, hder: Option<int>, rule: ProductRule, o: Oracle)
    requires AllWellShaped(ks)
    ensures EvalSum(ks, x1, x2, der, hder, rule, o) == SumOf(SumTerms(ks, x1, x2, der, hder, rule, o))
    decreases |ks|
  {
    if ks != [] {
      var h' := Shift(hder, NHyps(ks[0]));
      EvalSumRouted(ks[1..], x1, x2, der, h', rule, o);
      SumTermsTail(ks, x1, x2, der, hder, rule, o);
      var rs := SumTerms(ks, x1, x2, der, hder, rule, o);
      assert rs[1..] == SumTerms(ks[1..], x1, x2, der, h', rule, o);
      EvalSumStep(ks, x1, x2, der, hder, rule, o);
      SumOfStep(rs, Eval(ks[0], x1, x2, der, hder, rule, o), EvalSum(ks[1..], x1, x2, der, h', rule, o));
    }
  }

  /** The sum of a sequence of results, one element at a time. */
  function Plus(v: Result<real>, rest: Result<real>): Result<real>
  {
    if v.Err? then v else if rest.Err? then rest else Ok(v.value + rest.value)
  }

  lemma {:induction false} EvalSumStep(ks: seq<Kernel>, x1: real, x2: real, der: int, hder: Option<int>, rule: ProductRule, o: Oracle)
    requires AllWellShaped(ks) && ks != []
    ensures EvalSum(ks, x1, x2, der, hder, rule, o)
         == Plus(Eval(ks[0], x1, x2, der, hder, rule, o), EvalSum(ks[1..], x1, x2, der, Shift(hder, NHyps(ks[0])), rule, o))
  {
  }

  lemma {:induction false} SumOfStep(rs: seq<Result<real>>, v: Result<real>, rest: Result<real>)
    requires rs != [] && rs[0] == v && SumOf(rs[1..]) == rest
    ensures SumOf(rs) == Plus(v, rest)
  {
  }

  /** A row is the product of its factors, factor `j` at `hder - Offset(ks, j)`. */
  lemma {:induction false} EvalRowRouted(ks: seq<Kernel>, row: seq<int>, x1: real, x2: real, hder: Option<int>, rule: ProductRule, o: Oracle)
    requires AllWellShaped(ks) && |row| == |ks|
    ensures EvalRow(ks, row, x1, x2, hder, rule, o) == ProductOf(RowTerms(ks, row, x1, x2, hder, rule, o))
    decreases |ks|
  {
    if ks != [] {
      var h' := Shift(hder, NHyps(ks[0]));
      var tail := RowTerms(ks[1..], row[1..], x1, x2, h', rule, o);
      EvalRowRouted(ks[1..], row[1..], x1, x2, h', rule, o);
      RowTermsTail(ks, row, x1, x2, hder, rule, o);
      var rs := RowTerms(ks, row, x1, x2, hder, rule, o);
      assert rs[0] == Eval(ks[0], x1, x2, row[0], hder, rule, o);
      assert rs[1..] == tail;
    }
  }

  // ----------------------------------------------------------------------
  // Which calls raise does not depend on the points
  // ----------------------------------------------------------------------

  /** Two results agree on whether they fail and with which exception. */
  predicate SameOutcome(a: Result<real>, b: Result<real>)
  {
    a.Err? <==> b.Err? && (a.Err? ==> a.error == b.error)
  }

  lemma {:induction false} PointFree(k: Kernel, x1: real, x2: real, y1: real, y2: real, der: int, hder: Option<int>, rule: ProductRule, o: Oracle)
    requires WellShaped(k)
    ensures SameOutcome(Eval(k, x1, x2, der, hder, rule, o), Eval(k, y1, y2, der, hder, rule, o))
    decreases k, 0, 0
  {
    match k
    case Prim(_, _, _) =>
    case Op(SumOp, _, ks) => PointFreeSum(ks, x1, x2, y1, y2, der, hder, rule, o);
    case Op(SymmetricOp, _, ks) => PointFreeSym(ks, x1, x2, y1, y2, der, hder, rule, o);
    case Op(ProductOp, _, ks) => PointFreeRows(ks, Rows(rule, |ks|, der), x1, x2, y1, y2, hder, rule, o);
  }

  lemma {:induction false} PointFreeSum(ks: seq<Kernel>, x1: real, x2: real, y1: real, y2: real, der: int, hder: Option<int>, rule: ProductRule, o: Oracle)
    requires AllWellShaped(ks)
    ensures SameOutcome(EvalSum(ks, x1, x2, der, hder, rule, o), EvalSum(ks, y1, y2, der, hder, rule, o))
    decreases ks, 0, 0
  {
    if ks != [] {
      PointFree(ks[0], x1, x2, y1, y2, der, hder, rule, o);
      PointFreeSum(ks[1..], x1, x2, y1, y2, der, Shift(hder, NHyps(ks[0])), rule, o);
    }
  }

  lemma {:induction false} PointFreeSym(ks: seq<Kernel>, x1: real, x2: real, y1: real, y2: real, der: int, hder: Option<int>, rule: ProductRule, o: Oracle)
    requires AllWellShaped(ks)
    ensures SameOutcome(EvalSym(ks, x1, x2, der, hder, rule, o), EvalSym(ks, y1, y2, der, hder, rule, o))
    decreases ks, 0, 0
  {
    if ks != [] {
      PointFree(ks[0], x1, x2, y1, y2, der, hder, rule, o);
      PointFree(ks[0], -x1, x2, -y1, y2, der, hder, rule, o);
      PointFreeSym(ks[1..], x1, x2, y1, y2, der, Shift(hder, NHyps(ks[0])), rule, o);
    }
  }

  lemma {:induction false} PointFreeRows(ks: seq<Kernel>, rows: seq<seq<int>>, x1: real, x2: real, y1: real, y2: real, hder: Option<int>, rule: ProductRule, o: Oracle)
    requires AllWellShaped(ks) && Rect(rows, |ks|)
    ensures SameOutcome(EvalRows(ks, rows, x1, x2, hder, rule, o), EvalRows(ks, rows, y1, y2, hder, rule, o))
    decreases ks, 2, |rows|
  {
    if rows != [] {
      PointFreeRow(ks, rows[0], x1, x2, y1, y2, hder, rule, o);
      PointFreeRows(ks, rows[1..], x1, x2, y1, y2, hder, rule, o);
    }
  }

  lemma {:induction false} PointFreeRow(ks: seq<Kernel>, row: seq<int>, x1: real, x2: real, y1: real, y2: real, hder: Option<int>, rule: ProductRule, o: Oracle)
    requires AllWellShaped(ks) && |row| == |ks|
    ensures SameOutcome(EvalRow(ks, row, x1, x2, hder, rule, o), EvalRow(ks, row, y1, y2, hder, rule, o))
    decreases ks, 1, |row|
  {
    if ks != [] {
      PointFree(ks[0], x1, x2, y1, y2, row[0], hder, rule, o);
      PointFreeRow(ks[1..], row[1..], x1, x2, y1, y2, Shift(hder, NHyps(ks[0])), rule, o);
    }
  }

  /** A symmetric kernel is even in its first argument. */
  lemma {:induction false} SymmetricEven(k: Kernel, x1: real, x2: real, der: int, hder: Option<int>, rule: ProductRule, o: Oracle)
    requires WellShaped(k) && k.Op? && k.op == SymmetricOp
    ensures Eval(k, x1, x2, der, hder, rule, o) == Eval(k, -x1, x2, der, hder, rule, o)
  {
    var c := k.children[0];
    assert k.children == [c] && [c][1..] == [];
    assert -(-x1) == x1;
    PointFree(c, x1, x2, -x1, x2, der, hder, rule, o);
    assert Eval(k, x1, x2, der, hder, rule, o) == EvalSym([c], x1, x2, der, hder, rule, o);
    assert Eval(k, -x1, x2, der, hder, rule, o) == EvalSym([c], -x1, x2, der, hder, rule, o);
    var v, w := Eval(c, x1, x2, der, hder, rule, o), Eval(c, -x1, x2, der, hder, rule, o);
    var z := EvalSym([], x1, x2, der, Shift(hder, NHyps(c)), rule, o);
    var z' := EvalSym([], -x1, x2, der, Shift(hder, NHyps(c)), rule, o);
    assert z == Ok(0.0) && z' == Ok(0.0);
    if v.Ok? && w.Ok? {
      assert EvalSym([c], x1, x2, der, hder, rule, o) == Ok(v.value + w.value + 0.0);
      assert EvalSym([c], -x1, x2, der, hder, rule, o) == Ok(w.value + v.value + 0.0);
    }
  }

  // ----------------------------------------------------------------------
  // Values of products of polynomial kernels
  // ----------------------------------------------------------------------

  function ProdAll(vals: seq<real>): real
  {
    if vals == [] then 1.0 else Times(vals[0], ProdAll(vals[1..]))
  }

  function SumAll(vals: seq<real>): real
  {
    if vals == [] then 0.0 else vals[0] + SumAll(vals[1..])
  }

  /** A row whose factors all evaluate without error is the product of their values. */
  lemma {:induction false} RowValue(ks: seq<Kernel>, row: seq<int>, x1: real, x2: real, rule: ProductRule, o: Oracle, vals: seq<real>)
    requires AllWellShaped(ks) && |row| == |ks| == |vals|
    requires forall j :: 0 <= j < |ks| ==> Eval(ks[j], x1, x2, row[j], None, rule, o) == Ok(vals[j])
    ensures EvalRow(ks, row, x1, x2, None, rule, o) == Ok(ProdAll(vals))
    decreases |ks|
  {
    if ks != [] {
      RowValue(ks[1..], row[1..], x1, x2, rule, o, vals[1..]);
    }
  }

  /** Rows that all evaluate without error add up. */
  lemma {:induction false} RowsValue(ks: seq<Kernel>, rows: seq<seq<int>>, x1: real, x2: real, rule: ProductRule, o: Oracle, terms: seq<real>)
    requires AllWellShaped(ks) && Rect(rows, |ks|) && |terms| == |rows|
    requires forall i :: 0 <= i < |rows| ==> EvalRow(ks, rows[i], x1, x2, None, rule, o) == Ok(terms[i])
    ensures EvalRows(ks, rows, x1, x2, None, rule, o) == Ok(SumAll(terms))
    decreases |rows|
  {
    if rows != [] {
      RowsValue(ks, rows[1..], x1, x2, rule, o, terms[1..]);
    }
  }

  /** `Linear_Kernel(v)`. */
  function LinearKernel(v: real): (k: Kernel)
    ensures WellShaped(k)
  {
    assert Pick(Linear, DefaultArgs(Linear), HypPositions(Linear)) == [1.0];
    Prim(Linear, Some([v]), None)
  }

  /** `Poly_Order_Kernel(v, b)`. */
  function PolyKernel(v: real, b: real): (k: Kernel)
    ensures WellShaped(k)
  {
    assert Pick(PolyOrder, DefaultArgs(PolyOrder), HypPositions(PolyOrder)) == [1.0, 1.0];
    Prim(PolyOrder, Some([v, b]), None)
  }

  function Product(name: string, ks: seq<Kernel>): (k: Kernel)
    requires |ks| >= 2 && AllWellShaped(ks)
    ensures WellShaped(k)
  {
    Op(ProductOp, name, ks)
  }

  lemma {:induction false} DerMatZero(nks: nat)
    requires nks >= 1
    ensures DerMat(nks, 0) == [Zeros(nks)]
  {
    assert Abs(0) == 0 && Pow(nks, 0) == 1;
    var m := SignOdd([Zeros(nks)], 0);
    assert m[0] == Zeros(nks);
  }

  /** The rows both rules use for two factors at orders 0 and +-1. */
  lemma {:induction false} TwoFactorRowsLow(rule: ProductRule, der: int)
    requires -1 <= der <= 1
    ensures Rows(rule, 2, der) == if der == 0 then [[0, 0]] else [[der, 0], [0, der]]
  {
    assert Zeros(2) == [0, 0];
    if der == 0 {
      DerMatZero(2);
    } else if rule == AsWritten {
      DerMatTwoFirstOrder(der);
    } else {
      LeibnizFirstOrder(2, der);
      assert SingleRow(2, 0, der) == [der, 0] && SingleRow(2, 1, der) == [0, der];
    }
  }

  lemma {:induction false} TwoFactorRowsHigh(rule: ProductRule, der: int)
    requires der == 2 || der == -2
    ensures Rows(rule, 2, der) == if rule == AsWritten then [[2, 0], [0, 2], [2, 0], [0, 2]]
                                  else [[2, 0], [-1, 1], [1, -1], [0, 2]]
  {
    if rule == AsWritten {
      DerMatTwoSecondOrder(der);
    } else {
      var m := MixedRows(2);
      assert LeibnizRows(2, der) == m;
      assert m[0] == MixedRow(2, 0, 0) == [2, 0];
      assert m[1] == MixedRow(2, 0, 1) == [-1, 1];
      assert m[2] == MixedRow(2, 1, 0) == [1, -1];
      assert m[3] == MixedRow(2, 1, 1) == [0, 2];
    }
  }

  lemma {:induction false} SumAllOne(a: real)
    ensures SumAll([a]) == a
  {
    assert [a][1..] == [];
  }

  lemma {:induction false} SumAllTwo(a: real, b: real)
    ensures SumAll([a, b]) == a + b
  {
    assert [a, b][1..] == [b];
    SumAllOne(b);
  }

  lemma {:induction false} SumAllThree(a: real, b: real, c: real)
    ensures SumAll([a, b, c]) == a + b + c
  {
    assert [a, b, c][1..] == [b, c];
    SumAllTwo(b, c);
  }

  lemma {:induction false} SumAllFour(a: real, b: real, c: real, d: real)
    ensures SumAll([a, b, c, d]) == a + b + c + d
  {
    assert [a, b, c, d][1..] == [b, c, d];
    SumAllThree(b, c, d);
  }

  lemma {:induction false} ProdAllTwo(a: real, b: real)
    ensures ProdAll([a, b]) == a * b
  {
    assert [a, b][1..] == [b] && [b][1..] == [];
    assert ProdAll([b]) == Times(b, 1.0) == b;
    assert ProdAll([a, b]) == Times(a, ProdAll([b]));
  }

  lemma {:induction false} ProdAllThree(a: real, b: real, c: real)
    ensures ProdAll([a, b, c]) == a * (b * c)
  {
    assert [a, b, c][1..] == [b, c];
    ProdAllTwo(b, c);
  }

  /** The value a two-factor product gives for one row. */
  lemma {:induction false} PairRow(k1: Kernel, k2: Kernel, a: int, b: int, x1: real, x2: real, rule: ProductRule, o: Oracle, p: real, q: real)
    requires WellShaped(k1) && WellShaped(k2)
    requires Eval(k1, x1, x2, a, None, rule, o) == Ok(p) && Eval(k2, x1, x2, b, None, rule, o) == Ok(q)
    ensures EvalRow([k1, k2], [a, b], x1, x2, None, rule, o) == Ok(ProdAll([p, q]))
  {
    RowValue([k1, k2], [a, b], x1, x2, rule, o, [p, q]);
  }

  function LV(v: real, x1: real, x2: real, d: int): real
  {
    LinearValue(v, x1, x2, d, None)
  }

  lemma {:induction false} LinearEval(v: real, x1: real, x2: real, d: int, rule: ProductRule, o: Oracle)
    ensures Eval(LinearKernel(v), x1, x2, d, None, rule, o) == Ok(LV(v, x1, x2, d))
  {
    var k := LinearKernel(v);
    assert Vec(k.hyps) == [v] && Vec(k.csts) == [];
  }

  function PairTerms(v1: real, v2: real, x1: real, x2: real, rows: seq<seq<int>>): (r: seq<real>)
    requires Rect(rows, 2)
    ensures |r| == |rows|
  {
    seq(|rows|, i requires 0 <= i < |rows| => PairTerm(v1, v2, x1, x2, rows[i]))
  }

  /** The value two linear factors contribute for one row. */
  function PairTerm(v1: real, v2: real, x1: real, x2: real, row: seq<int>): real
    requires |row| == 2
  {
    ProdAll([LV(v1, x1, x2, row[0]), LV(v2, x1, x2, row[1])])
  }

  /** Two linear kernels over the rows of `Rows(rule, 2, der)`. */
  lemma {:induction false} LinearPairRows(v1: real, v2: real, x1: real, x2: real, der: int, rule: ProductRule, o: Oracle)
    ensures Eval(LL(v1, v2), x1, x2, der, None, rule, o) == Ok(SumAll(PairTerms(v1, v2, x1, x2, Rows(rule, 2, der))))
  {
    var rows := Rows(rule, 2, der);
    var k1, k2 := LinearKernel(v1), LinearKernel(v2);
    var terms := PairTerms(v1, v2, x1, x2, rows);
    forall i | 0 <= i < |rows| ensures EvalRow([k1, k2], rows[i], x1, x2, None, rule, o) == Ok(terms[i]) {
      var a, b := rows[i][0], rows[i][1];
      assert rows[i] == [a, b];
      LinearEval(v1, x1, x2, a, rule, o);
      LinearEval(v2, x1, x2, b, rule, o);
      PairRow(k1, k2, a, b, x1, x2, rule, o, LV(v1, x1, x2, a), LV(v2, x1, x2, b));
    }
    RowsValue([k1, k2], rows, x1, x2, rule, o, terms);
  }

  function LL(v1: real, v2: real): Kernel
  {
    Product("Prod_LL", [LinearKernel(v1), LinearKernel(v2)])
  }

  /** The values of `Product(Linear(v1), Linear(v2))` at each order, `v1^2 v2^2 (x1 x2)^2` and its derivatives. */
  function LinearLinearValue(v1: real, v2: real, x1: real, x2: real, der: int): real
  {
    if der == 0 then v1 * v1 * v2 * v2 * (x1 * x2) * (x1 * x2)
    else if der == 1 then 2.0 * v1 * v1 * v2 * v2 * (x1 * x1) * x2
    else if der == -1 then 2.0 * v1 * v1 * v2 * v2 * x1 * (x2 * x2)
    else 4.0 * v1 * v1 * v2 * v2 * x1 * x2
  }

  /**
   * The product of two linear kernels, `v1^2 v2^2 (x1 x2)^2`, and its
   * derivatives, under either rule.
   */
  lemma {:induction false} ProductLinearLinear(v1: real, v2: real, x1: real, x2: real, der: int, rule: ProductRule, o: Oracle)
    requires -2 <= der <= 2
    ensures Eval(LL(v1, v2), x1, x2, der, None, rule, o) == Ok(LinearLinearValue(v1, v2, x1, x2, der))
  {
    LinearPairRows(v1, v2, x1, x2, der, rule, o);
    if -1 <= der <= 1 {
      TwoFactorRowsLow(rule, der);
      LowTerms(v1, v2, x1, x2, der);
    } else {
      TwoFactorRowsHigh(rule, der);
      if rule == AsWritten {
        AsWrittenHighTerms(v1, v2, x1, x2, der);
      } else {
        LeibnizHighTerms(v1, v2, x1, x2, der);
      }
    }
  }

  lemma {:induction false} LowTerms(v1: real, v2: real, x1: real, x2: real, der: int)
    requires -1 <= der <= 1
    ensures SumAll(PairTerms(v1, v2, x1, x2, if der == 0 then [[0, 0]] else [[der, 0], [0, der]])) == LinearLinearValue(v1, v2, x1, x2, der)
  {
    var w := v1 * v1 * v2 * v2;
    if der == 0 {
      var t := PairTerms(v1, v2, x1, x2, [[0, 0]]);
      assert t == [PairTerm(v1, v2, x1, x2, [0, 0])];
      SumAllOne(t[0]);
      PairTermValue(v1, v2, x1, x2, 0, 0);
    } else {
      var t := PairTerms(v1, v2, x1, x2, [[der, 0], [0, der]]);
      assert t == [PairTerm(v1, v2, x1, x2, [der, 0]), PairTerm(v1, v2, x1, x2, [0, der])];
      SumAllTwo(t[0], t[1]);
      PairTermValue(v1, v2, x1, x2, der, 0);
      PairTermValue(v1, v2, x1, x2, 0, der);
      var p := LinearPoly(x1, x2, der);
      assert t[0] == w * (p * (x1 * x2)) && t[1] == w * ((x1 * x2) * p);
      if der == 1 {
        assert w * (p * (x1 * x2)) + w * ((x1 * x2) * p) == 2.0 * v1 * v1 * v2 * v2 * (x1 * x1) * x2;
      } else {
        assert w * (p * (x1 * x2)) + w * ((x1 * x2) * p) == 2.0 * v1 * v1 * v2 * v2 * x1 * (x2 * x2);
      }
    }
  }

  lemma {:induction false} AsWrittenHighTerms(v1: real, v2: real, x1: real, x2: real, der: int)
    requires der == 2 || der == -2
    ensures SumAll(PairTerms(v1, v2, x1, x2, [[2, 0], [0, 2], [2, 0], [0, 2]])) == LinearLinearValue(v1, v2, x1, x2, der)
  {
    var a, b := PairTerm(v1, v2, x1, x2, [2, 0]), PairTerm(v1, v2, x1, x2, [0, 2]);
    assert PairTerms(v1, v2, x1, x2, [[2, 0], [0, 2], [2, 0], [0, 2]]) == [a, b, a, b];
    SumAllFour(a, b, a, b);
    PairTermValue(v1, v2, x1, x2, 2, 0);
    PairTermValue(v1, v2, x1, x2, 0, 2);
  }

  lemma {:induction false} LeibnizHighTerms(v1: real, v2: real, x1: real, x2: real, der: int)
    requires der == 2 || der == -2
    ensures SumAll(PairTerms(v1, v2, x1, x2, [[2, 0], [-1, 1], [1, -1], [0, 2]])) == LinearLinearValue(v1, v2, x1, x2, der)
  {
    var a, b := PairTerm(v1, v2, x1, x2, [2, 0]), PairTerm(v1, v2, x1, x2, [-1, 1]);
    var c, d := PairTerm(v1, v2, x1, x2, [1, -1]), PairTerm(v1, v2, x1, x2, [0, 2]);
    assert PairTerms(v1, v2, x1, x2, [[2, 0], [-1, 1], [1, -1], [0, 2]]) == [a, b, c, d];
    SumAllFour(a, b, c, d);
    PairTermValue(v1, v2, x1, x2, 2, 0);
    PairTermValue(v1, v2, x1, x2, -1, 1);
    PairTermValue(v1, v2, x1, x2, 1, -1);
    PairTermValue(v1, v2, x1, x2, 0, 2);
  }

  function LinearPoly(x1: real, x2: real, d: int): real
  {
    if d == 0 then x1 * x2 else if d == 1 then x1 else if d == -1 then x2 else 1.0
  }

  lemma {:induction false} PairTermValue(v1: real, v2: real, x1: real, x2: real, a: int, b: int)
    requires -2 <= a <= 2 && -2 <= b <= 2
    ensures PairTerm(v1, v2, x1, x2, [a, b]) == (v1 * v1 * v2 * v2) * (LinearPoly(x1, x2, a) * LinearPoly(x1, x2, b))
  {
    ProdAllTwo(LV(v1, x1, x2, a), LV(v2, x1, x2, b));
    assert LV(v1, x1, x2, a) == v1 * v1 * LinearPoly(x1, x2, a);
    assert LV(v2, x1, x2, b) == v2 * v2 * LinearPoly(x1, x2, b);
  }

  function PV(v: real, b: real, x1: real, x2: real, d: int): real
  {
    PolyValue(v, b, x1, x2, d, None)
  }

  lemma {:induction false} PolyEval(v: real, b: real, x1: real, x2: real, d: int, rule: ProductRule, o: Oracle)
    ensures Eval(PolyKernel(v, b), x1, x2, d, None, rule, o) == Ok(PV(v, b, x1, x2, d))
  {
    var k := PolyKernel(v, b);
    assert Vec(k.hyps) == [v, b] && Vec(k.csts) == [];
  }

  // ----------------------------------------------------------------------
  // The product rule at second order, as written and corrected
  // ----------------------------------------------------------------------

  /** `Product_Kernel(Linear_Kernel(v1), Poly_Order_Kernel(v2, b))`. */
  function LP(v1: real, v2: real, b: real): Kernel
  {
    Product("Prod_LP", [LinearKernel(v1), PolyKernel(v2, b)])
  }

  function LPTerm(v1: real, v2: real, b: real, x1: real, x2: real, row: seq<int>): real
    requires |row| == 2
  {
    ProdAll([LV(v1, x1, x2, row[0]), PV(v2, b, x1, x2, row[1])])
  }

  function LPTerms(v1: real, v2: real, b: real, x1: real, x2: real, rows: seq<seq<int>>): (r: seq<real>)
    requires Rect(rows, 2)
    ensures |r| == |rows|
  {
    seq(|rows|, i requires 0 <= i < |rows| => LPTerm(v1, v2, b, x1, x2, rows[i]))
  }

  /** A linear factor times a polynomial factor over the rows of `Rows(rule, 2, der)`. */
  lemma {:induction false} LinearPolyRows(v1: real, v2: real, b: real, x1: real, x2: real, der: int, rule: ProductRule, o: Oracle)
    ensures Eval(LP(v1, v2, b), x1, x2, der, None, rule, o) == Ok(SumAll(LPTerms(v1, v2, b, x1, x2, Rows(rule, 2, der))))
  {
    var rows := Rows(rule, 2, der);
    var k1, k2 := LinearKernel(v1), PolyKernel(v2, b);
    var terms := LPTerms(v1, v2, b, x1, x2, rows);
    forall i | 0 <= i < |rows| ensures EvalRow([k1, k2], rows[i], x1, x2, None, rule, o) == Ok(terms[i]) {
      var p, q := rows[i][0], rows[i][1];
      assert rows[i] == [p, q];
      LinearEval(v1, x1, x2, p, rule, o);
      PolyEval(v2, b, x1, x2, q, rule, o);
      PairRow(k1, k2, p, q, x1, x2, rule, o, LV(v1, x1, x2, p), PV(v2, b, x1, x2, q));
    }
    RowsValue([k1, k2], rows, x1, x2, rule, o, terms);
  }

  lemma {:induction false} LPTermValue(v1: real, v2: real, b: real, x1: real, x2: real, p: int, q: int)
    requires -2 <= p <= 2 && -2 <= q <= 2
    ensures LPTerm(v1, v2, b, x1, x2, [p, q]) == LV(v1, x1, x2, p) * PV(v2, b, x1, x2, q)
  {
    ProdAllTwo(LV(v1, x1, x2, p), PV(v2, b, x1, x2, q));
  }

  function LPHigh(v1: real, v2: real, b: real, x1: real, x2: real, rule: ProductRule): real
  {
    if rule == AsWritten then 4.0 * (v1 * v1) * (v2 * v2) * (x1 * x2) + 2.0 * (v1 * v1) * (b * b)
    else 4.0 * (v1 * v1) * (v2 * v2) * (x1 * x2) + (v1 * v1) * (b * b)
  }

  /**
   * `Product(Linear(v1), Poly(v2, b))` at order +-2. The product rule gives
   * the true mixed derivative of `v1^2 x1 x2 (v2^2 x1 x2 + b^2)`,
   * `4 v1^2 v2^2 x1 x2 + v1^2 b^2`; as written, the rows `[2, 0]` and
   * `[0, 2]` each appear twice and the `b^2` term is counted twice.
   */
  lemma {:induction false} LinearPolySecond(v1: real, v2: real, b: real, x1: real, x2: real, der: int, rule: ProductRule, o: Oracle)
    requires der == 2 || der == -2
    ensures Eval(LP(v1, v2, b), x1, x2, der, None, rule, o) == Ok(LPHigh(v1, v2, b, x1, x2, rule))
  {
    LinearPolyRows(v1, v2, b, x1, x2, der, rule, o);
    TwoFactorRowsHigh(rule, der);
    if rule == AsWritten {
      AsWrittenLPTerms(v1, v2, b, x1, x2);
    } else {
      LeibnizLPTerms(v1, v2, b, x1, x2);
    }
  }

  lemma {:induction false} AsWrittenLPTerms(v1: real, v2: real, b: real, x1: real, x2: real)
    ensures SumAll(LPTerms(v1, v2, b, x1, x2, [[2, 0], [0, 2], [2, 0], [0, 2]])) == LPHigh(v1, v2, b, x1, x2, AsWritten)
  {
    LPSumFour(v1, v2, b, x1, x2, [2, 0], [0, 2], [2, 0], [0, 2]);
    LPTermsSecond(v1, v2, b, x1, x2);
  }

  lemma {:induction false} LeibnizLPTerms(v1: real, v2: real, b: real, x1: real, x2: real)
    ensures SumAll(LPTerms(v1, v2, b, x1, x2, [[2, 0], [-1, 1], [1, -1], [0, 2]])) == LPHigh(v1, v2, b, x1, x2, Leibniz)
  {
    var s, t := LPTerm(v1, v2, b, x1, x2, [2, 0]), LPTerm(v1, v2, b, x1, x2, [-1, 1]);
    var u, w := LPTerm(v1, v2, b, x1, x2, [1, -1]), LPTerm(v1, v2, b, x1, x2, [0, 2]);
    LPSumFour(v1, v2, b, x1, x2, [2, 0], [-1, 1], [1, -1], [0, 2]);
    LPTermsSecond(v1, v2, b, x1, x2);
    LPTermsMixed(v1, v2, b, x1, x2);
    LeibnizSum(v1 * v1, v2 * v2, x1, x2, b * b, s, t, u, w);
  }

  lemma {:induction false} LPSumFour(v1: real, v2: real, b: real, x1: real, x2: real, r0: seq<int>, r1: seq<int>, r2: seq<int>, r3: seq<int>)
    requires |r0| == 2 && |r1| == 2 && |r2| == 2 && |r3| == 2
    ensures SumAll(LPTerms(v1, v2, b, x1, x2, [r0, r1, r2, r3]))
         == LPTerm(v1, v2, b, x1, x2, r0) + LPTerm(v1, v2, b, x1, x2, r1) + LPTerm(v1, v2, b, x1, x2, r2) + LPTerm(v1, v2, b, x1, x2, r3)
  {
    var s, t := LPTerm(v1, v2, b, x1, x2, r0), LPTerm(v1, v2, b, x1, x2, r1);
    var u, w := LPTerm(v1, v2, b, x1, x2, r2), LPTerm(v1, v2, b, x1, x2, r3);
    assert LPTerms(v1, v2, b, x1, x2, [r0, r1, r2, r3]) == [s, t, u, w];
    SumAllFour(s, t, u, w);
  }

  /** The terms where one factor carries both derivatives. */
  lemma {:induction false} LPTermsSecond(v1: real, v2: real, b: real, x1: real, x2: real)
    ensures LPTerm(v1, v2, b, x1, x2, [2, 0]) == (v1 * v1) * ((v2 * v2) * (x1 * x2) + b * b)
    ensures LPTerm(v1, v2, b, x1, x2, [0, 2]) == (v1 * v1) * (x1 * x2) * (v2 * v2)
  {
    LPTermValue(v1, v2, b, x1, x2, 2, 0);
    LPTermValue(v1, v2, b, x1, x2, 0, 2);
  }

  /** The terms where each factor carries one derivative. */
  lemma {:induction false} LPTermsMixed(v1: real, v2: real, b: real, x1: real, x2: real)
    ensures LPTerm(v1, v2, b, x1, x2, [-1, 1]) == (v1 * v1) * x2 * ((v2 * v2) * x1)
    ensures LPTerm(v1, v2, b, x1, x2, [1, -1]) == (v1 * v1) * x1 * ((v2 * v2) * x2)
  {
    LPTermValue(v1, v2, b, x1, x2, -1, 1);
    LPTermValue(v1, v2, b, x1, x2, 1, -1);
  }

  /** The four product-rule terms add up to the mixed derivative. */
  lemma {:induction false} LeibnizSum(p: real, q: real, x1: real, x2: real, bb: real, s: real, t: real, u: real, w: real)
    requires s == p * (q * (x1 * x2) + bb) && t == p * x2 * (q * x1)
    requires u == p * x1 * (q * x2) && w == p * (x1 * x2) * q
    ensures s + t + u + w == 4.0 * p * q * (x1 * x2) + p * bb
  {
  }

  /** The smallest instance: at `v1 = v2 = b = 1` and `x1 = x2 = 0` the source gives 2 where the derivative is 1. */
  lemma {:induction false} LinearPolySecondDiffers(v: real, x: real, o: Oracle)
    requires v == 1.0 && x == 0.0
    ensures Eval(LP(v, v, v), x, x, 2, None, AsWritten, o) == Ok(2.0)
    ensures Eval(LP(v, v, v), x, x, 2, None, Leibniz, o) == Ok(1.0)
  {
    LinearPolySecond(v, v, v, x, x, 2, AsWritten, o);
    LinearPolySecond(v, v, v, x, x, 2, Leibniz, o);
  }

  // ----------------------------------------------------------------------
  // The product rule at first order for three factors
  // ----------------------------------------------------------------------

  /** `Product_Kernel(Linear_Kernel(v1), Linear_Kernel(v2), Linear_Kernel(v3))`. */
  function LLL(v1: real, v2: real, v3: real): Kernel
  {
    Product("Prod_LLL", [LinearKernel(v1), LinearKernel(v2), LinearKernel(v3)])
  }

  function TripleTerm(v1: real, v2: real, v3: real, x1: real, x2: real, row: seq<int>): real
    requires |row| == 3
  {
    ProdAll([LV(v1, x1, x2, row[0]), LV(v2, x1, x2, row[1]), LV(v3, x1, x2, row[2])])
  }

  function TripleTerms(v1: real, v2: real, v3: real, x1: real, x2: real, rows: seq<seq<int>>): (r: seq<real>)
    requires Rect(rows, 3)
    ensures |r| == |rows|
  {
    seq(|rows|, i requires 0 <= i < |rows| => TripleTerm(v1, v2, v3, x1, x2, rows[i]))
  }

  lemma {:induction false} LinearTripleRows(v1: real, v2: real, v3: real, x1: real, x2: real, der: int, rule: ProductRule, o: Oracle)
    ensures Eval(LLL(v1, v2, v3), x1, x2, der, None, rule, o) == Ok(SumAll(TripleTerms(v1, v2, v3, x1, x2, Rows(rule, 3, der))))
  {
    TripleRowsValue(v1, v2, v3, x1, x2, Rows(rule, 3, der), rule, o);
  }

  /** Rows of three linear factors add up to the sum of their terms. */
  lemma {:induction false} TripleRowsValue(v1: real, v2: real, v3: real, x1: real, x2: real, rows: seq<seq<int>>, rule: ProductRule, o: Oracle)
    requires Rect(rows, 3)
    ensures EvalRows([LinearKernel(v1), LinearKernel(v2), LinearKernel(v3)], rows, x1, x2, None, rule, o)
         == Ok(SumAll(TripleTerms(v1, v2, v3, x1, x2, rows)))
  {
    var ks := [LinearKernel(v1), LinearKernel(v2), LinearKernel(v3)];
    var terms := TripleTerms(v1, v2, v3, x1, x2, rows);
    forall i | 0 <= i < |rows| ensures EvalRow(ks, rows[i], x1, x2, None, rule, o) == Ok(terms[i]) {
      TripleRow(v1, v2, v3, x1, x2, rows[i], rule, o);
    }
    RowsValue(ks, rows, x1, x2, rule, o, terms);
  }

  /** One row of three linear factors is the product of their values. */
  lemma {:induction false} TripleRow(v1: real, v2: real, v3: real, x1: real, x2: real, row: seq<int>, rule: ProductRule, o: Oracle)
    requires |row| == 3
    ensures EvalRow([LinearKernel(v1), LinearKernel(v2), LinearKernel(v3)], row, x1, x2, None, rule, o)
         == Ok(TripleTerm(v1, v2, v3, x1, x2, row))
  {
    var a, b, c := row[0], row[1], row[2];
    assert row == [a, b, c];
    LinearEval(v1, x1, x2, a, rule, o);
    LinearEval(v2, x1, x2, b, rule, o);
    LinearEval(v3, x1, x2, c, rule, o);
    RowValue([LinearKernel(v1), LinearKernel(v2), LinearKernel(v3)], row, x1, x2, rule, o, [LV(v1, x1, x2, a), LV(v2, x1, x2, b), LV(v3, x1, x2, c)]);
  }

  /** Rows of three factors at first order, as written and by the product rule. */
  lemma {:induction false} ThreeFactorRows(rule: ProductRule)
    ensures Rows(rule, 3, 1) == if rule == AsWritten then [[1, 0, 0], [0, 1, 0], [0, 0, 1], [0, 1, 0]]
                                else [[1, 0, 0], [0, 1, 0], [0, 0, 1]]
  {
    if rule == AsWritten {
      DerMatThreeFirstOrder();
    } else {
      LeibnizFirstOrder(3, 1);
      assert SingleRow(3, 0, 1) == [1, 0, 0] && SingleRow(3, 1, 1) == [0, 1, 0] && SingleRow(3, 2, 1) == [0, 0, 1];
    }
  }

  /** `v1^2 v2^2 v3^2 x1^3 x2^2`, what each first-order row of three linear factors contributes. */
  function TripleUnit(v1: real, v2: real, v3: real, x1: real, x2: real): real
  {
    (v1 * v1) * (v2 * v2) * (v3 * v3) * (x1 * x1 * x1) * (x2 * x2)
  }

  lemma {:induction false} TripleTermValue(v1: real, v2: real, v3: real, x1: real, x2: real, row: seq<int>)
    requires row == [1, 0, 0] || row == [0, 1, 0] || row == [0, 0, 1]
    ensures TripleTerm(v1, v2, v3, x1, x2, row) == TripleUnit(v1, v2, v3, x1, x2)
  {
    var a, b, c := LV(v1, x1, x2, row[0]), LV(v2, x1, x2, row[1]), LV(v3, x1, x2, row[2]);
    assert row == [row[0], row[1], row[2]];
    ProdAllThree(a, b, c);
    LinearUnits(v1, x1, x2);
    LinearUnits(v2, x1, x2);
    LinearUnits(v3, x1, x2);
    var p, q, r := v1 * v1, v2 * v2, v3 * v3;
    if row[0] == 1 {
      UnitFirst(p, q, r, x1, x2);
    } else if row[1] == 1 {
      UnitFirst(q, p, r, x1, x2);
      assert p * (x1 * x2) * (q * x1 * (r * (x1 * x2))) == q * x1 * (p * (x1 * x2) * (r * (x1 * x2)));
    } else {
      UnitFirst(r, p, q, x1, x2);
      assert p * (x1 * x2) * (q * (x1 * x2) * (r * x1)) == r * x1 * (p * (x1 * x2) * (q * (x1 * x2)));
    }
  }

  /** A linear factor differentiated once, and not at all. */
  lemma {:induction false} LinearUnits(v: real, x1: real, x2: real)
    ensures LV(v, x1, x2, 1) == v * v * x1 && LV(v, x1, x2, 0) == v * v * (x1 * x2)
  {
  }

  lemma {:induction false} UnitFirst(p: real, q: real, r: real, x1: real, x2: real)
    ensures p * x1 * (q * (x1 * x2) * (r * (x1 * x2))) == p * q * r * (x1 * x1 * x1) * (x2 * x2)
  {
  }

  function TripleFirst(v1: real, v2: real, v3: real, x1: real, x2: real, rule: ProductRule): real
  {
    (if rule == AsWritten then 4.0 else 3.0) * TripleUnit(v1, v2, v3, x1, x2)
  }

  /**
   * `Product(Linear(v1), Linear(v2), Linear(v3))` differentiated once in
   * `x2`. The product rule gives the derivative of `V (x1 x2)^3`,
   * `3 V x1^3 x2^2` with `V = v1^2 v2^2 v3^2`; as written the second
   * factor's row is counted twice and the result is `4 V x1^3 x2^2`.
   */
  lemma {:induction false} LinearTripleFirst(v1: real, v2: real, v3: real, x1: real, x2: real, rule: ProductRule, o: Oracle)
    ensures Eval(LLL(v1, v2, v3), x1, x2, 1, None, rule, o) == Ok(TripleFirst(v1, v2, v3, x1, x2, rule))
  {
    var rows := Rows(rule, 3, 1);
    LinearTripleRows(v1, v2, v3, x1, x2, 1, rule, o);
    ThreeFactorRows(rule);
    if rule == AsWritten {
      AsWrittenTripleTerms(v1, v2, v3, x1, x2);
    } else {
      LeibnizTripleTerms(v1, v2, v3, x1, x2);
    }
    assert SumAll(TripleTerms(v1, v2, v3, x1, x2, rows)) == TripleFirst(v1, v2, v3, x1, x2, rule);
  }

  lemma {:induction false} AsWrittenTripleTerms(v1: real, v2: real, v3: real, x1: real, x2: real)
    ensures SumAll(TripleTerms(v1, v2, v3, x1, x2, [[1, 0, 0], [0, 1, 0], [0, 0, 1], [0, 1, 0]])) == 4.0 * TripleUnit(v1, v2, v3, x1, x2)
  {
    var t := TripleUnit(v1, v2, v3, x1, x2);
    TripleTermValue(v1, v2, v3, x1, x2, [1, 0, 0]);
    TripleTermValue(v1, v2, v3, x1, x2, [0, 1, 0]);
    TripleTermValue(v1, v2, v3, x1, x2, [0, 0, 1]);
    assert TripleTerms(v1, v2, v3, x1, x2, [[1, 0, 0], [0, 1, 0], [0, 0, 1], [0, 1, 0]]) == [t, t, t, t];
    SumAllFour(t, t, t, t);
  }

  lemma {:induction false} LeibnizTripleTerms(v1: real, v2: real, v3: real, x1: real, x2: real)
    ensures SumAll(TripleTerms(v1, v2, v3, x1, x2, [[1, 0, 0], [0, 1, 0], [0, 0, 1]])) == 3.0 * TripleUnit(v1, v2, v3, x1, x2)
  {
    var t := TripleUnit(v1, v2, v3, x1, x2);
    TripleTermValue(v1, v2, v3, x1, x2, [1, 0, 0]);
    TripleTermValue(v1, v2, v3, x1, x2, [0, 1, 0]);
    TripleTermValue(v1, v2, v3, x1, x2, [0, 0, 1]);
    assert TripleTerms(v1, v2, v3, x1, x2, [[1, 0, 0], [0, 1, 0], [0, 0, 1]]) == [t, t, t];
    SumAllThree(t, t, t);
  }

  /** At `v = 1` and `x1 = x2 = 1` the source gives 4 where the derivative is 3. */
  lemma {:induction false} LinearTripleFirstDiffers(v: real, x: real, o: Oracle)
    requires v == 1.0 && x == 1.0
    ensures Eval(LLL(v, v, v), x, x, 1, None, AsWritten, o) == Ok(4.0)
    ensures Eval(LLL(v, v, v), x, x, 1, None, Leibniz, o) == Ok(3.0)
  {
    LinearTripleFirst(v, v, v, x, x, AsWritten, o);
    LinearTripleFirst(v, v, v, x, x, Leibniz, o);
  }
}
