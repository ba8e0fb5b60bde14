/**
 * Kernel objects of GPR1D.py: named covariance functions carrying a
 * hyperparameter vector and a constant vector, and the operator kernels
 * (sum, product, symmetric) that own an ordered list of child kernels and
 * present the concatenation of their children's vectors as their own.
 *
 * A kernel is a value here: a setter returns the updated kernel (or the
 * exception it raises) instead of overwriting fields of a shared object.
 */
module Kernels {
  import opened Wrappers
  import opened Strings

  /** The primitive kernel classes, one per codename. */
  datatype PrimKind =
    | Constant           // "C",   Constant_Kernel
    | Noise              // "n",   Noise_Kernel
    | Linear             // "L",   Linear_Kernel
    | PolyOrder          // "P",   Poly_Order_Kernel
    | SquaredExp         // "SE",  SE_Kernel
    | RationalQuadratic  // "RQ",  RQ_Kernel
    | MaternHI           // "MH",  Matern_HI_Kernel
    | NeuralNet          // "NN",  NN_Kernel
    | GibbsGaussianLS    // "GGL", GSE_GL_Kernel

  datatype OpKind = SumOp | ProductOp | SymmetricOp

  /** Which of the two parameter vectors a getter or setter works on. */
  datatype Slot = Hyp | Cst

  /**
   * `hyps` and `csts` are `None` where the class stores no array at all
   * (the constant kernel has no hyperparameters, most kernels no constants).
   */
  datatype Kernel =
    | Prim(kind: PrimKind, hyps: Option<seq<real>>, csts: Option<seq<real>>)
    | Op(op: OpKind, name: string, children: seq<Kernel>)

  function Code(kind: PrimKind): string
  {
    match kind
    case Constant => "C"
    case Noise => "n"
    case Linear => "L"
    case PolyOrder => "P"
    case SquaredExp => "SE"
    case RationalQuadratic => "RQ"
    case MaternHI => "MH"
    case NeuralNet => "NN"
    case GibbsGaussianLS => "GGL"
  }

  function OpPrefix(op: OpKind): string
  {
    match op
    case SumOp => "Sum_"
    case ProductOp => "Prod_"
    case SymmetricOp => "Sym_"
  }

  /** `get_name()`. */
  function Name(k: Kernel): string
  {
    if k.Prim? then Code(k.kind) else k.name
  }

  function Other(slot: Slot): Slot
  {
    if slot == Hyp then Cst else Hyp
  }

  function Stored(k: Kernel, slot: Slot): Option<seq<real>>
    requires k.Prim?
  {
    if slot == Hyp then k.hyps else k.csts
  }

  /** `get_hyperparameters()` (linear space) and `get_constants()`. */
  function Params(k: Kernel, slot: Slot): seq<real>
    decreases k
  {
    match k
    case Prim(_, _, _) =>
      (match Stored(k, slot) case None => [] case Some(v) => v)
    case Op(_, _, ks) => ParamsList(ks, slot)
  }

  function ParamsList(ks: seq<Kernel>, slot: Slot): seq<real>
    decreases ks
  {
    if ks == [] then [] else Params(ks[0], slot) + ParamsList(ks[1..], slot)
  }

  lemma {:induction false} ParamsListSplit(ks: seq<Kernel>, slot: Slot, i: nat)
    requires i <= |ks|
    ensures ParamsList(ks, slot) == ParamsList(ks[..i], slot) + ParamsList(ks[i..], slot)
  {
    if i > 0 {
      ParamsListSplit(ks[1..], slot, i - 1);
      assert ks[1..][..i - 1] == ks[..i][1..];
      assert ks[1..][i - 1..] == ks[i..];
    } else {
      assert ks[i..] == ks;
    }
  }

  lemma {:induction false} ParamsListCons(k: Kernel, ks: seq<Kernel>, slot: Slot)
    ensures ParamsList([k] + ks, slot) == Params(k, slot) + ParamsList(ks, slot)
  {
    assert ([k] + ks)[1..] == ks;
  }

  lemma {:induction false} ParamsListOne(k: Kernel, slot: Slot)
    ensures ParamsList([k], slot) == Params(k, slot)
  {
    assert [k][1..] == [];
  }

  /**
   * `get_hyperparameters(log)`: in log space every entry passes through the
   * `log10` oracle. For an operator it is the concatenation of its children's
   * log-space vectors, which is the log of the linear-space concatenation.
   */
  function GetHyperparameters(k: Kernel, log: bool, log10: real -> real): (r: seq<real>)
    ensures r == if log then MapReal(log10, Params(k, Hyp)) else Params(k, Hyp)
    decreases k
  {
    match k
    case Prim(_, h, _) =>
      if h.None? then [] else if log then MapReal(log10, h.value) else h.value
    case Op(_, _, ks) => GetHyperparametersList(ks, log, log10)
  }

  function GetHyperparametersList(ks: seq<Kernel>, log: bool, log10: real -> real): (r: seq<real>)
    ensures r == if log then MapReal(log10, ParamsList(ks, Hyp)) else ParamsList(ks, Hyp)
    decreases ks
  {
    if ks == [] then []
    else
      MapRealConcat(log10, Params(ks[0], Hyp), ParamsList(ks[1..], Hyp));
      GetHyperparameters(ks[0], log, log10) + GetHyperparametersList(ks[1..], log, log10)
  }

  // ----------------------------------------------------------------------
  // Setters
  // ----------------------------------------------------------------------

  /** Python slicing `s[:n]` and `s[n:]`, which clamp at the end. */
  function Take(s: seq<real>, n: nat): seq<real>
  {
    if n <= |s| then s[..n] else s
  }

  function Drop(s: seq<real>, n: nat): seq<real>
  {
    if n <= |s| then s[n..] else []
  }

  /** The values a setter stores: `10**theta` for hyperparameters given in log space. */
  function Incoming(slot: Slot, theta: seq<real>, log: bool, pow10: real -> real): seq<real>
  {
    if slot == Hyp && log then MapReal(pow10, theta) else theta
  }

  function Replace(k: Kernel, slot: Slot, v: seq<real>): Kernel
    requires k.Prim?
  {
    if slot == Hyp then k.(hyps := Some(v)) else k.(csts := Some(v))
  }

  function Cons(k: Kernel, r: Result<seq<Kernel>>): Result<seq<Kernel>>
  {
    match r
    case Ok(v) => Ok([k] + v)
    case Err(e) => Err(e)
  }

  /**
   * `set_hyperparameters(theta, log)` (slot `Hyp`) and `set_constants(theta)`
   * (slot `Cst`, where `log` plays no part), as the kernel they leave behind.
   */
  function WithParams(k: Kernel, slot: Slot, theta: seq<real>, log: bool, pow10: real -> real): Result<Kernel>
    decreases k
  {
    match k
    case Prim(_, _, _) =>
      var u := Incoming(slot, theta, log, pow10);
      (match Stored(k, slot)
       case None => Err(AttributeError)
       case Some(cur) =>
         if |u| >= |cur| then Ok(Replace(k, slot, u[..|cur|])) else Err(ValueError))
    case Op(op, nm, ks) =>
      var n := |ParamsList(ks, slot)|;
      if n == 0 then Err(AttributeError)
      else if |theta| < n then Err(ValueError)
      else
        match WithParamsList(ks, slot, theta, log, pow10)
        case Err(e) => Err(e)
        case Ok(ks') => Ok(Op(op, nm, ks'))
  }

  /**
   * The routing of an operator setter, stated on the part of `theta` not yet
   * handed out: a child without parameters is skipped, the last child with
   * parameters receives all that is left, any other child its own count.
   */
  function WithParamsList(ks: seq<Kernel>, slot: Slot, theta: seq<real>, log: bool, pow10: real -> real): Result<seq<Kernel>>
    decreases ks
  {
    if ks == [] then Ok([])
    else
      var n0 := |Params(ks[0], slot)|;
      if n0 == 0 then Cons(ks[0], WithParamsList(ks[1..], slot, theta, log, pow10))
      else
        var part := if |ParamsList(ks[1..], slot)| == 0 then theta else Take(theta, n0);
        match WithParams(ks[0], slot, part, log, pow10)
        case Err(e) => Err(e)
        case Ok(k0) => Cons(k0, WithParamsList(ks[1..], slot, Drop(theta, n0), log, pow10))
  }

  /** The setter as the source runs it: a walk over the children with a running offset `ndone`. */
  method SetParams(k: Kernel, slot: Slot, theta: seq<real>, log: bool, pow10: real -> real) returns (r: Result<Kernel>)
    ensures r == WithParams(k, slot, theta, log, pow10)
    decreases k, 4
  {
    match k {
      case Prim(_, _, _) =>
        var u := Incoming(slot, theta, log, pow10);
        var cur := Stored(k, slot);
        if cur.None? {
          r := Err(AttributeError);
        } else if |u| >= |cur.value| {
          r := Ok(Replace(k, slot, u[..|cur.value|]));
        } else {
          r := Err(ValueError);
        }
      case Op(_, _, _) =>
        r := SetOperatorParams(k, slot, theta, log, pow10);
    }
  }

  /** The operator case of the setter: the count checks, then the walk over the children. */
  method SetOperatorParams(k: Kernel, slot: Slot, theta: seq<real>, log: bool, pow10: real -> real) returns (r: Result<Kernel>)
    requires k.Op?
    ensures r == WithParams(k, slot, theta, log, pow10)
    decreases k, 3
  {
    var n := |ParamsList(k.children, slot)|;
    if n == 0 {
      return Err(AttributeError);
    }
    if |theta| < n {
      return Err(ValueError);
    }
    var walked := WalkChildren(k, n, slot, theta, log, pow10);
    if walked.Err? {
      r := Err(walked.error);
    } else {
      r := Ok(Op(k.op, k.name, walked.value));
    }
  }

  /** The walk over an operator's children with a running offset `ndone`. */
  method WalkChildren(k: Kernel, n: nat, slot: Slot, theta: seq<real>, log: bool, pow10: real -> real)
    returns (r: Result<seq<Kernel>>)
    requires k.Op? && n == |ParamsList(k.children, slot)| <= |theta|
    ensures r == WithParamsList(k.children, slot, theta, log, pow10)
    decreases k, 2
  {
    var ks := k.children;
    var ndone := 0;
    var done: seq<Kernel> := [];
    var i := 0;
    assert ks[..0] == [] && ks[0..] == ks && theta[0..] == theta;
    match WithParamsList(ks, slot, theta, log, pow10) {
      case Ok(v) => assert [] + v == v;
      case Err(_) =>
    }
    while i < |ks|
      invariant 0 <= i <= |ks|
      invariant ndone == |ParamsList(ks[..i], slot)| <= n
      invariant WithParamsList(ks, slot, theta, log, pow10)
                == PrependAll(done, WithParamsList(ks[i..], slot, theta[ndone..], log, pow10))
    {
      var next, nhere := WalkStep(k, i, ndone, done, n, slot, theta, log, pow10);
      if next.Err? {
        return Err(next.error);
      }
      done, ndone, i := done + [next.value], nhere, i + 1;
    }
    assert ks[i..] == [];
    assert done + [] == done;
    r := Ok(done);
  }

  /** One step of the walk: the offset moves past child `i` and its new value joins the finished prefix. */
  method WalkStep(k: Kernel, i: nat, ndone: nat, done: seq<Kernel>, n: nat, slot: Slot, theta: seq<real>, log: bool, pow10: real -> real)
    returns (next: Result<Kernel>, nhere: nat)
    requires k.Op? && i < |k.children| && n == |ParamsList(k.children, slot)| <= |theta|
    requires ndone == |ParamsList(k.children[..i], slot)| <= n
    requires WithParamsList(k.children, slot, theta, log, pow10)
             == PrependAll(done, WithParamsList(k.children[i..], slot, theta[ndone..], log, pow10))
    ensures next.Err? ==> WithParamsList(k.children, slot, theta, log, pow10) == Err(next.error)
    ensures next.Ok? ==> nhere == |ParamsList(k.children[..i + 1], slot)| <= n
    ensures next.Ok? ==> WithParamsList(k.children, slot, theta, log, pow10)
                         == PrependAll(done + [next.value], WithParamsList(k.children[i + 1..], slot, theta[nhere..], log, pow10))
    decreases k, 1
  {
    var ks := k.children;
    WalkOffsets(ks, slot, i);
    nhere := ndone + |Params(ks[i], slot)|;
    next := SetChild(k, i, ndone, nhere, n, slot, theta, log, pow10);
    if next.Ok? {
      PrependCons(done, next.value, WithParamsList(ks[i + 1..], slot, theta[nhere..], log, pow10));
    }
  }

  /**
   * One child of the walk: a child without parameters is kept as it is; one
   * with parameters has its setter given its own count of values from the
   * offset, or all that is left when it is the last such child.
   */
  method SetChild(k: Kernel, i: nat, ndone: nat, nhere: nat, n: nat, slot: Slot, theta: seq<real>, log: bool, pow10: real -> real)
    returns (r: Result<Kernel>)
    requires k.Op? && i < |k.children| && n == |ParamsList(k.children, slot)| <= |theta|
    requires ndone == |ParamsList(k.children[..i], slot)| && nhere == ndone + |Params(k.children[i], slot)|
    requires ndone <= nhere <= n
    ensures r.Err? ==> WithParamsList(k.children[i..], slot, theta[ndone..], log, pow10) == Err(r.error)
    ensures r.Ok? ==> WithParamsList(k.children[i..], slot, theta[ndone..], log, pow10)
                      == Cons(r.value, WithParamsList(k.children[i + 1..], slot, theta[nhere..], log, pow10))
    decreases k, 0
  {
    var ks := k.children;
    WalkOffsets(ks, slot, i);
    var t := theta[ndone..];
    if nhere == ndone {
      StepSkip(ks[i..], slot, t, log, pow10);
      return Ok(ks[i]);
    }
    var part := if nhere == n then theta[ndone..] else theta[ndone..nhere];
    ThetaSlices(theta, ndone, nhere);
    r := SetParams(ks[i], slot, part, log, pow10);
    if r.Err? {
      StepErr(ks[i..], slot, t, log, pow10, part);
    } else {
      ListHeadStep(ks[i..], slot, t, log, pow10, part, r.value);
    }
  }

  /** The offset bookkeeping of one step of the walk over the children. */
  lemma {:induction false} WalkOffsets(ks: seq<Kernel>, slot: Slot, i: nat)
    requires i < |ks|
    ensures |ParamsList(ks[..i + 1], slot)| == |ParamsList(ks[..i], slot)| + |Params(ks[i], slot)|
    ensures |ParamsList(ks[..i + 1], slot)| + |ParamsList(ks[i + 1..], slot)| == |ParamsList(ks, slot)|
    ensures ks[i..] != [] && ks[i..][0] == ks[i] && ks[i..][1..] == ks[i + 1..]
  {
    ParamsListSplit(ks, slot, i + 1);
    ParamsListSplit(ks[..i + 1], slot, i);
    assert ks[..i + 1][..i] == ks[..i];
    assert ks[..i + 1][i..] == [ks[i]];
    ParamsListOne(ks[i], slot);
    assert ks[i..][1..] == ks[i + 1..];
  }

  lemma {:induction false} ThetaSlices(theta: seq<real>, lo: nat, hi: nat)
    requires lo <= hi <= |theta|
    ensures Take(theta[lo..], hi - lo) == theta[lo..hi] && Drop(theta[lo..], hi - lo) == theta[hi..]
  {
  }

  function PrependAll(done: seq<Kernel>, r: Result<seq<Kernel>>): Result<seq<Kernel>>
  {
    match r
    case Ok(v) => Ok(done + v)
    case Err(e) => Err(e)
  }

  lemma {:induction false} PrependCons(done: seq<Kernel>, k: Kernel, r: Result<seq<Kernel>>)
    ensures PrependAll(done, Cons(k, r)) == PrependAll(done + [k], r)
  {
    if r.Ok? {
      assert done + ([k] + r.value) == done + [k] + r.value;
    }
  }

  /** A setter call that can succeed: the kernel stores the vector, or, for an operator, some child does. */
  predicate Settable(k: Kernel, slot: Slot)
  {
    if k.Prim? then Stored(k, slot).Some? else |Params(k, slot)| > 0
  }

  predicate SameLength(a: Option<seq<real>>, b: Option<seq<real>>)
  {
    a.None? == b.None? && (a.Some? ==> |a.value| == |b.value|)
  }

  /** Same tree, same kinds and names, same vector sizes; only values may differ. */
  predicate SameShape(a: Kernel, b: Kernel)
    decreases a
  {
    match a
    case Prim(kind, h, c) => b.Prim? && b.kind == kind && SameLength(h, b.hyps) && SameLength(c, b.csts)
    case Op(op, nm, ks) =>
      b.Op? && b.op == op && b.name == nm && |b.children| == |ks|
      && forall i :: 0 <= i < |ks| ==> SameShape(ks[i], b.children[i])
  }

  lemma {:induction false} SameShapeRefl(k: Kernel)
    ensures SameShape(k, k)
    decreases k
  {
    if k.Op? {
      forall i | 0 <= i < |k.children| ensures SameShape(k.children[i], k.children[i]) {
        SameShapeRefl(k.children[i]);
      }
    }
  }

  lemma {:induction false} SliceSplit<T>(u: seq<T>, a: nat, b: nat)
    requires a <= b <= |u|
    ensures u[..b] == u[..a] + u[a..b]
  {
  }

  lemma {:induction false} IncomingSlice(slot: Slot, theta: seq<real>, log: bool, pow10: real -> real, a: nat, b: nat)
    requires a <= b <= |theta|
    ensures Incoming(slot, theta[a..b], log, pow10) == Incoming(slot, theta, log, pow10)[a..b]
  {
  }

  /**
   * Read after write: a setter given at least as many values as the kernel
   * holds succeeds, the getter then returns the first values given (after
   * `10**` in log space), the other vector and the kernel's shape are untouched.
   */
  lemma {:induction false} SetThenGet(k: Kernel, slot: Slot, theta: seq<real>, log: bool, pow10: real -> real)
    requires Settable(k, slot) && |theta| >= |Params(k, slot)|
    ensures WithParams(k, slot, theta, log, pow10).Ok?
    ensures Params(WithParams(k, slot, theta, log, pow10).value, slot)
            == Incoming(slot, theta, log, pow10)[..|Params(k, slot)|]
    ensures Params(WithParams(k, slot, theta, log, pow10).value, Other(slot)) == Params(k, Other(slot))
    ensures SameShape(k, WithParams(k, slot, theta, log, pow10).value)
    decreases k, 1
  {
    match k {
      case Prim(kind, h, c) =>
      case Op(op, nm, ks) =>
        SetListThenGet(ks, slot, theta, log, pow10);
    }
  }

  /** What a successful operator setter leaves in its children, `u` being the values it stores. */
  predicate RoutedOk(ks: seq<Kernel>, slot: Slot, u: seq<real>, r: Result<seq<Kernel>>)
  {
    && r.Ok?
    && |r.value| == |ks|
    && |u| >= |ParamsList(ks, slot)|
    && ParamsList(r.value, slot) == u[..|ParamsList(ks, slot)|]
    && ParamsList(r.value, Other(slot)) == ParamsList(ks, Other(slot))
    && forall i :: 0 <= i < |ks| ==> SameShape(ks[i], r.value[i])
  }

  lemma {:induction false} SetListThenGet(ks: seq<Kernel>, slot: Slot, theta: seq<real>, log: bool, pow10: real -> real)
    requires |theta| >= |ParamsList(ks, slot)|
    ensures RoutedOk(ks, slot, Incoming(slot, theta, log, pow10), WithParamsList(ks, slot, theta, log, pow10))
    decreases ks, 1
  {
    if ks != [] {
      var rest := ks[1..];
      var n0 := |Params(ks[0], slot)|;
      if n0 == 0 {
        SetListThenGet(rest, slot, theta, log, pow10);
        SameShapeRefl(ks[0]);
        var v := WithParamsList(rest, slot, theta, log, pow10).value;
        assert WithParamsList(ks, slot, theta, log, pow10) == Ok([ks[0]] + v);
        var u := Incoming(slot, theta, log, pow10);
        assert u[0..] == u;
        RoutedCons(ks, slot, u, ks[0], v);
      } else {
        SetListHead(ks, slot, theta, log, pow10);
      }
    }
  }

  /** A successful head child and a successfully routed tail make a successfully routed list. */
  lemma {:induction false} RoutedCons(ks: seq<Kernel>, slot: Slot, u: seq<real>, k0: Kernel, v: seq<Kernel>)
    requires ks != [] && |u| >= |ParamsList(ks, slot)|
    requires SameShape(ks[0], k0)
    requires Params(k0, slot) == u[..|Params(ks[0], slot)|]
    requires Params(k0, Other(slot)) == Params(ks[0], Other(slot))
    requires RoutedOk(ks[1..], slot, u[|Params(ks[0], slot)|..], Ok(v))
    ensures RoutedOk(ks, slot, u, Ok([k0] + v))
  {
    ConsParams(ks, slot, u, k0, v);
    ConsShapes(ks, k0, v);
  }

  lemma {:induction false} ConsParams(ks: seq<Kernel>, slot: Slot, u: seq<real>, k0: Kernel, v: seq<Kernel>)
    requires ks != [] && |u| >= |ParamsList(ks, slot)|
    requires Params(k0, slot) == u[..|Params(ks[0], slot)|]
    requires Params(k0, Other(slot)) == Params(ks[0], Other(slot))
    requires |u| - |Params(ks[0], slot)| >= |ParamsList(ks[1..], slot)|
    requires ParamsList(v, slot) == u[|Params(ks[0], slot)|..][..|ParamsList(ks[1..], slot)|]
    requires ParamsList(v, Other(slot)) == ParamsList(ks[1..], Other(slot))
    ensures ParamsList([k0] + v, slot) == u[..|ParamsList(ks, slot)|]
    ensures ParamsList([k0] + v, Other(slot)) == ParamsList(ks, Other(slot))
  {
    var rest := ks[1..];
    var n0 := |Params(ks[0], slot)|;
    var m := |ParamsList(rest, slot)|;
    ParamsListCons(k0, v, slot);
    ParamsListCons(k0, v, Other(slot));
    ParamsListCons(ks[0], rest, slot);
    ParamsListCons(ks[0], rest, Other(slot));
    assert ks == [ks[0]] + rest;
    assert u[n0..][..m] == u[n0..n0 + m];
    SliceSplit(u, n0, n0 + m);
  }

  lemma {:induction false} ConsShapes(ks: seq<Kernel>, k0: Kernel, v: seq<Kernel>)
    requires ks != [] && SameShape(ks[0], k0)
    requires |v| == |ks| - 1 && forall i :: 0 <= i < |v| ==> SameShape(ks[1..][i], v[i])
    ensures forall i :: 0 <= i < |ks| ==> SameShape(ks[i], ([k0] + v)[i])
  {
    var w := [k0] + v;
    forall i | 0 <= i < |ks| ensures SameShape(ks[i], w[i]) {
      if i > 0 {
        assert ks[i] == ks[1..][i - 1] && w[i] == v[i - 1];
      }
    }
  }

  /** One step of the routing, for a head child without values. */
  lemma {:induction false} StepSkip(ks: seq<Kernel>, slot: Slot, theta: seq<real>, log: bool, pow10: real -> real)
    requires ks != [] && |Params(ks[0], slot)| == 0
    ensures WithParamsList(ks, slot, theta, log, pow10) == Cons(ks[0], WithParamsList(ks[1..], slot, theta, log, pow10))
  {
  }

  /** One step of the routing, for a head child whose own setter fails. */
  lemma {:induction false} StepErr(ks: seq<Kernel>, slot: Slot, theta: seq<real>, log: bool, pow10: real -> real, part: seq<real>)
    requires ks != [] && |Params(ks[0], slot)| > 0
    requires part == if |ParamsList(ks[1..], slot)| == 0 then theta else Take(theta, |Params(ks[0], slot)|)
    requires WithParams(ks[0], slot, part, log, pow10).Err?
    ensures WithParamsList(ks, slot, theta, log, pow10) == Err(WithParams(ks[0], slot, part, log, pow10).error)
  {
  }

  /** One step of the routing, for a head child that holds values. */
  lemma {:induction false} ListHeadStep(ks: seq<Kernel>, slot: Slot, theta: seq<real>, log: bool, pow10: real -> real, part: seq<real>, k0: Kernel)
    requires ks != [] && |Params(ks[0], slot)| > 0
    requires part == if |ParamsList(ks[1..], slot)| == 0 then theta else Take(theta, |Params(ks[0], slot)|)
    requires WithParams(ks[0], slot, part, log, pow10) == Ok(k0)
    ensures WithParamsList(ks, slot, theta, log, pow10)
            == Cons(k0, WithParamsList(ks[1..], slot, Drop(theta, |Params(ks[0], slot)|), log, pow10))
  {
  }

  lemma {:induction false} SetListHead(ks: seq<Kernel>, slot: Slot, theta: seq<real>, log: bool, pow10: real -> real)
    requires ks != [] && |Params(ks[0], slot)| > 0
    requires |theta| >= |ParamsList(ks, slot)|
    ensures RoutedOk(ks, slot, Incoming(slot, theta, log, pow10), WithParamsList(ks, slot, theta, log, pow10))
    decreases ks, 0
  {
    var rest := ks[1..];
    var n0 := |Params(ks[0], slot)|;
    var m := |ParamsList(rest, slot)|;
    ParamsListCons(ks[0], rest, slot);
    assert ks == [ks[0]] + rest;
    var u := Incoming(slot, theta, log, pow10);
    var part := if m == 0 then theta else Take(theta, n0);
    var k0 := SetHead(ks[0], slot, theta, part, log, pow10);
    var tail := Drop(theta, n0);
    assert tail == theta[n0..|theta|];
    SetListThenGet(rest, slot, tail, log, pow10);
    IncomingSlice(slot, theta, log, pow10, n0, |theta|);
    var v := WithParamsList(rest, slot, tail, log, pow10).value;
    ListHeadStep(ks, slot, theta, log, pow10, part, k0);
    RoutedCons(ks, slot, u, k0, v);
  }

  /** The head child's setter, given the start of `theta` (or all of it), stores the first values. */
  lemma {:induction false} SetHead(k: Kernel, slot: Slot, theta: seq<real>, part: seq<real>, log: bool, pow10: real -> real) returns (k0: Kernel)
    requires |Params(k, slot)| > 0 && |theta| >= |Params(k, slot)|
    requires part == theta || part == Take(theta, |Params(k, slot)|)
    ensures WithParams(k, slot, part, log, pow10) == Ok(k0)
    ensures SameShape(k, k0)
    ensures Params(k0, slot) == Incoming(slot, theta, log, pow10)[..|Params(k, slot)|]
    ensures Params(k0, Other(slot)) == Params(k, Other(slot))
    decreases k, 2
  {
    var n0 := |Params(k, slot)|;
    assert |part| >= n0 && part[..n0] == theta[..n0];
    SetThenGet(k, slot, part, log, pow10);
    k0 := WithParams(k, slot, part, log, pow10).value;
    IncomingSlice(slot, part, log, pow10, 0, n0);
    IncomingSlice(slot, theta, log, pow10, 0, n0);
  }

  /** The three outcomes of a setter call, with the exception each failure raises. */
  lemma {:induction false} SetOutcome(k: Kernel, slot: Slot, theta: seq<real>, log: bool, pow10: real -> real)
    ensures WithParams(k, slot, theta, log, pow10).Ok? <==> Settable(k, slot) && |theta| >= |Params(k, slot)|
    ensures !Settable(k, slot) ==> WithParams(k, slot, theta, log, pow10) == Err(AttributeError)
    ensures Settable(k, slot) && |theta| < |Params(k, slot)| ==> WithParams(k, slot, theta, log, pow10) == Err(ValueError)
  {
    if Settable(k, slot) && |theta| >= |Params(k, slot)| {
      SetThenGet(k, slot, theta, log, pow10);
    }
  }

  /**
   * An operator hands its children slices of the unconverted vector together
   * with the `log` flag, and each primitive converts its own slice: the
   * result is the same as converting the whole vector first.
   */
  lemma {:induction false} SetLogCommutes(k: Kernel, theta: seq<real>, pow10: real -> real)
    ensures WithParams(k, Hyp, theta, true, pow10) == WithParams(k, Hyp, MapReal(pow10, theta), false, pow10)
    decreases k, 1
  {
    if k.Op? {
      SetListLogCommutes(k.children, theta, pow10);
    }
  }

  lemma {:induction false} SetListLogCommutes(ks: seq<Kernel>, theta: seq<real>, pow10: real -> real)
    ensures WithParamsList(ks, Hyp, theta, true, pow10) == WithParamsList(ks, Hyp, MapReal(pow10, theta), false, pow10)
    decreases ks, 0
  {
    if ks != [] {
      var n0 := |Params(ks[0], Hyp)|;
      var mt := MapReal(pow10, theta);
      if n0 == 0 {
        SetListLogCommutes(ks[1..], theta, pow10);
      } else {
        var part := if |ParamsList(ks[1..], Hyp)| == 0 then theta else Take(theta, n0);
        var mpart := if |ParamsList(ks[1..], Hyp)| == 0 then mt else Take(mt, n0);
        assert MapReal(pow10, part) == mpart;
        SetLogCommutes(ks[0], part, pow10);
        assert MapReal(pow10, Drop(theta, n0)) == Drop(mt, n0);
        SetListLogCommutes(ks[1..], Drop(theta, n0), pow10);
      }
    }
  }
}
