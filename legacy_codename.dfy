/**
 * The codename scheme of GPR1D.py: `Kernel_Constructor` picks a primitive
 * class by the first letters of a name, `Recursive_Kernel_Constructor`
 * reads `Op_child-child-...` (the form a `klist` construction names its
 * kernel), and `Kernel_Reconstructor` rebuilds a kernel from its name and a
 * flat parameter vector.
 */
module LegacyCodename {
  import opened Wrappers
  import opened Strings
  import opened Kernels
  import opened Construction

  // ----------------------------------------------------------------------
  // Primitive names
  // ----------------------------------------------------------------------

  /**
   * `Kernel_Constructor`'s dispatch: the first class, in the order
   * C, n, L, P, SE, RQ, MH, NN, GGL, whose codename begins the name.
   */
  function PrimMatch(name: string): (r: Option<PrimKind>)
    ensures r.Some? ==> StartsWith(name, Code(r.value))
    ensures r.None? ==> forall kind: PrimKind :: !StartsWith(name, Code(kind))
  {
    if StartsWith(name, "C") then Some(Constant)
    else if StartsWith(name, "n") then Some(Noise)
    else if StartsWith(name, "L") then Some(Linear)
    else if StartsWith(name, "P") then Some(PolyOrder)
    else if StartsWith(name, "SE") then Some(SquaredExp)
    else if StartsWith(name, "RQ") then Some(RationalQuadratic)
    else if StartsWith(name, "MH") then Some(MaternHI)
    else if StartsWith(name, "NN") then Some(NeuralNet)
    else if StartsWith(name, "GGL") then Some(GibbsGaussianLS)
    else None
  }

  /** Every codename selects its own class: no codename begins with one tried before it. */
  lemma {:induction false} PrimMatchCode(kind: PrimKind)
    ensures PrimMatch(Code(kind)) == Some(kind)
  {
    match kind {
      case Constant =>
      case Noise =>
      case Linear =>
      case PolyOrder =>
      case SquaredExp =>
      case RationalQuadratic =>
      case MaternHI =>
      case NeuralNet =>
      case GibbsGaussianLS =>
    }
  }

  /** `Kernel_Constructor(name)`: the selected class with its default arguments, or `None`. */
  function PrimKernel(name: string): (r: Option<Kernel>)
    ensures r.Some? ==> WellShaped(r.value) && r.value.Prim? && StartsWith(name, Code(r.value.kind))
  {
    match PrimMatch(name)
    case None => None
    case Some(kind) => Some(Default(kind))
  }

  // ----------------------------------------------------------------------
  // Operator names
  // ----------------------------------------------------------------------

  /**
   * `re.search(r'^(.*?)_(.*)$', s)`: the text before the first `_` and the
   * text after it, provided neither holds a line break, except that one
   * final line break is allowed (and left out of the second group).
   */
  function UnderscoreSplit(s: string): (r: Option<(string, string)>)
    ensures r.Some? ==> '_' !in r.value.0 && '\n' !in r.value.0 && '\n' !in r.value.1
    ensures r.Some? ==> s == r.value.0 + "_" + r.value.1 || s == r.value.0 + "_" + r.value.1 + "\n"
    ensures r.Some? ==> |r.value.0| + |r.value.1| < |s|
    ensures '_' !in s ==> r.None?
  {
    if '_' !in s then None
    else
      var i := IndexOf(s, '_');
      var head, rest := s[..i], s[i + 1..];
      assert s == head + "_" + rest;
      var body := if rest != [] && rest[|rest| - 1] == '\n' then rest[..|rest| - 1] else rest;
      assert rest == body || rest == body + "\n";
      if '\n' in head || '\n' in body then None else Some((head, body))
  }

  /** The groups are read back from any name of that form. */
  lemma {:induction false} UnderscoreSplitOf(head: string, body: string)
    requires '_' !in head && '\n' !in head && '\n' !in body
    ensures UnderscoreSplit(head + "_" + body) == Some((head, body))
  {
    var s := head + "_" + body;
    assert forall j :: 0 <= j < |head| ==> s[j] == head[j];
    assert s[|head|] == '_';
    var i := IndexOf(s, '_');
    assert i == |head|;
    assert s[..i] == head && s[i + 1..] == body;
    if body != [] {
      assert body[|body| - 1] in body;
    }
  }

  function Lift(r: Result<Kernel>): Result<Option<Kernel>>
  {
    match r
    case Err(e) => Err(e)
    case Ok(k) => Ok(Some(k))
  }

  /**
   * `Recursive_Kernel_Constructor(name)`: an `Op_...` name is split at its
   * first `_`, the rest on `-`, every piece is built in turn (the first
   * exception wins), and the operator is the first of Sum, Prod, Sym that
   * occurs anywhere in the text before the `_`; a name without that form is
   * a primitive name.
   */
  function Build(name: string): (r: Result<Option<Kernel>>)
    decreases |name|, 1, 0
  {
    match UnderscoreSplit(name)
    case None => Ok(PrimKernel(name))
    case Some((head, body)) =>
      var names := Split(body, '-');
      match BuildAll(names, |name|)
      case Err(e) => Err(e)
      case Ok(kk) => Dispatch(head, kk)
  }

  /** The operator is the first of Sum, Prod, Sym that occurs anywhere in the text before the `_`. */
  function Dispatch(head: string, kk: seq<Option<Kernel>>): Result<Option<Kernel>>
  {
    if Contains(head, "Sum") then Lift(NewOperator(SumOp, [], Some(kk)))
    else if Contains(head, "Prod") then Lift(NewOperator(ProductOp, [], Some(kk)))
    else if Contains(head, "Sym") then Lift(NewOperator(SymmetricOp, [], Some(kk)))
    else Ok(None)
  }

  function BuildAll(names: seq<string>, bound: nat): (r: Result<seq<Option<Kernel>>>)
    requires forall i :: 0 <= i < |names| ==> |names[i]| < bound
    ensures r.Ok? ==> |r.value| == |names|
    decreases bound, 0, |names|
  {
    if names == [] then Ok([])
    else
      match Build(names[0])
      case Err(e) => Err(e)
      case Ok(k0) =>
        match BuildAll(names[1..], bound)
        case Err(e) => Err(e)
        case Ok(rest) => Ok([k0] + rest)
  }

  /** Pieces that build one by one build together, in order. */
  lemma {:induction false} BuildAllPointwise(names: seq<string>, bound: nat, ks: seq<Option<Kernel>>)
    requires forall i :: 0 <= i < |names| ==> |names[i]| < bound
    requires |ks| == |names| && forall i :: 0 <= i < |names| ==> Build(names[i]) == Ok(ks[i])
    ensures BuildAll(names, bound) == Ok(ks)
    decreases |names|
  {
    if names != [] {
      BuildAllPointwise(names[1..], bound, ks[1..]);
      assert ks == [ks[0]] + ks[1..];
    }
  }

  lemma {:induction false} BuildAllOne(n: string, bound: nat)
    requires |n| < bound
    ensures BuildAll([n], bound) == match Build(n) case Err(e) => Err(e) case Ok(k) => Ok([k])
  {
    var names := [n];
    assert names[0] == n && names[1..] == [];
    assert BuildAll(names[1..], bound) == Ok([]);
    match Build(n) {
      case Err(e) =>
      case Ok(k) => assert [k] + [] == [k];
    }
  }

  function Codes(kinds: seq<PrimKind>): (r: seq<string>)
    ensures |r| == |kinds| && forall i :: 0 <= i < |kinds| ==> r[i] == Code(kinds[i])
  {
    seq(|kinds|, i requires 0 <= i < |kinds| => Code(kinds[i]))
  }

  function Defaults(kinds: seq<PrimKind>): (r: seq<Kernel>)
    ensures |r| == |kinds| && forall i :: 0 <= i < |kinds| ==> r[i] == Default(kinds[i])
  {
    seq(|kinds|, i requires 0 <= i < |kinds| => Default(kinds[i]))
  }

  /** Codenames hold no `_`, `-` or line break. */
  lemma {:induction false} CodePlain(kind: PrimKind)
    ensures Code(kind) != [] && '_' !in Code(kind) && '-' !in Code(kind) && '\n' !in Code(kind)
  {
  }

  lemma {:induction false} BuildCode(kind: PrimKind)
    ensures Build(Code(kind)) == Ok(Some(Default(kind)))
  {
    CodePlain(kind);
    PrimMatchCode(kind);
  }

  lemma {:induction false} BuildAllCodes(kinds: seq<PrimKind>, bound: nat)
    requires forall i :: 0 <= i < |kinds| ==> |Code(kinds[i])| < bound
    ensures BuildAll(Codes(kinds), bound) == Ok(Wrap(Defaults(kinds)))
  {
    var names, ks := Codes(kinds), Wrap(Defaults(kinds));
    forall i | 0 <= i < |kinds| ensures Build(names[i]) == Ok(ks[i]) {
      BuildCode(kinds[i]);
    }
    BuildAllPointwise(names, bound, ks);
  }

  lemma {:induction false} NamesOfDefaults(kinds: seq<PrimKind>)
    ensures Names(Defaults(kinds)) == Codes(kinds) && NamedList(Defaults(kinds))
  {
    forall i | 0 <= i < |kinds| ensures Name(Defaults(kinds)[i]) == Code(kinds[i]) != [] {
      CodePlain(kinds[i]);
    }
  }

  function OpWord(op: OpKind): (w: string)
    ensures OpPrefix(op) == w + "_"
  {
    match op
    case SumOp => "Sum"
    case ProductOp => "Prod"
    case SymmetricOp => "Sym"
  }

  /** The word before the `_` selects its own operator. */
  lemma {:induction false} OpWordDispatch(op: OpKind, kk: seq<Option<Kernel>>)
    ensures Dispatch(OpWord(op), kk) == Lift(NewOperator(op, [], Some(kk)))
  {
    var w := OpWord(op);
    StartsWithSpec(w, w);
    match op {
      case SumOp => NotContains(w, "Prod", 0); NotContains(w, "Sym", 1);
      case ProductOp => NotContains(w, "Sum", 0); NotContains(w, "Sym", 0);
      case SymmetricOp => NotContains(w, "Sum", 1); NotContains(w, "Prod", 0);
    }
  }

  /**
   * An `Op_` name over codenames is read as that operator over the default
   * primitives, given to its constructor as a `klist`.
   */
  lemma {:induction false} BuildOpOfCodes(op: OpKind, kinds: seq<PrimKind>)
    requires kinds != []
    ensures Build(OpPrefix(op) + Join(Codes(kinds), "-")) == Lift(NewOperator(op, [], Some(Wrap(Defaults(kinds)))))
  {
    var codes := Codes(kinds);
    var body := Join(codes, "-");
    var name := OpPrefix(op) + body;
    forall i | 0 <= i < |codes| ensures '-' !in codes[i] && '\n' !in codes[i] {
      CodePlain(kinds[i]);
    }
    JoinAvoids(codes, "-", '\n');
    UnderscoreSplitOf(OpWord(op), body);
    assert name == OpWord(op) + "_" + body;
    SplitJoin(codes, '-');
    assert Split(body, '-') == codes;
    forall i | 0 <= i < |kinds| ensures |Code(kinds[i])| < |name| {
      assert |Split(body, '-')[i]| <= |body|;
    }
    BuildAllCodes(kinds, |name|);
    OpWordDispatch(op, Wrap(Defaults(kinds)));
    assert Build(name) == Dispatch(OpWord(op), Wrap(Defaults(kinds)));
  }

  /**
   * Round trip: a `klist` construction over default primitives (two or more
   * for `Sum_` and `Prod_`, one or more for `Sym_`) names its kernel so
   * that `Recursive_Kernel_Constructor` rebuilds exactly that kernel.
   */
  lemma {:induction false} BuildRoundTrip(op: OpKind, kinds: seq<PrimKind>)
    requires |kinds| >= (if op == SymmetricOp then 1 else 2)
    ensures NewOperator(op, [], Some(Wrap(Defaults(kinds)))).Ok?
    ensures Build(Name(NewOperator(op, [], Some(Wrap(Defaults(kinds)))).value))
         == Ok(Some(NewOperator(op, [], Some(Wrap(Defaults(kinds)))).value))
  {
    var ks := Defaults(kinds);
    NamesOfDefaults(kinds);
    NewOperatorList(op, ks);
    var r := NewOperator(op, [], Some(Wrap(ks)));
    var kept := if op == SymmetricOp then kinds[..1] else kinds;
    var dk := Defaults(kept);
    assert dk == (if op == SymmetricOp then ks[..1] else ks);
    assert r.value == Op(op, OpPrefix(op) + Join(Names(dk), "-"), dk);
    NamesOfDefaults(kept);
    assert Name(r.value) == OpPrefix(op) + Join(Codes(kept), "-");
    BuildOpOfCodes(op, kept);
    NewOperatorList(op, dk);
    if op == SymmetricOp {
      assert dk[..1] == dk;
    }
    assert NewOperator(op, [], Some(Wrap(dk))) == r;
  }

  /**
   * A positionally built `Sum_`/`Prod_` kernel of two primitives is named by
   * the codenames run together (`Sum_SEn`): read back, that is one child,
   * and the operator constructor raises `TypeError`.
   */
  lemma {:induction false} PositionalNameRejected(op: OpKind, a: PrimKind, b: PrimKind)
    requires op != SymmetricOp
    ensures NewOperator(op, [Some(Default(a)), Some(Default(b))], None).Ok?
    ensures Build(Name(NewOperator(op, [Some(Default(a)), Some(Default(b))], None).value)) == Err(TypeError)
  {
    NewOperatorPositional(op, Default(a), Default(b));
    var body := Code(a) + Code(b);
    CodePlain(a);
    CodePlain(b);
    assert OpPrefix(op) + Code(a) + Code(b) == OpWord(op) + "_" + body;
    OneChildRejected(op, body);
  }

  /** An `Op_` name whose rest holds no `-` names a single child, too few for `Sum_` or `Prod_`. */
  lemma {:induction false} OneChildRejected(op: OpKind, body: string)
    requires op != SymmetricOp && '-' !in body && '\n' !in body && '_' !in body
    ensures Build(OpWord(op) + "_" + body) == Err(TypeError)
  {
    UnderscoreSplitOf(OpWord(op), body);
    assert Split(body, '-') == [body];
    var name := OpWord(op) + "_" + body;
    var x := PrimKernel(body);
    assert Build(body) == Ok(x);
    BuildAllOne(body, |name|);
    OpWordDispatch(op, [x]);
    assert Build(name) == Dispatch(OpWord(op), [x]);
  }

  /**
   * An operator name whose first child name is itself an operator name is
   * cut at that child's first `-`, so the child reads as a one-child
   * `Sum_`/`Prod_` and raises `TypeError`.
   */
  lemma {:induction false} NestedChildRejected(op: OpKind, inner: OpKind, x: string, rest: string)
    requires inner != SymmetricOp && '-' !in x && '\n' !in x && '_' !in x && '\n' !in rest
    ensures Build(OpWord(op) + "_" + (OpWord(inner) + "_" + x + "-" + rest)) == Err(TypeError)
  {
    var child := OpWord(inner) + "_" + x;
    var body := child + "-" + rest;
    var name := OpWord(op) + "_" + body;
    OpWordPlain(inner);
    assert '\n' !in child && '-' !in child;
    NestedSplit(op, child, rest);
    var names := Split(body, '-');
    OneChildRejected(inner, x);
    BuildAllHeadErr(names, |name|, TypeError);
    BuildErr(name, OpWord(op), body, TypeError);
  }

  /** The word of an operator holds no `_`, `-` or line break. */
  lemma {:induction false} OpWordPlain(op: OpKind)
    ensures '_' !in OpWord(op) && '-' !in OpWord(op) && '\n' !in OpWord(op)
  {
  }

  /** An `Op_` name over a first child free of `-` is split there, the child first. */
  lemma {:induction false} NestedSplit(op: OpKind, child: string, rest: string)
    requires '-' !in child && '\n' !in child && '\n' !in rest
    ensures UnderscoreSplit(OpWord(op) + "_" + (child + "-" + rest)) == Some((OpWord(op), child + "-" + rest))
    ensures Split(child + "-" + rest, '-')[0] == child
  {
    var body := child + "-" + rest;
    assert '\n' !in body;
    OpWordPlain(op);
    UnderscoreSplitOf(OpWord(op), body);
    SplitAround(child, '-', rest);
  }

  /** The first child that raises decides the outcome of the list. */
  lemma {:induction false} BuildAllHeadErr(names: seq<string>, bound: nat, e: Error)
    requires names != [] && forall i :: 0 <= i < |names| ==> |names[i]| < bound
    requires Build(names[0]) == Err(e)
    ensures BuildAll(names, bound) == Err(e)
  {
  }

  /** An `Op_` name whose children raise raises the same. */
  lemma {:induction false} BuildErr(name: string, head: string, body: string, e: Error)
    requires UnderscoreSplit(name) == Some((head, body))
    requires forall i :: 0 <= i < |Split(body, '-')| ==> |Split(body, '-')[i]| < |name|
    requires BuildAll(Split(body, '-'), |name|) == Err(e)
    ensures Build(name) == Err(e)
  {
  }

  /**
   * `Sum_Kernel(klist=[Product_Kernel(klist=[a, b]), c])` is named
   * `Sum_Prod_a-b-c`, and that name reads back as an error: nested
   * operator names do not round-trip.
   */
  lemma {:induction false} NestedNameRejected(op: OpKind, inner: OpKind, a: PrimKind, b: PrimKind, c: PrimKind)
    requires op != SymmetricOp && inner != SymmetricOp
    ensures NewOperator(inner, [], Some(Wrap([Default(a), Default(b)]))).Ok?
    ensures var k1 := NewOperator(inner, [], Some(Wrap([Default(a), Default(b)]))).value;
            NewOperator(op, [], Some(Wrap([k1, Default(c)]))).Ok?
            && Build(Name(NewOperator(op, [], Some(Wrap([k1, Default(c)]))).value)) == Err(TypeError)
  {
    CodePlain(a);
    CodePlain(b);
    CodePlain(c);
    NestedName(op, inner, Default(a), Default(b), Default(c));
    NestedChildRejected(op, inner, Code(a), Code(b) + "-" + Code(c));
  }

  /** The name of that nested kernel, spelled out. */
  lemma {:induction false} NestedName(op: OpKind, inner: OpKind, ka: Kernel, kb: Kernel, kc: Kernel)
    requires op != SymmetricOp && inner != SymmetricOp && Name(ka) != [] && Name(kb) != [] && Name(kc) != []
    ensures NewOperator(inner, [], Some(Wrap([ka, kb]))).Ok?
    ensures var k1 := NewOperator(inner, [], Some(Wrap([ka, kb]))).value;
            && NewOperator(op, [], Some(Wrap([k1, kc]))).Ok?
            && Name(NewOperator(op, [], Some(Wrap([k1, kc]))).value)
               == OpWord(op) + "_" + (OpWord(inner) + "_" + Name(ka) + "-" + (Name(kb) + "-" + Name(kc)))
  {
    PairName(inner, ka, kb);
    var k1 := NewOperator(inner, [], Some(Wrap([ka, kb]))).value;
    PairName(op, k1, kc);
    var k := NewOperator(op, [], Some(Wrap([k1, kc]))).value;
    var x, q, b, c := OpWord(op) + "_", OpWord(inner) + "_" + Name(ka) + "-", Name(kb), Name(kc);
    assert Name(k1) == q + b;
    assert Name(k) == x + (q + b) + "-" + c;
    Assoc(x, q + b, "-");
    Assoc(x, (q + b) + "-", c);
    Assoc(q + b, "-", c);
    Assoc(q, b, "-" + c);
    Assoc(b, "-", c);
  }

  lemma {:induction false} Assoc(a: string, b: string, c: string)
    ensures a + b + c == a + (b + c)
  {
  }

  /** The `klist` name of a two-kernel sum or product. */
  lemma {:induction false} PairName(op: OpKind, k1: Kernel, k2: Kernel)
    requires op != SymmetricOp && Name(k1) != [] && Name(k2) != []
    ensures NewOperator(op, [], Some(Wrap([k1, k2]))) == Ok(Op(op, OpPrefix(op) + Name(k1) + "-" + Name(k2), [k1, k2]))
  {
    var ks := [k1, k2];
    assert NamedList(ks);
    NewOperatorList(op, ks);
    assert Names(ks) == [Name(k1), Name(k2)] && [Name(k1), Name(k2)][1..] == [Name(k2)];
    assert Join([Name(k2)], "-") == Name(k2);
    assert Join(Names(ks), "-") == Name(k1) + "-" + Name(k2);
    assert NewOperator(op, [], Some(Wrap(ks))).Ok?;
    assert NewOperator(op, [], Some(Wrap(ks))).value == Op(op, OpPrefix(op) + Join(Names(ks), "-"), ks);
    assert OpPrefix(op) + (Name(k1) + "-" + Name(k2)) == OpPrefix(op) + Name(k1) + "-" + Name(k2);
  }

  // ----------------------------------------------------------------------
  // Kernel_Reconstructor
  // ----------------------------------------------------------------------

  /**
   * The hyperparameter step after the kernel is built: `p[:nhyp]` is set
   * whenever the vector is long enough. With `always` the setter runs even
   * on a kernel without hyperparameters, as the source does.
   */
  function HypStage(k: Kernel, p: seq<real>, log: bool, pow10: real -> real, always: bool): Result<Kernel>
  {
    var nhyp := |Params(k, Hyp)|;
    if |p| >= nhyp && (always || nhyp > 0) then WithParams(k, Hyp, p[..nhyp], log, pow10) else Ok(k)
  }

  /** Then the constants `p[nhyp:nhyp+ncst]`, when there are constants and the vector covers them. */
  function Fill(k: Kernel, p: seq<real>, log: bool, pow10: real -> real, always: bool): (r: Result<Kernel>)
  {
    var nhyp, ncst := |Params(k, Hyp)|, |Params(k, Cst)|;
    match HypStage(k, p, log, pow10, always)
    case Err(e) => Err(e)
    case Ok(k1) =>
      if ncst > 0 && |p| >= nhyp + ncst then WithParams(k1, Cst, p[nhyp..nhyp + ncst], log, pow10)
      else Ok(k1)
  }

  /** `Kernel_Reconstructor(name, pars, log)` as written; `pars` is `None` when it is not a list, tuple or array. */
  function Reconstruct(name: string, pars: Option<seq<real>>, log: bool, pow10: real -> real): Result<Option<Kernel>>
  {
    match Build(name)
    case Err(e) => Err(e)
    case Ok(None) => Ok(None)
    case Ok(Some(k)) => if pars.None? then Ok(Some(k)) else Lift(Fill(k, pars.value, log, pow10, true))
  }

  /** The same, with the hyperparameter setter skipped on a kernel that has none. */
  function ReconstructGuarded(name: string, pars: Option<seq<real>>, log: bool, pow10: real -> real): Result<Option<Kernel>>
  {
    match Build(name)
    case Err(e) => Err(e)
    case Ok(None) => Ok(None)
    case Ok(Some(k)) => if pars.None? then Ok(Some(k)) else Lift(Fill(k, pars.value, log, pow10, false))
  }

  lemma {:induction false} ParamsSettable(k: Kernel, slot: Slot)
    requires WellShaped(k)
    ensures Settable(k, slot) <==> |Params(k, slot)| > 0
  {
    if k.Prim? {
      var pos := if slot == Hyp then HypPositions(k.kind) else CstPositions(k.kind);
      var v := AsVector(Pick(k.kind, DefaultArgs(k.kind), pos));
      assert SameLength(Stored(k, slot), v);
    }
  }

  lemma {:induction false} HypStageGuarded(k: Kernel, p: seq<real>, log: bool, pow10: real -> real)
    requires WellShaped(k) && |p| >= |Params(k, Hyp)|
    ensures HypStage(k, p, log, pow10, false).Ok?
    ensures var k1 := HypStage(k, p, log, pow10, false).value;
            && SameShape(k, k1) && WellShaped(k1)
            && Params(k1, Hyp) == Incoming(Hyp, p, log, pow10)[..|Params(k, Hyp)|]
            && Params(k1, Cst) == Params(k, Cst)
  {
    var nhyp := |Params(k, Hyp)|;
    ParamsSettable(k, Hyp);
    if nhyp > 0 {
      SetThenGet(k, Hyp, p[..nhyp], log, pow10);
      var k1 := WithParams(k, Hyp, p[..nhyp], log, pow10).value;
      assert Incoming(Hyp, p[..nhyp], log, pow10)[..nhyp] == Incoming(Hyp, p, log, pow10)[..nhyp];
      SameShapeKeepsWellShaped(k, k1);
    } else {
      SameShapeRefl(k);
    }
  }

  lemma {:induction false} CstStage(k: Kernel, k1: Kernel, q: seq<real>, log: bool, pow10: real -> real) returns (k2: Kernel)
    requires WellShaped(k1) && SameShape(k, k1) && Params(k1, Cst) == Params(k, Cst)
    requires |q| == |Params(k, Cst)| > 0
    ensures WithParams(k1, Cst, q, log, pow10) == Ok(k2)
    ensures SameShape(k, k2) && Params(k2, Cst) == q && Params(k2, Hyp) == Params(k1, Hyp)
  {
    k2 := SetConstants(k1, q, log, pow10);
    SameShapeTrans(k, k1, k2);
  }

  /** The constant setter given exactly as many values as the kernel holds. */
  lemma {:induction false} SetConstants(k: Kernel, q: seq<real>, log: bool, pow10: real -> real) returns (k': Kernel)
    requires WellShaped(k) && |q| == |Params(k, Cst)| > 0
    ensures WithParams(k, Cst, q, log, pow10) == Ok(k')
    ensures SameShape(k, k') && Params(k', Cst) == q && Params(k', Hyp) == Params(k, Hyp)
  {
    ParamsSettable(k, Cst);
    SetThenGet(k, Cst, q, log, pow10);
    assert q[..|q|] == q;
    k' := WithParams(k, Cst, q, log, pow10).value;
  }

  /**
   * With the guard, a vector covering all parameters always succeeds: the
   * kernel keeps its shape, its hyperparameters are the first `nhyp` values
   * (after `10**` in log space) and its constants the next `ncst`.
   */
  lemma {:induction false} FillGuarded(k: Kernel, p: seq<real>, log: bool, pow10: real -> real)
    requires WellShaped(k) && |p| >= |Params(k, Hyp)| + |Params(k, Cst)|
    ensures Fill(k, p, log, pow10, false).Ok?
    ensures Filled(k, p, log, pow10, Fill(k, p, log, pow10, false).value)
  {
    HypStageGuarded(k, p, log, pow10);
    var k1 := HypStage(k, p, log, pow10, false).value;
    if |Params(k, Cst)| > 0 {
      FillWithConstants(k, k1, p, log, pow10);
    } else {
      FillWithoutConstants(k, k1, p, log, pow10);
    }
  }

  /** The kernel has the shape of `k`, the first `nhyp` values as hyperparameters and the next `ncst` as constants. */
  predicate Filled(k: Kernel, p: seq<real>, log: bool, pow10: real -> real, k': Kernel)
  {
    var nhyp, ncst := |Params(k, Hyp)|, |Params(k, Cst)|;
    && nhyp + ncst <= |p|
    && SameShape(k, k')
    && Params(k', Hyp) == Incoming(Hyp, p, log, pow10)[..nhyp]
    && Params(k', Cst) == p[nhyp..nhyp + ncst]
  }

  lemma {:induction false} FillWithConstants(k: Kernel, k1: Kernel, p: seq<real>, log: bool, pow10: real -> real)
    requires WellShaped(k) && |p| >= |Params(k, Hyp)| + |Params(k, Cst)| && |Params(k, Cst)| > 0
    requires HypStage(k, p, log, pow10, false) == Ok(k1)
    requires SameShape(k, k1) && WellShaped(k1)
    requires Params(k1, Hyp) == Incoming(Hyp, p, log, pow10)[..|Params(k, Hyp)|] && Params(k1, Cst) == Params(k, Cst)
    ensures Fill(k, p, log, pow10, false).Ok?
    ensures Filled(k, p, log, pow10, Fill(k, p, log, pow10, false).value)
  {
    var nhyp, ncst := |Params(k, Hyp)|, |Params(k, Cst)|;
    var q := p[nhyp..nhyp + ncst];
    var k2 := CstStage(k, k1, q, log, pow10);
    FillThroughConstants(k, k1, k2, p, q, log, pow10);
    FilledBy(k, p, log, pow10, k2, nhyp, ncst);
  }

  /** `Filled`, from its parts. */
  lemma {:induction false} FilledBy(k: Kernel, p: seq<real>, log: bool, pow10: real -> real, k': Kernel, nhyp: nat, ncst: nat)
    requires nhyp == |Params(k, Hyp)| && ncst == |Params(k, Cst)| && nhyp + ncst <= |p|
    requires SameShape(k, k') && Params(k', Hyp) == Incoming(Hyp, p, log, pow10)[..nhyp]
    requires Params(k', Cst) == p[nhyp..nhyp + ncst]
    ensures Filled(k, p, log, pow10, k')
  {
  }

  /** Past the hyperparameter step, the fill is the constant setter. */
  lemma {:induction false} FillThroughConstants(k: Kernel, k1: Kernel, k2: Kernel, p: seq<real>, q: seq<real>, log: bool, pow10: real -> real)
    requires |p| >= |Params(k, Hyp)| + |Params(k, Cst)| && |Params(k, Cst)| > 0
    requires HypStage(k, p, log, pow10, false) == Ok(k1)
    requires q == p[|Params(k, Hyp)|..|Params(k, Hyp)| + |Params(k, Cst)|] && WithParams(k1, Cst, q, log, pow10) == Ok(k2)
    ensures Fill(k, p, log, pow10, false) == Ok(k2)
  {
  }

  lemma {:induction false} FillWithoutConstants(k: Kernel, k1: Kernel, p: seq<real>, log: bool, pow10: real -> real)
    requires |p| >= |Params(k, Hyp)| && |Params(k, Cst)| == 0
    requires HypStage(k, p, log, pow10, false) == Ok(k1)
    requires SameShape(k, k1)
    requires Params(k1, Hyp) == Incoming(Hyp, p, log, pow10)[..|Params(k, Hyp)|] && Params(k1, Cst) == Params(k, Cst)
    ensures Fill(k, p, log, pow10, false) == Ok(k1)
    ensures Filled(k, p, log, pow10, k1)
  {
    var nhyp := |Params(k, Hyp)|;
    assert p[nhyp..nhyp + 0] == [];
  }

  lemma {:induction false} SameShapeTrans(a: Kernel, b: Kernel, c: Kernel)
    requires SameShape(a, b) && SameShape(b, c)
    ensures SameShape(a, c)
    decreases a
  {
    if a.Op? {
      forall i | 0 <= i < |a.children| ensures SameShape(a.children[i], c.children[i]) {
        SameShapeTrans(a.children[i], b.children[i], c.children[i]);
      }
    }
  }

  /** As written, the fill agrees with the guarded one on a kernel that has hyperparameters. */
  lemma {:induction false} FillAgrees(k: Kernel, p: seq<real>, log: bool, pow10: real -> real)
    requires |Params(k, Hyp)| > 0
    ensures Fill(k, p, log, pow10, true) == Fill(k, p, log, pow10, false)
  {
  }

  /** As written, any parameter vector given to a kernel without hyperparameters raises `AttributeError`. */
  lemma {:induction false} FillRaises(k: Kernel, p: seq<real>, log: bool, pow10: real -> real)
    requires WellShaped(k) && |Params(k, Hyp)| == 0
    ensures Fill(k, p, log, pow10, true) == Err(AttributeError)
    ensures |p| >= |Params(k, Cst)| ==> Fill(k, p, log, pow10, false).Ok?
  {
    ParamsSettable(k, Hyp);
    SetOutcome(k, Hyp, p[..0], log, pow10);
    if |p| >= |Params(k, Cst)| {
      FillGuarded(k, p, log, pow10);
    }
  }

  /** A vector too short for the hyperparameters is ignored. */
  lemma {:induction false} FillShort(k: Kernel, p: seq<real>, log: bool, pow10: real -> real, always: bool)
    requires |p| < |Params(k, Hyp)|
    ensures Fill(k, p, log, pow10, always) == Ok(k)
  {
  }

  /**
   * `Kernel_Reconstructor("C", [c])` raises `AttributeError`, where the
   * evident intent is a constant kernel holding `c`.
   */
  lemma {:induction false} ConstantReconstruct(c: real, log: bool, pow10: real -> real)
    ensures Reconstruct("C", Some([c]), log, pow10) == Err(AttributeError)
    ensures ReconstructGuarded("C", Some([c]), log, pow10) == Ok(Some(Prim(Constant, None, Some([c]))))
  {
    BuildCode(Constant);
    var k := Default(Constant);
    assert k == Prim(Constant, None, Some([1.0]));
    FillRaises(k, [c], log, pow10);
    assert [c][0..0 + 1] == [c];
  }

  /**
   * The guarded reconstructor on a kernel's own name and parameters: for a
   * name that builds a kernel and a vector covering its parameters, the
   * result has that kernel's shape with the given values.
   */
  lemma {:induction false} ReconstructGuardedSpec(name: string, p: seq<real>, log: bool, pow10: real -> real, k: Kernel)
    requires Build(name) == Ok(Some(k)) && WellShaped(k)
    requires |p| >= |Params(k, Hyp)| + |Params(k, Cst)|
    ensures ReconstructGuarded(name, Some(p), log, pow10).Ok?
    ensures ReconstructGuarded(name, Some(p), log, pow10).value.Some?
    ensures Filled(k, p, log, pow10, ReconstructGuarded(name, Some(p), log, pow10).value.value)
  {
    FillGuarded(k, p, log, pow10);
  }
}
