/**
 * Building kernels: the primitive constructors with their argument checks,
 * the three operator constructors with their naming rules, and `__copy__`,
 * which rebuilds a kernel from its stored values through the constructors.
 */
module Construction {
  import opened Wrappers
  import opened Strings
  import opened Kernels

  // ----------------------------------------------------------------------
  // Primitive constructors
  // ----------------------------------------------------------------------

  /** Number of constructor arguments of each primitive class. */
  function Arity(kind: PrimKind): nat
  {
    match kind
    case Constant => 1
    case Noise => 1
    case Linear => 1
    case PolyOrder => 2
    case SquaredExp => 2
    case RationalQuadratic => 3
    case MaternHI => 3
    case NeuralNet => 3
    case GibbsGaussianLS => 5
  }

  /** The default argument values, as `Kernel_Constructor` uses them. */
  function DefaultArgs(kind: PrimKind): (r: seq<real>)
    ensures |r| == Arity(kind)
  {
    match kind
    case Constant => [1.0]
    case Noise => [1.0]
    case Linear => [1.0]
    case PolyOrder => [1.0, 1.0]
    case SquaredExp => [1.0, 1.0]
    case RationalQuadratic => [1.0, 1.0, 1.0]
    case MaternHI => [0.1, 0.1, 2.5]
    case NeuralNet => [1.0, 1.0, 1.0]
    case GibbsGaussianLS => [1.0, 1.0, 0.5, 0.0, 1.0]
  }

  /**
   * Which arguments become hyperparameters and which constants, by position.
   * `Matern_HI_Kernel(amp, ls, nu)` keeps `nu` as a constant, and
   * `GSE_GL_Kernel(var, lb, gh, lm, lsig)` keeps `lm` as one and stores
   * `lsig` as its fourth hyperparameter.
   */
  function HypPositions(kind: PrimKind): seq<nat>
  {
    match kind
    case Constant => []
    case Noise => [0]
    case Linear => [0]
    case PolyOrder => [0, 1]
    case SquaredExp => [0, 1]
    case RationalQuadratic => [0, 1, 2]
    case MaternHI => [0, 1]
    case NeuralNet => [0, 1, 2]
    case GibbsGaussianLS => [0, 1, 2, 4]
  }

  function CstPositions(kind: PrimKind): seq<nat>
  {
    match kind
    case Constant => [0]
    case MaternHI => [2]
    case GibbsGaussianLS => [3]
    case _ => []
  }

  /** The condition each argument must meet (besides being an `int` or a `float`). */
  predicate ArgOk(kind: PrimKind, i: nat, a: real)
  {
    match kind
    case Constant => true
    case Noise => true
    case Linear => a > 0.0
    case PolyOrder => a > 0.0
    case SquaredExp => a > 0.0
    case RationalQuadratic => if i == 1 then a != 0.0 else a > 0.0
    case MaternHI => if i == 0 then a > 0.0 else if i == 1 then a != 0.0 else a >= 0.0
    case NeuralNet => i == 0 ==> a > 0.0
    case GibbsGaussianLS => i == 1 || i == 2 || i == 4 ==> a > 0.0
  }

  /** An argument list the constructor accepts; `None` stands for an argument that is not a number. */
  predicate Admissible(kind: PrimKind, args: seq<Option<real>>)
  {
    forall i :: 0 <= i < |args| ==> args[i].Some? && ArgOk(kind, i, args[i].value)
  }

  /** `float(int(nu)) + 0.5`, for the `nu >= 0` the constructor admits. */
  function HalfInteger(nu: real): (r: real)
    requires nu >= 0.0
    ensures nu - 0.5 < r <= nu + 0.5 && r >= 0.5
    ensures (r - 0.5).Floor as real == r - 0.5
  {
    nu.Floor as real + 0.5
  }

  lemma {:induction false} HalfIntegerIdempotent(nu: real)
    requires nu >= 0.0
    ensures HalfInteger(HalfInteger(nu)) == HalfInteger(nu)
  {
    var h := HalfInteger(nu);
    assert (h - 0.5).Floor == nu.Floor;
    assert h.Floor == nu.Floor;
  }

  function Number(a: Option<real>): bool { a.Some? }
  function Positive(a: Option<real>): bool { a.Some? && a.value > 0.0 }
  function NonZero(a: Option<real>): bool { a.Some? && a.value != 0.0 }
  function NonNegative(a: Option<real>): bool { a.Some? && a.value >= 0.0 }

  /**
   * The primitive constructors, each checking its arguments in order and
   * raising `ValueError` at the first one it refuses.
   */
  function Construct(kind: PrimKind, args: seq<Option<real>>): (r: Result<Kernel>)
    requires |args| == Arity(kind)
  {
    match kind
    case Constant =>
      if !Number(args[0]) then Err(ValueError)
      else Ok(Prim(Constant, None, Some([args[0].value])))
    case Noise =>
      if !Number(args[0]) then Err(ValueError)
      else Ok(Prim(Noise, Some([args[0].value]), None))
    case Linear =>
      if !Positive(args[0]) then Err(ValueError)
      else Ok(Prim(Linear, Some([args[0].value]), None))
    case PolyOrder =>
      if !Positive(args[0]) then Err(ValueError)
      else if !Positive(args[1]) then Err(ValueError)
      else Ok(Prim(PolyOrder, Some([args[0].value, args[1].value]), None))
    case SquaredExp =>
      if !Positive(args[0]) then Err(ValueError)
      else if !Positive(args[1]) then Err(ValueError)
      else Ok(Prim(SquaredExp, Some([args[0].value, args[1].value]), None))
    case RationalQuadratic =>
      if !Positive(args[0]) then Err(ValueError)
      else if !NonZero(args[1]) then Err(ValueError)
      else if !Positive(args[2]) then Err(ValueError)
      else Ok(Prim(RationalQuadratic, Some([args[0].value, args[1].value, args[2].value]), None))
    case MaternHI =>
      if !Positive(args[0]) then Err(ValueError)
      else if !NonZero(args[1]) then Err(ValueError)
      else if !NonNegative(args[2]) then Err(ValueError)
      else Ok(Prim(MaternHI, Some([args[0].value, args[1].value]), Some([HalfInteger(args[2].value)])))
    case NeuralNet =>
      if !Positive(args[0]) then Err(ValueError)
      else if !Number(args[1]) then Err(ValueError)
      else if !Number(args[2]) then Err(ValueError)
      else Ok(Prim(NeuralNet, Some([args[0].value, args[1].value, args[2].value]), None))
    case GibbsGaussianLS =>
      if !Number(args[0]) then Err(ValueError)
      else if !Positive(args[1]) then Err(ValueError)
      else if !Positive(args[2]) then Err(ValueError)
      else if !Number(args[3]) then Err(ValueError)
      else if !Positive(args[4]) then Err(ValueError)
      else Ok(Prim(GibbsGaussianLS, Some([args[0].value, args[1].value, args[2].value, args[4].value]), Some([args[3].value])))
  }

  /** The argument at each of `pos`, `Matern_HI_Kernel`'s `nu` brought to a half-integer. */
  function Pick(kind: PrimKind, args: seq<real>, pos: seq<nat>): seq<real>
    requires forall j :: 0 <= j < |pos| ==> pos[j] < |args|
    requires kind == MaternHI && pos == [2] ==> 2 < |args| && args[2] >= 0.0
  {
    if kind == MaternHI && pos == [2] then [HalfInteger(args[2])]
    else seq(|pos|, j requires 0 <= j < |pos| => args[pos[j]])
  }

  function AsVector(v: seq<real>): Option<seq<real>>
  {
    if v == [] then None else Some(v)
  }

  function Values(args: seq<Option<real>>): (r: seq<real>)
    requires forall i :: 0 <= i < |args| ==> args[i].Some?
    ensures |r| == |args| && forall i :: 0 <= i < |args| ==> r[i] == args[i].value
  {
    seq(|args|, i requires 0 <= i < |args| => args[i].value)
  }

  /**
   * A constructor succeeds exactly on admissible arguments, raises
   * `ValueError` otherwise, and stores each argument at its place in the
   * hyperparameter or constant vector.
   */
  lemma {:induction false} ConstructSpec(kind: PrimKind, args: seq<Option<real>>)
    requires |args| == Arity(kind)
    ensures Construct(kind, args).Ok? <==> Admissible(kind, args)
    ensures Construct(kind, args).Err? ==> Construct(kind, args).error == ValueError
    ensures Construct(kind, args).Ok? ==>
              var v := Values(args);
              Construct(kind, args).value
              == Prim(kind, AsVector(Pick(kind, v, HypPositions(kind))), AsVector(Pick(kind, v, CstPositions(kind))))
  {
    if Admissible(kind, args) {
      assert forall i :: 0 <= i < |args| ==> args[i].Some? && ArgOk(kind, i, args[i].value);
      var v := Values(args);
      match kind {
        case Constant => assert Pick(kind, v, [0]) == [v[0]];
        case Noise => assert Pick(kind, v, [0]) == [v[0]];
        case Linear => assert Pick(kind, v, [0]) == [v[0]];
        case PolyOrder => assert Pick(kind, v, [0, 1]) == [v[0], v[1]];
        case SquaredExp => assert Pick(kind, v, [0, 1]) == [v[0], v[1]];
        case RationalQuadratic => assert Pick(kind, v, [0, 1, 2]) == [v[0], v[1], v[2]];
        case MaternHI => assert Pick(kind, v, [0, 1]) == [v[0], v[1]];
        case NeuralNet => assert Pick(kind, v, [0, 1, 2]) == [v[0], v[1], v[2]];
        case GibbsGaussianLS => assert Pick(kind, v, [0, 1, 2, 4]) == [v[0], v[1], v[2], v[4]] && Pick(kind, v, [3]) == [v[3]];
      }
    }
  }

  /** A kernel whose vectors have the sizes its class gives them. */
  predicate WellShaped(k: Kernel)
    decreases k
  {
    match k
    case Prim(kind, h, c) =>
      SameLength(h, AsVector(Pick(kind, DefaultArgs(kind), HypPositions(kind))))
      && SameLength(c, AsVector(Pick(kind, DefaultArgs(kind), CstPositions(kind))))
    case Op(op, _, ks) =>
      (if op == SymmetricOp then |ks| == 1 else |ks| >= 2)
      && forall i :: 0 <= i < |ks| ==> WellShaped(ks[i])
  }

  /** Setters change values only, so every kernel they leave is well shaped again. */
  lemma {:induction false} SameShapeKeepsWellShaped(a: Kernel, b: Kernel)
    requires WellShaped(a) && SameShape(a, b)
    ensures WellShaped(b)
    decreases a
  {
    if a.Op? {
      forall i | 0 <= i < |b.children| ensures WellShaped(b.children[i]) {
        SameShapeKeepsWellShaped(a.children[i], b.children[i]);
      }
    }
  }

  lemma {:induction false} SetKeepsWellShaped(k: Kernel, slot: Slot, theta: seq<real>, log: bool, pow10: real -> real)
    requires WellShaped(k) && WithParams(k, slot, theta, log, pow10).Ok?
    ensures WellShaped(WithParams(k, slot, theta, log, pow10).value)
  {
    SetOutcome(k, slot, theta, log, pow10);
    SetThenGet(k, slot, theta, log, pow10);
    SameShapeKeepsWellShaped(k, WithParams(k, slot, theta, log, pow10).value);
  }

  /** `Kernel_Constructor`'s kernels, built from the default arguments. */
  function Default(kind: PrimKind): (r: Kernel)
    ensures WellShaped(r) && r.Prim? && r.kind == kind
  {
    var args := seq(Arity(kind), i requires 0 <= i < Arity(kind) => Some(DefaultArgs(kind)[i]));
    ConstructSpec(kind, args);
    assert Values(args) == DefaultArgs(kind);
    Construct(kind, args).value
  }

  // ----------------------------------------------------------------------
  // Operator constructors
  // ----------------------------------------------------------------------

  /** The arguments that are `Kernel` objects; any other object is passed over. */
  function KernelArgs(xs: seq<Option<Kernel>>): (r: seq<Kernel>)
    ensures |r| <= |xs|
    ensures xs != [] && xs[0].Some? ==> r != [] && r[0] == xs[0].value
  {
    if xs == [] then []
    else if xs[0].Some? then [xs[0].value] + KernelArgs(xs[1..])
    else KernelArgs(xs[1..])
  }

  /** The positional name: the child names one after another. */
  function ConcatNames(ks: seq<Kernel>): string
  {
    if ks == [] then "" else Name(ks[0]) + ConcatNames(ks[1..])
  }

  /**
   * The `klist` name, folded as the constructor loop does: the next name is
   * appended after a `-` unless the name so far is still empty.
   */
  function DashNames(acc: string, ks: seq<Kernel>): string
    decreases |ks|
  {
    if ks == [] then acc
    else DashNames(if acc != "" then acc + "-" + Name(ks[0]) else Name(ks[0]), ks[1..])
  }

  /** Every kernel name is non-empty. */
  predicate NamedList(ks: seq<Kernel>)
  {
    forall i :: 0 <= i < |ks| ==> Name(ks[i]) != ""
  }

  function Names(ks: seq<Kernel>): (r: seq<string>)
    ensures |r| == |ks| && forall i :: 0 <= i < |ks| ==> r[i] == Name(ks[i])
  {
    if ks == [] then [] else [Name(ks[0])] + Names(ks[1..])
  }

  /** With non-empty names the fold is the `-` join of the names. */
  lemma {:induction false} DashNamesJoin(acc: string, ks: seq<Kernel>)
    requires NamedList(ks) && ks != []
    ensures DashNames(acc, ks) == (if acc != "" then acc + "-" else "") + Join(Names(ks), "-")
    decreases |ks|
  {
    var next := if acc != "" then acc + "-" + Name(ks[0]) else Name(ks[0]);
    if |ks| > 1 {
      DashNamesJoin(next, ks[1..]);
      assert Names(ks) == [Name(ks[0])] + Names(ks[1..]);
      JoinCons(Name(ks[0]), Names(ks[1..]), "-");
    }
  }

  /**
   * `Sum_Kernel(*args, klist=...)`, `Product_Kernel(...)` and
   * `Symmetric_Kernel(...)`: positional arguments win when the first two are
   * kernels (the first one, for `Symmetric_Kernel`); otherwise `klist` must
   * be a list whose first two entries (first entry) are kernels; otherwise
   * `TypeError`. `Symmetric_Kernel` keeps only its first kernel.
   */
  function NewOperator(op: OpKind, args: seq<Option<Kernel>>, klist: Option<seq<Option<Kernel>>>): (r: Result<Kernel>)
  {
    if op == SymmetricOp then
      if |args| >= 1 && args[0].Some? then
        Ok(Op(op, OpPrefix(op) + Name(args[0].value), [args[0].value]))
      else if klist.Some? && |klist.value| >= 1 && klist.value[0].Some? then
        Ok(Op(op, OpPrefix(op) + Name(klist.value[0].value), [klist.value[0].value]))
      else Err(TypeError)
    else
      if |args| >= 2 && args[0].Some? && args[1].Some? then
        Ok(Op(op, OpPrefix(op) + ConcatNames(KernelArgs(args)), KernelArgs(args)))
      else if klist.Some? && |klist.value| >= 2 && klist.value[0].Some? && klist.value[1].Some? then
        Ok(Op(op, OpPrefix(op) + DashNames("", KernelArgs(klist.value)), KernelArgs(klist.value)))
      else Err(TypeError)
  }

  lemma {:induction false} KernelsOfSome(ks: seq<Kernel>)
    ensures KernelArgs(seq(|ks|, i requires 0 <= i < |ks| => Some(ks[i]))) == ks
  {
    if ks != [] {
      var xs := seq(|ks|, i requires 0 <= i < |ks| => Some(ks[i]));
      assert xs[1..] == seq(|ks[1..]|, i requires 0 <= i < |ks[1..]| => Some(ks[1..][i]));
      KernelsOfSome(ks[1..]);
    }
  }

  function Wrap(ks: seq<Kernel>): (r: seq<Option<Kernel>>)
    ensures |r| == |ks| && forall i :: 0 <= i < |ks| ==> r[i] == Some(ks[i])
  {
    seq(|ks|, i requires 0 <= i < |ks| => Some(ks[i]))
  }

  /**
   * The operator outcome on a list of kernels: a sum or product of fewer
   * than two kernels, or a symmetric kernel of none, raises `TypeError`;
   * otherwise the `klist` form names the kernel by the `-` join of its
   * children's names and keeps all of them (only the first, for `Sym_`).
   */
  lemma {:induction false} NewOperatorList(op: OpKind, ks: seq<Kernel>)
    requires NamedList(ks)
    ensures NewOperator(op, [], Some(Wrap(ks))).Ok? <==> |ks| >= (if op == SymmetricOp then 1 else 2)
    ensures NewOperator(op, [], Some(Wrap(ks))).Err? ==> NewOperator(op, [], Some(Wrap(ks))).error == TypeError
    ensures NewOperator(op, [], Some(Wrap(ks))).Ok? ==>
              var kept := if op == SymmetricOp then ks[..1] else ks;
              NewOperator(op, [], Some(Wrap(ks))).value == Op(op, OpPrefix(op) + Join(Names(kept), "-"), kept)
  {
    KernelsOfSome(ks);
    if ks != [] {
      DashNamesJoin("", ks);
      assert Names(ks[..1]) == [Name(ks[0])];
    }
  }

  /** Positional construction concatenates the names without a separator. */
  lemma {:induction false} NewOperatorPositional(op: OpKind, a: Kernel, b: Kernel)
    requires op != SymmetricOp
    ensures NewOperator(op, [Some(a), Some(b)], None) == Ok(Op(op, OpPrefix(op) + Name(a) + Name(b), [a, b]))
  {
    assert [Some(a), Some(b)][1..] == [Some(b)] && [Some(b)][1..] == [];
    assert KernelArgs([Some(a), Some(b)]) == [a, b];
    assert [a, b][1..] == [b] && [b][1..] == [];
    assert ConcatNames([b]) == Name(b) + ConcatNames([]);
    assert ConcatNames([a, b]) == Name(a) + ConcatNames([b]);
    assert OpPrefix(op) + ConcatNames([a, b]) == OpPrefix(op) + Name(a) + Name(b);
  }

  lemma {:induction false} NamesNonEmpty(k: Kernel)
    requires k.Prim? || k.name != ""
    ensures Name(k) != ""
  {
  }

  // ----------------------------------------------------------------------
  // Copy
  // ----------------------------------------------------------------------

  /** The constructor arguments `__copy__` reads back from the stored vectors. */
  function CopyArgs(k: Kernel): (r: seq<Option<real>>)
    requires k.Prim? && WellShaped(k)
    ensures |r| == Arity(k.kind)
  {
    var h := if k.hyps.Some? then k.hyps.value else [];
    var c := if k.csts.Some? then k.csts.value else [];
    match k.kind
    case Constant => [Some(c[0])]
    case Noise => [Some(h[0])]
    case Linear => [Some(h[0])]
    case PolyOrder => [Some(h[0]), Some(h[1])]
    case SquaredExp => [Some(h[0]), Some(h[1])]
    case RationalQuadratic => [Some(h[0]), Some(h[1]), Some(h[2])]
    case MaternHI => [Some(h[0]), Some(h[1]), Some(c[0])]
    case NeuralNet => [Some(h[0]), Some(h[1]), Some(h[2])]
    case GibbsGaussianLS => [Some(h[0]), Some(h[1]), Some(h[2]), Some(c[0]), Some(h[3])]
  }

  /**
   * `copy.copy(k)`: a primitive is rebuilt by its constructor from its stored
   * values (so a value a setter put out of range makes the copy raise
   * `ValueError`), an operator from copies of its children through `klist`.
   */
  function Copy(k: Kernel): (r: Result<Kernel>)
    requires WellShaped(k)
    decreases k
  {
    match k
    case Prim(kind, _, _) => Construct(kind, CopyArgs(k))
    case Op(op, _, ks) =>
      match CopyList(ks)
      case Err(e) => Err(e)
      case Ok(ks') => NewOperator(op, [], Some(Wrap(ks')))
  }

  function CopyList(ks: seq<Kernel>): (r: Result<seq<Kernel>>)
    requires forall i :: 0 <= i < |ks| ==> WellShaped(ks[i])
    decreases ks
  {
    if ks == [] then Ok([])
    else
      match Copy(ks[0])
      case Err(e) => Err(e)
      case Ok(k0) => Cons(k0, CopyList(ks[1..]))
  }

  /** Every stored value lies in its constructor's admissible range. */
  predicate Copyable(k: Kernel)
    requires WellShaped(k)
    decreases k
  {
    match k
    case Prim(kind, _, _) => Admissible(kind, CopyArgs(k))
    case Op(_, _, ks) => forall i :: 0 <= i < |ks| ==> Copyable(ks[i])
  }

  /** The Matérn `nu` constants are already half-integers. */
  predicate NuNormalised(k: Kernel)
    decreases k
  {
    match k
    case Prim(kind, _, c) =>
      kind == MaternHI && c.Some? && |c.value| == 1 && c.value[0] >= 0.0 ==> HalfInteger(c.value[0]) == c.value[0]
    case Op(_, _, ks) => forall i :: 0 <= i < |ks| ==> NuNormalised(ks[i])
  }

  /** The constants a copy stores: a Matérn `nu` brought to a half-integer, any other vector as it is. */
  function CopiedCsts(kind: PrimKind, c: Option<seq<real>>): Option<seq<real>>
  {
    if kind == MaternHI && c.Some? && |c.value| == 1 && c.value[0] >= 0.0 then Some([HalfInteger(c.value[0])]) else c
  }

  /**
   * `b` is `a` rebuilt by copying: the same tree of classes, every primitive
   * holding the same hyperparameters and its constants as `CopiedCsts` gives
   * them, every operator renamed by the `-` join of its children's names.
   */
  predicate Renamed(a: Kernel, b: Kernel)
    decreases a
  {
    match a
    case Prim(kind, h, c) => b == Prim(kind, h, CopiedCsts(kind, c))
    case Op(op, _, ks) =>
      b.Op? && b.op == op && |b.children| == |ks|
      && b.name == OpPrefix(op) + Join(Names(b.children), "-")
      && forall i :: 0 <= i < |ks| ==> Renamed(ks[i], b.children[i])
  }

  /** The promises of a successful copy. */
  predicate CopiedFrom(k: Kernel, k': Kernel)
  {
    && Renamed(k, k')
    && WellShaped(k')
    && NuNormalised(k')
    && Params(k', Hyp) == Params(k, Hyp)
    && (NuNormalised(k) ==> Params(k', Cst) == Params(k, Cst))
  }

  lemma {:induction false} ParamsListPointwise(ks: seq<Kernel>, ks': seq<Kernel>, slot: Slot)
    requires |ks| == |ks'| && forall i :: 0 <= i < |ks| ==> Params(ks'[i], slot) == Params(ks[i], slot)
    ensures ParamsList(ks', slot) == ParamsList(ks, slot)
  {
    if ks != [] {
      ParamsListPointwise(ks[1..], ks'[1..], slot);
    }
  }

  lemma {:induction false} CopiedName(k: Kernel, k': Kernel)
    requires CopiedFrom(k, k')
    ensures Name(k') != ""
  {
    if k'.Prim? {
      CodeNonEmpty(k'.kind);
    } else {
      assert |OpPrefix(k'.op)| > 0;
    }
  }

  lemma {:induction false} CodeNonEmpty(kind: PrimKind)
    ensures Code(kind) != ""
  {
  }

  /**
   * A copy succeeds exactly when every stored value is admissible to its
   * constructor (else `ValueError`), and then keeps the tree, the
   * hyperparameters and the constants (up to bringing Matérn `nu` to a
   * half-integer), renaming every operator by the `-` join of its
   * children's names.
   */
  lemma {:induction false} CopySpec(k: Kernel)
    requires WellShaped(k)
    ensures Copy(k).Ok? <==> Copyable(k)
    ensures Copy(k).Err? ==> Copy(k).error == ValueError
    ensures Copy(k).Ok? ==> CopiedFrom(k, Copy(k).value)
    decreases k, 2
  {
    if k.Prim? {
      CopyPrimSpec(k);
    } else {
      CopyOpSpec(k);
    }
  }

  lemma {:induction false} CopyPrimSpec(k: Kernel)
    requires k.Prim? && WellShaped(k)
    ensures Copy(k).Ok? <==> Copyable(k)
    ensures Copy(k).Err? ==> Copy(k).error == ValueError
    ensures Copy(k).Ok? ==> CopiedFrom(k, Copy(k).value)
  {
    ConstructSpec(k.kind, CopyArgs(k));
    if Copyable(k) {
      CopyPrimExact(k);
      if k.kind == MaternHI {
        HalfIntegerIdempotent(k.csts.value[0]);
      }
    }
  }

  /** A primitive copies to the same hyperparameters and the constants `CopiedCsts` gives. */
  lemma {:induction false} CopyPrimExact(k: Kernel)
    requires k.Prim? && WellShaped(k) && Copyable(k)
    ensures Copy(k) == Ok(Prim(k.kind, k.hyps, CopiedCsts(k.kind, k.csts)))
  {
    var d := DefaultArgs(k.kind);
    var hp, cp := Pick(k.kind, d, HypPositions(k.kind)), Pick(k.kind, d, CstPositions(k.kind));
    assert SameLength(k.hyps, AsVector(hp)) && SameLength(k.csts, AsVector(cp));
    ConstructSpec(k.kind, CopyArgs(k));
    var h := if k.hyps.Some? then k.hyps.value else [];
    var c := if k.csts.Some? then k.csts.value else [];
    assert |h| == |hp| && |c| == |cp|;
    match k.kind {
      case Constant => assert c == [c[0]];
      case Noise => assert h == [h[0]];
      case Linear => assert h == [h[0]];
      case PolyOrder => assert h == [h[0], h[1]];
      case SquaredExp => assert h == [h[0], h[1]];
      case RationalQuadratic => assert h == [h[0], h[1], h[2]];
      case MaternHI =>
        assert h == [h[0], h[1]];
        assert ArgOk(MaternHI, 2, CopyArgs(k)[2].value) && |c| == 1;
      case NeuralNet => assert h == [h[0], h[1], h[2]];
      case GibbsGaussianLS => assert h == [h[0], h[1], h[2], h[3]] && c == [c[0]];
    }
  }

  lemma {:induction false} CopyOpSpec(k: Kernel)
    requires k.Op? && WellShaped(k)
    ensures Copy(k).Ok? <==> Copyable(k)
    ensures Copy(k).Err? ==> Copy(k).error == ValueError
    ensures Copy(k).Ok? ==> CopiedFrom(k, Copy(k).value)
    decreases k, 1
  {
    var ks := k.children;
    CopyListSpec(ks);
    if Copyable(k) {
      CopyOpOk(k, CopyList(ks).value);
    }
  }

  /** An operator whose children copy to `ks'` is rebuilt over `ks'` and renamed. */
  lemma {:induction false} CopyOpOk(k: Kernel, ks': seq<Kernel>)
    requires k.Op? && WellShaped(k) && CopyList(k.children) == Ok(ks')
    requires |ks'| == |k.children| && forall i :: 0 <= i < |ks'| ==> CopiedFrom(k.children[i], ks'[i])
    ensures Copy(k) == Ok(Op(k.op, OpPrefix(k.op) + Join(Names(ks'), "-"), ks'))
    ensures CopiedFrom(k, Copy(k).value)
  {
    var ks := k.children;
    forall i | 0 <= i < |ks'| ensures Name(ks'[i]) != "" {
      CopiedName(ks[i], ks'[i]);
    }
    NewOperatorList(k.op, ks');
    if k.op == SymmetricOp {
      assert ks'[..1] == ks';
    }
    assert Copy(k) == NewOperator(k.op, [], Some(Wrap(ks')));
    OpCopiedFrom(k, ks');
  }

  /** An operator rebuilt over copies of its children, renamed by their names, is a copy of it. */
  lemma {:induction false} OpCopiedFrom(k: Kernel, ks': seq<Kernel>)
    requires k.Op? && |ks'| == |k.children| && (if k.op == SymmetricOp then |ks'| == 1 else |ks'| >= 2)
    requires forall i :: 0 <= i < |ks'| ==> CopiedFrom(k.children[i], ks'[i])
    ensures CopiedFrom(k, Op(k.op, OpPrefix(k.op) + Join(Names(ks'), "-"), ks'))
  {
    var k' := Op(k.op, OpPrefix(k.op) + Join(Names(ks'), "-"), ks');
    forall i | 0 <= i < |ks'| ensures Renamed(k.children[i], ks'[i]) && WellShaped(ks'[i]) && NuNormalised(ks'[i]) {
      assert CopiedFrom(k.children[i], ks'[i]);
    }
    assert Renamed(k, k') && WellShaped(k') && NuNormalised(k');
    OpCopiedParams(k.children, ks');
  }

  lemma {:induction false} OpCopiedParams(ks: seq<Kernel>, ks': seq<Kernel>)
    requires |ks'| == |ks| && forall i :: 0 <= i < |ks'| ==> CopiedFrom(ks[i], ks'[i])
    ensures ParamsList(ks', Hyp) == ParamsList(ks, Hyp)
    ensures (forall i :: 0 <= i < |ks| ==> NuNormalised(ks[i])) ==> ParamsList(ks', Cst) == ParamsList(ks, Cst)
  {
    ParamsListPointwise(ks, ks', Hyp);
    if forall i :: 0 <= i < |ks| ==> NuNormalised(ks[i]) {
      ParamsListPointwise(ks, ks', Cst);
    }
  }

  lemma {:induction false} CopyListSpec(ks: seq<Kernel>)
    requires forall i :: 0 <= i < |ks| ==> WellShaped(ks[i])
    ensures CopyList(ks).Ok? <==> forall i :: 0 <= i < |ks| ==> Copyable(ks[i])
    ensures CopyList(ks).Err? ==> CopyList(ks).error == ValueError
    ensures CopyList(ks).Ok? ==>
              |CopyList(ks).value| == |ks| && forall i :: 0 <= i < |ks| ==> CopiedFrom(ks[i], CopyList(ks).value[i])
    decreases ks, 0
  {
    if ks != [] {
      CopySpec(ks[0]);
      CopyListSpec(ks[1..]);
      assert forall i :: 1 <= i < |ks| ==> ks[i] == ks[1..][i - 1];
      if CopyList(ks).Ok? {
        CopiedCons(ks, Copy(ks[0]).value, CopyList(ks[1..]).value);
      }
    }
  }

  lemma {:induction false} CopiedCons(ks: seq<Kernel>, k0: Kernel, w: seq<Kernel>)
    requires ks != [] && CopiedFrom(ks[0], k0)
    requires |w| == |ks| - 1 && forall i :: 0 <= i < |w| ==> CopiedFrom(ks[1..][i], w[i])
    ensures forall i :: 0 <= i < |ks| ==> CopiedFrom(ks[i], ([k0] + w)[i])
  {
    forall i | 0 <= i < |ks| ensures CopiedFrom(ks[i], ([k0] + w)[i]) {
      if i > 0 {
        assert ks[i] == ks[1..][i - 1] && ([k0] + w)[i] == w[i - 1];
      }
    }
  }

  /** A kernel that copying reproduces: the form every copy takes. */
  predicate Canonical(k: Kernel)
    requires WellShaped(k)
    decreases k
  {
    match k
    case Prim(kind, _, _) => Construct(kind, CopyArgs(k)) == Ok(k)
    case Op(op, nm, ks) =>
      nm == OpPrefix(op) + Join(Names(ks), "-") && forall i :: 0 <= i < |ks| ==> Canonical(ks[i])
  }

  /** Rebuilding a freshly constructed primitive gives it back. */
  lemma {:induction false} ConstructRoundTrip(kind: PrimKind, args: seq<Option<real>>)
    requires |args| == Arity(kind) && Construct(kind, args).Ok?
    ensures WellShaped(Construct(kind, args).value)
    ensures Canonical(Construct(kind, args).value)
  {
    ConstructSpec(kind, args);
    var k := Construct(kind, args).value;
    if kind == MaternHI {
      HalfIntegerIdempotent(args[2].value);
    }
  }

  lemma {:induction false} CopyIsCanonical(k: Kernel)
    requires WellShaped(k) && Copy(k).Ok?
    ensures WellShaped(Copy(k).value) && Canonical(Copy(k).value)
    decreases k, 1
  {
    CopySpec(k);
    match k {
      case Prim(kind, _, _) =>
        ConstructRoundTrip(kind, CopyArgs(k));
      case Op(op, _, ks) =>
        CopyListSpec(ks);
        CopyListIsCanonical(ks);
        var ks' := CopyList(ks).value;
        forall i | 0 <= i < |ks'| ensures Name(ks'[i]) != "" {
          CanonicalNamed(ks'[i]);
        }
        NewOperatorList(op, ks');
        if op == SymmetricOp {
          assert ks'[..1] == ks';
        }
    }
  }

  lemma {:induction false} CopyListIsCanonical(ks: seq<Kernel>)
    requires forall i :: 0 <= i < |ks| ==> WellShaped(ks[i])
    requires CopyList(ks).Ok?
    ensures |CopyList(ks).value| == |ks|
    ensures forall i :: 0 <= i < |ks| ==> WellShaped(CopyList(ks).value[i]) && Canonical(CopyList(ks).value[i])
    decreases ks, 0
  {
    CopyListSpec(ks);
    if ks != [] {
      CopyIsCanonical(ks[0]);
      CopyListIsCanonical(ks[1..]);
      var v := CopyList(ks).value;
      forall i | 0 <= i < |ks| ensures WellShaped(v[i]) && Canonical(v[i]) {
        if i > 0 {
          assert v[i] == CopyList(ks[1..]).value[i - 1];
        }
      }
    }
  }

  lemma {:induction false} CanonicalCopy(k: Kernel)
    requires WellShaped(k) && Canonical(k)
    ensures Copy(k) == Ok(k)
    decreases k, 1
  {
    if k.Op? {
      CanonicalCopyList(k.children);
      assert forall i :: 0 <= i < |k.children| ==> Name(k.children[i]) != "" by {
        forall i | 0 <= i < |k.children| ensures Name(k.children[i]) != "" {
          CanonicalNamed(k.children[i]);
        }
      }
      NewOperatorList(k.op, k.children);
      if k.op == SymmetricOp {
        assert k.children[..1] == k.children;
      }
    }
  }

  lemma {:induction false} CanonicalNamed(k: Kernel)
    requires WellShaped(k) && Canonical(k)
    ensures Name(k) != ""
  {
    if k.Prim? {
      CodeNonEmpty(k.kind);
    } else {
      assert |OpPrefix(k.op)| > 0;
    }
  }

  lemma {:induction false} CanonicalCopyList(ks: seq<Kernel>)
    requires forall i :: 0 <= i < |ks| ==> WellShaped(ks[i]) && Canonical(ks[i])
    ensures CopyList(ks) == Ok(ks)
    decreases ks, 0
  {
    if ks != [] {
      CanonicalCopy(ks[0]);
      CanonicalCopyList(ks[1..]);
      assert [ks[0]] + ks[1..] == ks;
    }
  }

  /** Copying a copy gives the same kernel again. */
  lemma {:induction false} CopyIdempotent(k: Kernel)
    requires WellShaped(k) && Copy(k).Ok?
    ensures WellShaped(Copy(k).value) && Copy(Copy(k).value) == Copy(k)
  {
    CopyIsCanonical(k);
    CanonicalCopy(Copy(k).value);
  }

  /** `Kernel_Constructor`'s kernels copy to themselves. */
  lemma {:induction false} DefaultCopy(kind: PrimKind)
    ensures Copy(Default(kind)) == Ok(Default(kind))
  {
    var args := seq(Arity(kind), i requires 0 <= i < Arity(kind) => Some(DefaultArgs(kind)[i]));
    assert Construct(kind, args) == Ok(Default(kind));
    ConstructRoundTrip(kind, args);
    CanonicalCopy(Default(kind));
  }
}
