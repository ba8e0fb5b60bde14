/**
 * The derivative-distribution matrix of `Product_Kernel`: one row per term
 * of the product's derivative, one column per factor, each entry the
 * derivative order handed to that factor (0: none, 1: d/dx2, -1: d/dx1,
 * 2 or -2: d2/dx1dx2).
 *
 * `DerMatrix` is the construction as the product kernel performs it; `DerMat`
 * states it as a function of `nks` and `der`; `LeibnizRows` is the rule of
 * Leibniz the construction stands in for.
 */
module Dermat {

  function Pow(b: nat, e: nat): (r: nat)
    ensures b >= 1 ==> r >= 1
  {
    if e == 0 then 1 else b * Pow(b, e - 1)
  }

  function Abs(x: int): nat { if x < 0 then -x else x }

  function Sign(x: int): int { if x < 0 then -1 else if x == 0 then 0 else 1 }

  function Zeros(n: nat): (r: seq<int>)
    ensures |r| == n && forall i :: 0 <= i < n ==> r[i] == 0
  {
    seq(n, i => 0)
  }

  /** Every row has one entry per factor. */
  predicate Rect(m: seq<seq<int>>, nks: nat)
  {
    forall r :: 0 <= r < |m| ==> |m[r]| == nks
  }

  /** `t` rounds of `dermat = np.vstack((dermat, dermat.copy()))`. */
  function Dup(m: seq<seq<int>>, t: nat): (r: seq<seq<int>>)
    ensures |r| == Pow(2, t) * |m|
    ensures forall i :: 0 <= i < |r| ==> r[i] in m
    decreases t
  {
    if t == 0 then m else Dup(m + m, t - 1)
  }

  /** The column that receives the increment of row `row`, in integer arithmetic. */
  function ColumnIndex(row: nat, nks: nat, big: nat): (c: nat)
    requires nks >= 1 && big >= 1
    ensures c < nks
  {
    (row % nks + row / big) % nks
  }

  /** Row `r` of `m` with its entry at column `c` raised by one. */
  function Bump(row: seq<int>, c: nat): seq<int>
    requires c < |row|
  {
    row[c := row[c] + 1]
  }

  /** One pass of the increment loop over all rows. */
  function BumpAll(m: seq<seq<int>>, nks: nat, big: nat): (r: seq<seq<int>>)
    requires nks >= 1 && big >= 1 && Rect(m, nks)
    ensures |r| == |m| && Rect(r, nks)
  {
    seq(|m|, r requires 0 <= r < |m| => Bump(m[r], ColumnIndex(r, nks, big)))
  }

  /** The unsigned matrix after `p` passes. */
  function Passes(nks: nat, big: nat, p: nat): (r: seq<seq<int>>)
    requires nks >= 1 && big >= 1
    ensures Rect(r, nks) && |r| == Pow(2, (nks - 1) * p)
  {
    if p == 0 then [Zeros(nks)]
    else
      var d := Dup(Passes(nks, big, p - 1), nks - 1);
      PowAdd(nks - 1, (nks - 1) * (p - 1));
      assert (nks - 1) + (nks - 1) * (p - 1) == (nks - 1) * p;
      BumpAll(d, nks, big)
  }

  lemma {:induction false} PowAdd(a: nat, b: nat)
    ensures Pow(2, a) * Pow(2, b) == Pow(2, a + b)
  {
    if a > 0 {
      PowAdd(a - 1, b);
    }
  }

  /** `dermat[oddfilt] = sd * dermat[oddfilt]`. */
  function SignOdd(m: seq<seq<int>>, sd: int): (r: seq<seq<int>>)
    ensures |r| == |m| && forall i :: 0 <= i < |m| ==> |r[i]| == |m[i]|
  {
    seq(|m|, i requires 0 <= i < |m| =>
      seq(|m[i]|, j requires 0 <= j < |m[i]| => if m[i][j] % 2 != 0 then sd * m[i][j] else m[i][j]))
  }

  /** A positive order leaves the entries as they are. */
  lemma {:induction false} SignOddPositive(m: seq<seq<int>>)
    ensures SignOdd(m, 1) == m
  {
    var r := SignOdd(m, 1);
    forall i | 0 <= i < |m| ensures r[i] == m[i] {
      assert forall j :: 0 <= j < |m[i]| ==> r[i][j] == m[i][j];
    }
  }

  /** The matrix `Product_Kernel` builds for `nks` factors and order `der`. */
  function DerMat(nks: nat, der: int): seq<seq<int>>
    requires nks >= 1
  {
    SignOdd(Passes(nks, Pow(nks, Abs(der)), Abs(der)), Sign(der))
  }

  /** Python's `%` on floats, for a positive modulus: the remainder takes the modulus's sign. */
  function FloatMod(x: real, m: real): real
    requires m > 0.0
  {
    x - m * ((x / m).Floor as real)
  }

  /** Quotient and remainder are unique. */
  lemma {:induction false} DivModUnique(a: int, m: int, q: int, r: int)
    requires m >= 1 && a == q * m + r && 0 <= r < m
    ensures a / m == q && a % m == r
  {
    var q0, r0 := a / m, a % m;
    assert a == q0 * m + r0;
    var d := q - q0;
    assert d * m == q * m - q0 * m by {
      MulSub(q, q0, m);
    }
    assert d * m == r0 - r;
    if d >= 1 {
      MulAtLeast(d, m);
    } else if d <= -1 {
      MulAtLeast(-d, m);
    }
  }

  lemma {:induction false} MulSub(x: int, y: int, m: int)
    ensures (x - y) * m == x * m - y * m
  {
  }

  lemma {:induction false} MulAtLeast(d: int, m: int)
    requires d >= 1 && m >= 1
    ensures d * m >= m
  {
    assert d * m == (d - 1) * m + m;
    assert (d - 1) * m >= 0;
  }

  /** The remainder modulo `nks` of a row is that of its remainder modulo a multiple of `nks`. */
  lemma {:induction false} RemainderOfRemainder(row: nat, nks: nat, big: nat)
    requires nks >= 1 && big >= 1 && big % nks == 0
    ensures (row % big) % nks == row % nks
  {
    var k := big / nks;
    DivModUnique(big, nks, k, 0);
    var s := row % big;
    var q := row / big;
    assert row == (q * k) * nks + s by {
      assert row == q * big + s;
      assert q * big == q * (k * nks);
    }
    assert row == (q * k + s / nks) * nks + s % nks;
    DivModUnique(row, nks, q * k + s / nks, s % nks);
  }

  /** `(row - rem) / big` in real division: the integer quotient plus a fraction below one. */
  lemma {:induction false} FacSplit(row: nat, rem: nat, big: nat)
    requires big >= 1 && rem <= row % big
    ensures (row - rem) as real / big as real
            == (row / big) as real + ((row % big) - rem) as real / big as real
    ensures 0.0 <= ((row % big) - rem) as real / big as real < 1.0
  {
    var q, d := row / big, (row % big) - rem;
    assert (row - rem) as real == q as real * big as real + d as real;
    assert (q as real * big as real) / big as real == q as real;
    assert 0.0 <= d as real < big as real;
    assert d as real / big as real * big as real == d as real;
  }

  /** float `%` then `int()`, on a non-negative integer plus a fraction below one. */
  lemma {:induction false} FloorOfFloatMod(n: nat, f: real, m: nat)
    requires m >= 1 && 0.0 <= f < 1.0
    ensures FloatMod(n as real + f, m as real).Floor == n % m
  {
    var t, r := n / m, n % m;
    assert n == t * m + r;
    FloorOfFloatModParts(t, r, f, m);
  }

  lemma {:induction false} FloorOfFloatModParts(t: nat, r: nat, f: real, m: nat)
    requires m >= 1 && r < m && 0.0 <= f < 1.0
    ensures FloatMod((t * m + r) as real + f, m as real).Floor == r
  {
    var y := r as real + f;
    var x := (t * m + r) as real + f;
    CastSum(t, m, r, f);
    FloatModOf(t as real, y, m as real, t);
    FloatModArg(x, t as real * m as real + y, m as real);
    FloorShift(r, f);
  }

  lemma {:induction false} CastSum(t: nat, m: nat, r: nat, f: real)
    ensures (t * m + r) as real + f == t as real * m as real + (r as real + f)
  {
    CastProduct(t, m);
  }

  lemma {:induction false} FloatModArg(x: real, x': real, m: real)
    requires m > 0.0 && x == x'
    ensures FloatMod(x, m) == FloatMod(x', m)
  {
  }

  lemma {:induction false} CastProduct(t: int, m: int)
    ensures (t * m) as real == t as real * m as real
  {
  }

  /** Python's float `%` of `t * m + y`, for a whole `t` and `0 <= y < m`, is `y`. */
  lemma {:induction false} FloatModOf(t: real, y: real, m: real, ti: int)
    requires m > 0.0 && 0.0 <= y < m && t == ti as real
    ensures FloatMod(t * m + y, m) == y
  {
    RealDivShift(t, y, m);
    FloorShift(ti, y / m);
  }

  /** `(t * m + y) / m` is `t` plus a fraction below one when `0 <= y < m`. */
  lemma {:induction false} RealDivShift(t: real, y: real, m: real)
    requires m > 0.0 && 0.0 <= y < m
    ensures (t * m + y) / m == t + y / m
    ensures 0.0 <= y / m < 1.0
  {
    var z := y / m;
    assert z * m == y;
    assert t * m + y == (t + z) * m;
    assert (1.0 - z) * m == m - y;
    PositiveFactor(1.0 - z, m);
    PositiveFactor(z, m);
  }

  lemma {:induction false} PositiveFactor(a: real, m: real)
    requires m > 0.0
    ensures a * m > 0.0 ==> a > 0.0
    ensures a * m >= 0.0 ==> a >= 0.0
  {
  }

  lemma {:induction false} FloorShift(t: int, g: real)
    requires 0.0 <= g < 1.0
    ensures (t as real + g).Floor == t
  {
  }

  /**
   * The column index as the source computes it, `int((rem + fac) % nks)`
   * with `fac = (row - rem) / nks**|der|` in floating point division, is
   * the integer formula.
   */
  lemma {:induction false} FloatColumnIndex(row: nat, nks: nat, big: nat)
    requires nks >= 1 && big >= 1 && big % nks == 0
    ensures var rem := row % nks;
            FloatMod(rem as real + (row - rem) as real / big as real, nks as real).Floor == ColumnIndex(row, nks, big)
  {
    var rem := row % nks;
    var n, f := ColumnParts(row, nks, big);
    FloorOfFloatMod(n, f, nks);
    FloatModArg(rem as real + (row - rem) as real / big as real, n as real + f, nks as real);
  }

  /** `rem + fac` is the whole number `rem + row / big` plus a fraction below one. */
  lemma {:induction false} ColumnParts(row: nat, nks: nat, big: nat) returns (n: nat, f: real)
    requires nks >= 1 && big >= 1 && big % nks == 0
    ensures 0.0 <= f < 1.0 && n % nks == ColumnIndex(row, nks, big)
    ensures (row % nks) as real + (row - row % nks) as real / big as real == n as real + f
  {
    RemainderOfRemainder(row, nks, big);
    ModAtMost(row % big, nks);
    f := FractionOf(row, row % nks, big);
    n := WholePart(row, nks, big);
  }

  /** The whole part `rem + row / big`, whose remainder is the column. */
  lemma {:induction false} WholePart(row: nat, nks: nat, big: nat) returns (n: nat)
    requires nks >= 1 && big >= 1
    ensures n == row % nks + row / big && n % nks == ColumnIndex(row, nks, big)
  {
    var q: nat := row / big;
    n := row % nks + q;
  }

  lemma {:induction false} ModAtMost(x: nat, m: nat)
    requires m >= 1
    ensures x % m <= x
  {
  }

  /** `int((rem + fac) % nks)` for one row, as the source computes it. */
  function SourceColumn(row: nat, nks: nat, big: nat): (c: nat)
    requires nks >= 1 && big >= 1 && big % nks == 0
    ensures c == ColumnIndex(row, nks, big)
  {
    var rem := row % nks;
    var fac := (row - rem) as real / big as real;
    FloatColumnIndex(row, nks, big);
    FloatMod(rem as real + fac, nks as real).Floor
  }

  /** The fractional part of `(row - rem) / big`, with `rem` at most the remainder of `row`. */
  lemma {:induction false} FractionOf(row: nat, rem: nat, big: nat) returns (f: real)
    requires big >= 1 && rem <= row % big
    ensures 0.0 <= f < 1.0
    ensures rem as real + (row - rem) as real / big as real == (rem + row / big) as real + f
  {
    FacSplit(row, rem, big);
    f := ((row % big) - rem) as real / big as real;
  }

  /**
   * The construction loop by loop: one zero row; per order of differentiation
   * the matrix is doubled `nks - 1` times, then every row gets one increment at
   * its column; odd entries finally take the sign of `der`.
   */
  method DerMatrix(nks: nat, der: int) returns (dermat: seq<seq<int>>)
    requires nks >= 1
    ensures dermat == DerMat(nks, der)
  {
    var big := Pow(nks, Abs(der));
    dermat := [Zeros(nks)];
    var sd := Sign(der);
    if Abs(der) > 0 {
      PowDivisible(nks, Abs(der));
    }
    var ii := 0;
    while ii < Abs(der)
      invariant 0 <= ii <= Abs(der)
      invariant dermat == Passes(nks, big, ii)
    {
      dermat := OnePass(dermat, nks, big, ii);
      ii := ii + 1;
    }
    dermat := SignOdd(dermat, sd);
  }

  /** A power of `nks` with a positive exponent is a multiple of `nks`. */
  lemma {:induction false} PowDivisible(nks: nat, e: nat)
    requires nks >= 1 && e >= 1
    ensures Pow(nks, e) % nks == 0
  {
    assert Pow(nks, e) == Pow(nks, e - 1) * nks;
    DivModUnique(Pow(nks, e), nks, Pow(nks, e - 1), 0);
  }

  /** One pass of the outer loop: stacking, then the increments. */
  method OnePass(m: seq<seq<int>>, nks: nat, big: nat, ghost p: nat) returns (r: seq<seq<int>>)
    requires nks >= 1 && big >= 1 && big % nks == 0 && m == Passes(nks, big, p)
    ensures r == Passes(nks, big, p + 1)
  {
    PassesStep(nks, big, p);
    var d := Stack(m, nks - 1);
    DupRect(m, nks - 1, nks);
    r := IncrementPass(d, nks, big);
  }

  lemma {:induction false} PassesStep(nks: nat, big: nat, p: nat)
    requires nks >= 1 && big >= 1
    ensures Passes(nks, big, p + 1) == BumpAll(Dup(Passes(nks, big, p), nks - 1), nks, big)
  {
  }

  lemma {:induction false} DupRect(m: seq<seq<int>>, t: nat, nks: nat)
    requires Rect(m, nks)
    ensures Rect(Dup(m, t), nks)
  {
    var d := Dup(m, t);
    forall i | 0 <= i < |d| ensures |d[i]| == nks {
      assert d[i] in m;
    }
  }

  /** The inner `for jj in np.arange(1, nks)` loop of vertical stacking. */
  method Stack(m: seq<seq<int>>, times: nat) returns (r: seq<seq<int>>)
    ensures r == Dup(m, times)
  {
    r := m;
    var jj := 0;
    while jj < times
      invariant 0 <= jj <= times
      invariant r == Dup(m, jj)
    {
      DupStep(m, jj);
      r := r + r;
      jj := jj + 1;
    }
  }

  /** The `for row in ...` loop: each row's entry at its column is raised by one. */
  method IncrementPass(m: seq<seq<int>>, nks: nat, big: nat) returns (r: seq<seq<int>>)
    requires nks >= 1 && big >= 1 && big % nks == 0 && Rect(m, nks)
    ensures r == BumpAll(m, nks, big)
  {
    r := m;
    var row := 0;
    while row < |r|
      invariant 0 <= row <= |r| == |m|
      invariant forall i :: 0 <= i < row ==> r[i] == Bump(m[i], ColumnIndex(i, nks, big))
      invariant forall i :: row <= i < |r| ==> r[i] == m[i]
    {
      var idx := SourceColumn(row, nks, big);
      r := r[row := Bump(r[row], idx)];
      row := row + 1;
    }
  }

  lemma {:induction false} DupStep(m: seq<seq<int>>, t: nat)
    ensures Dup(m, t + 1) == Dup(m, t) + Dup(m, t)
    decreases t
  {
    if t > 0 {
      DupStep(m + m, t - 1);
    }
  }

  // ----------------------------------------------------------------------
  // What the matrix holds
  // ----------------------------------------------------------------------

  function AbsSum(row: seq<int>): nat
  {
    if row == [] then 0 else Abs(row[0]) + AbsSum(row[1..])
  }

  predicate NonNegative(m: seq<seq<int>>)
  {
    forall r, c :: 0 <= r < |m| && 0 <= c < |m[r]| ==> m[r][c] >= 0
  }

  lemma {:induction false} AbsSumBump(row: seq<int>, c: nat)
    requires c < |row| && row[c] >= 0
    ensures AbsSum(Bump(row, c)) == AbsSum(row) + 1
  {
    if c > 0 {
      AbsSumBump(row[1..], c - 1);
      assert Bump(row, c)[1..] == Bump(row[1..], c - 1);
    } else {
      assert Bump(row, c)[1..] == row[1..];
    }
  }

  lemma {:induction false} AbsSumZeros(n: nat)
    ensures AbsSum(Zeros(n)) == 0
  {
    if n > 0 {
      assert Zeros(n)[1..] == Zeros(n - 1);
      AbsSumZeros(n - 1);
    }
  }

  /** Every entry is non-negative and every row sums to `p`. */
  predicate RowsSum(m: seq<seq<int>>, p: nat)
  {
    NonNegative(m) && forall r :: 0 <= r < |m| ==> AbsSum(m[r]) == p
  }

  lemma {:induction false} DupSums(m: seq<seq<int>>, t: nat, p: nat)
    requires RowsSum(m, p)
    ensures RowsSum(Dup(m, t), p)
  {
    var d := Dup(m, t);
    forall r | 0 <= r < |d| ensures AbsSum(d[r]) == p && forall c :: 0 <= c < |d[r]| ==> d[r][c] >= 0 {
      assert d[r] in m;
    }
  }

  lemma {:induction false} BumpAllSums(d: seq<seq<int>>, nks: nat, big: nat, p: nat)
    requires nks >= 1 && big >= 1 && Rect(d, nks) && RowsSum(d, p)
    ensures RowsSum(BumpAll(d, nks, big), p + 1)
  {
    var m := BumpAll(d, nks, big);
    forall r | 0 <= r < |m| ensures AbsSum(m[r]) == p + 1 && forall c :: 0 <= c < |m[r]| ==> m[r][c] >= 0 {
      AbsSumBump(d[r], ColumnIndex(r, nks, big));
    }
  }

  /** After `p` passes every entry is non-negative and every row sums to `p`. */
  lemma {:induction false} PassesRowSums(nks: nat, big: nat, p: nat)
    requires nks >= 1 && big >= 1
    ensures RowsSum(Passes(nks, big, p), p)
  {
    if p == 0 {
      AbsSumZeros(nks);
    } else {
      PassesRowSums(nks, big, p - 1);
      var d := Dup(Passes(nks, big, p - 1), nks - 1);
      DupSums(Passes(nks, big, p - 1), nks - 1, p - 1);
      BumpAllSums(d, nks, big, p - 1);
    }
  }

  lemma {:induction false} AbsSumSign(row: seq<int>, sd: int, out: seq<int>)
    requires sd == 1 || sd == -1
    requires forall c :: 0 <= c < |row| ==> row[c] >= 0
    requires |out| == |row| && forall c :: 0 <= c < |row| ==> out[c] == if row[c] % 2 != 0 then sd * row[c] else row[c]
    ensures AbsSum(out) == AbsSum(row)
  {
    if row != [] {
      AbsSumSign(row[1..], sd, out[1..]);
    }
  }

  /**
   * `Product_Kernel`'s matrix for `nks` factors and order `der` has
   * 2**((nks-1)|der|) rows of `nks` entries each, and in every row the
   * orders handed to the factors add up, in absolute value, to `|der|`.
   */
  lemma {:induction false} DerMatShape(nks: nat, der: int)
    requires nks >= 1
    ensures |DerMat(nks, der)| == Pow(2, (nks - 1) * Abs(der)) && Rect(DerMat(nks, der), nks)
    ensures forall r :: 0 <= r < |DerMat(nks, der)| ==> AbsSum(DerMat(nks, der)[r]) == Abs(der)
  {
    var big := Pow(nks, Abs(der));
    var m := Passes(nks, big, Abs(der));
    PassesRowSums(nks, big, Abs(der));
    var out := DerMat(nks, der);
    forall r | 0 <= r < |out| ensures AbsSum(out[r]) == Abs(der) {
      if der == 0 {
        assert m == [Zeros(nks)];
        assert out[r] == Zeros(nks) by {
          assert forall c :: 0 <= c < nks ==> out[r][c] == 0;
        }
        AbsSumZeros(nks);
      } else {
        AbsSumSign(m[r], Sign(der), out[r]);
      }
    }
  }

  /** A row below the multiple `big` adds no quotient: its column is its remainder. */
  lemma {:induction false} ColumnBelowBig(row: nat, nks: nat, big: nat)
    requires nks >= 1 && row < big
    ensures ColumnIndex(row, nks, big) == row % nks
  {
    DivModUnique(row, big, 0, row);
  }

  predicate Even(m: seq<seq<int>>)
  {
    forall i, j :: 0 <= i < |m| && 0 <= j < |m[i]| ==> m[i][j] % 2 == 0
  }

  /** A matrix of even entries keeps its signs. */
  lemma {:induction false} SignOddEven(m: seq<seq<int>>, sd: int)
    requires Even(m)
    ensures SignOdd(m, sd) == m
  {
    var r := SignOdd(m, sd);
    forall i | 0 <= i < |m| ensures r[i] == m[i] {
      assert forall j :: 0 <= j < |m[i]| ==> r[i][j] == m[i][j];
    }
  }

  /** Two factors, first order: one term per factor, each carrying the sign of `der`. */
  lemma {:induction false} DerMatTwoFirstOrder(der: int)
    requires der == 1 || der == -1
    ensures DerMat(2, der) == [[der, 0], [0, der]]
  {
    assert Abs(der) == 1 && Sign(der) == der;
    var big := Pow(2, Abs(der));
    assert big == 2 * Pow(2, 0) == 2;
    PassesTwoOne(big);
    var m := Passes(2, big, Abs(der));
    assert DerMat(2, der) == SignOdd(m, der);
    SignOddIdentity(der);
  }

  /** The signed 2 x 2 identity. */
  lemma {:induction false} SignOddIdentity(sd: int)
    ensures SignOdd([[1, 0], [0, 1]], sd) == [[sd, 0], [0, sd]]
  {
    var out := SignOdd([[1, 0], [0, 1]], sd);
    assert out[0][0] == sd && out[0][1] == 0 && out[1][0] == 0 && out[1][1] == sd;
    assert out[0] == [sd, 0] && out[1] == [0, sd];
  }

  lemma {:induction false} PassesTwoOne(big: nat)
    requires big >= 2
    ensures Passes(2, big, 1) == [[1, 0], [0, 1]]
  {
    var z := [Zeros(2)];
    assert Zeros(2) == [0, 0];
    var d := [[0, 0], [0, 0]];
    assert Dup(z, 1) == d by {
      assert Dup(z, 1) == Dup(z + z, 0);
    }
    assert Passes(2, big, 1) == BumpAll(Dup(Passes(2, big, 0), 1), 2, big);
    ColumnBelowBig(0, 2, big);
    ColumnBelowBig(1, 2, big);
    var b := BumpAll(d, 2, big);
    assert b[0] == Bump(d[0], 0) == [1, 0];
    assert b[1] == Bump(d[1], 1) == [0, 1];
  }

  lemma {:induction false} PassesTwoTwo(big: nat)
    requires big >= 4
    ensures Passes(2, big, 2) == [[2, 0], [0, 2], [2, 0], [0, 2]]
    ensures Even(Passes(2, big, 2))
  {
    var b1 := [[1, 0], [0, 1]];
    PassesTwoOne(big);
    var d2 := b1 + b1;
    assert Dup(b1, 1) == d2 by {
      assert Dup(b1, 1) == Dup(b1 + b1, 0);
    }
    assert Passes(2, big, 2) == BumpAll(Dup(Passes(2, big, 1), 1), 2, big);
    BumpTwoTwo(d2, big);
    EvenTwoTwo([[2, 0], [0, 2], [2, 0], [0, 2]]);
  }

  lemma {:induction false} BumpTwoTwo(d2: seq<seq<int>>, big: nat)
    requires big >= 4 && d2 == [[1, 0], [0, 1], [1, 0], [0, 1]]
    ensures BumpAll(d2, 2, big) == [[2, 0], [0, 2], [2, 0], [0, 2]]
  {
    ColumnBelowBig(0, 2, big);
    ColumnBelowBig(1, 2, big);
    ColumnBelowBig(2, 2, big);
    ColumnBelowBig(3, 2, big);
    var b2 := BumpAll(d2, 2, big);
    assert b2[0] == Bump(d2[0], 0) == [2, 0];
    assert b2[1] == Bump(d2[1], 1) == [0, 2];
    assert b2[2] == Bump(d2[2], 0) == [2, 0];
    assert b2[3] == Bump(d2[3], 1) == [0, 2];
  }

  lemma {:induction false} EvenTwoTwo(m: seq<seq<int>>)
    requires m == [[2, 0], [0, 2], [2, 0], [0, 2]]
    ensures Even(m)
  {
    forall i, j | 0 <= i < |m| && 0 <= j < |m[i]| ensures m[i][j] % 2 == 0 {
      assert m[i][j] == 0 || m[i][j] == 2;
    }
  }

  /**
   * As written, two factors at second order: the rows send d2/dx1dx2 twice
   * to each factor and never split it into d/dx1 on one factor and d/dx2 on
   * the other, so the cross terms of the rule of Leibniz are missing and the
   * two pure terms are counted twice.
   */
  lemma {:induction false} DerMatTwoSecondOrder(der: int)
    requires der == 2 || der == -2
    ensures DerMat(2, der) == [[2, 0], [0, 2], [2, 0], [0, 2]]
  {
    assert Abs(der) == 2;
    var big := Pow(2, Abs(der));
    assert big == 2 * (2 * Pow(2, 0)) == 4;
    PassesTwoTwo(big);
    var m := Passes(2, big, Abs(der));
    assert DerMat(2, der) == SignOdd(m, Sign(der));
    SignOddEven(m, Sign(der));
  }

  lemma {:induction false} PassesThreeOne()
    ensures Passes(3, 3, 1) == [[1, 0, 0], [0, 1, 0], [0, 0, 1], [0, 1, 0]]
  {
    var z := [Zeros(3)];
    assert Zeros(3) == [0, 0, 0];
    assert Passes(3, 3, 0) == z;
    var d := [[0, 0, 0], [0, 0, 0], [0, 0, 0], [0, 0, 0]];
    assert Dup(z, 2) == d by {
      assert Dup(z, 2) == Dup(z + z, 1) == Dup(z + z + (z + z), 0);
    }
    assert Passes(3, 3, 1) == BumpAll(Dup(Passes(3, 3, 0), 2), 3, 3);
    var b := BumpAll(d, 3, 3);
    assert |b| == 4;
    assert ColumnIndex(0, 3, 3) == 0 && ColumnIndex(1, 3, 3) == 1;
    assert ColumnIndex(2, 3, 3) == 2 && ColumnIndex(3, 3, 3) == 1;
    assert b[0] == [1, 0, 0] && b[1] == [0, 1, 0] && b[2] == [0, 0, 1] && b[3] == [0, 1, 0];
  }

  /**
   * As written, three factors at first order: four rows, the second factor
   * differentiated in two of them, so its term is counted twice.
   */
  lemma {:induction false} DerMatThreeFirstOrder()
    ensures DerMat(3, 1) == [[1, 0, 0], [0, 1, 0], [0, 0, 1], [0, 1, 0]]
    ensures DerMat(3, 1)[1] == DerMat(3, 1)[3]
  {
    var m := [[1, 0, 0], [0, 1, 0], [0, 0, 1], [0, 1, 0]];
    DerMatThreeUnfold();
    PassesThreeOne();
    SignOddPositive(m);
  }

  lemma {:induction false} DerMatThreeUnfold()
    ensures DerMat(3, 1) == SignOdd(Passes(3, 3, 1), 1)
  {
    assert Pow(3, 1) == 3 by { assert Pow(3, 0) == 1; }
    assert Abs(1) == 1 && Sign(1) == 1;
  }

  // ----------------------------------------------------------------------
  // The rule of Leibniz
  // ----------------------------------------------------------------------

  /** d/dx1 on factor `a` (order -1), d/dx2 on factor `b` (order 1), both on one factor when `a == b` (order 2). */
  function MixedRow(nks: nat, a: nat, b: nat): (r: seq<int>)
    ensures |r| == nks
  {
    seq(nks, c => if c == a && c == b then 2 else if c == a then -1 else if c == b then 1 else 0)
  }

  /** Row `a * nks + b` differentiates factor `a` in x1 and factor `b` in x2. */
  function MixedRows(nks: nat): (r: seq<seq<int>>)
    requires nks >= 1
    ensures |r| == nks * nks
    ensures Rect(r, nks)
  {
    seq(nks * nks, i requires 0 <= i < nks * nks => MixedRow(nks, i / nks, i % nks))
  }

  function SingleRow(nks: nat, j: nat, der: int): (r: seq<int>)
    ensures |r| == nks
  {
    seq(nks, c => if c == j then der else 0)
  }

  /**
   * The rows of the product rule: at first order one row per factor, that
   * factor differentiated; at second order one row per pair of factors, the
   * first differentiated in x1 and the second in x2. Orders above two, which
   * no primitive evaluates, keep the matrix as written.
   */
  function LeibnizRows(nks: nat, der: int): (r: seq<seq<int>>)
    requires nks >= 1
    ensures Rect(r, nks)
  {
    if der == 0 then [Zeros(nks)]
    else if Abs(der) == 1 then seq(nks, j requires 0 <= j < nks => SingleRow(nks, j, der))
    else if Abs(der) == 2 then MixedRows(nks)
    else
      DerMatShape(nks, der);
      DerMat(nks, der)
  }

  lemma {:induction false} PairIndex(nks: nat, a: nat, b: nat)
    requires a < nks && b < nks
    ensures 0 <= a * nks + b < nks * nks
    ensures (a * nks + b) / nks == a && (a * nks + b) % nks == b
  {
    DivModUnique(a * nks + b, nks, a, b);
    assert a * nks + b <= (nks - 1) * nks + (nks - 1);
  }

  /**
   * Every term of the product rule appears exactly once. At first order
   * row `j` differentiates factor `j` alone; at second order row `a * nks + b`
   * differentiates factor `a` in x1 and factor `b` in x2; and no two rows
   * are equal.
   */
  lemma {:induction false} LeibnizFirstOrder(nks: nat, der: int)
    requires nks >= 1 && Abs(der) == 1
    ensures |LeibnizRows(nks, der)| == nks
    ensures forall j :: 0 <= j < nks ==> LeibnizRows(nks, der)[j] == SingleRow(nks, j, der)
    ensures forall i, j :: 0 <= i < j < |LeibnizRows(nks, der)| ==> LeibnizRows(nks, der)[i] != LeibnizRows(nks, der)[j]
  {
    var rows := LeibnizRows(nks, der);
    forall i, j | 0 <= i < j < |rows| ensures rows[i] != rows[j] {
      assert rows[i][i] == der && rows[j][i] == 0;
    }
  }

  /** The index of the row for the pair of factors `a`, `b`. */
  function Pair(nks: nat, a: nat, b: nat): (i: nat)
    requires a < nks && b < nks
    ensures i < nks * nks && i / nks == a && i % nks == b
  {
    PairIndex(nks, a, b);
    a * nks + b
  }

  lemma {:induction false} LeibnizSecondOrder(nks: nat, der: int)
    requires nks >= 1 && Abs(der) == 2
    ensures |LeibnizRows(nks, der)| == nks * nks
    ensures forall a, b :: 0 <= a < nks && 0 <= b < nks ==> LeibnizRows(nks, der)[Pair(nks, a, b)] == MixedRow(nks, a, b)
  {
    assert LeibnizRows(nks, der) == MixedRows(nks);
  }

  lemma {:induction false} LeibnizSecondOrderDistinct(nks: nat, der: int)
    requires nks >= 1 && Abs(der) == 2
    ensures forall i, j :: 0 <= i < j < |LeibnizRows(nks, der)| ==> LeibnizRows(nks, der)[i] != LeibnizRows(nks, der)[j]
  {
    var rows := LeibnizRows(nks, der);
    assert rows == MixedRows(nks);
    forall i, j | 0 <= i < j < |rows| ensures rows[i] != rows[j] {
      RowIndexDiffer(nks, i, j);
    }
  }

  lemma {:induction false} MulMonotone(a: int, b: int, m: int)
    requires m >= 0 && a >= b
    ensures a * m >= b * m
  {
    MulSub(a, b, m);
  }

  lemma {:induction false} DivSplit(nks: nat, i: nat)
    requires nks >= 1 && i < nks * nks
    ensures i == (i / nks) * nks + i % nks
    ensures 0 <= i / nks < nks && 0 <= i % nks < nks
  {
    var q := i / nks;
    if q >= nks {
      MulMonotone(q, nks, nks);
    }
  }

  lemma {:induction false} RowIndexDiffer(nks: nat, i: nat, j: nat)
    requires nks >= 1 && i < j < nks * nks
    ensures MixedRows(nks)[i] != MixedRows(nks)[j]
  {
    DivSplit(nks, i);
    DivSplit(nks, j);
    var a, b, a', b' := i / nks, i % nks, j / nks, j % nks;
    MixedRowsDiffer(nks, a, b, a', b');
  }

  lemma {:induction false} MixedRowsDiffer(nks: nat, a: nat, b: nat, a': nat, b': nat)
    requires a < nks && b < nks && a' < nks && b' < nks && (a, b) != (a', b')
    ensures MixedRow(nks, a, b) != MixedRow(nks, a', b')
  {
    var r, r' := MixedRow(nks, a, b), MixedRow(nks, a', b');
    if a != a' {
      assert r[a] in {2, -1} && r'[a] !in {2, -1};
    } else {
      assert r[b] in {2, 1} && r'[b] !in {2, 1};
    }
  }
}
