/**
 * Data conditioning before a fit (`GaussianProcessRegression1D.__condition_data`
 * in GPR1D.py): points outside the bounds are dropped and points closer
 * together than `cn` are merged into bins holding running means, running
 * spreads and counts.
 */
module Conditioning {
  import opened Wrappers

  function Abs(r: real): real
  {
    if r < 0.0 then -r else r
  }

  datatype Point = Point(x: real, xe: real, y: real, ye: real)

  /** A bin: centre and spread in x and y, and the number of points merged into it. */
  datatype Bin = Bin(x: real, xe: real, y: real, ye: real, n: real)

  predicate Counted(bins: seq<Bin>)
  {
    forall j :: 0 <= j < |bins| ==> bins[j].n >= 1.0
  }

  predicate Near(b: Bin, p: Point, cn: real)
  {
    Abs(b.x - p.x) < cn
  }

  /** The first bin, in creation order, whose current centre lies within `cn` of the point; `|bins|` when none does. */
  function FirstNear(bins: seq<Bin>, p: Point, cn: real): (r: nat)
    ensures r <= |bins|
    ensures r < |bins| ==> Near(bins[r], p, cn)
    ensures forall j :: 0 <= j < r ==> !Near(bins[j], p, cn)
  {
    if bins == [] then 0
    else if Near(bins[0], p, cn) then 0
    else 1 + FirstNear(bins[1..], p, cn)
  }

  /**
   * The spread of a bin of `n` values with mean `c` and spread `e` after
   * adding value `v` with error `ve`: the square root (an uninterpreted
   * function here) of the mean of the second moments less the new mean
   * squared.
   */
  function Spread(e: real, c: real, n: real, v: real, ve: real, sqrt: real -> real): real
    requires n >= 0.0
  {
    sqrt((e * e * n + ve * ve + c * c * n + v * v) / (n + 1.0) - RunningMean(c, n, v) * RunningMean(c, n, v))
  }

  /** The mean of `n` values with mean `c` and one more value `v`. */
  function RunningMean(c: real, n: real, v: real): real
    requires n >= 0.0
  {
    (c * n + v) / (n + 1.0)
  }

  /** Merging a point into a bin: running means, running spreads, count plus one. */
  function Merge(b: Bin, p: Point, sqrt: real -> real): (r: Bin)
    requires b.n >= 0.0
    ensures r.n == b.n + 1.0
  {
    Bin(RunningMean(b.x, b.n, p.x), Spread(b.xe, b.x, b.n, p.x, p.xe, sqrt),
        RunningMean(b.y, b.n, p.y), Spread(b.ye, b.y, b.n, p.y, p.ye, sqrt),
        b.n + 1.0)
  }

  function Fresh(p: Point): Bin
  {
    Bin(p.x, p.xe, p.y, p.ye, 1.0)
  }

  /** A point joins the first near bin, or opens a new bin at the end. */
  function Absorb(bins: seq<Bin>, p: Point, cn: real, sqrt: real -> real): (r: seq<Bin>)
    requires Counted(bins)
    ensures Counted(r)
    ensures FirstNear(bins, p, cn) < |bins| ==> |r| == |bins|
    ensures FirstNear(bins, p, cn) == |bins| ==> |r| == |bins| + 1 && r[|bins|] == Fresh(p)
    ensures forall j :: 0 <= j < |bins| && j != FirstNear(bins, p, cn) ==> r[j] == bins[j]
  {
    var f := FirstNear(bins, p, cn);
    if f < |bins| then bins[f := Merge(bins[f], p, sqrt)] else bins + [Fresh(p)]
  }

  predicate InBound(p: Point, lb: real, ub: real)
  {
    lb <= p.y && p.y <= ub
  }

  /** The bins after the first `k` points. */
  function Binned(ps: seq<Point>, k: nat, lb: real, ub: real, cn: real, sqrt: real -> real): (r: seq<Bin>)
    requires k <= |ps|
    ensures Counted(r)
    ensures |r| <= k
  {
    if k == 0 then []
    else
      var bins := Binned(ps, k - 1, lb, ub, cn, sqrt);
      if InBound(ps[k - 1], lb, ub) then Absorb(bins, ps[k - 1], cn, sqrt) else bins
  }

  lemma {:induction false} BinnedStep(ps: seq<Point>, k: nat, lb: real, ub: real, cn: real, sqrt: real -> real)
    requires k < |ps|
    ensures Binned(ps, k + 1, lb, ub, cn, sqrt)
         == if InBound(ps[k], lb, ub) then Absorb(Binned(ps, k, lb, ub, cn, sqrt), ps[k], cn, sqrt) else Binned(ps, k, lb, ub, cn, sqrt)
  {
  }

  /** The bin point `i` went to when it was read (meaningful for an in-bound point). */
  function Owner(ps: seq<Point>, i: nat, lb: real, ub: real, cn: real, sqrt: real -> real): nat
    requires i < |ps|
  {
    FirstNear(Binned(ps, i, lb, ub, cn, sqrt), ps[i], cn)
  }

  predicate Joined(ps: seq<Point>, i: nat, j: nat, lb: real, ub: real, cn: real, sqrt: real -> real)
    requires i < |ps|
  {
    InBound(ps[i], lb, ub) && Owner(ps, i, lb, ub, cn, sqrt) == j
  }

  /** The number of the first `k` points that went to bin `j`. */
  function Members(ps: seq<Point>, k: nat, j: nat, lb: real, ub: real, cn: real, sqrt: real -> real): real
    requires k <= |ps|
  {
    if k == 0 then 0.0
    else Members(ps, k - 1, j, lb, ub, cn, sqrt) + (if Joined(ps, k - 1, j, lb, ub, cn, sqrt) then 1.0 else 0.0)
  }

  /** The sum of x over the first `k` points that went to bin `j`. */
  function MemberX(ps: seq<Point>, k: nat, j: nat, lb: real, ub: real, cn: real, sqrt: real -> real): real
    requires k <= |ps|
  {
    if k == 0 then 0.0
    else MemberX(ps, k - 1, j, lb, ub, cn, sqrt) + (if Joined(ps, k - 1, j, lb, ub, cn, sqrt) then ps[k - 1].x else 0.0)
  }

  /** The sum of y over the first `k` points that went to bin `j`. */
  function MemberY(ps: seq<Point>, k: nat, j: nat, lb: real, ub: real, cn: real, sqrt: real -> real): real
    requires k <= |ps|
  {
    if k == 0 then 0.0
    else MemberY(ps, k - 1, j, lb, ub, cn, sqrt) + (if Joined(ps, k - 1, j, lb, ub, cn, sqrt) then ps[k - 1].y else 0.0)
  }

  /** The number of in-bound points among the first `k`. */
  function InBoundCount(ps: seq<Point>, k: nat, lb: real, ub: real): real
    requires k <= |ps|
  {
    if k == 0 then 0.0
    else InBoundCount(ps, k - 1, lb, ub) + (if InBound(ps[k - 1], lb, ub) then 1.0 else 0.0)
  }

  function Total(bins: seq<Bin>): real
  {
    if bins == [] then 0.0 else bins[0].n + Total(bins[1..])
  }

  lemma {:induction false} TotalUpdate(bins: seq<Bin>, j: nat, b: Bin)
    requires j < |bins|
    ensures Total(bins[j := b]) == Total(bins) - bins[j].n + b.n
  {
    if j > 0 {
      TotalUpdate(bins[1..], j - 1, b);
      assert bins[j := b][1..] == bins[1..][j - 1 := b];
    }
  }

  lemma {:induction false} TotalAppend(bins: seq<Bin>, b: Bin)
    ensures Total(bins + [b]) == Total(bins) + b.n
  {
    if bins != [] {
      TotalAppend(bins[1..], b);
      assert (bins + [b])[1..] == bins[1..] + [b];
    }
  }

  /** Absorbing a point adds exactly one to the total count. */
  lemma {:induction false} AbsorbTotal(bins: seq<Bin>, p: Point, cn: real, sqrt: real -> real)
    requires Counted(bins)
    ensures Total(Absorb(bins, p, cn, sqrt)) == Total(bins) + 1.0
  {
    var f := FirstNear(bins, p, cn);
    if f < |bins| {
      TotalUpdate(bins, f, Merge(bins[f], p, sqrt));
    } else {
      TotalAppend(bins, Fresh(p));
    }
  }

  /** The counts add up to the number of in-bound points. */
  lemma {:induction false} CountsTotal(ps: seq<Point>, k: nat, lb: real, ub: real, cn: real, sqrt: real -> real)
    requires k <= |ps|
    ensures Total(Binned(ps, k, lb, ub, cn, sqrt)) == InBoundCount(ps, k, lb, ub)
  {
    if k > 0 {
      CountsTotal(ps, k - 1, lb, ub, cn, sqrt);
      if InBound(ps[k - 1], lb, ub) {
        AbsorbTotal(Binned(ps, k - 1, lb, ub, cn, sqrt), ps[k - 1], cn, sqrt);
      }
    }
  }

  /** Bins are never removed: the number of bins only grows. */
  lemma {:induction false} BinnedGrows(ps: seq<Point>, i: nat, k: nat, lb: real, ub: real, cn: real, sqrt: real -> real)
    requires i <= k <= |ps|
    ensures |Binned(ps, i, lb, ub, cn, sqrt)| <= |Binned(ps, k, lb, ub, cn, sqrt)|
    decreases k - i
  {
    if i < k {
      BinnedGrows(ps, i, k - 1, lb, ub, cn, sqrt);
      BinnedStep(ps, k - 1, lb, ub, cn, sqrt);
      AbsorbGrows(Binned(ps, k - 1, lb, ub, cn, sqrt), ps[k - 1], cn, sqrt);
    }
  }

  lemma {:induction false} AbsorbGrows(bins: seq<Bin>, p: Point, cn: real, sqrt: real -> real)
    requires Counted(bins)
    ensures |bins| <= |Absorb(bins, p, cn, sqrt)| <= |bins| + 1
  {
  }

  /** No point read before bin `j` existed went to it. */
  lemma {:induction false} NoMembersYet(ps: seq<Point>, k: nat, j: nat, lb: real, ub: real, cn: real, sqrt: real -> real)
    requires k <= |ps| && j >= |Binned(ps, k, lb, ub, cn, sqrt)|
    ensures Members(ps, k, j, lb, ub, cn, sqrt) == 0.0
    ensures MemberX(ps, k, j, lb, ub, cn, sqrt) == 0.0
    ensures MemberY(ps, k, j, lb, ub, cn, sqrt) == 0.0
  {
    if k > 0 {
      var before := Binned(ps, k - 1, lb, ub, cn, sqrt);
      BinnedGrows(ps, k - 1, k, lb, ub, cn, sqrt);
      NoMembersYet(ps, k - 1, j, lb, ub, cn, sqrt);
      if InBound(ps[k - 1], lb, ub) {
        assert Owner(ps, k - 1, lb, ub, cn, sqrt) < |Absorb(before, ps[k - 1], cn, sqrt)|;
      }
    }
  }

  function Times(a: real, b: real): real
  {
    a * b
  }

  /** A running mean times the new count is the old sum plus the new value. */
  lemma {:induction false} MeanTimes(c: real, n: real, v: real)
    requires n >= 0.0
    ensures Times(RunningMean(c, n, v), n + 1.0) == Times(c, n) + v
  {
  }

  /** The bins' relation to their members, for bin `j` after `k` points. */
  predicate MeansHold(ps: seq<Point>, k: nat, j: nat, lb: real, ub: real, cn: real, sqrt: real -> real)
    requires k <= |ps| && j < |Binned(ps, k, lb, ub, cn, sqrt)|
  {
    var b := Binned(ps, k, lb, ub, cn, sqrt)[j];
    && b.n == Members(ps, k, j, lb, ub, cn, sqrt)
    && Times(b.x, b.n) == MemberX(ps, k, j, lb, ub, cn, sqrt)
    && Times(b.y, b.n) == MemberY(ps, k, j, lb, ub, cn, sqrt)
  }

  /** A bin the `k`-th point did not go to keeps its values and its members. */
  lemma {:induction false} Untouched(ps: seq<Point>, k: nat, j: nat, lb: real, ub: real, cn: real, sqrt: real -> real)
    requires 0 < k <= |ps| && j < |Binned(ps, k - 1, lb, ub, cn, sqrt)|
    requires !Joined(ps, k - 1, j, lb, ub, cn, sqrt)
    requires MeansHold(ps, k - 1, j, lb, ub, cn, sqrt)
    ensures j < |Binned(ps, k, lb, ub, cn, sqrt)| && MeansHold(ps, k, j, lb, ub, cn, sqrt)
  {
    var before := Binned(ps, k - 1, lb, ub, cn, sqrt);
    var bins := Binned(ps, k, lb, ub, cn, sqrt);
    BinnedGrows(ps, k - 1, k, lb, ub, cn, sqrt);
    assert bins[j] == before[j];
    assert Members(ps, k, j, lb, ub, cn, sqrt) == Members(ps, k - 1, j, lb, ub, cn, sqrt);
    assert MemberX(ps, k, j, lb, ub, cn, sqrt) == MemberX(ps, k - 1, j, lb, ub, cn, sqrt);
    assert MemberY(ps, k, j, lb, ub, cn, sqrt) == MemberY(ps, k - 1, j, lb, ub, cn, sqrt);
  }

  /** The bin the `k`-th point merged into. */
  lemma {:induction false} Merged(ps: seq<Point>, k: nat, j: nat, lb: real, ub: real, cn: real, sqrt: real -> real)
    requires 0 < k <= |ps| && j < |Binned(ps, k - 1, lb, ub, cn, sqrt)|
    requires Joined(ps, k - 1, j, lb, ub, cn, sqrt)
    requires MeansHold(ps, k - 1, j, lb, ub, cn, sqrt)
    ensures j < |Binned(ps, k, lb, ub, cn, sqrt)| && MeansHold(ps, k, j, lb, ub, cn, sqrt)
  {
    var b := Binned(ps, k - 1, lb, ub, cn, sqrt)[j];
    var p := ps[k - 1];
    var b' := Merge(b, p, sqrt);
    assert Binned(ps, k, lb, ub, cn, sqrt)[j] == b';
    assert Members(ps, k, j, lb, ub, cn, sqrt) == Members(ps, k - 1, j, lb, ub, cn, sqrt) + 1.0;
    assert MemberX(ps, k, j, lb, ub, cn, sqrt) == MemberX(ps, k - 1, j, lb, ub, cn, sqrt) + p.x;
    assert MemberY(ps, k, j, lb, ub, cn, sqrt) == MemberY(ps, k - 1, j, lb, ub, cn, sqrt) + p.y;
    MeanTimes(b.x, b.n, p.x);
    MeanTimes(b.y, b.n, p.y);
    assert b'.n == b.n + 1.0 && b'.x == RunningMean(b.x, b.n, p.x) && b'.y == RunningMean(b.y, b.n, p.y);
  }

  /** The bin the `k`-th point opened. */
  lemma {:induction false} Opened(ps: seq<Point>, k: nat, lb: real, ub: real, cn: real, sqrt: real -> real)
    requires 0 < k <= |ps|
    requires Joined(ps, k - 1, |Binned(ps, k - 1, lb, ub, cn, sqrt)|, lb, ub, cn, sqrt)
    ensures |Binned(ps, k - 1, lb, ub, cn, sqrt)| < |Binned(ps, k, lb, ub, cn, sqrt)|
    ensures MeansHold(ps, k, |Binned(ps, k - 1, lb, ub, cn, sqrt)|, lb, ub, cn, sqrt)
  {
    var j := |Binned(ps, k - 1, lb, ub, cn, sqrt)|;
    NoMembersYet(ps, k - 1, j, lb, ub, cn, sqrt);
    assert Binned(ps, k, lb, ub, cn, sqrt)[j] == Fresh(ps[k - 1]);
  }

  /**
   * Every bin's count is the number of points merged into it, and its
   * centres times its count are the sums of those points' x and y values.
   */
  lemma {:induction false} BinMeans(ps: seq<Point>, k: nat, j: nat, lb: real, ub: real, cn: real, sqrt: real -> real)
    requires k <= |ps| && j < |Binned(ps, k, lb, ub, cn, sqrt)|
    ensures MeansHold(ps, k, j, lb, ub, cn, sqrt)
  {
    var before := Binned(ps, k - 1, lb, ub, cn, sqrt);
    if j < |before| {
      BinMeans(ps, k - 1, j, lb, ub, cn, sqrt);
      if Joined(ps, k - 1, j, lb, ub, cn, sqrt) {
        Merged(ps, k, j, lb, ub, cn, sqrt);
      } else {
        Untouched(ps, k, j, lb, ub, cn, sqrt);
      }
    } else {
      Opened(ps, k, lb, ub, cn, sqrt);
    }
  }

  // ----------------------------------------------------------------------
  // The conditioning loop and the whole conditioning step
  // ----------------------------------------------------------------------

  function Points(xx: seq<real>, xe: seq<real>, yy: seq<real>, ye: seq<real>): (ps: seq<Point>)
    requires |xe| == |xx| && |yy| == |xx| && |ye| == |xx|
    ensures |ps| == |xx|
    ensures forall i :: 0 <= i < |xx| ==> ps[i] == Point(xx[i], xe[i], yy[i], ye[i])
  {
    seq(|xx|, i requires 0 <= i < |xx| => Point(xx[i], xe[i], yy[i], ye[i]))
  }

  /** The five parallel arrays hold the bins, column by column. */
  predicate Columns(cxx: seq<real>, cxe: seq<real>, cyy: seq<real>, cye: seq<real>, nn: seq<real>, bins: seq<Bin>)
  {
    && |cxx| == |bins| && |cxe| == |bins| && |cyy| == |bins| && |cye| == |bins| && |nn| == |bins|
    && forall j :: 0 <= j < |bins| ==>
         bins[j] == Bin(cxx[j], cxe[j], cyy[j], cye[j], nn[j])
  }

  /**
   * The nested loop of `__condition_data` over already scaled data: each
   * in-bound point is merged into the first bin with a near centre
   * (`fflag` marks that one was found) or appended as a new bin.
   */
  method CondenseLoop(xx: seq<real>, xe: seq<real>, yy: seq<real>, ye: seq<real>, lb: real, ub: real, cn: real, sqrt: real -> real)
    returns (cxx: seq<real>, cxe: seq<real>, cyy: seq<real>, cye: seq<real>, nn: seq<real>)
    requires |xe| == |xx| && |yy| == |xx| && |ye| == |xx|
    ensures Columns(cxx, cxe, cyy, cye, nn, Binned(Points(xx, xe, yy, ye), |xx|, lb, ub, cn, sqrt))
  {
    ghost var ps := Points(xx, xe, yy, ye);
    cxx, cxe, cyy, cye, nn := [], [], [], [], [];
    var ii := 0;
    while ii < |xx|
      invariant 0 <= ii <= |xx|
      invariant Columns(cxx, cxe, cyy, cye, nn, Binned(ps, ii, lb, ub, cn, sqrt))
    {
      cxx, cxe, cyy, cye, nn := CondenseStep(cxx, cxe, cyy, cye, nn, ps, ii, xx[ii], xe[ii], yy[ii], ye[ii], lb, ub, cn, sqrt);
      ii := ii + 1;
    }
  }

  /** One pass of the outer loop: an in-bound point is absorbed, any other skipped. */
  method CondenseStep(cxx: seq<real>, cxe: seq<real>, cyy: seq<real>, cye: seq<real>, nn: seq<real>, ghost ps: seq<Point>, ghost ii: nat,
                      x: real, xe: real, y: real, ye: real, lb: real, ub: real, cn: real, sqrt: real -> real)
    returns (cxx': seq<real>, cxe': seq<real>, cyy': seq<real>, cye': seq<real>, nn': seq<real>)
    requires ii < |ps| && ps[ii] == Point(x, xe, y, ye)
    requires Columns(cxx, cxe, cyy, cye, nn, Binned(ps, ii, lb, ub, cn, sqrt))
    ensures Columns(cxx', cxe', cyy', cye', nn', Binned(ps, ii + 1, lb, ub, cn, sqrt))
  {
    ghost var before := Binned(ps, ii, lb, ub, cn, sqrt);
    BinnedStep(ps, ii, lb, ub, cn, sqrt);
    if y >= lb && y <= ub {
      assert InBound(ps[ii], lb, ub);
      cxx', cxe', cyy', cye', nn' := AbsorbPoint(cxx, cxe, cyy, cye, nn, before, x, xe, y, ye, cn, sqrt);
    } else {
      assert !InBound(ps[ii], lb, ub);
      cxx', cxe', cyy', cye', nn' := cxx, cxe, cyy, cye, nn;
    }
  }

  /**
   * The inner `for jj` loop and the append after it: the point joins the
   * first bin with a near centre (`fflag` marks that one was found), or
   * opens a new bin.
   */
  method AbsorbPoint(cxx: seq<real>, cxe: seq<real>, cyy: seq<real>, cye: seq<real>, nn: seq<real>, ghost bins: seq<Bin>,
                     x: real, xe: real, y: real, ye: real, cn: real, sqrt: real -> real)
    returns (cxx': seq<real>, cxe': seq<real>, cyy': seq<real>, cye': seq<real>, nn': seq<real>)
    requires Counted(bins) && Columns(cxx, cxe, cyy, cye, nn, bins)
    ensures Columns(cxx', cxe', cyy', cye', nn', Absorb(bins, Point(x, xe, y, ye), cn, sqrt))
  {
    ghost var p := Point(x, xe, y, ye);
    ghost var f := FirstNear(bins, p, cn);
    cxx', cxe', cyy', cye', nn' := cxx, cxe, cyy, cye, nn;
    var fflag := false;
    var jj := 0;
    while jj < |cxx'|
      invariant 0 <= jj <= |cxx'| == |bins|
      invariant !fflag ==> f >= jj && Columns(cxx', cxe', cyy', cye', nn', bins)
      invariant fflag ==> f < jj && Columns(cxx', cxe', cyy', cye', nn', bins[f := Merge(bins[f], p, sqrt)])
    {
      if Abs(cxx'[jj] - x) < cn && !fflag {
        cxe' := cxe'[jj := Spread(cxe'[jj], cxx'[jj], nn'[jj], x, xe, sqrt)];
        cxx' := cxx'[jj := RunningMean(cxx'[jj], nn'[jj], x)];
        cye' := cye'[jj := Spread(cye'[jj], cyy'[jj], nn'[jj], y, ye, sqrt)];
        cyy' := cyy'[jj := RunningMean(cyy'[jj], nn'[jj], y)];
        nn' := nn'[jj := nn'[jj] + 1.0];
        fflag := true;
      }
      jj := jj + 1;
    }
    if !fflag {
      nn' := nn' + [1.0];
      cxx' := cxx' + [x];
      cxe' := cxe' + [xe];
      cyy' := cyy' + [y];
      cye' := cye' + [ye];
    }
  }

  function MaxAbs(v: seq<real>): (m: real)
    requires v != []
    ensures forall i :: 0 <= i < |v| ==> Abs(v[i]) <= m
    ensures exists i :: 0 <= i < |v| && Abs(v[i]) == m
  {
    if |v| == 1 then Abs(v[0])
    else
      var m' := MaxAbs(v[1..]);
      assert forall i :: 1 <= i < |v| ==> v[i] == v[1..][i - 1];
      if Abs(v[0]) > m' then Abs(v[0]) else m'
  }

  /** The scale dividing the data before conditioning: the largest magnitude when it exceeds 1000, else 1. */
  function Scale(v: seq<real>): (s: real)
    requires v != []
    ensures s >= 1.0
    ensures forall i :: 0 <= i < |v| ==> Abs(v[i]) <= 1000.0 || Abs(v[i]) <= s
  {
    if MaxAbs(v) > 1000.0 then MaxAbs(v) else 1.0
  }

  /** Per-point errors: the given ones when there is one per point, else the first one repeated. */
  function Broadcast(e: seq<real>, n: nat): (r: seq<real>)
    requires |e| == n || e != []
    ensures |r| == n
    ensures |e| == n ==> r == e
    ensures |e| != n ==> forall i :: 0 <= i < n ==> r[i] == e[0]
  {
    if |e| == n then e else seq(n, _ => e[0])
  }

  function DivideAll(v: seq<real>, s: real): (r: seq<real>)
    requires s != 0.0
    ensures |r| == |v|
  {
    seq(|v|, i requires 0 <= i < |v| => v[i] / s)
  }

  function MultiplyAll(v: seq<real>, s: real): (r: seq<real>)
    ensures |r| == |v|
  {
    seq(|v|, i requires 0 <= i < |v| => v[i] * s)
  }

  datatype Conditioned = Conditioned(cxx: seq<real>, cxe: seq<real>, cyy: seq<real>, cye: seq<real>, nn: seq<real>)

  /** The points after broadcasting the errors and dividing by the scales. */
  function ScaledPoints(xx: seq<real>, xe: seq<real>, yy: seq<real>, ye: seq<real>): seq<Point>
    requires |yy| == |xx| && xx != []
    requires |xe| == |xx| || xe != []
    requires |ye| == |yy| || ye != []
  {
    var xsc, ysc := Scale(xx), Scale(yy);
    Points(DivideAll(xx, xsc), DivideAll(Broadcast(xe, |xx|), xsc), DivideAll(yy, ysc), DivideAll(Broadcast(ye, |yy|), ysc))
  }

  /**
   * `__condition_data`: mismatched x and y fail in the finiteness mask,
   * a missing error array fails at its first element, no data fails in the
   * maximum; otherwise the scaled points are binned and the bins scaled
   * back. The bounds and `cn` apply to the scaled values.
   */
  function ConditionSpec(xx: seq<real>, xe: seq<real>, yy: seq<real>, ye: seq<real>, lb: real, ub: real, cn: real, sqrt: real -> real): Result<Conditioned>
  {
    if |xx| != |yy| then Err(ValueError)
    else if |xe| != |xx| && xe == [] then Err(IndexError)
    else if |ye| != |yy| && ye == [] then Err(IndexError)
    else if xx == [] then Err(ValueError)
    else
      var xsc, ysc := Scale(xx), Scale(yy);
      var bins := Binned(ScaledPoints(xx, xe, yy, ye), |xx|, lb, ub, cn, sqrt);
      Ok(Conditioned(MultiplyAll(Xs(bins), xsc), MultiplyAll(XEs(bins), xsc),
                     MultiplyAll(Ys(bins), ysc), MultiplyAll(YEs(bins), ysc), Ns(bins)))
  }

  function Xs(bins: seq<Bin>): seq<real> { seq(|bins|, j requires 0 <= j < |bins| => bins[j].x) }
  function XEs(bins: seq<Bin>): seq<real> { seq(|bins|, j requires 0 <= j < |bins| => bins[j].xe) }
  function Ys(bins: seq<Bin>): seq<real> { seq(|bins|, j requires 0 <= j < |bins| => bins[j].y) }
  function YEs(bins: seq<Bin>): seq<real> { seq(|bins|, j requires 0 <= j < |bins| => bins[j].ye) }
  function Ns(bins: seq<Bin>): seq<real> { seq(|bins|, j requires 0 <= j < |bins| => bins[j].n) }

  lemma {:induction false} ColumnsAre(cxx: seq<real>, cxe: seq<real>, cyy: seq<real>, cye: seq<real>, nn: seq<real>, bins: seq<Bin>)
    requires Columns(cxx, cxe, cyy, cye, nn, bins)
    ensures cxx == Xs(bins) && cxe == XEs(bins) && cyy == Ys(bins) && cye == YEs(bins) && nn == Ns(bins)
  {
  }

  method ConditionData(xx: seq<real>, xe: seq<real>, yy: seq<real>, ye: seq<real>, lb: real, ub: real, cn: real, sqrt: real -> real)
    returns (r: Result<Conditioned>)
    ensures r == ConditionSpec(xx, xe, yy, ye, lb, ub, cn, sqrt)
  {
    if |xx| != |yy| {
      return Err(ValueError);
    }
    if |xe| != |xx| && xe == [] {
      return Err(IndexError);
    }
    if |ye| != |yy| && ye == [] {
      return Err(IndexError);
    }
    if xx == [] {
      return Err(ValueError);
    }
    var xsc, ysc := Scale(xx), Scale(yy);
    var sx := DivideAll(xx, xsc);
    var sxe := DivideAll(Broadcast(xe, |xx|), xsc);
    var sy := DivideAll(yy, ysc);
    var sye := DivideAll(Broadcast(ye, |yy|), ysc);
    var cxx, cxe, cyy, cye, nn := CondenseLoop(sx, sxe, sy, sye, lb, ub, cn, sqrt);
    assert Points(sx, sxe, sy, sye) == ScaledPoints(xx, xe, yy, ye);
    ColumnsAre(cxx, cxe, cyy, cye, nn, Binned(ScaledPoints(xx, xe, yy, ye), |xx|, lb, ub, cn, sqrt));
    r := Ok(Conditioned(MultiplyAll(cxx, xsc), MultiplyAll(cxe, xsc), MultiplyAll(cyy, ysc), MultiplyAll(cye, ysc), nn));
  }

  function SumOf(v: seq<real>): real
  {
    if v == [] then 0.0 else v[0] + SumOf(v[1..])
  }

  lemma {:induction false} SumOfCounts(bins: seq<Bin>, nn: seq<real>)
    requires |nn| == |bins| && forall j :: 0 <= j < |bins| ==> nn[j] == bins[j].n
    ensures SumOf(nn) == Total(bins)
  {
    if bins != [] {
      SumOfCounts(bins[1..], nn[1..]);
    }
  }

  /**
   * A successful conditioning gives five outputs of one length, counts of
   * at least one, and counts adding up to the number of points whose
   * scaled y lies within the bounds.
   */
  lemma {:induction false} ConditionedShape(xx: seq<real>, xe: seq<real>, yy: seq<real>, ye: seq<real>, lb: real, ub: real, cn: real, sqrt: real -> real)
    requires ConditionSpec(xx, xe, yy, ye, lb, ub, cn, sqrt).Ok?
    ensures var c := ConditionSpec(xx, xe, yy, ye, lb, ub, cn, sqrt).value;
      && |c.cxe| == |c.cxx| && |c.cyy| == |c.cxx| && |c.cye| == |c.cxx| && |c.nn| == |c.cxx|
      && (forall j :: 0 <= j < |c.nn| ==> c.nn[j] >= 1.0)
      && SumOf(c.nn) == InBoundCount(ScaledPoints(xx, xe, yy, ye), |xx|, lb, ub)
  {
    var ps := ScaledPoints(xx, xe, yy, ye);
    var bins := Binned(ps, |xx|, lb, ub, cn, sqrt);
    var c := ConditionSpec(xx, xe, yy, ye, lb, ub, cn, sqrt).value;
    assert c.nn == Ns(bins);
    SumOfCounts(bins, c.nn);
    CountsTotal(ps, |xx|, lb, ub, cn, sqrt);
  }
}
