/** SpacingComp: the squared distance between every pair of turbines.

    Pairs `(i, j)` with `i < j` are enumerated with `i` in the outer loop and
    `j` in the inner one; a running counter `k` numbers them, and the output
    and each Jacobian row are indexed by that counter. */
module Spacing {
  import opened Linear
  import opened Layouts

  /** The number of pairs whose first turbine comes before `i`: where the
      pairs of turbine `i` start. */
  function Offset(n: nat, i: nat): nat
    requires i <= n
  {
    if i == 0 then 0 else Offset(n, i - 1) + (n - i)
  }

  /** The length of the output, `n(n-1)/2`. */
  function PairCount(n: nat): nat
  {
    Offset(n, n)
  }

  /** The counter value `k` at which the loops reach the pair `(i, j)`. */
  function PairIndex(n: nat, i: nat, j: nat): (k: nat)
    requires i < j < n
    ensures Offset(n, i) <= k < Offset(n, i + 1) <= PairCount(n)
  {
    OffsetMonotone(n, i + 1, n);
    Offset(n, i) + (j - i - 1)
  }

  lemma {:induction false} OffsetMonotone(n: nat, a: nat, b: nat)
    requires a <= b <= n
    ensures Offset(n, a) <= Offset(n, b)
    decreases b - a
  {
    if a < b {
      OffsetMonotone(n, a, b - 1);
    }
  }

  /** The pair counter in closed form. */
  lemma {:induction false} OffsetClosedForm(n: nat, i: nat)
    requires i <= n
    ensures 2 * Offset(n, i) == 2 * i * n - i * (i + 1)
  {
    if i > 0 {
      OffsetClosedForm(n, i - 1);
      ClosedFormStep(n, i);
    }
  }

  lemma ClosedFormStep(n: int, i: int)
    ensures 2 * (i - 1) * n - (i - 1) * i + 2 * (n - i) == 2 * i * n - i * (i + 1)
  {
  }

  /** There are `n(n-1)/2` pairs. */
  lemma PairCountClosedForm(n: nat)
    ensures 2 * PairCount(n) == n * (n - 1)
  {
    OffsetClosedForm(n, n);
    assert 2 * n * n - n * (n + 1) == n * (n - 1);
  }

  /** The counter of pair `(i, j)` is `i n - i(i+1)/2 + (j - i - 1)`. */
  lemma PairIndexClosedForm(n: nat, i: nat, j: nat)
    requires i < j < n
    ensures 2 * PairIndex(n, i, j) == 2 * i * n - i * (i + 1) + 2 * (j - i - 1)
  {
    OffsetClosedForm(n, i);
  }

  /** Pairs come in loop order: a pair visited earlier has a smaller counter.
      In particular no two pairs share a counter value. */
  lemma PairIndexOrdered(n: nat, i: nat, j: nat, i': nat, j': nat)
    requires i < j < n && i' < j' < n
    requires i < i' || (i == i' && j < j')
    ensures PairIndex(n, i, j) < PairIndex(n, i', j')
  {
    if i < i' {
      OffsetMonotone(n, i + 1, i');
    }
  }

  /** The pair the loops are at when the counter is `k`: the inverse of `PairIndex`. */
  function PairOf(n: nat, k: nat): (pair: (nat, nat))
    requires k < PairCount(n)
    ensures pair.0 < pair.1 < n && PairIndex(n, pair.0, pair.1) == k
  {
    PairOfFrom(n, 0, k)
  }

  function PairOfFrom(n: nat, i0: nat, k: nat): (pair: (nat, nat))
    requires i0 <= n && Offset(n, i0) <= k < PairCount(n)
    ensures i0 <= pair.0 < pair.1 < n && PairIndex(n, pair.0, pair.1) == k
    decreases n - i0
  {
    assert i0 < n;
    if k < Offset(n, i0 + 1) then
      (i0, i0 + 1 + (k - Offset(n, i0)))
    else
      PairOfFrom(n, i0 + 1, k)
  }

  /** `PairIndex` and `PairOf` are inverse bijections between the pairs
      `i < j < n` and the counter values below `n(n-1)/2`. */
  lemma PairOfPairIndex(n: nat, i: nat, j: nat)
    requires i < j < n
    ensures PairOf(n, PairIndex(n, i, j)) == (i, j)
  {
    var (i', j') := PairOf(n, PairIndex(n, i, j));
    if i' < i || (i' == i && j' < j) {
      PairIndexOrdered(n, i', j', i, j);
    } else if i < i' || (i == i' && j < j') {
      PairIndexOrdered(n, i, j, i', j');
    }
  }

  /** The squared distance of turbines `i` and `j`: never negative, zero for
      two turbines at the same place, and the same read either way round. */
  function SeparationSquared(p: Layout, i: nat, j: nat): (d: real)
    requires p.Valid() && i < p.Count() && j < p.Count()
    ensures d >= 0.0
    ensures p.x[i] == p.x[j] && p.y[i] == p.y[j] ==> d == 0.0
    ensures d == Square(p.x[i] - p.x[j]) + Square(p.y[i] - p.y[j])
  {
    SquareNonnegative(p.x[j] - p.x[i]);
    SquareNonnegative(p.y[j] - p.y[i]);
    SquareSymmetric(p.x[j], p.x[i]);
    SquareSymmetric(p.y[j], p.y[i]);
    Square(p.x[j] - p.x[i]) + Square(p.y[j] - p.y[i])
  }

  /** The squared distance of the pair the counter `k` stands for. */
  function PairSeparation(p: Layout, k: nat): (d: real)
    requires p.Valid() && k < PairCount(p.Count())
    ensures d >= 0.0
  {
    var (i, j) := PairOf(p.Count(), k);
    SeparationSquared(p, i, j)
  }

  /** `SpacingComp.solve_nonlinear`: entry `k` of the output is the squared
      distance of the `k`-th pair in loop order, so every entry is non-negative. */
  function Solve(p: Layout): (s: Vector)
    requires p.Valid()
    ensures |s| == PairCount(p.Count())
    ensures forall i, j :: 0 <= i < j < p.Count() ==>
      s[PairIndex(p.Count(), i, j)] == Square(p.x[j] - p.x[i]) + Square(p.y[j] - p.y[i])
    ensures forall k :: 0 <= k < |s| ==> s[k] >= 0.0
  {
    var n := p.Count();
    var s := seq(PairCount(n), k requires 0 <= k < PairCount(n) => PairSeparation(p, k));
    assert forall i, j :: 0 <= i < j < n ==> s[PairIndex(n, i, j)] == SeparationSquared(p, i, j) by {
      forall i, j | 0 <= i < j < n
        ensures s[PairIndex(n, i, j)] == SeparationSquared(p, i, j)
      {
        PairOfPairIndex(n, i, j);
      }
    }
    s
  }

  /** Lists the squared distance of every pair, by counter: the output of
      `Solve`, and the only such list. */
  ghost predicate ListsSeparations(p: Layout, s: Vector)
    requires p.Valid()
  {
    && |s| == PairCount(p.Count())
    && forall i, j :: 0 <= i < j < p.Count() ==> s[PairIndex(p.Count(), i, j)] == SeparationSquared(p, i, j)
  }

  lemma ListsSeparationsUnique(p: Layout, s: Vector)
    requires p.Valid() && ListsSeparations(p, s)
    ensures s == Solve(p)
  {
    var n := p.Count();
    var all := Solve(p);
    forall k | 0 <= k < |s|
      ensures s[k] == all[k]
    {
      var (i, j) := PairOf(n, k);
      assert s[PairIndex(n, i, j)] == SeparationSquared(p, i, j);
      assert all[PairIndex(n, i, j)] == SeparationSquared(p, i, j);
    }
  }

  /** The same output computed as the source does, with the pair counter `k`
      advanced inside the two nested loops. */
  method SolveWithCounter(p: Layout) returns (s: Vector)
    requires p.Valid()
    ensures s == Solve(p)
    ensures 2 * |s| == p.Count() * (p.Count() - 1)
  {
    var n := p.Count();
    s := [];
    var k := 0;
    var i := 0;
    while i < n
      invariant 0 <= i <= n
      invariant k == Offset(n, i) && |s| == k
      invariant forall a, b :: 0 <= a < b < n && a < i ==> PairIndex(n, a, b) < k
      invariant forall a, b :: 0 <= a < b < n && PairIndex(n, a, b) < k ==>
        s[PairIndex(n, a, b)] == SeparationSquared(p, a, b)
    {
      var j := i + 1;
      while j < n
        invariant i + 1 <= j <= n
        invariant k == Offset(n, i) + (j - i - 1) && |s| == k
        invariant forall a, b :: 0 <= a < b < n && (a < i || (a == i && b < j)) ==> PairIndex(n, a, b) < k
        invariant forall a, b :: 0 <= a < b < n && PairIndex(n, a, b) < k ==>
          s[PairIndex(n, a, b)] == SeparationSquared(p, a, b)
      {
        assert k == PairIndex(n, i, j);
        forall a, b | 0 <= a < b < n && PairIndex(n, a, b) == k
          ensures a == i && b == j
        {
          PairOfPairIndex(n, a, b);
          PairOfPairIndex(n, i, j);
        }
        s := s + [(p.x[j] - p.x[i]) * (p.x[j] - p.x[i]) + (p.y[j] - p.y[i]) * (p.y[j] - p.y[i])];
        k := k + 1;
        j := j + 1;
      }
      i := i + 1;
    }
    PairCountClosedForm(n);
    assert ListsSeparations(p, s);
    ListsSeparationsUnique(p, s);
  }

  /** Entry `c` of the Jacobian row of pair `(i, j)` for one coordinate:
      `+2 delta` at the second turbine, `-2 delta` at the first, zero elsewhere. */
  function PairSlope(i: nat, j: nat, c: int, delta: real): real
  {
    if c == j then 2.0 * delta else if c == i then -2.0 * delta else 0.0
  }

  function PairRow(n: nat, i: nat, j: nat, delta: real): Vector
  {
    seq(n, c => PairSlope(i, j, c, delta))
  }

  /** The two halves of the Jacobian, `d(wtSeparationSquared)/d(turbineX)` and `/d(turbineY)`. */
  datatype Jacobian = Jacobian(dSdX: Matrix, dSdY: Matrix)

  /** The Jacobian row, for coordinate `v`, of the pair the counter `k` stands for. */
  function CounterRow(n: nat, v: Vector, k: nat): (row: Vector)
    requires |v| == n && k < PairCount(n)
    ensures |row| == n
  {
    var (i, j) := PairOf(n, k);
    PairRow(n, i, j, v[j] - v[i])
  }

  /** `J` has one row per pair and one column per turbine, and the row of
      pair `(i, j)` is that pair's `PairRow` in each half. */
  ghost predicate IsPairJacobian(p: Layout, J: Jacobian)
    requires p.Valid()
  {
    && IsMatrix(J.dSdX, PairCount(p.Count()), p.Count())
    && IsMatrix(J.dSdY, PairCount(p.Count()), p.Count())
    && forall i, j :: 0 <= i < j < p.Count() ==>
      && J.dSdX[PairIndex(p.Count(), i, j)] == PairRow(p.Count(), i, j, p.x[j] - p.x[i])
      && J.dSdY[PairIndex(p.Count(), i, j)] == PairRow(p.Count(), i, j, p.y[j] - p.y[i])
  }

  /** `SpacingComp.linearize`: one row per pair, with two non-zero entries in each half. */
  function Linearize(p: Layout): (J: Jacobian)
    requires p.Valid()
    ensures IsPairJacobian(p, J)
  {
    var n := p.Count();
    var J := Jacobian(
      seq(PairCount(n), k requires 0 <= k < PairCount(n) => CounterRow(n, p.x, k)),
      seq(PairCount(n), k requires 0 <= k < PairCount(n) => CounterRow(n, p.y, k)));
    assert forall i, j :: 0 <= i < j < n ==>
      && J.dSdX[PairIndex(n, i, j)] == PairRow(n, i, j, p.x[j] - p.x[i])
      && J.dSdY[PairIndex(n, i, j)] == PairRow(n, i, j, p.y[j] - p.y[i]) by {
      forall i, j | 0 <= i < j < n
        ensures J.dSdX[PairIndex(n, i, j)] == PairRow(n, i, j, p.x[j] - p.x[i])
        ensures J.dSdY[PairIndex(n, i, j)] == PairRow(n, i, j, p.y[j] - p.y[i])
      {
        PairOfPairIndex(n, i, j);
      }
    }
    J
  }

  /** Entry `(i, j)` of the output is the squared distance of that pair. */
  lemma SolveAt(p: Layout, i: nat, j: nat)
    requires p.Valid() && i < j < p.Count()
    ensures Solve(p)[PairIndex(p.Count(), i, j)] == SeparationSquared(p, i, j)
  {
  }

  /** Moving turbine `k` changes the squared distance of pair `(i, j)` by the
      slopes times the step, plus the squared step when `k` is in the pair. */
  lemma SeparationShift(p: Layout, k: nat, hx: real, hy: real, i: nat, j: nat)
    requires p.Valid() && k < p.Count() && i < j < p.Count()
    ensures SeparationSquared(p.Shift(k, hx, hy), i, j)
              == SeparationSquared(p, i, j)
                 + Directional(PairSlope(i, j, k, p.x[j] - p.x[i]), PairSlope(i, j, k, p.y[j] - p.y[i]), hx, hy)
                 + (if k == i || k == j then hx * hx + hy * hy else 0.0)
  {
    var dx, dy := p.x[j] - p.x[i], p.y[j] - p.y[i];
    if k == j {
      assert SeparationSquared(p.Shift(k, hx, hy), i, j) == Square(dx + hx) + Square(dy + hy);
    } else if k == i {
      assert SeparationSquared(p.Shift(k, hx, hy), i, j) == Square(dx - hx) + Square(dy - hy);
    } else {
      assert SeparationSquared(p.Shift(k, hx, hy), i, j) == Square(dx) + Square(dy);
    }
  }

  /** The same step, read off the output of `Solve`, for any slopes `sx`, `sy`
      equal to the pair's. */
  lemma SolveShift(p: Layout, k: nat, hx: real, hy: real, i: nat, j: nat, sx: real, sy: real)
    requires p.Valid() && k < p.Count() && i < j < p.Count()
    requires sx == PairSlope(i, j, k, p.x[j] - p.x[i]) && sy == PairSlope(i, j, k, p.y[j] - p.y[i])
    ensures Solve(p.Shift(k, hx, hy))[PairIndex(p.Count(), i, j)]
              == Solve(p)[PairIndex(p.Count(), i, j)] + Directional(sx, sy, hx, hy)
                 + (if k == i || k == j then hx * hx + hy * hy else 0.0)
  {
    SolveAt(p, i, j);
    SolveAt(p.Shift(k, hx, hy), i, j);
    SeparationShift(p, k, hx, hy, i, j);
  }

  /** Any pair of blocks whose row for pair `(i, j)` is that pair's `PairRow`
      is the derivative of `Solve`: moving turbine `k` by `(hx, hy)` changes
      the entry of each pair by the first-order term the Jacobian predicts,
      plus `hx^2 + hy^2` for the pairs that turbine `k` belongs to. */
  lemma PairRowsAreDerivative(p: Layout, J: Jacobian, k: nat, hx: real, hy: real)
    requires p.Valid() && k < p.Count() && IsPairJacobian(p, J)
    ensures forall i, j :: 0 <= i < j < p.Count() ==>
      Solve(p.Shift(k, hx, hy))[PairIndex(p.Count(), i, j)]
        == Solve(p)[PairIndex(p.Count(), i, j)]
           + Directional(J.dSdX[PairIndex(p.Count(), i, j)][k], J.dSdY[PairIndex(p.Count(), i, j)][k], hx, hy)
           + (if k == i || k == j then hx * hx + hy * hy else 0.0)
  {
    forall i, j | 0 <= i < j < p.Count()
      ensures Solve(p.Shift(k, hx, hy))[PairIndex(p.Count(), i, j)]
        == Solve(p)[PairIndex(p.Count(), i, j)]
           + Directional(J.dSdX[PairIndex(p.Count(), i, j)][k], J.dSdY[PairIndex(p.Count(), i, j)][k], hx, hy)
           + (if k == i || k == j then hx * hx + hy * hy else 0.0)
    {
      var r := PairIndex(p.Count(), i, j);
      SolveShift(p, k, hx, hy, i, j, J.dSdX[r][k], J.dSdY[r][k]);
    }
  }

  /** `Linearize` is the derivative of `Solve`. */
  lemma LinearizeIsDerivative(p: Layout, k: nat, hx: real, hy: real)
    requires p.Valid() && k < p.Count()
    ensures forall i, j :: 0 <= i < j < p.Count() ==>
      Solve(p.Shift(k, hx, hy))[PairIndex(p.Count(), i, j)]
        == Solve(p)[PairIndex(p.Count(), i, j)]
           + Directional(Linearize(p).dSdX[PairIndex(p.Count(), i, j)][k], Linearize(p).dSdY[PairIndex(p.Count(), i, j)][k], hx, hy)
           + (if k == i || k == j then hx * hx + hy * hy else 0.0)
  {
    PairRowsAreDerivative(p, Linearize(p), k, hx, hy);
  }

  /** Two turbines at (0, 0) and (3, 4): one pair, 25 apart squared. */
  lemma TwoTurbineExample()
    ensures Solve(Layout([0.0, 3.0], [0.0, 4.0])) == [25.0]
  {
    var p := Layout([0.0, 3.0], [0.0, 4.0]);
    assert PairCount(2) == 1 by {
      assert Offset(2, 1) == 1;
    }
    assert PairIndex(2, 0, 1) == 0;
    assert SeparationSquared(p, 0, 1) == 25.0;
    assert ListsSeparations(p, [25.0]);
    ListsSeparationsUnique(p, [25.0]);
  }
}
