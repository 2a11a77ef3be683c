/** Vectors, matrices and sums over `real`, as the components build them with numpy.

    A Jacobian block is a `Matrix` (a sequence of rows); `IsMatrix` states its shape. */
module Linear {

  type Vector = seq<real>
  type Matrix = seq<seq<real>>

  /** numpy's double-precision pi, written as a decimal. */
  const Pi: real := 3.141592653589793

  function Square(a: real): real { a * a }

  function Cube(a: real): real { a * a * a }

  /** The first-order change that a step `(hx, hy)` makes to a quantity whose
      partial derivatives are `dx` and `dy`. */
  function Directional(dx: real, dy: real, hx: real, hy: real): real { hx * dx + hy * dy }

  /** `after` is `before` moved a step `h` along a slope `slope`, up to the
      second-order term `h^2 q`: with `q` bounded near `h = 0`, this says
      `slope` is the derivative. */
  predicate TaylorStep(before: real, after: real, slope: real, h: real, q: real)
  {
    after == before + h * slope + h * h * q
  }

  lemma SquareNonnegative(a: real)
    ensures Square(a) >= 0.0
  {
  }

  lemma SquareSymmetric(a: real, b: real)
    ensures Square(a - b) == Square(b - a)
  {
  }

  predicate IsMatrix(m: Matrix, rows: nat, cols: nat)
  {
    |m| == rows && forall r :: 0 <= r < |m| ==> |m[r]| == cols
  }

  /** `np.zeros(n)` */
  function Zeros(n: nat): Vector
  {
    seq(n, _ => 0.0)
  }

  /** `np.zeros([rows, cols])` */
  function ZeroMatrix(rows: nat, cols: nat): (m: Matrix)
    ensures IsMatrix(m, rows, cols)
  {
    seq(rows, _ => Zeros(cols))
  }

  /** The `i`-th unit vector of length `n`. */
  function UnitVector(n: nat, i: nat): Vector
  {
    seq(n, c => if c == i then 1.0 else 0.0)
  }

  /** The square matrix with `d` on its diagonal: `np.eye(|d|) * d`. */
  function Diagonal(d: Vector): (m: Matrix)
    ensures IsMatrix(m, |d|, |d|)
  {
    seq(|d|, r requires 0 <= r < |d| => seq(|d|, c => if r == c then d[r] else 0.0))
  }

  /** `np.eye(n) * a` */
  function ScaledIdentity(n: nat, a: real): (m: Matrix)
    ensures IsMatrix(m, n, n)
  {
    Diagonal(seq(n, _ => a))
  }

  function Sum(v: Vector): real
  {
    if |v| == 0 then 0.0 else v[0] + Sum(v[1..])
  }

  /** Column `c` of `m`. */
  function Column(m: Matrix, c: nat): Vector
    requires forall r :: 0 <= r < |m| ==> c < |m[r]|
  {
    seq(|m|, r requires 0 <= r < |m| => m[r][c])
  }

  /** `np.sum(m, 0)`: the sum of each column. */
  function ColumnSums(m: Matrix, cols: nat): Vector
    requires IsMatrix(m, |m|, cols)
  {
    seq(cols, c requires 0 <= c < cols => Sum(Column(m, c)))
  }

  /** `np.matmul(m, np.ones(cols))`: the sum of each row. */
  function RowSums(m: Matrix): Vector
  {
    seq(|m|, r requires 0 <= r < |m| => Sum(m[r]))
  }

  /** Raising one entry by `d` raises the sum by `d`. */
  lemma {:induction false} SumUpdate(v: Vector, k: nat, d: real)
    requires k < |v|
    ensures Sum(v[k := v[k] + d]) == Sum(v) + d
  {
    if k == 0 {
      assert v[k := v[k] + d][1..] == v[1..];
    } else {
      assert v[k := v[k] + d][1..] == v[1..][k - 1 := v[k] + d];
      SumUpdate(v[1..], k - 1, d);
    }
  }

  /** Summation is monotone in every entry. */
  lemma {:induction false} SumMonotone(a: Vector, b: Vector)
    requires |a| == |b|
    requires forall i :: 0 <= i < |a| ==> a[i] <= b[i]
    ensures Sum(a) <= Sum(b)
  {
    if |a| > 0 {
      SumMonotone(a[1..], b[1..]);
    }
  }

  /** A vector that is zero everywhere except at `k` sums to its entry at `k`. */
  lemma {:induction false} SumOfOneHot(v: Vector, k: nat)
    requires k < |v|
    requires forall r :: 0 <= r < |v| && r != k ==> v[r] == 0.0
    ensures Sum(v) == v[k]
  {
    if k == 0 {
      SumOfZeros(v[1..]);
    } else {
      SumOfOneHot(v[1..], k - 1);
    }
  }

  /** A vector of zeros sums to zero. */
  lemma {:induction false} SumOfZeros(v: Vector)
    requires forall r :: 0 <= r < |v| ==> v[r] == 0.0
    ensures Sum(v) == 0.0
  {
    if |v| > 0 {
      SumOfZeros(v[1..]);
    }
  }

  /** The column sums of a diagonal matrix are its diagonal. */
  lemma ColumnSumsOfDiagonal(d: Vector)
    ensures ColumnSums(Diagonal(d), |d|) == d
  {
    var m := Diagonal(d);
    forall c | 0 <= c < |d|
      ensures ColumnSums(m, |d|)[c] == d[c]
    {
      SumOfOneHot(Column(m, c), c);
    }
  }

  /** The row sums of a diagonal matrix are its diagonal. */
  lemma RowSumsOfDiagonal(d: Vector)
    ensures RowSums(Diagonal(d)) == d
  {
    var m := Diagonal(d);
    forall r | 0 <= r < |d|
      ensures RowSums(m)[r] == d[r]
    {
      SumOfOneHot(m[r], r);
    }
  }
}
