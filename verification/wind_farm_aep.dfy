/** WindFarmAEP: annual energy production from the power of each wind
    direction weighted by the direction's frequency.

    The `'log'` and `'inverse'` objectives are kept symbolic: the model
    records which transform is applied to the AEP, without computing a
    logarithm or a reciprocal. Their gradients are held symbolically too, and
    `Gradient.Entry` reads one entry as a number. */
module WindFarmAEP {
  import opened Linear
  import opened Outcomes

  /** Number of hours in a year. */
  const Hours: real := 8760.0

  const MethodError: string := "AEP_method must be one of [\"none\",\"log\",\"inverse\"]"

  /** The objective as `solve_nonlinear` leaves it: the plain AEP, its natural
      logarithm, or its reciprocal. */
  datatype Objective = Plain(aep: real) | LogOf(aep: real) | InverseOf(aep: real)

  /** The gradient row `dAEP/ddirPowers`: either the values themselves, the
      element-wise reciprocals of the values held (negated for the inverse
      method), or the values held divided by one common denominator (negated
      likewise). */
  datatype Gradient =
    | Values(row: Vector)
    | ReciprocalOf(denominators: Vector)
    | NegatedReciprocalOf(denominators: Vector)
    | Quotients(numerators: Vector, denominator: real)
    | NegatedQuotients(numerators: Vector, denominator: real)
  {
    function Length(): nat
    {
      match this
      case Values(row) => |row|
      case ReciprocalOf(d) => |d|
      case NegatedReciprocalOf(d) => |d|
      case Quotients(n, _) => |n|
      case NegatedQuotients(n, _) => |n|
    }

    /** Entry `i` as a number, or `None` where it divides by zero. */
    function Entry(i: nat): Option<real>
      requires i < Length()
    {
      match this
      case Values(row) => Some(row[i])
      case ReciprocalOf(d) => if d[i] == 0.0 then None else Some(1.0 / d[i])
      case NegatedReciprocalOf(d) => if d[i] == 0.0 then None else Some(-1.0 / d[i])
      case Quotients(n, d) => if d == 0.0 then None else Some(n[i] / d)
      case NegatedQuotients(n, d) => if d == 0.0 then None else Some(-n[i] / d)
    }
  }

  predicate KnownMethod(aepMethod: string)
  {
    aepMethod == "none" || aepMethod == "log" || aepMethod == "inverse"
  }

  /** `sum(dirPowers * windFrequencies)` */
  function WeightedSum(powers: Vector, frequencies: Vector): real
    requires |powers| == |frequencies|
  {
    if |powers| == 0 then 0.0
    else powers[0] * frequencies[0] + WeightedSum(powers[1..], frequencies[1..])
  }

  /** `WindFarmAEP.solve_nonlinear`: the yearly energy, transformed by the method. */
  function Solve(powers: Vector, frequencies: Vector, aepMethod: string): (r: Result<Objective>)
    requires |powers| == |frequencies|
    ensures r.ValueError? <==> !KnownMethod(aepMethod)
    ensures r.Ok? ==> r.value.aep == Hours * WeightedSum(powers, frequencies)
    ensures aepMethod == "none" ==> r == Ok(Plain(Hours * WeightedSum(powers, frequencies)))
    ensures aepMethod == "log" ==> r.Ok? && r.value.LogOf?
    ensures aepMethod == "inverse" ==> r.Ok? && r.value.InverseOf?
  {
    var aep := WeightedSum(powers, frequencies) * Hours;
    if aepMethod == "none" then Ok(Plain(aep))
    else if aepMethod == "log" then Ok(LogOf(aep))
    else if aepMethod == "inverse" then Ok(InverseOf(aep))
    else ValueError(MethodError)
  }

  /** `WindFarmAEP.linearize`: the gradient of the objective with respect to
      each direction's power, as the source writes it for each method. */
  function Linearize(powers: Vector, frequencies: Vector, aepMethod: string): (r: Result<Gradient>)
    requires |powers| == |frequencies|
    ensures r.ValueError? <==> !KnownMethod(aepMethod)
    ensures r.Ok? ==> r.value.Length() == |powers|
    ensures aepMethod == "none" ==>
      r.Ok? && r.value.Values? && forall i :: 0 <= i < |powers| ==> r.value.row[i] == Hours * frequencies[i]
    ensures aepMethod == "log" ==> r == Ok(ReciprocalOf(powers))
    ensures aepMethod == "inverse" ==>
      r.Ok? && r.value.NegatedReciprocalOf? &&
      forall i :: 0 <= i < |powers| ==> r.value.denominators[i] == Hours * frequencies[i] * Square(powers[i])
  {
    var n := |powers|;
    if aepMethod == "none" then
      Ok(Values(seq(n, i requires 0 <= i < n => 1.0 * frequencies[i] * Hours)))
    else if aepMethod == "log" then
      Ok(ReciprocalOf(powers))
    else if aepMethod == "inverse" then
      Ok(NegatedReciprocalOf(seq(n, i requires 0 <= i < n => Hours * frequencies[i] * Square(powers[i]))))
    else ValueError(MethodError)
  }

  /** Raising one direction's power by `h` raises the weighted sum by `h`
      times that direction's frequency. */
  lemma {:induction false} WeightedSumUpdate(powers: Vector, frequencies: Vector, k: nat, h: real)
    requires |powers| == |frequencies| && k < |powers|
    ensures WeightedSum(powers[k := powers[k] + h], frequencies)
         == WeightedSum(powers, frequencies) + h * frequencies[k]
  {
    var p' := powers[k := powers[k] + h];
    if k == 0 {
      assert p'[1..] == powers[1..];
    } else {
      assert p'[1..] == powers[1..][k - 1 := powers[k] + h];
      WeightedSumUpdate(powers[1..], frequencies[1..], k - 1, h);
    }
  }

  /** With no negative power and no negative frequency, the weighted sum,
      and so the AEP, is never negative. */
  lemma {:induction false} WeightedSumNonnegative(powers: Vector, frequencies: Vector)
    requires |powers| == |frequencies|
    requires forall i :: 0 <= i < |powers| ==> powers[i] >= 0.0 && frequencies[i] >= 0.0
    ensures WeightedSum(powers, frequencies) >= 0.0
  {
    if |powers| > 0 {
      WeightedSumNonnegative(powers[1..], frequencies[1..]);
      ProductNonnegative(powers[0], frequencies[0]);
    }
  }

  lemma ProductNonnegative(a: real, b: real)
    requires a >= 0.0 && b >= 0.0
    ensures a * b >= 0.0
  {
  }

  /** For the `'none'` method the gradient is exact: the AEP is linear in the
      direction powers, and a step `h` in power `k` changes it by `h` times
      the gradient entry `k`. */
  lemma NoneGradientIsDerivative(powers: Vector, frequencies: Vector, k: nat, h: real)
    requires |powers| == |frequencies| && k < |powers|
    ensures var a := Solve(powers, frequencies, "none").value.aep;
            var a' := Solve(powers[k := powers[k] + h], frequencies, "none").value.aep;
            a' == a + h * Linearize(powers, frequencies, "none").value.row[k]
  {
    WeightedSumUpdate(powers, frequencies, k, h);
  }

  /** Two directions at 100 kW and 200 kW, each blowing half of the year. */
  lemma TwoDirectionExample()
    ensures Solve([100.0, 200.0], [0.5, 0.5], "none") == Ok(Plain(1314000.0))
  {
    assert WeightedSum([100.0, 200.0], [0.5, 0.5]) == 150.0 by {
      assert [100.0, 200.0][1..] == [200.0];
      assert [0.5, 0.5][1..] == [0.5];
    }
  }

  // ---------------------------------------------------------------------
  // The gradients of the logarithm and the reciprocal

  /** `linearize` with the chain rule applied to the whole AEP: the `'none'`
      row divided by the AEP for `'log'`, and divided by the AEP squared and
      negated for `'inverse'`. */
  function LinearizeCorrected(powers: Vector, frequencies: Vector, aepMethod: string): (r: Result<Gradient>)
    requires |powers| == |frequencies|
    ensures r.ValueError? <==> !KnownMethod(aepMethod)
    ensures r.Ok? ==> r.value.Length() == |powers|
    ensures aepMethod == "none" ==> r == Linearize(powers, frequencies, aepMethod)
    ensures aepMethod == "log" ==> r.Ok? && r.value.Quotients?
    ensures aepMethod == "inverse" ==> r.Ok? && r.value.NegatedQuotients?
  {
    var row := Linearize(powers, frequencies, "none").value.row;
    var aep := Solve(powers, frequencies, "none").value.aep;
    if aepMethod == "none" then Linearize(powers, frequencies, aepMethod)
    else if aepMethod == "log" then Ok(Quotients(row, aep))
    else if aepMethod == "inverse" then Ok(NegatedQuotients(row, Square(aep)))
    else ValueError(MethodError)
  }

  /** The corrected `'inverse'` gradient is the derivative of `1/AEP`: a step
      `h` in power `k` that keeps the AEP nonzero moves the objective by the
      entry times the step, up to an exact second-order term. */
  lemma InverseCorrectedIsDerivative(powers: Vector, frequencies: Vector, k: nat, h: real)
    requires |powers| == |frequencies| && k < |powers|
    requires Solve(powers, frequencies, "none").value.aep != 0.0
    requires Solve(powers[k := powers[k] + h], frequencies, "none").value.aep != 0.0
    ensures var a := Solve(powers, frequencies, "none").value.aep;
            var a' := Solve(powers[k := powers[k] + h], frequencies, "none").value.aep;
            var g := LinearizeCorrected(powers, frequencies, "inverse").value;
            var r := Linearize(powers, frequencies, "none").value.row[k];
            && g.Entry(k).Some?
            && TaylorStep(1.0 / a, 1.0 / a', g.Entry(k).value, h, r * r / (a * a * a'))
  {
    var a := Solve(powers, frequencies, "none").value.aep;
    var a' := Solve(powers[k := powers[k] + h], frequencies, "none").value.aep;
    var r := Linearize(powers, frequencies, "none").value.row[k];
    var g := LinearizeCorrected(powers, frequencies, "inverse").value;
    NoneGradientIsDerivative(powers, frequencies, k, h);
    assert g == NegatedQuotients(Linearize(powers, frequencies, "none").value.row, Square(a));
    InverseStepOf(g, k, a, a', r, h);
  }

  /** `InverseCorrectedIsDerivative` for one entry of a negated quotient. */
  lemma InverseStepOf(g: Gradient, k: nat, a: real, a': real, r: real, h: real)
    requires g.NegatedQuotients? && k < |g.numerators| && g.numerators[k] == r && g.denominator == Square(a)
    requires a != 0.0 && a' != 0.0 && a' == a + h * r
    ensures g.Entry(k).Some? && TaylorStep(1.0 / a, 1.0 / a', g.Entry(k).value, h, r * r / (a * a * a'))
  {
    ReciprocalStep(a, a', r, h);
  }

  /** `1/a' = 1/a - h r / a^2 + h^2 r^2 / (a^2 a')` when `a' = a + h r`. */
  lemma ReciprocalStep(a: real, a': real, r: real, h: real)
    requires a != 0.0 && a' != 0.0 && a' == a + h * r
    ensures Square(a) != 0.0 && a * a * a' != 0.0
    ensures TaylorStep(1.0 / a, 1.0 / a', -r / Square(a), h, r * r / (a * a * a'))
  {
    var u, u' := 1.0 / a, 1.0 / a';
    assert u * a == 1.0 && u' * a' == 1.0;
    ProductNonzero(a, a);
    ProductNonzero(a * a, a');
    assert -r / Square(a) == -r * u * u by {
      assert (-r * u * u) * (a * a) == -r * (u * a) * (u * a);
    }
    assert r * r / (a * a * a') == r * r * u * u * u' by {
      assert (r * r * u * u * u') * (a * a * a') == r * r * (u * a) * (u * a) * (u' * a');
    }
    PolynomialReciprocalStep(a, a', u, u', r, h);
  }

  /** `ReciprocalStep` with the reciprocals named `u` and `u'`. */
  lemma PolynomialReciprocalStep(a: real, a': real, u: real, u': real, r: real, h: real)
    requires u * a == 1.0 && u' * a' == 1.0 && a' == a + h * r
    ensures u' == u + h * (-r * u * u) + h * h * (r * r * u * u * u')
  {
    assert u' - u == u * u' * (a - a') by {
      assert u * u' * a == u' * (u * a);
      assert u * u' * a' == u * (u' * a');
    }
    assert 1.0 - h * r * u' == u' * a by {
      assert u' * a == u' * (a' - h * r);
    }
    assert h * (-r * u * u) + h * h * (r * r * u * u * u') == -h * r * u * u * (1.0 - h * r * u');
    assert -h * r * u * u * (u' * a) == -h * r * u * u' * (u * a);
  }

  lemma ProductNonzero(a: real, b: real)
    requires a != 0.0 && b != 0.0
    ensures a * b != 0.0
  {
  }

  /** With one direction, the source's `'log'` entry is the derivative: it
      agrees with the corrected one. */
  lemma OneDirectionLogAgrees(p: real, f: real)
    requires p != 0.0 && f != 0.0
    ensures Linearize([p], [f], "log").value.Entry(0) == LinearizeCorrected([p], [f], "log").value.Entry(0)
  {
    var n, a := OneDirectionValues(p, f);
    OneDirectionQuotients(p, f, n, a);
    assert LinearizeCorrected([p], [f], "log").value == Quotients([n], a);
  }

  /** With one direction, the source's `'inverse'` entry is the derivative: it
      agrees with the corrected one. */
  lemma OneDirectionInverseAgrees(p: real, f: real)
    requires p != 0.0 && f != 0.0
    ensures Linearize([p], [f], "inverse").value.Entry(0) == LinearizeCorrected([p], [f], "inverse").value.Entry(0)
  {
    var n, a := OneDirectionValues(p, f);
    OneDirectionQuotients(p, f, n, a);
    assert LinearizeCorrected([p], [f], "inverse").value == NegatedQuotients([n], Square(a));
    var d := Linearize([p], [f], "inverse").value.denominators;
    assert |d| == 1 && d[0] == Hours * f * Square(p);
    assert Linearize([p], [f], "inverse").value.Entry(0) == Some(-1.0 / (Hours * f * Square(p)));
  }

  /** The `'none'` gradient entry and the AEP for one direction. */
  lemma OneDirectionValues(p: real, f: real) returns (n: real, a: real)
    ensures n == Linearize([p], [f], "none").value.row[0] && n == 1.0 * f * Hours
    ensures a == Solve([p], [f], "none").value.aep && a == Hours * (p * f + 0.0)
  {
    assert WeightedSum([p], [f]) == p * f + 0.0 by {
      assert [p][1..] == [] && [f][1..] == [];
    }
    n := Linearize([p], [f], "none").value.row[0];
    a := Solve([p], [f], "none").value.aep;
  }

  /** The algebra of `OneDirectionLogAgrees` and `OneDirectionInverseAgrees`: with `n = 8760 f` and
      `a = 8760 p f`, `n / a = 1 / p` and `n / a^2 = 1 / (8760 f p^2)`. */
  lemma OneDirectionQuotients(p: real, f: real, n: real, a: real)
    requires p != 0.0 && f != 0.0 && n == 1.0 * f * Hours && a == Hours * (p * f + 0.0)
    ensures a != 0.0 && Square(a) != 0.0 && Hours * f * Square(p) != 0.0
    ensures n / a == 1.0 / p
    ensures -n / Square(a) == -1.0 / (Hours * f * Square(p))
  {
    ProductNonzero(Hours * f, p);
    assert a == (Hours * f) * p;
    ProductNonzero(a, a);
    ProductNonzero(Hours * f, p * p);
    assert Hours * f * Square(p) == (Hours * f) * (p * p);
    assert (n / a) * p == 1.0 by {
      assert (n / a) * a == n;
    }
    assert Square(a) == (Hours * f * Square(p)) * n;
  }

  /** Two directions at 100 kW and 200 kW, each blowing half of the year: the
      AEP is 1314000 kWh, so `d log(AEP)/dp_0 = 4380/1314000 = 1/300`, where
      the source writes `1/100`; and `d(1/AEP)/dp_0 = -4380/1314000^2`, where
      the source writes `-1/(8760 * 0.5 * 100^2)`. */
  lemma TwoDirectionGradientsDiffer()
    ensures Linearize([100.0, 200.0], [0.5, 0.5], "log").value.Entry(0) == Some(1.0 / 100.0)
    ensures LinearizeCorrected([100.0, 200.0], [0.5, 0.5], "log").value.Entry(0) == Some(1.0 / 300.0)
    ensures Linearize([100.0, 200.0], [0.5, 0.5], "inverse").value.Entry(0) == Some(-1.0 / 43800000.0)
    ensures LinearizeCorrected([100.0, 200.0], [0.5, 0.5], "inverse").value.Entry(0) == Some(-1.0 / 394200000.0)
  {
    TwoDirectionExample();
  }
}
