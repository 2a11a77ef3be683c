/** WindFrame: turbine positions in the downwind/crosswind frame.

    The meteorological wind direction (degrees clockwise from north, the
    direction the wind comes from) becomes a standard bearing
    (counter-clockwise from east), and every position is rotated by minus
    that bearing. Cosine and sine are not modelled: they are parameters. */
module WindFrame {
  import opened Linear
  import opened Outcomes
  import opened Layouts

  /** Meteorological direction to standard bearing: `270 - d`, plus 360 when negative. */
  function StandardAngle(direction: real): (theta: real)
    ensures theta == 270.0 - direction || theta == 630.0 - direction
    ensures 0.0 <= direction < 360.0 ==> 0.0 <= theta < 360.0
    ensures 0.0 <= theta <==> direction <= 630.0
  {
    var theta := 270.0 - direction;
    if theta < 0.0 then theta + 360.0 else theta
  }

  function Radians(degrees: real): real
  {
    Pi * degrees / 180.0
  }

  /** The coefficients of a 2-D rotation: `c` and `s` are the cosine and sine
      of the rotation angle. */
  datatype Rotation = Rotation(c: real, s: real) {
    predicate Orthonormal() { c * c + s * s == 1.0 }

    function Inverse(): Rotation
    {
      Rotation(c, -s)
    }
  }

  /** The rotation by minus the standard bearing of `direction`, given the
      trigonometric functions: orthonormal whenever they are a true cosine
      and sine pair, and the identity for a wind from due west. */
  function RotationFor(direction: real, cosine: real -> real, sine: real -> real): (rot: Rotation)
    ensures (forall a :: Square(cosine(a)) + Square(sine(a)) == 1.0) ==> rot.Orthonormal()
    ensures direction == 270.0 ==> rot == Rotation(cosine(0.0), sine(0.0))
  {
    var rad := Radians(StandardAngle(direction));
    Rotation(cosine(-rad), sine(-rad))
  }

  /** Rotate every position; an orthonormal rotation keeps each distance to the origin. */
  function Rotate(rot: Rotation, p: Layout): (w: Layout)
    requires p.Valid()
    ensures w.Valid() && w.Count() == p.Count()
    ensures rot.Orthonormal() ==>
      forall i :: 0 <= i < p.Count() ==>
        Square(w.x[i]) + Square(w.y[i]) == Square(p.x[i]) + Square(p.y[i])
  {
    var w := Layout(seq(|p.x|, i requires 0 <= i < |p.x| => p.x[i] * rot.c - p.y[i] * rot.s),
                    seq(|p.x|, i requires 0 <= i < |p.x| => p.x[i] * rot.s + p.y[i] * rot.c));
    assert rot.Orthonormal() ==>
      forall i :: 0 <= i < p.Count() ==>
        Square(w.x[i]) + Square(w.y[i]) == Square(p.x[i]) + Square(p.y[i]) by {
      if rot.Orthonormal() {
        forall i | 0 <= i < p.Count()
          ensures Square(w.x[i]) + Square(w.y[i]) == Square(p.x[i]) + Square(p.y[i])
        {
          RotationKeepsNorm(rot, p.x[i], p.y[i]);
        }
      }
    }
    w
  }

  lemma RotationKeepsNorm(rot: Rotation, x: real, y: real)
    requires rot.Orthonormal()
    ensures Square(x * rot.c - y * rot.s) + Square(x * rot.s + y * rot.c) == Square(x) + Square(y)
  {
    var c, s := rot.c, rot.s;
    calc {
      Square(x * c - y * s) + Square(x * s + y * c);
      (x * x) * (c * c + s * s) + (y * y) * (c * c + s * s);
      x * x + y * y;
    }
  }

  /** The outputs: turbine positions, and sample positions only when there are samples. */
  datatype Output = Output(turbines: Layout, samples: Option<Layout>)

  /** `WindFrame.solve_nonlinear`: turbines and samples are rotated by the
      same rotation, so a sample placed at a turbine lands where the turbine
      lands, and an orthonormal rotation keeps every distance to the origin. */
  function Solve(direction: real, cosine: real -> real, sine: real -> real,
                 turbines: Layout, samples: Layout): (out: Output)
    requires turbines.Valid() && samples.Valid()
    ensures out.turbines.Valid() && out.turbines.Count() == turbines.Count()
    ensures out.turbines == Rotate(RotationFor(direction, cosine, sine), turbines)
    ensures out.samples.Some? <==> samples.Count() > 0
    ensures out.samples.Some? ==> out.samples.value == Rotate(RotationFor(direction, cosine, sine), samples)
    ensures out.samples.Some? ==>
      forall i, j :: 0 <= i < turbines.Count() && 0 <= j < samples.Count() &&
                     samples.x[j] == turbines.x[i] && samples.y[j] == turbines.y[i] ==>
        out.samples.value.x[j] == out.turbines.x[i] && out.samples.value.y[j] == out.turbines.y[i]
    ensures RotationFor(direction, cosine, sine).Orthonormal() ==>
      forall i :: 0 <= i < turbines.Count() ==>
        Square(out.turbines.x[i]) + Square(out.turbines.y[i]) == Square(turbines.x[i]) + Square(turbines.y[i])
    ensures RotationFor(direction, cosine, sine).Orthonormal() && out.samples.Some? ==>
      forall j :: 0 <= j < samples.Count() ==>
        Square(out.samples.value.x[j]) + Square(out.samples.value.y[j]) == Square(samples.x[j]) + Square(samples.y[j])
  {
    var rot := RotationFor(direction, cosine, sine);
    Output(Rotate(rot, turbines),
           if samples.Count() > 0 then Some(Rotate(rot, samples)) else None)
  }

  /** The four blocks of the Jacobian, d(output)/d(input). */
  datatype Jacobian = Jacobian(dXwdX: Matrix, dXwdY: Matrix, dYwdX: Matrix, dYwdY: Matrix)

  /** `WindFrame.linearize`: scaled identities, independent of the positions.
      No block is given for the wind direction. */
  function Linearize(direction: real, cosine: real -> real, sine: real -> real, n: nat): (J: Jacobian)
    ensures IsMatrix(J.dXwdX, n, n) && IsMatrix(J.dXwdY, n, n)
    ensures IsMatrix(J.dYwdX, n, n) && IsMatrix(J.dYwdY, n, n)
    ensures forall i, k :: 0 <= i < n && 0 <= k < n && i != k ==>
      J.dXwdX[i][k] == 0.0 && J.dXwdY[i][k] == 0.0 && J.dYwdX[i][k] == 0.0 && J.dYwdY[i][k] == 0.0
  {
    var rot := RotationFor(direction, cosine, sine);
    Jacobian(ScaledIdentity(n, rot.c), ScaledIdentity(n, -rot.s),
             ScaledIdentity(n, rot.s), ScaledIdentity(n, rot.c))
  }

  /** The Jacobian is the derivative of `Solve`: moving turbine `k` by
      `(hx, hy)` moves every rotated coordinate by exactly the Jacobian
      column `k` times the step, since the map is linear. */
  lemma LinearizeIsDerivative(direction: real, cosine: real -> real, sine: real -> real,
                              turbines: Layout, samples: Layout, k: nat, hx: real, hy: real)
    requires turbines.Valid() && samples.Valid() && k < turbines.Count()
    ensures var n := turbines.Count();
            var w := Solve(direction, cosine, sine, turbines, samples).turbines;
            var w' := Solve(direction, cosine, sine, turbines.Shift(k, hx, hy), samples).turbines;
            var J := Linearize(direction, cosine, sine, n);
            forall i :: 0 <= i < n ==>
              && w'.x[i] == w.x[i] + hx * J.dXwdX[i][k] + hy * J.dXwdY[i][k]
              && w'.y[i] == w.y[i] + hx * J.dYwdX[i][k] + hy * J.dYwdY[i][k]
  {
  }

  /** Rotating back by the inverse rotation restores the positions. */
  lemma RotateInverse(rot: Rotation, p: Layout)
    requires p.Valid() && rot.Orthonormal()
    ensures Rotate(rot.Inverse(), Rotate(rot, p)) == p
  {
    var w := Rotate(rot, p);
    var back := Rotate(rot.Inverse(), w);
    forall i | 0 <= i < p.Count()
      ensures back.x[i] == p.x[i] && back.y[i] == p.y[i]
    {
      InverseCoordinates(p.x[i], p.y[i], rot.c, rot.s, w.x[i], w.y[i]);
    }
  }

  /** One point rotated by `(c, s)` and back by `(c, -s)`. */
  lemma InverseCoordinates(x: real, y: real, c: real, s: real, u: real, v: real)
    requires c * c + s * s == 1.0
    requires u == x * c - y * s && v == x * s + y * c
    ensures u * c - v * (-s) == x
    ensures u * (-s) + v * c == y
  {
    assert u * c - v * (-s) == x * (c * c + s * s);
    assert u * (-s) + v * c == y * (c * c + s * s);
  }

  /** A wind from due west (270 degrees) is already along the x axis: the
      frame change leaves the positions as they are. */
  lemma WestWindIsIdentity(cosine: real -> real, sine: real -> real, turbines: Layout, samples: Layout)
    requires turbines.Valid() && samples.Valid()
    requires cosine(0.0) == 1.0 && sine(0.0) == 0.0
    ensures Solve(270.0, cosine, sine, turbines, samples).turbines == turbines
  {
    assert RotationFor(270.0, cosine, sine) == Rotation(1.0, 0.0);
  }
}
