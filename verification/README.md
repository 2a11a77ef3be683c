# Wind farm components

A Dafny model of the general wind-farm components of the plant-energy
optimisation package (`src/plantenergy/GeneralWindFarmComponents.py`). The
package wires these components into an OpenMDAO problem. Each component has
a forward pass, `solve_nonlinear`, and an analytic Jacobian, `linearize`. The
model writes every forward pass as a pure function `Solve` and every
Jacobian as a pure function `Linearize`. It then proves what the outputs
mean, and that each Jacobian is the derivative of its forward pass.

"Is the derivative" is stated exactly, without limits. Step one input by `h`
and the output moves by `h` times the Jacobian entry plus `h * h * q`. The
second-order term `q` is written out (`Linear.TaylorStep`). For outputs that
are linear in the input, the step is exact, with no `q` at all.

Modules, one file each:

- `Outcomes` (`outcomes.dfy`): `Option` and `Result`. `Result.ValueError`
  stands for a raised `ValueError`.
- `Linear` (`linear.dfy`): vectors, matrices, sums, diagonal matrices, row
  and column sums, and `TaylorStep`.
- `Layouts` (`layout.dfy`): turbine coordinates `turbineX`/`turbineY` as a
  pair of sequences.
- `WindFrame` (`wind_frame.dfy`): turns the meteorological wind direction
  into a rotation, and rotates turbine and sample positions into the
  downwind/crosswind frame.
- `WindFarmAEP` (`wind_farm_aep.dfy`): the annual energy production is the
  hours of a year times the frequency-weighted sum of the direction powers.
  It is optionally passed through a logarithm or a reciprocal.
- `WindDirectionPower` (`wind_direction_power.dfy`): each turbine's power
  comes either from a power curve or from the power coefficient `Cp`. Modelled
  in full:
  - the rated-power clamp (skipped with rotor components);
  - the cut-in rule;
  - the gradient mask that zeroes entries.
- `Spacing` (`spacing.dfy`): the squared distance of every turbine pair. The
  nested-loop counter `k` is modelled both as a closed-form bijection and by
  a method with the source's loops.
- `Boundary` (`boundary.dfy`):
  - the signed distance of every turbine to every face of a polygon
    boundary, or its squared-distance margin to a circle;
  - `calculate_distance` with its optional inside flags;
  - both Jacobians;
  - the choice of shape by the number of vertices.
- `Mux` (`mux.dfy`): MUX packs scalar inputs into one array, and DeMUX
  unpacks an array back into scalar outputs.

## Model

| member | source | states |
|---|---|---|
| WindFrame.StandardAngle | src/plantenergy/GeneralWindFarmComponents.py:93-96 | The standard bearing is `270 - d` or `630 - d`. It lies in [0, 360) for every meteorological direction in [0, 360). It is non-negative exactly when `d <= 630`. |
| WindFrame.RotationFor | src/plantenergy/GeneralWindFarmComponents.py:93-101 | The rotation is by minus the standard bearing in radians. It is orthonormal whenever the cosine and sine given are a true pair, and a wind from due west (270 degrees) gives the rotation by angle 0. |
| WindFrame.Rotate | src/plantenergy/GeneralWindFarmComponents.py:100-101 | The rotation keeps the number of turbines. With an orthonormal cosine/sine pair, it keeps every turbine's distance from the origin. |
| WindFrame.RotateInverse | src/plantenergy/GeneralWindFarmComponents.py:100-101 | Rotating back by the inverse rotation restores every original position. |
| WindFrame.Solve | src/plantenergy/GeneralWindFarmComponents.py:80-105 | Turbines and samples are rotated by the same rotation for the direction, so a sample placed at a turbine lands where that turbine lands. There is one rotated turbine per turbine. Sample positions are produced exactly when there are samples. With an orthonormal cosine/sine pair, every turbine and sample keeps its distance from the origin. |
| WindFrame.Linearize | src/plantenergy/GeneralWindFarmComponents.py:107-136 | The four blocks are n x n and zero off the diagonal. Turbine `i`'s rotated position depends only on turbine `i`. |
| WindFrame.LinearizeIsDerivative | src/plantenergy/GeneralWindFarmComponents.py:100-125 | Moving turbine `k` by `(hx, hy)` moves every rotated coordinate by exactly column `k` of the blocks times the step. |
| WindFrame.WestWindIsIdentity | src/plantenergy/GeneralWindFarmComponents.py:93-101 | A wind from due west (270 degrees) leaves the positions unchanged. |
| WindFarmAEP.Solve | src/plantenergy/GeneralWindFarmComponents.py:277-298 | Any method other than "none", "log" or "inverse" raises `ValueError`, and only those do. Otherwise the value transformed is 8760 times the frequency-weighted power sum. "none" returns it plainly; "log" and "inverse" take its log and reciprocal. |
| WindFarmAEP.Linearize | src/plantenergy/GeneralWindFarmComponents.py:308-329 | The same `ValueError` condition. The row has one entry per direction. For "none", entry `i` is 8760 times frequency `i`. For "log", it is the reciprocal of each power. For "inverse", it is minus the reciprocal of `8760 * frequency * power^2`. |
| WindFarmAEP.WeightedSumUpdate | src/plantenergy/GeneralWindFarmComponents.py:288 | Raising one direction's power by `h` raises the weighted sum by `h` times that direction's frequency. |
| WindFarmAEP.NoneGradientIsDerivative | src/plantenergy/GeneralWindFarmComponents.py:288-323 | For "none", a step `h` in direction `k`'s power changes the AEP by exactly `h` times gradient entry `k`. |
| WindFarmAEP.TwoDirectionExample | src/plantenergy/GeneralWindFarmComponents.py:285-292 | Powers 100 and 200 kW with frequencies 0.5 and 0.5 give 1 314 000 kWh. |
| WindFarmAEP.WeightedSum | src/plantenergy/GeneralWindFarmComponents.py:288 | `sum(dirPowers * windFrequencies)`. Its contract is stated by `WeightedSumUpdate` (linear in each power) and `WeightedSumNonnegative`. |
| WindFarmAEP.WeightedSumNonnegative | src/plantenergy/GeneralWindFarmComponents.py:288 | With no negative power and no negative frequency, the weighted sum, and so the AEP, is never negative. |
| WindFarmAEP.LinearizeCorrected | src/plantenergy/GeneralWindFarmComponents.py:322-327 | The same `ValueError` condition and one entry per direction. "none" is unchanged. "log" divides the "none" row by the AEP, and "inverse" divides it by the AEP squared and negates it. |
| WindFarmAEP.InverseCorrectedIsDerivative | src/plantenergy/GeneralWindFarmComponents.py:285-327 | The corrected "inverse" entry is the derivative of `1/AEP`: a step `h` in power `k` that keeps the AEP nonzero moves `1/AEP` by the entry times `h`, plus an exact second-order term. |
| WindFarmAEP.ReciprocalStep | src/plantenergy/GeneralWindFarmComponents.py:296-327 | `1/a' = 1/a - h r/a^2 + h^2 r^2/(a^2 a')` whenever `a' = a + h r`, with `a` and `a'` nonzero. |
| WindFarmAEP.OneDirectionLogAgrees | src/plantenergy/GeneralWindFarmComponents.py:322-325 | With a single direction, the source's "log" entry `1/p` equals the corrected entry `8760 f / AEP`. |
| WindFarmAEP.OneDirectionInverseAgrees | src/plantenergy/GeneralWindFarmComponents.py:322-327 | With a single direction, the source's "inverse" entry `-1/(8760 f p^2)` equals the corrected entry `-8760 f / AEP^2`. |
| WindFarmAEP.TwoDirectionGradientsDiffer | src/plantenergy/GeneralWindFarmComponents.py:322-327 | Powers 100 and 200 kW, frequencies 0.5 and 0.5: as written, the "log" entry for the first direction is 1/100 and the "inverse" entry is -1/43 800 000. The corrected entries are 1/300 and -1/394 200 000. |
| WindDirectionPower.CurvePowerRange | src/plantenergy/GeneralWindFarmComponents.py:428-441 | The power curve lies in [0, rated power] when rated power is non-negative. It is zero below cut-in (and below rated wind speed), and zero from cut-out on. From rated wind speed up to cut-out it equals rated power. |
| WindDirectionPower.CurvePowerMonotone | src/plantenergy/GeneralWindFarmComponents.py:428-441 | Between cut-in and cut-out, with cut-in below rated wind speed, more wind never gives less power. |
| WindDirectionPower.RampPowerMonotone | src/plantenergy/GeneralWindFarmComponents.py:431-435 | Along the cubic ramp, the power never falls as the wind speed rises. |
| WindDirectionPower.CurveSlopeIsDerivative | src/plantenergy/GeneralWindFarmComponents.py:540-552 | The slope `linearize` writes for the power curve is the derivative of the curve. A step that stays on the same branch moves the power by slope times step, plus the stated second-order term. |
| WindDirectionPower.RampStep | src/plantenergy/GeneralWindFarmComponents.py:543-547 | On the ramp, `3 rated a^2 / (rated speed - cut-in)` is the derivative of `rated a^3`, where `a` is the ramp fraction. |
| WindDirectionPower.CurvePower | src/plantenergy/GeneralWindFarmComponents.py:428-441 | The power-curve rule: a cubic ramp from cut-in to rated wind speed, rated power up to cut-out, zero elsewhere. Its contract is stated by `CurvePowerRange` and `CurvePowerMonotone`. |
| WindDirectionPower.CurveSlope | src/plantenergy/GeneralWindFarmComponents.py:540-552 | The velocity entry on the power curve: `3 rated a^2 / (rated speed - cut-in)` on the ramp, zero elsewhere. Its contract is stated by `CurveSlopeIsDerivative`. |
| WindDirectionPower.CoefficientPowerRange | src/plantenergy/GeneralWindFarmComponents.py:458-476 | Below cut-in the power is zero. When clamped it is rated power; otherwise it is the raw power. Without rotor components, at or above cut-in it never exceeds rated power. It is non-negative when the raw and rated powers are. |
| WindDirectionPower.RawPower | src/plantenergy/GeneralWindFarmComponents.py:458-461 | `eta * (rho A Cp V^3 / 2) / 1000` kW, with `A = pi D^2 / 4`. Its contract is stated by `RawPowerNonnegative` and the three `RawPower...Step` lemmas. |
| WindDirectionPower.CoefficientPower | src/plantenergy/GeneralWindFarmComponents.py:468-476 | The clamp to rated power (skipped with rotor components), then zero below cut-in. Its contract is stated by `CoefficientPowerRange`. |
| WindDirectionPower.TurbinePower | src/plantenergy/GeneralWindFarmComponents.py:428-476 | One turbine's power by the power curve or by the power coefficient, as the mode says. Its contract is stated by `TurbinePowerRange` and `TurbineStep`. |
| WindDirectionPower.RawPowerCpStep | src/plantenergy/GeneralWindFarmComponents.py:595-603 | The raw power is linear in `Cp`, and the `dwtPower_dCp` entry is its exact slope. |
| WindDirectionPower.RawPowerDiameterStep | src/plantenergy/GeneralWindFarmComponents.py:596-603 | The `dwtPower_drotorDiameter` entry is the derivative of the raw power in the rotor diameter, up to the stated second-order term. |
| WindDirectionPower.RawPowerVelocityStep | src/plantenergy/GeneralWindFarmComponents.py:593-603 | The `dwtPower_dwtVelocity` entry `(3 Cp V^2 + V^3 dCp/dV)` is the derivative of the raw power in the wind speed, with `Cp` moving along its curve. |
| WindDirectionPower.RawPowerNonnegative | src/plantenergy/GeneralWindFarmComponents.py:458-461 | With non-negative efficiency, air density, `Cp` and wind speed, the raw power is non-negative. |
| WindDirectionPower.RawStep | src/plantenergy/GeneralWindFarmComponents.py:571-603 | The unmasked gradient entries are the derivatives of the raw power for each input (wind speed, `Cp`, rotor diameter). `dCp/dV` enters only when `Cp` comes from a curve. The `Cp` entry is excluded when `Cp` comes from a curve, because the power then ignores the `Cp` input. |
| WindDirectionPower.TurbineStep | src/plantenergy/GeneralWindFarmComponents.py:531-629 | Zero the entries exactly where the power is flat, and the `Cp` entry where `Cp` comes from a curve. Then each turbine's gradient entry is the derivative of its power, in either mode, for steps that keep it on its branch. |
| WindDirectionPower.Slope | src/plantenergy/GeneralWindFarmComponents.py:593-629 | One turbine's gradient entry for an input: the power-curve slope for the wind speed on the power curve (zero for the other inputs), and in coefficient mode the raw power's slope unless the mask zeroes it. Its contract is stated by `TurbineStep`. |
| WindDirectionPower.CoefficientStep | src/plantenergy/GeneralWindFarmComponents.py:593-629 | In coefficient mode, a stopped or clamped turbine has zero slope. A producing one has the raw power's slope, except zero in a `Cp` that comes from a curve. |
| WindDirectionPower.Solve | src/plantenergy/GeneralWindFarmComponents.py:403-507 | There is one power per turbine, each by its own turbine's rule. The direction's power is their sum. |
| WindDirectionPower.TurbinePowerRange | src/plantenergy/GeneralWindFarmComponents.py:428-476 | A physical turbine's power is never negative. Unless rotor components skip the clamp, it never exceeds rated power. |
| WindDirectionPower.DirectionPowerRange | src/plantenergy/GeneralWindFarmComponents.py:428-503 | The direction's power is never negative. Without rotor components it never exceeds the farm's summed rated power. |
| WindDirectionPower.SolveReplace | src/plantenergy/GeneralWindFarmComponents.py:403-507 | Changing one turbine's inputs changes only its own power, and moves the total by the same amount. |
| WindDirectionPower.JacobianForShape | src/plantenergy/GeneralWindFarmComponents.py:555-646 | For any mask, each power block is the n x n diagonal of the turbines' slopes, and each direction row holds those slopes. So the row sums (power curve) and column sums (coefficient) of the source give the total's gradient. |
| WindDirectionPower.ZeroDiagonal | src/plantenergy/GeneralWindFarmComponents.py:561-567 | The zero blocks of the power-curve Jacobian are the diagonal of zero slopes. |
| WindDirectionPower.Linearize | src/plantenergy/GeneralWindFarmComponents.py:511-646 | The Jacobian as written is diagonal in every block. The mask comes from the forward pass (`wtPower >= rated_power or V < cut_in`) and zeroes all three entries of a turbine. |
| WindDirectionPower.MaskAsWritten | src/plantenergy/GeneralWindFarmComponents.py:618-629 | A turbine's three entries are zeroed exactly when its power from the forward pass is at or above rated power, or its wind is below cut-in. |
| WindDirectionPower.Mask | src/plantenergy/GeneralWindFarmComponents.py:618-629 | The corrected mask zeroes an entry exactly when the power rule makes it zero. That is every entry of a flat turbine, plus the `Cp` entry of a turbine whose `Cp` comes from a curve. |
| WindDirectionPower.LinearizeCorrected | src/plantenergy/GeneralWindFarmComponents.py:511-646 | The same Jacobian with the corrected mask. |
| WindDirectionPower.LinearizeCorrectedIsDerivative | src/plantenergy/GeneralWindFarmComponents.py:403-646 | The corrected Jacobian is the derivative of the forward pass. A step of any input of turbine `k` that keeps it on its branch moves only that turbine's power, by block entry `(k, k)` times the step. It moves the direction's power by the direction row's entry `k` times the step, up to the turbine's second-order term. |
| WindDirectionPower.DirectionStep | src/plantenergy/GeneralWindFarmComponents.py:403-646 | The same derivative statement, for every Jacobian of the diagonal shape whose entry at turbine `k` is the corrected one. |
| WindDirectionPower.MaskAgrees | src/plantenergy/GeneralWindFarmComponents.py:618-629 | Without rotor components, the mask as written zeroes exactly the entries the power rule makes zero. The exception is the `Cp` entry of a turbine whose `Cp` comes from a curve. |
| WindDirectionPower.LinearizeAgrees | src/plantenergy/GeneralWindFarmComponents.py:511-646 | On the power curve, the Jacobian as written equals the corrected one. So it does in coefficient mode without rotor components, when no turbine's `Cp` comes from a curve. |
| WindDirectionPower.LinearizeIsDerivative | src/plantenergy/GeneralWindFarmComponents.py:403-646 | On the power curve and without rotor components, `linearize` as written is the derivative of `solve_nonlinear`, in the sense stated above. This holds for every input except the `Cp` of a turbine whose `Cp` comes from a curve. |
| WindDirectionPower.RotorComponentsGradientDropped | src/plantenergy/GeneralWindFarmComponents.py:618-622 | With rotor components, a turbine whose raw power reaches rated power has every gradient entry zeroed as written. The corrected Jacobian keeps the raw slope there (zero in a `Cp` from a curve), because that power is not clamped. |
| WindDirectionPower.RotorComponentsExample | src/plantenergy/GeneralWindFarmComponents.py:618-622 | At the component's defaults and 12 m/s, with rotor components, the velocity entry as written is 0. Yet going to 13 m/s raises the power by more than 1000 kW, and the corrected entry exceeds 1000. |
| WindDirectionPower.CurveCpGradientKept | src/plantenergy/GeneralWindFarmComponents.py:571-645 | Take a producing turbine whose `Cp` the forward pass reads from a curve. A step of its `Cp` input leaves every power unchanged, yet `linearize` writes the raw power's slope in `Cp` for it; the corrected entry is 0. |
| WindDirectionPower.CurveCpExample | src/plantenergy/GeneralWindFarmComponents.py:571-645 | The default turbine at 8 m/s with `Cp` from a curve: a step of the `Cp` input leaves its power unchanged, yet the `dwtPower_dCp` entry as written exceeds 1000. The corrected entry is 0. |
| Spacing.PairIndex | src/plantenergy/GeneralWindFarmComponents.py:683-687 | The counter of pair `(i, j)` lies in the block of pairs starting with turbine `i`, within the output length. |
| Spacing.PairCountClosedForm | src/plantenergy/GeneralWindFarmComponents.py:672-681 | There are `n(n-1)/2` pairs, the output length the source allocates. |
| Spacing.PairIndexClosedForm | src/plantenergy/GeneralWindFarmComponents.py:683-687 | Pair `(i, j)` has counter `i n - i(i+1)/2 + j - i - 1`. |
| Spacing.PairIndexOrdered | src/plantenergy/GeneralWindFarmComponents.py:683-687 | Pairs reached earlier by the loops have smaller counters, so no two pairs share one. |
| Spacing.PairOf | src/plantenergy/GeneralWindFarmComponents.py:683-687 | Every counter value below `n(n-1)/2` is reached by some pair `i < j < n`. |
| Spacing.PairOfPairIndex | src/plantenergy/GeneralWindFarmComponents.py:683-687 | `PairOf` inverts `PairIndex`: counters and pairs are in one-to-one correspondence. |
| Spacing.SeparationSquared | src/plantenergy/GeneralWindFarmComponents.py:686 | A pair's squared distance is never negative, is zero for two turbines at the same place, and reads the same with the pair's order reversed. |
| Spacing.Solve | src/plantenergy/GeneralWindFarmComponents.py:675-687 | There are `n(n-1)/2` entries. The entry at pair `(i, j)`'s counter is the squared distance of turbines `i` and `j`. Every entry is non-negative. |
| Spacing.ListsSeparationsUnique | src/plantenergy/GeneralWindFarmComponents.py:675-687 | Any list holding every pair's squared distance at that pair's counter is the output. |
| Spacing.SolveWithCounter | src/plantenergy/GeneralWindFarmComponents.py:675-687 | The source's nested loops with the running counter compute exactly `Solve`, of length `n(n-1)/2`. |
| Spacing.Linearize | src/plantenergy/GeneralWindFarmComponents.py:690-724 | Each half of the Jacobian has one row per pair and one column per turbine. Pair `(i, j)`'s row is `+2 delta` at `j`, `-2 delta` at `i`, and zero elsewhere. |
| Spacing.SeparationShift | src/plantenergy/GeneralWindFarmComponents.py:709-715 | Moving turbine `k` changes a pair's squared distance by the pair's slopes times the step. When `k` is in the pair, the squared step is added too. |
| Spacing.PairRowsAreDerivative | src/plantenergy/GeneralWindFarmComponents.py:675-724 | Any Jacobian of that shape is the derivative of the output, with the squared step as the only second-order term. |
| Spacing.LinearizeIsDerivative | src/plantenergy/GeneralWindFarmComponents.py:675-724 | `linearize` is the derivative of `solve_nonlinear` in that sense. |
| Spacing.TwoTurbineExample | src/plantenergy/GeneralWindFarmComponents.py:683-687 | Turbines at (0, 0) and (3, 4) give the single entry 25. |
| Boundary.KindAsWritten | src/plantenergy/GeneralWindFarmComponents.py:737-742 | More than one vertex gives a polygon, exactly one gives a circle. No vertex leaves the kind unset. |
| Boundary.KindOf | src/plantenergy/GeneralWindFarmComponents.py:737-742 | With the error raised, `ValueError` comes exactly for `nVertices <= 0`. Otherwise the kind is the constructor's. |
| Boundary.UnraisedVerticesError | src/plantenergy/GeneralWindFarmComponents.py:737-744 | With no vertex, the constructor as written produces no kind, where the intended behaviour raises the `ValueError` it builds. |
| Boundary.ShapeMatchesKind | src/plantenergy/GeneralWindFarmComponents.py:737-742 | Every valid boundary shape is the kind the constructor picks for its number of vertices: a polygon for more than one, a circle for one. |
| Boundary.FaceDistanceValue | src/plantenergy/GeneralWindFarmComponents.py:908-914 | A face distance is the projection onto the normal times the normal's squared length. |
| Boundary.FaceDistance | src/plantenergy/GeneralWindFarmComponents.py:908-914 | One face distance: the vector from the point to the face's first vertex, projected onto the normal and dotted with it again. Its contract is stated by `FaceDistanceValue` and `FaceDistanceSign`. |
| Boundary.FaceDistanceSign | src/plantenergy/GeneralWindFarmComponents.py:908-914 | With a unit normal, the face distance is the signed perpendicular distance. For any normal of positive length, it is non-negative exactly on the inner side of the face. |
| Boundary.InsideFlagMeansInnerSide | src/plantenergy/GeneralWindFarmComponents.py:938-939 | A point is flagged inside exactly when it is on the inner side of every face. |
| Boundary.InsideFlag | src/plantenergy/GeneralWindFarmComponents.py:938-939 | The flag is 1.0 or 0.0. Its meaning, inside exactly when on the inner side of every face, is stated by `InsideFlagMeansInnerSide`. |
| Boundary.FaceDistances | src/plantenergy/GeneralWindFarmComponents.py:898-916 | The face distances form an `nPoints x nVertices` matrix. |
| Boundary.CalculateDistance | src/plantenergy/GeneralWindFarmComponents.py:879-941 | The loops compute every face distance. The inside flags are returned exactly when `return_bool` is set, one per point. A flag is 1.0 exactly when none of that point's face distances is negative. |
| Boundary.FaceRow | src/plantenergy/GeneralWindFarmComponents.py:819-820 | Row `i * nVertices + j` is within the Jacobian. It gives back turbine `i` by division and face `j` by remainder. |
| Boundary.PolygonRow | src/plantenergy/GeneralWindFarmComponents.py:819-820 | One polygon Jacobian row has one entry per turbine: the face's slope in the column of the row's turbine, zero elsewhere. The rows are tied together by `PolygonJacobian`. |
| Boundary.PolygonJacobian | src/plantenergy/GeneralWindFarmComponents.py:799-820 | The polygon Jacobian has `nTurbines * nVertices` rows and `nTurbines` columns. Turbine `i`'s row for face `j` holds that face's slope in column `i` and zero elsewhere. |
| Boundary.FaceDistanceShift | src/plantenergy/GeneralWindFarmComponents.py:811-820 | A face distance is linear in the point. Moving the point moves it by exactly the slopes `linearize` writes, times the step. |
| Boundary.PolygonRowsAreDerivative | src/plantenergy/GeneralWindFarmComponents.py:799-820 | Any Jacobian of the polygon shape is the exact derivative of the face distances. |
| Boundary.CircleJacobian | src/plantenergy/GeneralWindFarmComponents.py:822-833 | The circle Jacobian is n x n in each coordinate. |
| Boundary.CircleShift | src/plantenergy/GeneralWindFarmComponents.py:829-830 | A point's circle value moves by `-2(x - xc) hx - 2(y - yc) hy`, less the squared step. |
| Boundary.CircleJacobianIsDerivative | src/plantenergy/GeneralWindFarmComponents.py:787-833 | The circle Jacobian is the derivative of the circle values. Only the moved turbine's value changes, with second-order term `-(hx^2 + hy^2)`. |
| Boundary.CircleExample | src/plantenergy/GeneralWindFarmComponents.py:787-791 | Radius 10 about the origin gives 100 at the centre, 0 on the rim, and -300 at distance 20. |
| Boundary.CircleDistances | src/plantenergy/GeneralWindFarmComponents.py:787-791 | One value per turbine. It is positive exactly when the turbine is strictly inside the circle, zero exactly on the rim, and negative exactly outside. |
| Boundary.Solve | src/plantenergy/GeneralWindFarmComponents.py:770-795 | A polygon gives an `nTurbines x nVertices` matrix; a circle gives one value per turbine. |
| Boundary.Linearize | src/plantenergy/GeneralWindFarmComponents.py:797-846 | A polygon gives a Jacobian of the polygon shape; a circle gives the circle Jacobian. |
| Boundary.LinearizeIsDerivative | src/plantenergy/GeneralWindFarmComponents.py:770-846 | For either shape, the component's Jacobian is the derivative of its output. |
| Boundary.SquareExample | src/plantenergy/GeneralWindFarmComponents.py:879-941 | The unit square with outward normals puts its centre half a unit inside every face, flagged inside. A point at x = 2, one unit right of the right face, gets distances 0.5, -1, 0.5, 2 and is flagged outside. |
| Mux.Pack | src/plantenergy/GeneralWindFarmComponents.py:973-977 | The array has `n` entries, entry `i` being input `i`. |
| Mux.Unpack | src/plantenergy/GeneralWindFarmComponents.py:1025-1029 | There are exactly outputs `0 .. n-1`, output `i` being array entry `i`. |
| Mux.PackJacobian | src/plantenergy/GeneralWindFarmComponents.py:979-993 | There is exactly one block per input. Block `i` is the unit vector `e_i`. |
| Mux.UnpackJacobian | src/plantenergy/GeneralWindFarmComponents.py:1031-1043 | There is exactly one 1 x n block per output. Block `i` is row `i` of the identity. |
| Mux.UnpackPack | src/plantenergy/GeneralWindFarmComponents.py:1025-1029 | DeMUX after MUX gives back every input. |
| Mux.PackUnpack | src/plantenergy/GeneralWindFarmComponents.py:973-977 | MUX after DeMUX gives back the array. |
| Mux.PackJacobianIsDerivative | src/plantenergy/GeneralWindFarmComponents.py:973-993 | A step in input `k` moves the array by exactly the step times block `k`. |
| Mux.UnpackJacobianIsDerivative | src/plantenergy/GeneralWindFarmComponents.py:1025-1043 | A step in array entry `k` moves each output `i` by exactly the step times entry `k` of block `i`. |
| Linear.SumUpdate | src/plantenergy/GeneralWindFarmComponents.py:503 | Changing one entry of a vector moves its sum (`np.sum`) by the same amount. |
| Linear.SumMonotone | src/plantenergy/GeneralWindFarmComponents.py:503 | `np.sum` keeps an entry-wise order. |
| Linear.ColumnSumsOfDiagonal | src/plantenergy/GeneralWindFarmComponents.py:632-634 | The column sums (`np.sum(.., 0)`) of a diagonal matrix are its diagonal. |
| Linear.RowSumsOfDiagonal | src/plantenergy/GeneralWindFarmComponents.py:555 | The row sums (`matmul` with ones) of a diagonal matrix are its diagonal. |

## Left out

- OpenMDAO plumbing is not modelled: parameter and output declarations, the
  Jacobian dictionaries, finite-difference options and the objective/gradient
  call counters of `WindFarmAEP`. Each `Jacobian` datatype holds exactly the
  blocks `linearize` fills.
- `add_gen_params_IdepVarComps`, `AdjustCtCpYaw`, the `CPCT_Interpolate_*`
  components, the cost components (`calcICC` and the others),
  `calculate_boundary` (a convex hull from SciPy) and the `__main__` block
  are outside the modelled core.
- Cosine and sine are not modelled: `WindFrame` takes them as function
  parameters, and its round trip assumes an orthonormal pair
  (`cos^2 + sin^2 = 1`).
- Pi is numpy's double value written as a decimal. Floating-point rounding is
  not modelled anywhere: all arithmetic is over exact reals.
- WindFarmAEP.Solve: the logarithm and the reciprocal are kept symbolic
  (`LogOf`, `InverseOf`); the real logarithm is not defined in the model.
- WindFarmAEP.Linearize: the "log" and "inverse" gradients are represented
  symbolically, by the values the source inverts (and negates); `Entry` reads
  one as a number. Division by zero, which numpy turns into `inf`, is `None`
  there and is not modelled further.
- WindFarmAEP.LinearizeCorrected: the corrected "log" entry `8760 f_k / AEP`
  is the chain rule for the logarithm, which the model does not define. Only
  the corrected "inverse" entry is proved to be a derivative.
- WindDirectionPower: the `Cp` curve, read with `np.interp` or a spline, and
  its slope `dCp/dV` (a central difference or the spline's derivative) are
  inputs of each turbine. `cp` is the coefficient in effect, `cpFromCurve`
  says it comes from the curve (`cp_points > 1`), and `cpSlope` is the
  curve's slope. For a velocity step, a curve's `Cp` is assumed to move as
  `cp + h cpSlope + h^2 e` for some `e`. The in-place update of the `Cp` input
  array is not modelled.
- WindDirectionPower.Turbine: one `cp`, `cpFromCurve` and `cpSlope` serve
  both passes. The source's forward pass reads the spline only when
  `cp_points > 1` (line 447), but `linearize` reads it whenever one is given
  (line 581). With a spline and `cp_points <= 1` the two passes use
  different `Cp`, and that mismatch is not modelled.
- WindDirectionPower.LinearizeIsDerivative: does not cover the `Cp` entry
  of a turbine whose `Cp` comes from a curve, in coefficient mode. There the
  entry as written is not the derivative (see Findings).
- WindDirectionPower.LinearizeAgrees: in coefficient mode it covers only
  layouts where no turbine's `Cp` comes from a curve. Otherwise the two
  Jacobians differ in the `Cp` block.
- WindDirectionPower: the per-direction wind speed arrives as an input; the
  direction id and the `wtVelocity%i` naming are plumbing.
- WindDirectionPower.LinearizeCorrectedIsDerivative: derivative statements
  hold for steps that keep the turbine on its branch (region of the power
  curve, or stopped/clamped/producing). The one-sided behaviour at the
  region boundaries is not stated.
- WindDirectionPower.Linearize: the source reads `wtPower` from the stored
  outputs of the last forward pass. The model recomputes it with `Solve` for
  the same inputs.
- The commented-out Hermite-spline smoothing around rated power is not
  modelled, since it is not code that runs.
- Boundary: with `nVertices <= 0` the constructor as written fails at its
  next test of the kind (line 744), which reads the local `type` that was
  never bound. The model stops at the missing kind (`KindAsWritten` returns
  `None`) and does not model Python's `UnboundLocalError`. The unreachable "invalid type" branches, which also only
  construct a `ValueError`, are left out.
- Boundary.Solve: for a circle, the source stores the per-turbine values
  into an `nTurbines x 1` output array. The model returns them as a vector.
- Boundary.FaceDistanceSign: the inner-side reading needs a normal of
  positive length. A zero normal gives distance 0 everywhere.
- Spacing.SeparationSquared: does not state that a zero squared distance
  means the two turbines stand at the same place; only the converse is
  stated.
- Mux: signal names `input%i`/`output%i` are represented by their index, and
  units are not modelled.

## Findings

| source | as written | input that shows it | evidently intended | confidence | as-written member | corrected member |
|---|---|---|---|---|---|---|
| src/plantenergy/GeneralWindFarmComponents.py:618-622 | With `use_rotor_components` the forward pass skips the rated-power clamp, but `linearize` still zeroes every gradient entry of a turbine whose power is at or above rated power. | Default turbine (D 126.4 m, Cp 0.7737/0.944 * 4/3 * (2/3)^2, efficiency 0.944, rated 5000 kW, cut-in 3 m/s), air density 1.1716, wind 12 m/s, rotor components on: the power is about 5824 kW, `dwtPower_dwtVelocity[0][0]` is 0, yet at 13 m/s the power is more than 1000 kW higher. | Zero the entries only where the power is actually flat: below cut-in, or clamped when the clamp applies. | not executed | WindDirectionPower.RotorComponentsExample | WindDirectionPower.LinearizeCorrectedIsDerivative |
| src/plantenergy/GeneralWindFarmComponents.py:737-744 | For `nVertices <= 0` the constructor builds `ValueError('nVertices in BoundaryComp must be greater than 0')` without `raise`. It then fails at `if type == 'polygon'`, reading a local never bound, with an `UnboundLocalError` in place of the intended message. | `BoundaryComp(nTurbines, 0)` | Raise the `ValueError`. | not executed | Boundary.UnraisedVerticesError | Boundary.KindOf |
| src/plantenergy/GeneralWindFarmComponents.py:571-645 | When `cp_points > 1` the forward pass overwrites `Cp` from the curve (line 451) or rebinds it (line 455), so the power does not depend on the `Cp` input. `linearize` still writes `dwtPower_dCp = eta * 0.5 * rho * A * V^3 / 1000` for it (line 595), and stores it as the `Cp` gradient (lines 641 and 645). | Default turbine at 8 m/s with `Cp` from a curve, air density 1.1716, no rotor components: a step of the `Cp` input leaves the power unchanged, but the `dwtPower_dCp` entry exceeds 1000. | A zero `Cp` gradient for turbines whose `Cp` comes from the curve. | not executed | WindDirectionPower.CurveCpExample | WindDirectionPower.LinearizeCorrectedIsDerivative |
| src/plantenergy/GeneralWindFarmComponents.py:322-327 | The "log" gradient is `1/p_k` and the "inverse" gradient is `-1/(8760 f_k p_k^2)`. Both are the derivatives only when there is a single direction. The chain rule gives `8760 f_k / AEP` and `-8760 f_k / AEP^2`. | Powers 100 and 200 kW, frequencies 0.5 and 0.5 (AEP 1 314 000 kWh): as written, the first direction's "log" entry is 1/100, where the derivative is 1/300. The "inverse" entry is -1/43 800 000, where the derivative is -1/394 200 000. | The chain rule applied to the whole AEP. | not executed | WindFarmAEP.TwoDirectionGradientsDiffer | WindFarmAEP.InverseCorrectedIsDerivative |
