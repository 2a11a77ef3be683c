/** MUX and DeMUX: between `n` scalar signals named `input0 .. input{n-1}`
    (or `output0 ..`) and one array.

    A signal's name is represented by its index: key `i` stands for the
    signal whose name ends in `i`. */
module Mux {
  import opened Linear

  predicate HasPorts<T>(signals: map<nat, T>, n: nat)
  {
    forall i: nat :: i < n ==> i in signals
  }

  /** The signals are exactly those with indices `0 .. n-1`. */
  ghost predicate PortsExactly<T>(signals: map<nat, T>, n: nat)
  {
    forall i: nat :: i in signals <==> i < n
  }

  /** `MUX.solve_nonlinear`: entry `i` of the array is input `i`. */
  function Pack(inputs: map<nat, real>, n: nat): (packed: Vector)
    requires HasPorts(inputs, n)
    ensures |packed| == n
    ensures forall i: nat :: i < n ==> packed[i] == inputs[i]
  {
    seq(n, i requires 0 <= i < n => inputs[i])
  }

  /** `DeMUX.solve_nonlinear`: output `i` is entry `i` of the array. */
  function Unpack(packed: Vector, n: nat): (outputs: map<nat, real>)
    requires n <= |packed|
    ensures PortsExactly(outputs, n)
    ensures forall i: nat :: i < n ==> outputs[i] == packed[i]
  {
    map i: nat | i < n :: packed[i]
  }

  /** `MUX.linearize`: one block per input, `d(Array)/d(input i)`, the unit vector `e_i`. */
  function PackJacobian(n: nat): (J: map<nat, Vector>)
    ensures PortsExactly(J, n)
    ensures forall i: nat :: i < n ==>
      |J[i]| == n && J[i][i] == 1.0 && forall c :: 0 <= c < n && c != i ==> J[i][c] == 0.0
  {
    map i: nat | i < n :: UnitVector(n, i)
  }

  /** `DeMUX.linearize`: one block per output, `d(output i)/d(Array)`, row
      `i` of the identity as a 1 x n matrix. */
  function UnpackJacobian(n: nat): (J: map<nat, Matrix>)
    ensures PortsExactly(J, n)
    ensures forall i: nat :: i < n ==>
      IsMatrix(J[i], 1, n) && J[i][0][i] == 1.0 && forall c :: 0 <= c < n && c != i ==> J[i][0][c] == 0.0
  {
    map i: nat | i < n :: [UnitVector(n, i)]
  }

  /** Unpacking what was packed gives back every input. */
  lemma UnpackPack(inputs: map<nat, real>, n: nat)
    requires HasPorts(inputs, n)
    ensures Unpack(Pack(inputs, n), n) == map i: nat | i < n :: inputs[i]
  {
  }

  /** Packing what was unpacked gives back the array. */
  lemma PackUnpack(packed: Vector)
    ensures Pack(Unpack(packed, |packed|), |packed|) == packed
  {
  }

  /** The MUX Jacobian is the derivative of `Pack`: a step `h` in input `k`
      moves the array by `h` times block `k`. */
  lemma PackJacobianIsDerivative(inputs: map<nat, real>, n: nat, k: nat, h: real)
    requires HasPorts(inputs, n) && k < n
    ensures var a := Pack(inputs, n);
            var a' := Pack(inputs[k := inputs[k] + h], n);
            forall c :: 0 <= c < n ==> a'[c] == a[c] + h * PackJacobian(n)[k][c]
  {
  }

  /** The DeMUX Jacobian is the derivative of `Unpack`: a step `h` in array
      entry `k` moves output `i` by `h` times entry `k` of block `i`. */
  lemma UnpackJacobianIsDerivative(packed: Vector, k: nat, h: real)
    requires k < |packed|
    ensures var n := |packed|;
            var o := Unpack(packed, n);
            var o' := Unpack(packed[k := packed[k] + h], n);
            forall i: nat :: i < n ==> o'[i] == o[i] + h * UnpackJacobian(n)[i][0][k]
  {
  }
}
