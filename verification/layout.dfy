/** Turbine positions as the components receive them: two parallel arrays. */
module Layouts {
  import opened Linear

  datatype Layout = Layout(x: Vector, y: Vector) {
    predicate Valid() { |x| == |y| }

    function Count(): nat
    {
      |x|
    }

    /** The layout with turbine `k` moved by `(dx, dy)`. */
    function Shift(k: nat, dx: real, dy: real): Layout
      requires Valid() && k < Count()
    {
      Layout(x[k := x[k] + dx], y[k := y[k] + dy])
    }
  }
}
