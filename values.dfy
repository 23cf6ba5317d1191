/** Values the swarm works with: plane vectors (one row of an N x 2 buffer),
    per-axis bounds, and field values that may still be the initial +infinity. */
module Values {

  /** A point or a velocity in the plane: one row of particles_x, particles_v or particles_pb. */
  datatype Vec = Vec(x: real, y: real) {
    function Add(o: Vec): Vec { Vec(x + o.x, y + o.y) }
    function Sub(o: Vec): Vec { Vec(x - o.x, y - o.y) }
    function Scale(c: real): Vec { Vec(c * x, c * y) }
  }

  /** The bounds (lo, hi) of one axis, as x_bounds and y_bounds are given. */
  datatype Interval = Interval(lo: real, hi: real) {
    predicate Ordered() { lo <= hi }
    predicate Contains(v: real) { lo <= v <= hi }
    function Mid(): real { (lo + hi) / 2.0 }
  }

  predicate InBox(p: Vec, xb: Interval, yb: Interval) {
    xb.Contains(p.x) && yb.Contains(p.y)
  }

  /** Every component of v lies in [-vMax, vMax]. */
  predicate WithinCap(v: Vec, vMax: real) {
    -vMax <= v.x <= vMax && -vMax <= v.y <= vMax
  }

  /** The range of a uniform draw: [0, 1). */
  predicate IsUnit(r: real) { 0.0 <= r < 1.0 }

  predicate IsUnitVec(u: Vec) { IsUnit(u.x) && IsUnit(u.y) }

  /** Both components of v lie in [0, side). */
  predicate InSquare(v: Vec, side: real) {
    0.0 <= v.x < side && 0.0 <= v.y < side
  }

  /** A field value, or the +infinity (np.Inf) that every best value starts from. */
  datatype Ext = Inf | Fin(v: real) {
    /** Strict less-than, as Python's `<` on floats where one side may be inf. */
    predicate Below(o: Ext) {
      match this
      case Inf => false
      case Fin(a) => o.Inf? || a < o.v
    }

    /** Less than or equal: the negation of the strict order the other way round. */
    predicate AtMost(o: Ext) { !o.Below(this) }
  }

  // Facts about products of reals, each proved on its own so that the proofs that use them
  // only need linear reasoning.

  lemma MulMonotone(a: real, b: real, c: real)
    requires a <= b && 0.0 <= c
    ensures a * c <= b * c && c * a <= c * b
  {
  }

  lemma MulStrict(a: real, b: real, c: real)
    requires a < b && 0.0 < c
    ensures a * c < b * c && c * a < c * b
  {
  }

  /** Stepping m times by d / n, for m <= n, covers a part of d of the same sign, and all of d
      when m = n. */
  lemma StepSpan(d: real, n: nat, m: nat)
    requires 0 < n && m <= n
    ensures (n as real) * (d / (n as real)) == d
    ensures 0.0 <= d ==> 0.0 <= (m as real) * (d / (n as real)) <= d
  {
    var step := d / (n as real);
    assert (n as real) * step == d;
    if 0.0 <= d {
      assert 0.0 <= step;
      MulMonotone(0.0, m as real, step);
      MulMonotone(m as real, n as real, step);
    }
  }

  /** A unit draw scales a non-negative width to at least zero and below the width itself. */
  lemma UnitScale(d: real, u: real)
    requires 0.0 <= d && IsUnit(u)
    ensures 0.0 <= d * u <= d && d * u == u * d
    ensures 0.0 < d ==> d * u < d
  {
    MulMonotone(0.0, u, d);
    MulMonotone(u, 1.0, d);
    if 0.0 < d { MulStrict(u, 1.0, d); }
  }

  /** A unit draw scaled by a positive side stays in [0, side); p names the product, so that
      the callers reason about it linearly. */
  lemma ScaledBelow(r: real, side: real, p: real)
    requires IsUnit(r) && 0.0 < side && p == side * r
    ensures 0.0 <= p < side
  {
    assert side * r < side * 1.0;
  }

  /** A unit draw scaled by a positive side lies in [0, side) on both axes. */
  lemma ScaledUnitInSquare(u: Vec, side: real)
    requires IsUnitVec(u) && 0.0 < side
    ensures InSquare(u.Scale(side), side)
  {
    var p := u.Scale(side);
    ScaledBelow(u.x, side, p.x);
    ScaledBelow(u.y, side, p.y);
  }
}
