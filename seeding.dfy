/** Construction-time placement of the particles: a uniform random layout, or a
    square grid over the seeding box with the surplus particles at its centre. */
module Seeding {
  import opened Values

  /** floor(sqrt(n)): the side k of the largest full k x k grid that n particles can fill. */
  function Isqrt(n: nat): (k: nat)
    ensures k * k <= n < (k + 1) * (k + 1)
  {
    if n == 0 then 0
    else
      var r := Isqrt(n - 1);
      assert (r + 1) * (r + 1) < (r + 2) * (r + 2);
      if (r + 1) * (r + 1) <= n then r + 1 else r
  }

  /** The side of the grid for a perfect square is its root. */
  lemma IsqrtOfSquare(k: nat)
    ensures Isqrt(k * k) == k
  {
    var m := Isqrt(k * k);
    SquareCompare(k, m);
    SquareCompare(m + 1, k);
  }

  /** Squaring preserves the order of naturals, weak and strict. */
  lemma SquareCompare(a: nat, b: nat)
    ensures a <= b ==> a * a <= b * b
    ensures a < b ==> a * a < b * b
  {
    if a <= b {
      MulMonotoneNat(a, b, a);
      MulMonotoneNat(a, b, b);
      if a < b {
        assert a * b < b * b;
      }
    }
  }

  /** Element m of numpy's linspace(lo, hi, k): k evenly spaced values from lo to hi
      inclusive; with k = 1 the only element is lo (not the midpoint). */
  function Linspace(b: Interval, k: nat, m: nat): (v: real)
    requires m < k
    ensures b.Ordered() ==> b.Contains(v)
    ensures m == 0 ==> v == b.lo
    ensures 2 <= k && m == k - 1 ==> v == b.hi
  {
    if k == 1 then b.lo
    else
      var step := (b.hi - b.lo) / ((k - 1) as real);
      StepSpan(b.hi - b.lo, k - 1, m);
      b.lo + (m as real) * step
  }

  /** On a non-degenerate interval linspace is strictly increasing, so no two grid lines coincide. */
  lemma LinspaceStrictlyIncreasing(b: Interval, k: nat, m1: nat, m2: nat)
    requires b.lo < b.hi && m1 < m2 < k
    ensures Linspace(b, k, m1) < Linspace(b, k, m2)
  {
    var step := (b.hi - b.lo) / ((k - 1) as real);
    var p1, p2 := (m1 as real) * step, (m2 as real) * step;
    assert p1 < p2 by {
      assert 0.0 < step;
      MulStrict(m1 as real, m2 as real, step);
    }
    assert Linspace(b, k, m1) == b.lo + p1;
    assert Linspace(b, k, m2) == b.lo + p2;
  }

  /** Row r of a k x k grid laid out row-major: row r / k, column r % k. */
  lemma GridCell(r: nat, k: nat)
    requires r < k * k
    ensures 0 < k && r / k < k && r % k < k
  {
  }

  /** Division by k recovers the quotient and remainder a number was built from. */
  lemma DivModUnique(n: nat, k: nat, q: nat, s: nat)
    requires s < k && n == q * k + s
    ensures n / k == q && n % k == s
  {
    var q', s' := n / k, n % k;
    assert n == q' * k + s';
    if q' < q {
      assert q' * k + s' < (q' + 1) * k;
      MulMonotoneNat(q' + 1, q, k);
    } else if q < q' {
      assert q * k + s < (q + 1) * k;
      MulMonotoneNat(q + 1, q', k);
    }
  }

  lemma MulMonotoneNat(a: nat, b: nat, c: nat)
    requires a <= b
    ensures a * c <= b * c
  {
  }

  /** Every row of a k x k grid is the row of some cell. */
  lemma CellOfRow(r: nat, k: nat) returns (i: nat, j: nat)
    requires r < k * k
    ensures i < k && j < k && r == i * k + j
  {
    GridCell(r, k);
    i, j := r / k, r % k;
  }

  /** The cell (i, j) of a row-major k x k grid is row i * k + j. */
  lemma RowOfCell(i: nat, j: nat, k: nat)
    requires i < k && j < k
    ensures i * k + j < k * k
    ensures (i * k + j) / k == i && (i * k + j) % k == j
  {
    assert i * k + j < (i + 1) * k;
    MulMonotoneNat(i + 1, k, k);
    DivModUnique(i * k + j, k, i, j);
  }

  /** The grid line after line i starts k rows later and still fits in the grid. */
  lemma NextRow(i: nat, k: nat)
    requires i < k
    ensures (i + 1) * k == i * k + k <= k * k
  {
    MulMonotoneNat(i + 1, k, k);
  }

  /** The centre of the seeding box, where particles that do not fit the grid are placed. */
  function Midpoint(xb: Interval, yb: Interval): (p: Vec)
    ensures p.x - xb.lo == xb.hi - p.x && p.y - yb.lo == yb.hi - p.y
    ensures xb.Ordered() && yb.Ordered() ==> InBox(p, xb, yb)
  {
    Vec(xb.Mid(), yb.Mid())
  }

  /** The seat of row r on a grid of side k: the first k * k rows take the cells of the k x k
      grid spanned by linspace on each axis (x outer, y inner); every other row sits at the
      midpoint. */
  function SeatOnGrid(k: nat, r: nat, xb: Interval, yb: Interval): (p: Vec)
    ensures xb.Ordered() && yb.Ordered() ==> InBox(p, xb, yb)
  {
    if r < k * k then
      GridCell(r, k);
      Vec(Linspace(xb, k, r / k), Linspace(yb, k, r % k))
    else
      Midpoint(xb, yb)
  }

  /** The seat of particle r among n under grid seeding: the grid side is floor(sqrt(n)). */
  function GridSeat(n: nat, r: nat, xb: Interval, yb: Interval): (p: Vec)
    requires r < n
    ensures xb.Ordered() && yb.Ordered() ==> InBox(p, xb, yb)
  {
    SeatOnGrid(Isqrt(n), r, xb, yb)
  }

  /** Row i * k + j of the grid holds (linspace(x)[i], linspace(y)[j]). */
  lemma GridLayout(k: nat, i: nat, j: nat, xb: Interval, yb: Interval)
    requires i < k && j < k
    ensures i * k + j < k * k
    ensures SeatOnGrid(k, i * k + j, xb, yb) == Vec(Linspace(xb, k, i), Linspace(yb, k, j))
  {
    RowOfCell(i, j, k);
  }

  /** On a non-degenerate box, two different cells (a, c) and (b, d) of the k x k grid are two
      different points. */
  lemma CellPointsDiffer(k: nat, a: nat, c: nat, b: nat, d: nat, xb: Interval, yb: Interval)
    requires xb.lo < xb.hi && yb.lo < yb.hi
    requires a < k && b < k && c < k && d < k && (a != b || c != d)
    ensures Vec(Linspace(xb, k, a), Linspace(yb, k, c)) != Vec(Linspace(xb, k, b), Linspace(yb, k, d))
  {
    if a != b {
      LinspaceStrictlyIncreasing(xb, k, if a < b then a else b, if a < b then b else a);
    } else {
      LinspaceStrictlyIncreasing(yb, k, if c < d then c else d, if c < d then d else c);
    }
  }

  /** On a non-degenerate box the k * k grid cells are pairwise distinct points. */
  lemma GridCellsDistinct(k: nat, r: nat, q: nat, xb: Interval, yb: Interval)
    requires xb.lo < xb.hi && yb.lo < yb.hi
    requires r < k * k && q < k * k && r != q
    ensures SeatOnGrid(k, r, xb, yb) != SeatOnGrid(k, q, xb, yb)
  {
    var a, c := CellOfRow(r, k);
    var b, d := CellOfRow(q, k);
    GridLayout(k, a, c, xb, yb);
    GridLayout(k, b, d, xb, yb);
    CellPointsDiffer(k, a, c, b, d, xb, yb);
  }

  /** With a perfect square of particles and a non-degenerate box, grid seeding puts no two
      particles on the same point. */
  lemma GridSeatsDistinct(k: nat, r: nat, q: nat, xb: Interval, yb: Interval)
    requires xb.lo < xb.hi && yb.lo < yb.hi
    requires r < k * k && q < k * k && r != q
    ensures GridSeat(k * k, r, xb, yb) != GridSeat(k * k, q, xb, yb)
  {
    IsqrtOfSquare(k);
    GridCellsDistinct(k, r, q, xb, yb);
  }

  /** With one to three particles the grid is 1 x 1 and linspace(lo, hi, 1) is [lo]: the first
      particle sits at the lower corner of the box, the others at its midpoint. */
  lemma SmallSwarmGrid(n: nat, xb: Interval, yb: Interval)
    requires 1 <= n <= 3
    ensures GridSeat(n, 0, xb, yb) == Vec(xb.lo, yb.lo)
    ensures forall r :: 1 <= r < n ==> GridSeat(n, r, xb, yb) == Midpoint(xb, yb)
  {
    var k := Isqrt(n);
    SquareCompare(2, k);
    SquareCompare(k + 1, 1);
    assert k == 1;
  }

  /** numpy's uniform(lo, hi) for a unit draw u: lo + (hi - lo) * u, inside the interval. */
  function Uniform(b: Interval, u: real): (v: real)
    requires IsUnit(u)
    ensures b.Ordered() ==> b.Contains(v)
    ensures b.lo < b.hi ==> v < b.hi
  {
    var d := b.hi - b.lo;
    assert b.Ordered() ==> 0.0 <= d * u <= d && (0.0 < d ==> d * u < d) by {
      if b.Ordered() { UnitScale(d, u); }
    }
    b.lo + d * u
  }

  /** Random seeding: particle i is placed at uniform draws on each axis. */
  method SeedUniform(xs: array<Vec>, draws: seq<Vec>, xb: Interval, yb: Interval)
    requires |draws| == xs.Length
    requires forall i :: 0 <= i < |draws| ==> IsUnit(draws[i].x) && IsUnit(draws[i].y)
    modifies xs
    ensures forall i :: 0 <= i < xs.Length ==>
      xs[i] == Vec(Uniform(xb, draws[i].x), Uniform(yb, draws[i].y))
    ensures xb.Ordered() && yb.Ordered() ==> forall i :: 0 <= i < xs.Length ==> InBox(xs[i], xb, yb)
  {
    for i := 0 to xs.Length
      invariant forall j :: 0 <= j < i ==> xs[j] == Vec(Uniform(xb, draws[j].x), Uniform(yb, draws[j].y))
    {
      xs[i] := Vec(Uniform(xb, draws[i].x), Uniform(yb, draws[i].y));
    }
  }

  /** Grid seeding: every row is first set to the midpoint, then the first k * k rows are
      overwritten with the grid cells, x outer and y inner. */
  method SeedGrid(xs: array<Vec>, xb: Interval, yb: Interval)
    modifies xs
    ensures forall r :: 0 <= r < xs.Length ==> xs[r] == GridSeat(xs.Length, r, xb, yb)
  {
    var n := xs.Length;
    var mid := Midpoint(xb, yb);
    Fill(xs, mid);
    var k := Isqrt(n);
    var row := 0;  // the first row of grid line i
    for i := 0 to k
      invariant row == i * k && row <= k * k
      invariant forall q :: 0 <= q < row ==> xs[q] == SeatOnGrid(k, q, xb, yb)
      invariant forall q :: row <= q < n ==> xs[q] == mid
    {
      NextRow(i, k);
      FillGridLine(xs, k, i, row, xb, yb);
      row := row + k;
    }
    assert forall q :: row <= q < n ==> SeatOnGrid(k, q, xb, yb) == mid;
  }

  /** Every row set to the same point. */
  method Fill(xs: array<Vec>, v: Vec)
    modifies xs
    ensures forall q :: 0 <= q < xs.Length ==> xs[q] == v
  {
    for r := 0 to xs.Length
      invariant forall q :: 0 <= q < r ==> xs[q] == v
    {
      xs[r] := v;
    }
  }

  /** The inner loop of grid seeding: grid line i (x = linspace(x)[i]) takes rows
      i * k to i * k + k - 1, one per y grid value. */
  method FillGridLine(xs: array<Vec>, k: nat, i: nat, row: nat, xb: Interval, yb: Interval)
    requires i < k && row == i * k && row + k <= xs.Length && row + k <= k * k
    modifies xs
    ensures forall q :: row <= q < row + k ==> xs[q] == SeatOnGrid(k, q, xb, yb)
    ensures forall q :: 0 <= q < xs.Length && !(row <= q < row + k) ==> xs[q] == old(xs[q])
  {
    for j := 0 to k
      invariant forall q :: row <= q < row + j ==> xs[q] == SeatOnGrid(k, q, xb, yb)
      invariant forall q :: 0 <= q < xs.Length && !(row <= q < row + k) ==> xs[q] == old(xs[q])
    {
      GridLayout(k, i, j, xb, yb);
      xs[row + j] := Vec(Linspace(xb, k, i), Linspace(yb, k, j));
    }
  }

  /** The initial personal-best positions: unit draws scaled by vMax on both axes. */
  method SeedScaled(pb: array<Vec>, draws: seq<Vec>, vMax: real)
    requires |draws| == pb.Length
    requires forall i :: 0 <= i < pb.Length ==> IsUnit(draws[i].x) && IsUnit(draws[i].y)
    modifies pb
    ensures forall i :: 0 <= i < pb.Length ==> pb[i] == draws[i].Scale(vMax)
    ensures 0.0 < vMax ==> forall i :: 0 <= i < pb.Length ==> InSquare(pb[i], vMax)
  {
    for i := 0 to pb.Length
      invariant forall j :: 0 <= j < i ==> pb[j] == draws[j].Scale(vMax)
      invariant 0.0 < vMax ==> forall j :: 0 <= j < i ==> InSquare(pb[j], vMax)
    {
      if 0.0 < vMax {
        ScaledUnitInSquare(draws[i], vMax);
      }
      pb[i] := draws[i].Scale(vMax);
    }
  }
}
