/** The rules one iteration applies to each particle, stated value by value: the
    personal-best replacement, the lowest-index argmin behind the global best, the
    inertia schedule, the velocity formula, and the two clamps. */
module UpdateRules {
  import opened Values

  /** The field evaluated at a point. */
  function FieldAt(f: (real, real) -> real, p: Vec): real {
    f(p.x, p.y)
  }

  /** A fresh evaluation replaces a personal best only when it is strictly below it: a tie
      keeps the old best, and any evaluation beats an infinite best. */
  predicate Improves(value: real, best: Ext): (b: bool)
    ensures b <==> !best.AtMost(Fin(value))
    ensures best.Inf? ==> b
  {
    Fin(value).Below(best)
  }

  /** The personal-best value after seeing `value`: the smaller of the two, keeping the old
      best on a tie. */
  function NewBest(value: real, best: Ext): (r: Ext)
    ensures r.AtMost(best) && r.AtMost(Fin(value))
    ensures r != best <==> Improves(value, best)
    ensures r == best || r == Fin(value)
  {
    if Improves(value, best) then Fin(value) else best
  }

  /** numpy's argmin: the index of the first least element. */
  function LowestMinimizer(s: seq<Ext>): (m: nat)
    requires |s| > 0
    ensures m < |s|
    ensures forall j :: 0 <= j < |s| ==> s[m].AtMost(s[j])
    ensures forall j :: 0 <= j < m ==> s[m].Below(s[j])
    decreases |s|
  {
    if |s| == 1 then 0
    else
      var m := LowestMinimizer(s[..|s| - 1]);
      if s[|s| - 1].Below(s[m]) then |s| - 1 else m
  }

  /** The scan np.argmin performs over the personal-best values. */
  method ArgMin(a: array<Ext>) returns (m: nat)
    requires a.Length > 0
    ensures m == LowestMinimizer(a[..])
    ensures m < a.Length && forall j :: 0 <= j < a.Length ==> a[m].AtMost(a[j])
  {
    m := 0;
    for i := 1 to a.Length
      invariant m == LowestMinimizer(a[..i])
    {
      assert a[..i + 1][..i] == a[..i];
      if a[i].Below(a[m]) {
        m := i;
      }
    }
    assert a[..a.Length] == a[..];
  }

  /** The inertia weight at iteration t (1-based) of n: linear from wMax down to wMin. */
  function Inertia(wMin: real, wMax: real, t: nat, n: nat): (w: real)
    requires 0 < n
    ensures wMin <= wMax && t <= n ==> wMin <= w <= wMax
    ensures t == n ==> w == wMin
    ensures 0 < t && wMin < wMax ==> w < wMax
  {
    var step := (wMax - wMin) / (n as real);
    StepSpan(wMax - wMin, n, if t <= n then t else n);
    assert 0 < t && wMin < wMax ==> 0.0 < (t as real) * step by {
      if 0 < t && wMin < wMax {
        assert 0.0 < step;
        MulStrict(0.0, t as real, step);
      }
    }
    wMax - (t as real) * step
  }

  /** The annealing never raises the weight: a later iteration has an inertia at most that of
      an earlier one. */
  lemma InertiaNonIncreasing(wMin: real, wMax: real, s: nat, t: nat, n: nat)
    requires 0 < n && s <= t && wMin <= wMax
    ensures Inertia(wMin, wMax, t, n) <= Inertia(wMin, wMax, s, n)
  {
    var step := (wMax - wMin) / (n as real);
    var ps, pt := (s as real) * step, (t as real) * step;
    assert ps <= pt by {
      StepSpan(wMax - wMin, n, n);
      MulMonotone(s as real, t as real, step);
    }
    assert Inertia(wMin, wMax, t, n) == wMax - pt;
    assert Inertia(wMin, wMax, s, n) == wMax - ps;
  }

  /** The velocity rule, with one r1 and one r2 for the whole swarm:
      w * v + c1 * r1 * (p - x) + c2 * r2 * (g - x). A particle already at its personal and
      global best keeps only its damped velocity: the draws r1 and r2 have no effect on it. */
  function Velocity(w: real, c1: real, c2: real, r1: real, r2: real, v: Vec, x: Vec, p: Vec, g: Vec): (u: Vec)
    ensures p == x && g == x ==> u == v.Scale(w)
  {
    assert p == x ==> p.Sub(x).Scale(c1 * r1) == Vec(0.0, 0.0);
    assert g == x ==> g.Sub(x).Scale(c2 * r2) == Vec(0.0, 0.0);
    v.Scale(w).Add(p.Sub(x).Scale(c1 * r1)).Add(g.Sub(x).Scale(c2 * r2))
  }

  /** One velocity component after the cap: kept when within [-vMax, vMax], otherwise
      re-drawn as r * vMax with the sign of the overshoot (never saturated to the bound). Both
      overshoot masks are taken before either is written and the negative one is written
      last, so it wins when a negative vMax makes both hold. */
  function Redraw(v: real, r: real, vMax: real): (u: real)
    requires IsUnit(r)
    ensures 0.0 < vMax ==> -vMax <= u <= vMax
    ensures -vMax <= v <= vMax ==> u == v
    ensures vMax < v && -vMax <= v ==> u == r * vMax
    ensures v < -vMax ==> u == -(r * vMax)
    ensures 0.0 < vMax && vMax < v ==> 0.0 <= u < vMax
    ensures 0.0 < vMax && v < -vMax ==> -vMax < u <= 0.0
  {
    var scaled := r * vMax;
    assert 0.0 < vMax ==> 0.0 <= scaled < vMax by {
      if 0.0 < vMax { UnitScale(vMax, r); }
    }
    if v < -vMax then -scaled
    else if v > vMax then scaled
    else v
  }

  /** The velocity cap applied to both components, each with its own fresh draw. */
  function CapVelocity(v: Vec, draw: Vec, vMax: real): (u: Vec)
    requires IsUnitVec(draw)
    ensures 0.0 < vMax ==> WithinCap(u, vMax)
    ensures WithinCap(v, vMax) ==> u == v
  {
    Vec(Redraw(v.x, draw.x, vMax), Redraw(v.y, draw.y, vMax))
  }

  /** One coordinate after the position cap: above hi becomes hi, then below lo becomes lo. */
  function Clip(v: real, b: Interval): (c: real)
    ensures b.Ordered() ==> b.Contains(c)
    ensures b.Contains(v) ==> c == v
    ensures b.Ordered() && b.hi < v ==> c == b.hi
    ensures v < b.lo ==> c == b.lo
  {
    var capped := if v > b.hi then b.hi else v;
    if capped < b.lo then b.lo else capped
  }

  /** The position cap: each coordinate saturated to its own axis bounds. */
  function ClipToBox(p: Vec, xb: Interval, yb: Interval): (q: Vec)
    ensures xb.Ordered() && yb.Ordered() ==> InBox(q, xb, yb)
    ensures InBox(p, xb, yb) ==> q == p
  {
    Vec(Clip(p.x, xb), Clip(p.y, yb))
  }

  /** What a personal best records, given the positions `seen` at which a particle has been
      evaluated: nothing (+inf) before the first evaluation; afterwards the first position,
      at index `when`, where the field takes its least value over `seen`, together with
      that value. */
  ghost predicate EarliestMinimum(f: (real, real) -> real, seen: seq<Vec>, when: nat, best: Vec, value: Ext) {
    if seen == [] then value == Inf
    else
      && when < |seen| && best == seen[when] && value == Fin(FieldAt(f, best))
      && (forall k :: 0 <= k < |seen| ==> FieldAt(f, best) <= FieldAt(f, seen[k]))
      && (forall k :: 0 <= k < when ==> FieldAt(f, best) < FieldAt(f, seen[k]))
  }

  /** The strict personal-best update keeps EarliestMinimum true when one more position is
      evaluated: the new best is that position exactly when its value is strictly below. */
  lemma EarliestMinimumExtends(f: (real, real) -> real, seen: seq<Vec>, when: nat, best: Vec, value: Ext, x: Vec)
    requires EarliestMinimum(f, seen, when, best, value)
    ensures var improves := Improves(FieldAt(f, x), value);
      EarliestMinimum(f, seen + [x], if improves then |seen| else when,
                      if improves then x else best, NewBest(FieldAt(f, x), value))
  {
    var seen' := seen + [x];
    assert forall k :: 0 <= k < |seen| ==> seen'[k] == seen[k];
    assert seen'[|seen|] == x;
  }
}
