/** The ParticleSwarm object: N particles in the plane, each with a position, a velocity and a
    personal best, a swarm-wide global best, and an inertia weight annealed linearly over the
    iterations of a run. Construction seeds the particles; each iteration evaluates the field,
    updates the bests, recomputes velocities and moves the particles. */
module Swarm {
  import opened Values
  import opened UpdateRules
  import opened Seeding

  /** The random draws one iteration consumes: the two scalars r1 and r2 shared by the whole
      swarm, and one unit draw per velocity component for the re-draws of the velocity cap. */
  datatype StepDraws = StepDraws(r1: real, r2: real, redraw: seq<Vec>)

  predicate DrawsFit(d: StepDraws, n: nat) {
    && IsUnit(d.r1) && IsUnit(d.r2) && |d.redraw| == n
    && forall i :: 0 <= i < n ==> IsUnit(d.redraw[i].x) && IsUnit(d.redraw[i].y)
  }

  /** Every position of a snapshot lies in the box. */
  predicate AllInBox(ps: seq<Vec>, xb: Interval, yb: Interval) {
    forall i :: 0 <= i < |ps| ==> InBox(ps[i], xb, yb)
  }

  /** Every snapshot of a run but the last is where the run's next iteration evaluates the
      field: entry |h0[i]| + s + 1 of particle i's history h, where h0 is the history at the
      start of the run. */
  predicate EvaluatedNext(snapshots: seq<seq<Vec>>, h0: seq<seq<Vec>>, h: seq<seq<Vec>>, n: nat) {
    && |h0| == n && |h| == n
    && forall s, i :: 0 <= s < |snapshots| - 1 && 0 <= i < n ==>
         |snapshots[s]| == n && |h0[i]| + s + 1 < |h[i]| && snapshots[s][i] == h[i][|h0[i]| + s + 1]
  }

  /** An iteration evaluates the field at the last snapshot, so that snapshot joins the ones
      recorded in the history. */
  lemma EvaluatedNextStep(snapshots: seq<seq<Vec>>, h0: seq<seq<Vec>>, h: seq<seq<Vec>>,
                          h': seq<seq<Vec>>, x: seq<Vec>, y: seq<Vec>, n: nat)
    requires EvaluatedNext(snapshots, h0, h, n)
    requires |x| == n && (0 < |snapshots| ==> snapshots[|snapshots| - 1] == x)
    requires |h'| == n
    requires forall i :: 0 <= i < n ==> |h[i]| == |h0[i]| + |snapshots| && h'[i] == h[i] + [x[i]]
    ensures EvaluatedNext(snapshots + [y], h0, h', n)
  {
    forall s, i | 0 <= s < |snapshots + [y]| - 1 && 0 <= i < n
      ensures |(snapshots + [y])[s]| == n && |h0[i]| + s + 1 < |h'[i]|
      ensures (snapshots + [y])[s][i] == h'[i][|h0[i]| + s + 1]
    {
      assert (snapshots + [y])[s] == snapshots[s];
      assert h'[i] == h[i] + [x[i]];
      if s < |snapshots| - 1 {
        assert |snapshots[s]| == n && |h0[i]| + s + 1 < |h[i]| && snapshots[s][i] == h[i][|h0[i]| + s + 1];
      } else {
        assert h'[i][|h[i]|] == x[i];
      }
    }
  }

  class ParticleSwarm {
    const f: (real, real) -> real   // the target function, to be minimised
    const nParticles: nat
    const nIterations: nat
    const c1: real                  // cognitive coefficient
    const c2: real                  // social coefficient
    const wMin: real
    const wMax: real
    const vMax: real
    const xBounds: Interval
    const yBounds: Interval
    const positionCap: bool
    const velocityCap: bool

    const xs: array<Vec>        // particles_x: current positions
    const vs: array<Vec>        // particles_v: current velocities
    const pb: array<Vec>        // particles_pb: personal-best positions
    const pbValue: array<Ext>   // particles_pb_target: personal-best values

    var gb: Vec         // particles_gb
    var gbValue: Ext    // particles_gb_target
    var w: real         // the current inertia weight

    /** The number of iterations performed so far, over all runs. */
    ghost var steps: nat
    /** history[i]: the positions at which particle i has been evaluated, in order. */
    ghost var history: seq<seq<Vec>>
    /** bestAt[i]: the evaluation that produced particle i's personal best. */
    ghost var bestAt: seq<nat>
    /** The particle whose personal best the global best was copied from. */
    ghost var gbOwner: nat

    /** The four per-particle arrays have one row per particle and are separate arrays. */
    predicate Shaped() {
      && xs.Length == nParticles && vs.Length == nParticles
      && pb.Length == nParticles && pbValue.Length == nParticles
      && xs != vs && xs != pb && vs != pb
    }

    ghost predicate Valid()
      reads this, xs, vs, pb, pbValue
    {
      BestsValid() && MotionValid()
    }

    /** The bookkeeping of the bests. */
    ghost predicate BestsValid()
      reads this`steps, this`history, this`bestAt, this`gb, this`gbValue, this`gbOwner, pb, pbValue
    {
      && Shaped()
      && 0 < nParticles
      && BestsRecorded()
      && (forall i :: 0 <= i < nParticles ==> gbValue.AtMost(pbValue[i]))
      && (steps == 0 ==> gb == Vec(0.0, 0.0) && gbValue == Inf)
      && (steps > 0 ==> gbOwner < nParticles && gb == pb[gbOwner] && gbValue == pbValue[gbOwner])
    }

    /** Every particle has been evaluated `steps` times, and its personal best is the first
        position where it saw its least value. */
    ghost predicate BestsRecorded()
      reads this`steps, this`history, this`bestAt, pb, pbValue
    {
      && Shaped()
      && |history| == nParticles && |bestAt| == nParticles
      && (forall i :: 0 <= i < nParticles ==> |history[i]| == steps)
      && (forall i :: 0 <= i < nParticles ==>
            EarliestMinimum(f, history[i], bestAt[i], pb[i], pbValue[i]))
    }

    /** What holds of the positions, the velocities and the weight. */
    ghost predicate MotionValid()
      reads this`steps, this`w, xs, vs
    {
      && Shaped()
      && (steps == 0 ==> w == wMax)
      // the particles are inside the box after seeding, and stay there under the position cap
      && (xBounds.Ordered() && yBounds.Ordered() && (positionCap || steps == 0) ==>
            forall i :: 0 <= i < nParticles ==> InBox(xs[i], xBounds, yBounds))
      // after an iteration under the velocity cap every velocity component is within vMax
      && (velocityCap && 0.0 < vMax && steps > 0 ==>
            forall i :: 0 <= i < nParticles ==> WithinCap(vs[i], vMax))
    }

    /** The personal bests after one evaluation round at positions x, starting from positions
        pb0 with values pbv0: each is replaced exactly when the new value is strictly below it. */
    ghost predicate PersonalBestsFrom(x: seq<Vec>, pb0: seq<Vec>, pbv0: seq<Ext>)
      reads pb, pbValue
    {
      && pb.Length == nParticles && pbValue.Length == nParticles
      && |x| == nParticles && |pb0| == nParticles && |pbv0| == nParticles
      && (forall i :: 0 <= i < nParticles ==> pbValue[i] == NewBest(FieldAt(f, x[i]), pbv0[i]))
      && (forall i :: 0 <= i < nParticles ==>
            pb[i] == if Improves(FieldAt(f, x[i]), pbv0[i]) then x[i] else pb0[i])
    }

    /** The global best after the personal bests are updated, starting from gb0 with value
        gbv0: the lowest personal best (the first on a tie) replaces it exactly when it is
        strictly below it. */
    ghost predicate GlobalBestFrom(gb0: Vec, gbv0: Ext)
      reads this`gb, this`gbValue, pb, pbValue
    {
      && 0 < nParticles && pb.Length == nParticles && pbValue.Length == nParticles
      && var m := LowestMinimizer(pbValue[..]);
         if pbValue[m].Below(gbv0) then gbValue == pbValue[m] && gb == pb[m]
         else gbValue == gbv0 && gb == gb0
    }

    /** Both bests after one evaluation round at positions x. */
    ghost predicate BestsUpdatedFrom(x: seq<Vec>, pb0: seq<Vec>, pbv0: seq<Ext>, gb0: Vec, gbv0: Ext)
      reads this`gb, this`gbValue, pb, pbValue
    {
      PersonalBestsFrom(x, pb0, pbv0) && GlobalBestFrom(gb0, gbv0)
    }

    /** The motion of one iteration from positions x0 and velocities v0: every velocity is
        NextVelocity with the shared r1, r2 and the particle's own re-draw, and every position
        moves by its new velocity (NextPosition). */
    ghost predicate MovedFrom(x0: seq<Vec>, v0: seq<Vec>, draws: StepDraws)
      reads this`w, this`gb, xs, vs, pb
    {
      && xs.Length == nParticles && vs.Length == nParticles && pb.Length == nParticles
      && |x0| == nParticles && |v0| == nParticles && DrawsFit(draws, nParticles)
      && (forall i :: 0 <= i < nParticles ==>
            vs[i] == NextVelocity(w, draws.r1, draws.r2, draws.redraw[i], v0[i], x0[i], pb[i], gb))
      && (forall i :: 0 <= i < nParticles ==> xs[i] == NextPosition(x0[i], vs[i]))
    }

    /** Builds the swarm and seeds it: positions from unit draws (random seeding) or on the
        grid, personal-best positions at vMax times unit draws with value +infinity, global
        best at the origin with value +infinity. The velocities are left as allocated. */
    constructor (f: (real, real) -> real, nParticles: nat, c1: real, c2: real,
                 wMin: real, wMax: real, vMax: real, nIterations: nat,
                 xBounds: Interval, yBounds: Interval,
                 randomInitialisation: bool, positionCap: bool, velocityCap: bool,
                 seatDraws: seq<Vec>, pbDraws: seq<Vec>)
      requires 0 < nParticles
      requires |seatDraws| == nParticles && |pbDraws| == nParticles
      requires randomInitialisation ==> forall i :: 0 <= i < nParticles ==> IsUnit(seatDraws[i].x) && IsUnit(seatDraws[i].y)
      requires forall i :: 0 <= i < nParticles ==> IsUnit(pbDraws[i].x) && IsUnit(pbDraws[i].y)
      ensures Valid() && fresh(xs) && fresh(vs) && fresh(pb) && fresh(pbValue)
      ensures this.f == f && this.nParticles == nParticles && this.nIterations == nIterations
      ensures this.c1 == c1 && this.c2 == c2 && this.wMin == wMin && this.wMax == wMax
      ensures this.vMax == vMax && this.xBounds == xBounds && this.yBounds == yBounds
      ensures this.positionCap == positionCap && this.velocityCap == velocityCap
      ensures steps == 0
      ensures randomInitialisation ==> forall i :: 0 <= i < nParticles ==>
        xs[i] == Vec(Uniform(xBounds, seatDraws[i].x), Uniform(yBounds, seatDraws[i].y))
      ensures !randomInitialisation ==> forall i :: 0 <= i < nParticles ==>
        xs[i] == GridSeat(nParticles, i, xBounds, yBounds)
      ensures forall i :: 0 <= i < nParticles ==> pb[i] == pbDraws[i].Scale(vMax) && pbValue[i] == Inf
      ensures gb == Vec(0.0, 0.0) && gbValue == Inf && w == wMax
    {
      var xs0 := new Vec[nParticles];
      if randomInitialisation {
        SeedUniform(xs0, seatDraws, xBounds, yBounds);
      } else {
        SeedGrid(xs0, xBounds, yBounds);
      }
      var pb0 := new Vec[nParticles];
      SeedScaled(pb0, pbDraws, vMax);
      this.f := f;
      this.nParticles := nParticles;
      this.nIterations := nIterations;
      this.c1, this.c2 := c1, c2;
      this.wMin, this.wMax := wMin, wMax;
      this.vMax := vMax;
      this.xBounds, this.yBounds := xBounds, yBounds;
      this.positionCap, this.velocityCap := positionCap, velocityCap;
      xs := xs0;
      vs := new Vec[nParticles];
      pb := pb0;
      pbValue := new Ext[nParticles](_ => Inf);
      gb := Vec(0.0, 0.0);
      gbValue := Inf;
      w := wMax;
      steps := 0;
      history := seq(nParticles, _ => []);
      bestAt := seq(nParticles, _ => 0);
      gbOwner := 0;
    }

    /** The current positions (sample_iteration). */
    method SampleIteration() returns (snapshot: seq<Vec>)
      requires Valid()
      ensures snapshot == xs[..]
      ensures xBounds.Ordered() && yBounds.Ordered() && (positionCap || steps == 0) ==>
        forall i :: 0 <= i < |snapshot| ==> InBox(snapshot[i], xBounds, yBounds)
    {
      snapshot := xs[..];
    }

    /** The velocity a particle takes in an iteration: the rule, then the cap if enabled. */
    function NextVelocity(weight: real, r1: real, r2: real, draw: Vec, v: Vec, x: Vec, p: Vec, g: Vec): (u: Vec)
      requires IsUnitVec(draw)
      ensures velocityCap && 0.0 < vMax ==> WithinCap(u, vMax)
      ensures !velocityCap || WithinCap(Velocity(weight, c1, c2, r1, r2, v, x, p, g), vMax) ==>
        u == Velocity(weight, c1, c2, r1, r2, v, x, p, g)
    {
      var raw := Velocity(weight, c1, c2, r1, r2, v, x, p, g);
      if velocityCap then CapVelocity(raw, draw, vMax) else raw
    }

    /** The position a particle moves to: one velocity step, then the clip if enabled. */
    function NextPosition(x: Vec, v: Vec): (y: Vec)
      ensures positionCap && xBounds.Ordered() && yBounds.Ordered() ==> InBox(y, xBounds, yBounds)
      ensures !positionCap || InBox(x.Add(v), xBounds, yBounds) ==> y == x.Add(v)
    {
      if positionCap then ClipToBox(x.Add(v), xBounds, yBounds) else x.Add(v)
    }

    /** Evaluates the field at every position and keeps, per particle, the strictly better of
        the new value and the personal best. */
    method UpdatePersonalBests()
      requires Shaped()
      modifies pb, pbValue
      ensures forall i :: 0 <= i < nParticles ==>
        pbValue[i] == NewBest(FieldAt(f, xs[i]), old(pbValue[i]))
      ensures forall i :: 0 <= i < nParticles ==>
        pb[i] == if Improves(FieldAt(f, xs[i]), old(pbValue[i])) then xs[i] else old(pb[i])
    {
      for i := 0 to nParticles
        invariant forall k :: 0 <= k < i ==>
          pbValue[k] == NewBest(FieldAt(f, xs[k]), old(pbValue[k]))
        invariant forall k :: 0 <= k < i ==>
          pb[k] == if Improves(FieldAt(f, xs[k]), old(pbValue[k])) then xs[k] else old(pb[k])
        invariant forall k :: i <= k < nParticles ==> pbValue[k] == old(pbValue[k]) && pb[k] == old(pb[k])
      {
        var value := FieldAt(f, xs[i]);
        if Improves(value, pbValue[i]) {
          pbValue[i] := Fin(value);
          pb[i] := xs[i];
        }
      }
    }

    /** The new velocity of every particle, with the inertia weight of this iteration. */
    method UpdateVelocities(r1: real, r2: real, redraw: seq<Vec>)
      requires Shaped() && |redraw| == nParticles
      requires forall i :: 0 <= i < nParticles ==> IsUnit(redraw[i].x) && IsUnit(redraw[i].y)
      modifies vs
      ensures forall i :: 0 <= i < nParticles ==>
        vs[i] == NextVelocity(w, r1, r2, redraw[i], old(vs[i]), xs[i], pb[i], gb)
    {
      for i := 0 to nParticles
        invariant forall k :: 0 <= k < i ==>
          vs[k] == NextVelocity(w, r1, r2, redraw[k], old(vs[k]), xs[k], pb[k], gb)
        invariant forall k :: i <= k < nParticles ==> vs[k] == old(vs[k])
      {
        vs[i] := NextVelocity(w, r1, r2, redraw[i], vs[i], xs[i], pb[i], gb);
      }
    }

    /** Every particle moves by its velocity. */
    method MovePositions()
      requires Shaped()
      modifies xs
      ensures forall i :: 0 <= i < nParticles ==> xs[i] == NextPosition(old(xs[i]), vs[i])
    {
      for i := 0 to nParticles
        invariant forall k :: 0 <= k < i ==> xs[k] == NextPosition(old(xs[k]), vs[k])
        invariant forall k :: i <= k < nParticles ==> xs[k] == old(xs[k])
      {
        xs[i] := NextPosition(xs[i], vs[i]);
      }
    }

    /** The first half of an iteration: evaluate the field at every position, update the
        personal bests, and take the lowest personal best (the first on a tie) as the global
        best when it is strictly below the current one. */
    method UpdateBests()
      requires BestsValid()
      modifies this`steps, this`history, this`bestAt, this`gb, this`gbValue, this`gbOwner, pb, pbValue
      ensures BestsValid() && steps == old(steps) + 1
      ensures forall i :: 0 <= i < nParticles ==> history[i] == old(history[i]) + [old(xs[i])]
      ensures gbValue.AtMost(old(gbValue))
      ensures forall i :: 0 <= i < nParticles ==> pbValue[i].AtMost(old(pbValue[i]))
      ensures BestsUpdatedFrom(old(xs[..]), old(pb[..]), old(pbValue[..]), old(gb), old(gbValue))
    {
      ghost var before, pbBefore := pbValue[..], pb[..];
      UpdatePersonalBests();
      assert PersonalBestsFrom(xs[..], pbBefore, before);
      RecordEvaluations(before, pbBefore);
      UpdateGlobalBest(before, pbBefore);
    }

    /** The ghost bookkeeping of one evaluation round: each particle's history grows by its
        current position, and its personal best is still the earliest least value seen. */
    ghost method RecordEvaluations(before: seq<Ext>, pbBefore: seq<Vec>)
      requires Shaped() && |history| == nParticles && |bestAt| == nParticles
      requires |before| == nParticles && |pbBefore| == nParticles
      requires forall i :: 0 <= i < nParticles ==> |history[i]| == steps
      requires forall i :: 0 <= i < nParticles ==>
        EarliestMinimum(f, history[i], bestAt[i], pbBefore[i], before[i])
      requires PersonalBestsFrom(xs[..], pbBefore, before)
      modifies this`steps, this`history, this`bestAt
      ensures BestsRecorded() && steps == old(steps) + 1
      ensures forall i :: 0 <= i < nParticles ==> history[i] == old(history[i]) + [xs[i]]
    {
      forall i | 0 <= i < nParticles
        ensures EarliestMinimum(f, history[i] + [xs[i]],
                                if Improves(FieldAt(f, xs[i]), before[i]) then |history[i]| else bestAt[i],
                                pb[i], pbValue[i])
      {
        EarliestMinimumExtends(f, history[i], bestAt[i], pbBefore[i], before[i], xs[i]);
      }
      var h0, b0, seen := history, bestAt, xs[..];
      history := seq(nParticles, i requires 0 <= i < nParticles => h0[i] + [seen[i]]);
      bestAt := seq(nParticles, i requires 0 <= i < nParticles =>
                      (if Improves(FieldAt(f, seen[i]), before[i]) then |h0[i]| else b0[i]) as nat);
      steps := steps + 1;
    }

    /** The global-best update: the lowest personal best (np.argmin, the first on a tie)
        replaces the global best when it is strictly below it. */
    method UpdateGlobalBest(ghost before: seq<Ext>, ghost pbBefore: seq<Vec>)
      requires BestsRecorded() && 0 < nParticles && steps > 0
      requires |before| == nParticles && |pbBefore| == nParticles
      requires forall i :: 0 <= i < nParticles ==> gbValue.AtMost(before[i])
      requires gbValue == Inf || (gbOwner < nParticles && gb == pbBefore[gbOwner] && gbValue == before[gbOwner])
      requires PersonalBestsFrom(xs[..], pbBefore, before)
      modifies this`gb, this`gbValue, this`gbOwner
      ensures BestsValid() && gbValue.AtMost(old(gbValue))
      ensures GlobalBestFrom(old(gb), old(gbValue))
    {
      var m := ArgMin(pbValue);
      if pbValue[m].Below(gbValue) {
        gbValue := pbValue[m];
        gb := pb[m];
        gbOwner := m;
      } else {
        // an improved personal best of the owner would be below gbValue, so it is unchanged
        assert pbValue[gbOwner] == before[gbOwner];
      }
    }

    /** The second half of an iteration: anneal the inertia weight, update the velocities
        (with the cap if enabled), and move the particles (with the clip if enabled). */
    method Move(iteration: nat, draws: StepDraws, ghost x0: seq<Vec>, ghost v0: seq<Vec>)
      requires Shaped() && 1 <= iteration <= nIterations && DrawsFit(draws, nParticles) && steps > 0
      requires xs[..] == x0 && vs[..] == v0
      modifies this`w, xs, vs
      ensures MotionValid() && (old(BestsValid()) ==> BestsValid())
      ensures unchanged(this`steps, this`history, this`gb, this`gbValue, pb, pbValue)
      ensures w == Inertia(wMin, wMax, iteration, nIterations)
      ensures MovedFrom(x0, v0, draws)
    {
      w := Inertia(wMin, wMax, iteration, nIterations);
      UpdateVelocities(draws.r1, draws.r2, draws.redraw);
      MovePositions();
    }

    /** One iteration of the run, the iteration-th of nIterations: UpdateBests, then Move.
        Every particle has been evaluated once more, at the position it had, and the
        invariant is kept. Returns the positions the run yields. */
    method Step(iteration: nat, draws: StepDraws) returns (snapshot: seq<Vec>)
      requires Valid() && 1 <= iteration <= nIterations && DrawsFit(draws, nParticles)
      modifies this`steps, this`history, this`bestAt, this`gb, this`gbValue, this`gbOwner, this`w
      modifies xs, vs, pb, pbValue
      ensures Valid() && steps == old(steps) + 1
      ensures forall i :: 0 <= i < nParticles ==> history[i] == old(history[i]) + [old(xs[i])]
      ensures gbValue.AtMost(old(gbValue))
      ensures forall i :: 0 <= i < nParticles ==> pbValue[i].AtMost(old(pbValue[i]))
      ensures w == Inertia(wMin, wMax, iteration, nIterations)
      ensures snapshot == xs[..]
      ensures IteratedFrom(old(xs[..]), old(vs[..]), old(pb[..]), old(pbValue[..]), old(gb), old(gbValue), draws)
    {
      ghost var x0, v0 := xs[..], vs[..];
      UpdateBests();
      Move(iteration, draws, x0, v0);
      snapshot := xs[..];
    }

    /** One whole iteration from positions x0, velocities v0 and bests (pb0, pbv0, gb0, gbv0):
        the bests updated at x0 (BestsUpdatedFrom), then the particles moved (MovedFrom). */
    ghost predicate IteratedFrom(x0: seq<Vec>, v0: seq<Vec>, pb0: seq<Vec>, pbv0: seq<Ext>, gb0: Vec, gbv0: Ext,
                                 draws: StepDraws)
      reads this`w, this`gb, this`gbValue, xs, vs, pb, pbValue
    {
      BestsUpdatedFrom(x0, pb0, pbv0, gb0, gbv0) && MovedFrom(x0, v0, draws)
    }

    /** Snapshots as a run yields them: one row per particle, inside the box under the
        position cap. */
    predicate Yielded(snapshots: seq<seq<Vec>>) {
      forall s :: 0 <= s < |snapshots| ==>
        |snapshots[s]| == nParticles &&
        (positionCap && xBounds.Ordered() && yBounds.Ordered() ==> AllInBox(snapshots[s], xBounds, yBounds))
    }

    lemma YieldedAppend(snapshots: seq<seq<Vec>>, snapshot: seq<Vec>)
      requires Yielded(snapshots) && |snapshot| == nParticles
      requires positionCap && xBounds.Ordered() && yBounds.Ordered() ==> AllInBox(snapshot, xBounds, yBounds)
      ensures Yielded(snapshots + [snapshot])
    {
      assert forall s :: 0 <= s < |snapshots| ==> (snapshots + [snapshot])[s] == snapshots[s];
    }

    /** Under the position cap the positions are a snapshot inside the box. */
    lemma PositionsInBox()
      requires MotionValid()
      ensures positionCap && xBounds.Ordered() && yBounds.Ordered() ==> AllInBox(xs[..], xBounds, yBounds)
    {
    }

    /** What a run has done so far, from the history h0 and best values (gbv0, pbv0) it
        started with: no best value has risen, every particle has been evaluated once per
        snapshot, the snapshots are as the run yields them, the last is the current positions,
        and every other one is where the following iteration evaluated the field. */
    ghost predicate RunFrom(h0: seq<seq<Vec>>, gbv0: Ext, pbv0: seq<Ext>, snapshots: seq<seq<Vec>>)
      reads this`gbValue, this`history, xs, pbValue
    {
      && xs.Length == nParticles && pbValue.Length == nParticles
      && |h0| == nParticles && |pbv0| == nParticles && |history| == nParticles
      && gbValue.AtMost(gbv0)
      && (forall i :: 0 <= i < nParticles ==> pbValue[i].AtMost(pbv0[i]))
      && (forall i :: 0 <= i < nParticles ==>
            |history[i]| == |h0[i]| + |snapshots| && h0[i] <= history[i])
      && Yielded(snapshots)
      && (0 < |snapshots| ==> snapshots[|snapshots| - 1] == xs[..])
      && EvaluatedNext(snapshots, h0, history, nParticles)
    }

    /** One iteration of a run, its snapshot appended to those yielded so far. */
    method StepAndYield(iteration: nat, draws: StepDraws, snapshots: seq<seq<Vec>>,
                        ghost h0: seq<seq<Vec>>, ghost gbv0: Ext, ghost pbv0: seq<Ext>)
      returns (snapshots': seq<seq<Vec>>)
      requires Valid() && 1 <= iteration <= nIterations && DrawsFit(draws, nParticles)
      requires RunFrom(h0, gbv0, pbv0, snapshots)
      modifies this`steps, this`history, this`bestAt, this`gb, this`gbValue, this`gbOwner, this`w
      modifies xs, vs, pb, pbValue
      ensures Valid() && steps == old(steps) + 1
      ensures w == Inertia(wMin, wMax, iteration, nIterations)
      ensures snapshots' == snapshots + [xs[..]] && RunFrom(h0, gbv0, pbv0, snapshots')
      ensures IteratedFrom(old(xs[..]), old(vs[..]), old(pb[..]), old(pbValue[..]), old(gb), old(gbValue), draws)
    {
      ghost var before, seen := history, xs[..];
      var snapshot := Step(iteration, draws);
      PositionsInBox();
      YieldedAppend(snapshots, snapshot);
      EvaluatedNextStep(snapshots, h0, before, history, seen, snapshot, nParticles);
      snapshots' := snapshots + [snapshot];
    }

    /** A whole run (simulate): iterations 1 to nIterations, yielding the positions after
        each. */
    method Simulate(draws: seq<StepDraws>) returns (snapshots: seq<seq<Vec>>)
      requires Valid() && |draws| == nIterations
      requires forall s :: 0 <= s < nIterations ==> DrawsFit(draws[s], nParticles)
      modifies this, xs, vs, pb, pbValue
      ensures Valid() && steps == old(steps) + nIterations
      ensures |snapshots| == nIterations && RunFrom(old(history), old(gbValue), old(pbValue[..]), snapshots)
      ensures 0 < nIterations ==> w == wMin
    {
      snapshots := [];
      for iteration := 1 to nIterations + 1
        invariant Valid() && steps == old(steps) + iteration - 1
        invariant |snapshots| == iteration - 1
        invariant RunFrom(old(history), old(gbValue), old(pbValue[..]), snapshots)
        invariant 1 < iteration ==> w == Inertia(wMin, wMax, iteration - 1, nIterations)
      {
        snapshots := StepAndYield(iteration, draws[iteration - 1], snapshots,
                                  old(history), old(gbValue), old(pbValue[..]));
      }
    }

    /** The global best value is the least field value any particle has been evaluated at, and
        once an iteration has run it is the value at gb, one of those positions. */
    lemma GlobalBestIsMinimum()
      requires Valid()
      ensures forall i, k :: 0 <= i < nParticles && 0 <= k < steps ==>
        gbValue.AtMost(Fin(FieldAt(f, history[i][k])))
      ensures steps > 0 ==> gbValue == Fin(FieldAt(f, gb))
      ensures steps > 0 ==> exists i, k :: 0 <= i < nParticles && 0 <= k < steps && gb == history[i][k]
    {
      forall i, k | 0 <= i < nParticles && 0 <= k < steps
        ensures gbValue.AtMost(Fin(FieldAt(f, history[i][k])))
      {
        assert EarliestMinimum(f, history[i], bestAt[i], pb[i], pbValue[i]);
      }
      if steps > 0 {
        var o := gbOwner;
        assert EarliestMinimum(f, history[o], bestAt[o], pb[o], pbValue[o]);
        assert gb == history[o][bestAt[o]];
      }
    }
  }
}
