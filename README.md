# Particle swarm optimisation in the plane

This project models the `ParticleSwarm` class of a small particle-swarm optimiser
(`src/utils/particle_swarm.py`) and proves properties of the model in Dafny.

The swarm minimises a target function `f(x, y)`. It holds N particles in the plane. Each
particle has:

- a position (`particles_x`);
- a velocity (`particles_v`);
- a personal-best position (`particles_pb`) and the value of `f` there (`particles_pb_target`).

The whole swarm also shares a global-best position and value (`particles_gb`,
`particles_gb_target`) and an inertia weight `w`.

Construction seeds the particles in one of two ways:

- **Random seeding** draws each coordinate uniformly from the axis bounds.
- **Grid seeding** first places every particle at the centre of the box. It then overwrites
  the first k² particles, where k = floor(sqrt(N)), with the points of a k × k grid. The grid
  is built by `linspace` on each axis, with x in the outer loop and y in the inner loop.

Construction also sets the personal bests to random points scaled by `v_max` with value
+infinity, and the global best to the origin with value +infinity.

A run (`simulate`) performs `n_iterations` iterations. Each iteration does the following, in
order:

1. It evaluates `f` at every position.
2. It replaces a personal best only when the new value is strictly below it.
3. It takes the first lowest personal best (`np.argmin`) as the global best, when that is
   strictly below the current global best.
4. It sets the inertia weight to `w_max - t * (w_max - w_min) / n_iterations`.
5. It sets each velocity to `w v + c1 r1 (pb - x) + c2 r2 (gb - x)`. The two draws `r1` and
   `r2` are shared by the whole swarm.
6. Under the velocity cap, it re-draws every component outside `[-v_max, v_max]` as a fresh
   uniform draw times `±v_max`. A component is re-drawn, not saturated to the bound.
7. It moves each particle by its velocity.
8. Under the position cap, it saturates each coordinate to its axis bounds.

The iteration then yields the positions.

The model has four files:

- `values.dfy` (module `Values`) defines plane vectors, axis intervals, and field values
  extended with +infinity (`Ext`). It also holds the small arithmetic facts the other proofs
  use.
- `seeding.dfy` (module `Seeding`) defines integer square root, `linspace`, the grid layout,
  uniform placement, and the seeding loops over the position buffers.
- `update_rules.dfy` (module `UpdateRules`) defines the per-particle update rules: the
  personal-best replacement, the lowest-index argmin, the inertia schedule, the velocity
  formula, the velocity re-draw and the position clip. It also defines the ghost notion
  "earliest minimum of the positions seen", which describes a personal best.
- `particle_swarm.dfy` (module `Swarm`) defines the class `ParticleSwarm`. Its `N × 2` buffers
  are arrays of `Vec` and are updated in place. Each phase of an iteration is a method with a
  loop over the particles. `Step` runs one iteration by calling `UpdateBests` (evaluation,
  personal bests, global best) and then `Move` (weight, velocities, positions); each of the
  two calls the phase methods in the code's order.

The class invariant `Valid()` records what the code maintains:

- From the first iteration on, every personal best is the first position, among those the
  particle has been evaluated at, where `f` took its least value. Before it, the value is
  +infinity and the position is the seeded `v_max`·draw, a point never evaluated.
- The global-best value is at most every personal best. Before the first iteration the
  global best is the origin with value +infinity; from then on it is a copy of one of the
  personal bests, with its value.
- With ordered bounds, all particles are inside the box after seeding, and stay inside it
  under the position cap.
- After an iteration under the velocity cap, every velocity component is within
  `[-v_max, v_max]`.

Random draws are explicit parameters:

- a unit draw in `[0, 1)` per seeded coordinate (random seeding only; grid seeding draws
  nothing) and per personal-best coordinate;
- per iteration, `r1`, `r2` and one unit draw per velocity component for the re-draws.

The target function is a parameter `f: (real, real) -> real`.

Where the code and its comments disagree, the model follows the code:

- **Initial velocities.** The velocity initialisation assigns to a misspelled attribute
  (`particle_v`, line 94). `particles_v` therefore keeps the contents `np.empty` gave it. The
  model allocates the velocity array and never writes it, so nothing is known about the
  initial velocities. The docstring says they are set randomly.
- **Grid with k = 1.** With k = 1, `linspace(lo, hi, 1)` is `[lo]`. So with one to three
  particles the first particle sits at the lower corner of the box, not at its centre
  (`SmallSwarmGrid`).
- **Global best.** The global best is assigned a row of `particles_pb`, which is a numpy view
  rather than a copy. The model copies the row. This makes no observable difference: if
  that row's personal best improves later, its value falls below the global-best value, so
  the same iteration replaces the global best (`UpdateGlobalBest`).

## Model

| member | source | states |
|---|---|---|
| Seeding.Isqrt | src/utils/particle_swarm.py:83 | the grid side k satisfies k² ≤ N < (k+1)², i.e. it is floor(sqrt(N)) |
| Seeding.IsqrtOfSquare | src/utils/particle_swarm.py:83 | for N = k² the grid side is exactly k, so every particle takes a grid cell |
| Seeding.Linspace | src/utils/particle_swarm.py:88-89 | element m of linspace(lo, hi, k) lies in the interval, the first is lo, the last (k ≥ 2) is hi |
| Seeding.LinspaceStrictlyIncreasing | src/utils/particle_swarm.py:88-89 | on an interval with lo < hi the linspace values strictly increase with the index |
| Seeding.SeatOnGrid | src/utils/particle_swarm.py:80-91 | the seat of a row on a grid of side k lies in the box when the bounds are ordered |
| Seeding.GridSeat | src/utils/particle_swarm.py:80-91 | under grid seeding every particle is seated inside the (ordered) box |
| Seeding.GridLayout | src/utils/particle_swarm.py:85-91 | row i·k + j (x outer, y inner) holds (linspace(x)[i], linspace(y)[j]) and lies within the first k² rows |
| Seeding.GridCellsDistinct | src/utils/particle_swarm.py:85-91 | on a non-degenerate box two different rows of the k × k grid get different points |
| Seeding.GridSeatsDistinct | src/utils/particle_swarm.py:80-91 | with N = k² particles and a non-degenerate box, grid seeding puts no two particles on the same point |
| Seeding.SmallSwarmGrid | src/utils/particle_swarm.py:80-91 | with 1 to 3 particles particle 0 sits at (x_lo, y_lo) and every other particle at the centre of the box |
| Seeding.Uniform | src/utils/particle_swarm.py:75-76 | lo + (hi − lo)·u for a unit draw u lies in [lo, hi], and below hi when lo < hi |
| Seeding.SeedUniform | src/utils/particle_swarm.py:74-76 | random seeding sets every row to the uniform images of its draws and places all rows in the box |
| Seeding.Fill | src/utils/particle_swarm.py:80 | every row is set to the given point; SeedGrid passes it the centre of the box (Midpoint) |
| Seeding.Midpoint | src/utils/particle_swarm.py:80 | the centre `sum(bounds)/2` of the box is equidistant from both bounds on each axis and lies in the box when the bounds are ordered |
| Seeding.FillGridLine | src/utils/particle_swarm.py:85-91 | the k rows of grid line i are set to their grid seats and no other row changes |
| Seeding.SeedGrid | src/utils/particle_swarm.py:77-91 | grid seeding sets row r to GridSeat(N, r) for every r |
| Seeding.SeedScaled | src/utils/particle_swarm.py:97 | every personal-best position is its unit draw scaled by v_max, so with v_max > 0 both coordinates lie in [0, v_max) |
| UpdateRules.Improves | src/utils/particle_swarm.py:124 | the mask: a fresh value replaces a best exactly when the best is not at most it, so a tie keeps the old best and an infinite best is always replaced |
| UpdateRules.NewBest | src/utils/particle_swarm.py:124-127 | the new personal-best value is at most the old best and the fresh value, is one of the two, and differs from the old best exactly when the fresh value is strictly below it |
| UpdateRules.EarliestMinimumExtends | src/utils/particle_swarm.py:123-128 | the strict replacement keeps a personal best equal to the first position with the least value over all evaluations |
| UpdateRules.LowestMinimizer | src/utils/particle_swarm.py:131 | the index is in range, its value is at most every value and strictly below every earlier one (the first minimum) |
| UpdateRules.ArgMin | src/utils/particle_swarm.py:131 | the argmin scan returns the lowest-index minimiser of the personal-best values |
| UpdateRules.Inertia | src/utils/particle_swarm.py:142-144 | the weight of iteration t ≤ n lies in [w_min, w_max], equals w_min at t = n and is below w_max from t = 1 when w_min < w_max |
| UpdateRules.InertiaNonIncreasing | src/utils/particle_swarm.py:142-144 | the weight never rises from one iteration to a later one |
| UpdateRules.Velocity | src/utils/particle_swarm.py:147-155 | the rule w·v + c1·r1·(pb − x) + c2·r2·(gb − x) with one r1 and one r2 for the swarm; a particle at its personal and the global best keeps only w·v, whatever r1 and r2 are |
| UpdateRules.Redraw | src/utils/particle_swarm.py:158-169 | a component in [−v_max, v_max] is kept; above v_max it becomes r·v_max in [0, v_max); below −v_max it becomes −r·v_max in (−v_max, 0]; the result is within the cap |
| UpdateRules.CapVelocity | src/utils/particle_swarm.py:158-169 | the capped velocity is within the cap on both axes and a velocity already within it is unchanged |
| UpdateRules.Clip | src/utils/particle_swarm.py:176-181 | a clipped coordinate lies in [lo, hi], is unchanged when inside, becomes hi above hi and lo below lo |
| UpdateRules.ClipToBox | src/utils/particle_swarm.py:175-188 | a clipped position lies in the box and a position inside the box is unchanged |
| Swarm.ParticleSwarm.constructor | src/utils/particle_swarm.py:65-102 | the new swarm satisfies the invariant, holds the configuration, seeds positions by draws or the grid, sets personal bests to v_max·draw with value +inf, global best (0, 0) with value +inf, and w = w_max |
| Swarm.ParticleSwarm.SampleIteration | src/utils/particle_swarm.py:104-109 | returns the current positions, which are in the box after seeding and under the position cap |
| Swarm.ParticleSwarm.UpdatePersonalBests | src/utils/particle_swarm.py:118-128 | each personal-best value becomes NewBest of the field at the position, and the personal-best position becomes the current position exactly when the value strictly improved |
| Swarm.ParticleSwarm.RecordEvaluations | src/utils/particle_swarm.py:118-128 | each particle's evaluation history grows by its current position and every personal best is still the earliest minimum of the history |
| Swarm.ParticleSwarm.UpdateGlobalBest | src/utils/particle_swarm.py:130-139 | the first lowest personal best replaces the global best exactly when strictly below it; afterwards the global best is a copy of some personal best, at most all of them, and never higher than before |
| Swarm.ParticleSwarm.UpdateBests | src/utils/particle_swarm.py:118-139 | the bests invariant is kept, every particle was evaluated at its position once more, neither a personal-best value nor the global-best value rises, and the new bests are exactly those of UpdatePersonalBests and UpdateGlobalBest (BestsUpdatedFrom: strict per-particle replacement, then the first lowest personal best replaces the global best only when strictly below it, so a tie keeps the old global best) |
| Swarm.ParticleSwarm.NextVelocity | src/utils/particle_swarm.py:146-169 | under the cap the new velocity is within [−v_max, v_max]; without the cap, or when the rule's velocity is already within it, it is the rule's velocity |
| Swarm.ParticleSwarm.NextPosition | src/utils/particle_swarm.py:171-188 | under the position cap the new position is in the box; without it, or when the moved position is inside, it is the old position plus the velocity |
| Swarm.ParticleSwarm.UpdateVelocities | src/utils/particle_swarm.py:146-169 | every velocity becomes NextVelocity of the old velocity, position, personal best and global best |
| Swarm.ParticleSwarm.MovePositions | src/utils/particle_swarm.py:171-188 | every position becomes NextPosition of the old position and the new velocity |
| Swarm.ParticleSwarm.Move | src/utils/particle_swarm.py:141-188 | the weight becomes Inertia(t); every velocity becomes NextVelocity of the old velocity and position with the shared r1, r2 and its own re-draw, and every position becomes NextPosition of the old position and the new velocity (MovedFrom); the box and cap invariants hold and the bests are untouched |
| Swarm.ParticleSwarm.Step | src/utils/particle_swarm.py:116-190 | one iteration keeps the invariant, evaluates every particle once at its old position, never raises a best value, and (IteratedFrom) updates the bests as BestsUpdatedFrom of the old positions and bests and moves the particles as MovedFrom of the old positions and velocities; it sets w to Inertia(t) and yields the new positions |
| Swarm.ParticleSwarm.StepAndYield | src/utils/particle_swarm.py:116-190 | one iteration keeps the invariant, sets w to Inertia(t), gives the exact new bests, velocities and positions (IteratedFrom, as for Step), appends the new positions to the yielded snapshots and extends what the run has done (RunFrom: no best value rises, one more evaluation per particle, the previous last snapshot is where this iteration evaluated the field) |
| Swarm.ParticleSwarm.Simulate | src/utils/particle_swarm.py:111-190 | a run yields n_iterations snapshots of N positions each, all inside the box under the position cap; it keeps the invariant, raises no best value, evaluates every particle n_iterations more times, each snapshot but the last is where the next iteration evaluates the field, the last is the final positions, and w ends at w_min (RunFrom) |
| Swarm.EvaluatedNextStep | src/utils/particle_swarm.py:116-123 | the positions yielded by one iteration are the positions the next iteration evaluates, so after an iteration every snapshot but the last is in the evaluation history |
| Swarm.ParticleSwarm.GlobalBestIsMinimum | src/utils/particle_swarm.py:123-139 | the global-best value is at most f at every position any particle has been evaluated at, and after an iteration it is f(gb) with gb one of those positions |

## Left out

- Floating point: coordinates, weights and field values are mathematical reals. Rounding,
  overflow, NaN and infinite field values are not modelled. `np.Inf` is modelled only as the
  initial best value.
- The random generator: every draw is a parameter in `[0, 1)`. The model does not capture
  how many values numpy draws or in which order. This matters for the re-draws of the
  velocity cap, where numpy draws only as many values as there are overshooting components.
- The target function is an arbitrary total function, applied particle by particle. The
  model assumes the vectorised call is element-wise.
- Swarm.ParticleSwarm.constructor: requires at least one particle. With N = 0 the first
  iteration's `np.argmin` raises on an empty array. The model does not represent that
  failure.
- The configuration is not validated by the code. Bounds, `w_min ≤ w_max` and `v_max > 0`
  appear only as hypotheses of the properties that need them (box membership, the weight
  range, the velocity cap). They are not preconditions.
- Swarm.ParticleSwarm.Step: the iteration number is a parameter, not a counter the object
  holds. The generator always numbers its iterations 1, 2, … from the start of a run; the
  model lets a caller pass any iteration in 1..n_iterations. Simulate passes them in the
  generator's order.
- Swarm.ParticleSwarm.Simulate: states per iteration only what RunFrom records (best values,
  evaluations, snapshots). The exact velocity, position and best updates of each iteration
  are stated by Step and StepAndYield; Simulate calls StepAndYield, which calls Step, once
  per iteration, and does not restate them for the whole run.
- Swarm.ParticleSwarm.constructor: `n_iterations` is a natural number. The code accepts a
  negative value, for which `range(1, n_iterations + 1)` is empty and `simulate` yields
  nothing, as the model's run does for zero iterations.
- Arrays are updated in place. The source rebinds `particles_x` and `particles_v` to fresh
  arrays each iteration. Snapshots are returned as values, so aliasing between yielded
  arrays and the live buffer is not modelled. Likewise, `sample_iteration` returns a live
  reference and the model returns a copy.
- The scratch attribute holding the current field values (`particle_x_target`) is a local
  value in the model.
- Generator laziness: `simulate` is modelled as an eager run that returns all snapshots.
  Consuming only part of the generator is not modelled. A second run on the same object is
  allowed and restarts the iteration counter as the code does.
- `src/main.py`, `src/utils/matplotlib_animator.py` and `src/utils/target_function.py` (the
  driver, the plotting and the sample target) are not part of this model.
