# SimpleMD in Dafny

A model of the SimpleMD molecular-dynamics kernel. A simulation owns a vector of particles, each with:

- a mass `m`;
- a position `pos`, a velocity `v`, a force `f` and the previous force `fOld`, one component per axis.

The model covers three parts of the kernel:

- **Pairwise forces.** `add_f_from` computes the gravity-like pull `s * (other.pos - self.pos)`, where `s = m1*m2 / (sqrt(r)*r)` and `r` is the squared distance. It adds the pull to the particle's own force. `include_forces` then subtracts the same vector from the other particle.
- **Force sweep.** `update_f` runs a triangular double loop over the index pairs `i < j`. It accumulates these contributions onto the forces already present and never resets them.
- **Velocity-Verlet time loop.** `run` calls `update_f` once. It then repeats `update_pos` (advance positions, snapshot `f` into `fOld`), `update_f` and `update_v` (kick velocities with `f + fOld`). It stops once the clock `t`, advanced by `delta_t` each time, reaches `t_end`.

Modules:

- **`Particles`** (particles.dfy) holds the `Particle` value type, its constructor, the pull and the per-particle operations.
  - Each operation that mutates a particle in place (`&mut self`) is a method on values. It returns the updated particle and keeps the source's loop over the axes.
  - Each method is proved equal to a specification function (`WithAddedForce`, `Advanced`, `Snapshot`, `Accelerated`).
- **`Dynamics`** (dynamics.dfy) holds the specification of the whole-collection passes:
  - `PosPass`, `VelPass` and `ForcePass`;
  - one loop iteration, `Step`, and the trajectory, `Iterate`;
  - the iteration count of `run`, `StepCount`.
  - It also holds the lemmas about these functions: the per-axis total force, the visiting order of the pairs, the net force gained, accumulation, termination, and the straight-line motion of a lone particle with no force.
- **`Simulations`** (simulation.dfy) models `Simulation<D>` of src/simulation.rs as a class.
  - Its `particles` field is reassigned by methods that keep the source's loops.
  - Each method is proved to produce exactly the corresponding `Dynamics` function of its old state.
  - The const generic `D` is a ghost dimension `dim`, and `Valid()` says every particle has `dim` components.
- **`Lib`** (lib.dfy) models the self-contained 3-D copy in src/lib.rs.
  - Its `update_pos` is written as one fused loop over the axes, unlike the per-particle calls of src/simulation.rs.
  - It is proved against the same `Dynamics` functions with `Dim = 3`.
- **`Scenarios`** (scenarios.dfy) restates the repository's unit tests over exact reals.
  - The tests of src/lib.rs:107-219 are the same scenarios as those of src/particle.rs and src/simulation.rs, and are covered by the same lemmas.

The square root is a parameter `sqrt: real -> real`. It is only assumed to be positive on positive arguments (`RootPositive`). Nothing in the model depends on its value.

## Model

| member | source | states |
|---|---|---|
| Particles.New | src/particle.rs:13-21 | stores `m`, `pos`, `v`, `f` verbatim and sets `fOld` equal to `f` |
| Particles.Plus | src/particle.rs:34 | component-wise sum of two equal-length force vectors |
| Particles.Minus | src/particle.rs:44 | component-wise difference of two equal-length force vectors |
| Particles.Strength | src/particle.rs:31 | for `r > 0`, the magnitude `mm / (sqrt(r)*r)` has the sign of `m1*m2` (zero exactly when the product is zero) |
| Particles.Pull | src/particle.rs:24-35 | the returned contribution has one component per axis |
| Particles.PullComponents | src/particle.rs:31-33 | component `d` of the contribution is `s * (pos2[d] - pos1[d])` with `s = m1*m2/(sqrt(r)*r)` and `r` the squared distance |
| Particles.WithAddedForce | src/particle.rs:34 | adds a vector into `f` axis by axis and keeps `m`, `pos`, `v` and `fOld` |
| Particles.WithSubtractedForce | src/particle.rs:43-45 | subtracts a vector from `f` axis by axis and keeps `m`, `pos`, `v` and `fOld` |
| Particles.AddFFrom | src/particle.rs:23-38 | returns exactly the pull of `other` on `self` (one component per axis) and the particle whose `f` grew by exactly that vector, all other fields unchanged; `other` is an input only |
| Particles.IncludeForces | src/particle.rs:41-46 | the first particle gains the pull `c`, the second loses the same `c`, so `p1.f[d] + p2.f[d]` is unchanged on every axis; no other field changes |
| Particles.Advanced | src/lib.rs:62-64 | `pos[d] + dt*(v[d] + a*f[d])` with `a = dt*(0.5/m)` on every axis; `m`, `v`, `f` and `fOld` unchanged |
| Particles.Snapshot | src/lib.rs:65 | `fOld` becomes a copy of `f`; every other field unchanged |
| Particles.Accelerated | src/lib.rs:72-75 | `v[d] + a*(f[d] + fOld[d])` with `a = dt*(0.5/m)` on every axis; `m`, `pos`, `f` and `fOld` unchanged |
| Particles.UpdatePos | src/lib.rs:62-64 | the axis loop produces exactly `Advanced` (the per-particle `update_pos` that src/simulation.rs:21 calls) |
| Particles.UpdateOldF | src/lib.rs:65 | the axis loop produces exactly `Snapshot` (the per-particle `update_old_f` that src/simulation.rs:22 calls) |
| Particles.UpdateV | src/lib.rs:72-75 | the axis loop produces exactly `Accelerated` (the per-particle `update_v` that src/simulation.rs:29 calls) |
| Particles.Square | src/particle.rs:29 | a squared coordinate difference is never negative |
| Particles.SumOfSquares | src/particle.rs:29-30 | the summed squares are never negative |
| Particles.SqDist | src/particle.rs:25-30 | the squared distance `r` is never negative |
| Particles.SumOfSquaresZero | src/particle.rs:29-30 | the sum of squares is zero if and only if every term is zero |
| Particles.SqDistZero | src/particle.rs:25-31 | `r` is zero if and only if the two positions are equal, so `r > 0`, which the division at line 31 needs, says exactly that the bodies do not coincide |
| Particles.SqDistSymmetric | src/particle.rs:25-30 | the squared distance is the same in both orders |
| Particles.PullAntisymmetric | src/particle.rs:25-33 | swapping the two particles negates every component of the contribution |
| Particles.PullAttracts | src/particle.rs:31-33 | for `m1*m2 > 0`, component `d` is positive exactly when the other particle lies ahead on axis `d`, negative exactly when it lies behind |
| Particles.SteadyForceKick | src/lib.rs:72-75 | when `fOld == f`, the velocity update adds exactly `dt/m * f[d]` on every axis |
| Dynamics.SeparatedDistinct | src/particle.rs:31 | `Separated` holds if and only if no two particles share a position |
| Dynamics.PosPass | src/simulation.rs:19-24 | the position pass keeps the particle count, the dimension and the masses |
| Dynamics.VelPass | src/simulation.rs:26-30 | the velocity pass keeps the particle count, the dimension and the masses |
| Dynamics.PosPassAt | src/simulation.rs:19-24 | particle `k` after the position pass has `pos[d] + dt*(v[d] + dt*(0.5/m)*f[d])`, `fOld == f`, and unchanged `m`, `v` and `f` |
| Dynamics.VelPassAt | src/simulation.rs:26-30 | particle `k` after the velocity pass has `v[d] + dt*(0.5/m)*(f[d] + fOld[d])` from its own fields only; `m`, `pos`, `f` and `fOld` unchanged |
| Dynamics.Pulls | src/simulation.rs:37 | the table of pairwise pulls has one component per axis, and entry `(a, b)` is the pull of particle `b` on particle `a` |
| Dynamics.Row | src/simulation.rs:36 | the inner loop visits `(i, lo), (i, lo+1), …, (i, hi-1)` in that order |
| Dynamics.Rows | src/simulation.rs:34-36 | the outer loop up to row `i` yields only pairs `a < b < n` with `a < i` |
| Dynamics.Pairs | src/simulation.rs:34-36 | the full visiting order contains only pairs `a < b < n` |
| Dynamics.SweepRowApplies | src/simulation.rs:36-38 | running the inner loop from `j` is applying `include_forces` to the pairs `(i, j), …, (i, n-1)` in order |
| Dynamics.SweptRowsApplies | src/simulation.rs:34-40 | running the outer loop over the first `i` rows is applying `include_forces` to `Rows(n, i)` in order |
| Dynamics.ApplyPairsFrame | src/simulation.rs:32-41 | any sequence of pair interactions changes forces only: count, masses, positions, velocities and old forces are kept |
| Dynamics.ForcePass | src/simulation.rs:32-41 | the force sweep changes only forces, keeps the dimension, and keeps particles apart and massive |
| Dynamics.ForcePassPairs | src/simulation.rs:32-41 | the force sweep is `include_forces` applied to the pairs of `Pairs(n)` in the loop's order, with pulls computed from the unchanged positions |
| Dynamics.RowsComplete | src/simulation.rs:34-36 | every pair `a < b < n` with `a < i` is among the first `i` rows |
| Dynamics.RowsIncreasing | src/simulation.rs:34-36 | the visiting order is strictly lexicographically increasing |
| Dynamics.PairsExactlyOnce | src/simulation.rs:34-36 | `(a, b)` is visited if and only if `a < b < n`, and no pair is visited twice |
| Dynamics.TotalForceReplace | src/simulation.rs:39 | replacing one particle changes the total force on an axis by exactly the difference in that particle's force |
| Dynamics.InteractKeepsTotal | src/particle.rs:41-46 | one `include_forces` keeps the sum of `f[d]` over all particles |
| Dynamics.ApplyPairsKeepsTotal | src/simulation.rs:34-40 | any sequence of pair interactions keeps the per-axis total force |
| Dynamics.ForcePassKeepsTotal | src/simulation.rs:32-41 | a whole force sweep keeps the sum over all particles of `f[d]`, for every axis `d` |
| Dynamics.FieldAntisymmetric | src/particle.rs:25-33 | the pull of `b` on `a` is minus the pull of `a` on `b`, on every axis (Newton's third law) |
| Dynamics.EffectAppend | src/simulation.rs:34-40 | the force a particle gains from two successive runs of pairs is the sum of the two |
| Dynamics.PairsEffect | src/simulation.rs:34-40 | over the full pair order, particle `k` gains exactly the sum of the pulls of all other particles on it |
| Dynamics.ApplyPairsEffect | src/simulation.rs:34-40 | after applying any ordered pair list, each particle's force is its old force plus its share of each visited pair |
| Dynamics.ForcePassNet | src/simulation.rs:32-41 | after the sweep, `f[d]` of particle `k` is its old `f[d]` plus the sum of the pulls of all other particles on axis `d`: contributions accumulate onto the existing force |
| Dynamics.ForcePassTwice | src/simulation.rs:32-41 | forces are never reset: two sweeps from the same positions add the net force twice |
| Dynamics.ForcePassTwo | src/simulation.rs:121-163 | for two particles the sweep yields `f1 + c` and `f2 - c`, with `c` the single pull of the second on the first |
| Dynamics.ForcePassOne | src/simulation.rs:34-40 | a lone particle is left unchanged by the sweep |
| Dynamics.Step | src/simulation.rs:48-50 | one loop iteration (positions, forces, velocities) keeps the count, the dimension and the masses |
| Dynamics.Iterate | src/simulation.rs:47-52 | `k` loop iterations keep the count, the dimension and the masses |
| Dynamics.IterateNext | src/simulation.rs:47-52 | iteration `k+1` is one more `Step` applied after iteration `k` |
| Dynamics.LoneStaysApart | src/simulation.rs:47-52 | a lone particle's trajectory is defined for any number of steps |
| Dynamics.LoneStep | src/simulation.rs:48-50 | one loop iteration on a lone particle moves it to `pos[d] + dt*(v[d] + dt*(0.5/m)*f[d])`, keeps `f`, sets `fOld` to `f`, and gives it velocity `v[d] + dt/m*f[d]` |
| Dynamics.DriftTwice | src/simulation.rs:47-52 | coasting for `s` and then for `t` is coasting for `s + t` |
| Dynamics.FreeStep | src/simulation.rs:48-50 | with zero force and zero previous force, one iteration moves a lone particle by `dt*v` and keeps its velocity and forces |
| Dynamics.FreeParticle | src/simulation.rs:47-52 | a force-free lone particle moves in a straight line at constant velocity: after `k` iterations its position is `pos + (k*dt)*v`, with velocity and forces unchanged |
| Dynamics.FreeRun | src/simulation.rs:43-53 | for a force-free lone particle, the initial force sweep changes nothing and `n` iterations leave it coasted for `n*dt`; with `Run`'s postcondition (`n = StepCount(t_end, delta_t)`) this is the final state of `run` |
| Dynamics.ElapsedProduct | src/simulation.rs:44-51 | after `k` additions of `delta_t` to `t = 0`, the clock reads `k * delta_t` |
| Dynamics.StepCount | src/simulation.rs:47-51 | the iteration count `n` satisfies `t_end <= n*delta_t` and, when `n > 0`, `(n-1)*delta_t < t_end` |
| Dynamics.StepCountLeast | src/simulation.rs:47-51 | for `delta_t > 0`, the clock after `k` steps reaches `t_end` if and only if `k >= StepCount`, so `StepCount` is the least such `k` |
| Dynamics.Clock | src/simulation.rs:47 | the loop guard `t < t_end` holds at iteration `k` exactly while `k` is below the iteration count |
| Simulations.Simulation.constructor | src/simulation.rs:11-17 | stores `particles`, `delta_t` and `t_end` unchanged |
| Simulations.Simulation.UpdatePos | src/simulation.rs:19-24 | the particle loop leaves `particles` equal to `PosPass` of the old particles |
| Simulations.Simulation.UpdateV | src/simulation.rs:26-30 | the particle loop leaves `particles` equal to `VelPass` of the old particles |
| Simulations.Simulation.UpdateF | src/simulation.rs:32-41 | the double loop, with the clone of particle `i` written back after each row, leaves `particles` equal to `ForcePass` of the old particles |
| Simulations.Simulation.UpdateRow | src/simulation.rs:35-39 | one pass of the inner loop on row `i` is the sweep of that row over the unchanged positions |
| Simulations.Simulation.TimeStep | src/simulation.rs:48-50 | `update_pos`, then `update_f`, then `update_v` is exactly `Step` of the old particles |
| Simulations.Simulation.Run | src/simulation.rs:43-53 | `run` ends with the particles equal to `StepCount(t_end, delta_t)` iterations of `Step`, started after one initial `ForcePass` |
| Dynamics.PairApart | src/simulation.rs:37 | inside the sweep, the two particles passed to `include_forces` have the same dimension and distinct positions |
| Dynamics.RowStep | src/simulation.rs:37 | one `include_forces` on the clone and on `particles[j]` advances the row sweep by one pair |
| Dynamics.WriteBackCommutes | src/simulation.rs:35-39 | working on a clone of `particles[i]` and writing it back gives the same vector as updating in place |
| Lib.AdvanceAndSnapshot | src/lib.rs:62-66 | the fused axis loop produces exactly `Snapshot(Advanced(p))`: new positions, and `fOld` set to `f` |
| Lib.Simulation.constructor | src/lib.rs:12-16 | stores `particles`, `delta_t` and `t_end` unchanged |
| Lib.Simulation.UpdatePos | src/lib.rs:60-68 | the particle loop leaves `particles` equal to `PosPass` of the old particles in three dimensions |
| Lib.Simulation.UpdateV | src/lib.rs:70-77 | the particle loop leaves `particles` equal to `VelPass` of the old particles |
| Lib.Simulation.UpdateF | src/lib.rs:79-88 | the double loop leaves `particles` equal to `ForcePass` of the old particles |
| Lib.Simulation.UpdateRow | src/lib.rs:82-86 | one pass of the inner loop on row `i` is the sweep of that row |
| Lib.Simulation.TimeStep | src/lib.rs:95-97 | `update_pos`, then `update_f`, then `update_v` is exactly `Step` of the old particles |
| Lib.Simulation.Run | src/lib.rs:90-100 | `run` ends with the particles equal to `StepCount(t_end, delta_t)` iterations of `Step`, after one initial `ForcePass` |
| Scenarios.CreateParticle | src/particle.rs:53-61 | the test particle stores the mass, position, velocity and force it was built with |
| Scenarios.UpdatePosition | src/simulation.rs:73-95 | the test particle moves to `pos[d] + dt*(v[d] + dt*0.5/m*f[d])`, that is `[25/12, 50/12, 75/12]` |
| Scenarios.UpdateVelocity | src/simulation.rs:97-119 | the test particle's velocity becomes `v[d] + dt*0.5/m*(f[d] + f[d])`, that is `[7/6, 14/6, 21/6]` |
| Scenarios.UpdateForce | src/simulation.rs:121-163 | the test pair ends with `f1 + c` and `f2 - c`, where `c = [0, -2s, 2s]` and `s = 36/(sqrt(8)*8)` |
| Scenarios.TestDistance | src/simulation.rs:123-133 | the squared distance of the two test particles is 8 |
| Scenarios.RunStepCount | src/simulation.rs:44-52 | with `t_end = 10` and `delta_t = 1` the loop of `run` executes exactly 10 times |

## Left out

- Floating point: `Real` is modelled as Dafny's exact `real`. IEEE rounding, overflow, infinities and NaN are not modelled, so neither are the tests' exact float comparisons nor the order of float operations.
- `sqrt` and `powi`: the square root is a parameter that is only positive on positive arguments, and `powi(2)` is a product. The value of the force magnitude beyond its sign is not modelled.
- Coincident particles and zero mass: the source divides by `sqrt(r)*r` and by `m`. The model requires `r > 0` (`Separated`, and `StaysApart` along the whole trajectory for `run`) and `m != 0` (`Massive`). The infinities and NaNs the source produces in those cases are not modelled.
- Simulations.Simulation.Run: the case `delta_t <= 0 < t_end` is excluded by its precondition, because that loop never terminates.
- Lib.Simulation.Run: the same exclusion as `Simulations.Simulation.Run`.
- The clock is modelled as exact repeated addition (`Elapsed`). An extra iteration that float rounding of `t` can cause is not modelled.
- src/lib.rs:18-57 (`Particle::new`, `add_f_from`, `include_forces` of the 3-D copy): this is the same code as src/particle.rs:13-46. It is modelled once, by `Particles.New`, `Particles.AddFFrom` and `Particles.IncludeForces`, and used by both simulation classes.
- The per-particle `update_pos`, `update_old_f` and `update_v` that src/simulation.rs:21-29 calls are not defined in src/particle.rs. Their bodies are modelled from the loops of src/lib.rs:62-65 and 72-75.
- In place versus by value: a `Particle` is a value (the source derives `Clone` and stores particles by value in a `Vec`). A `&mut` particle operation is modelled as a method that returns the updated particle. The clone of particle `i` in `update_f` is a value copy that is written back, as in the source.
- `Simulations.Simulation.UpdateRow`, `Simulations.Simulation.TimeStep`, `Lib.Simulation.UpdateRow`, `Lib.Simulation.TimeStep` and `Lib.AdvanceAndSnapshot` are loop bodies of the source split out as methods. The source has no functions by these names.
- The const generic `D` is a ghost dimension checked by `Valid()`, not a type parameter. src/particle.rs declares fixed 3-element arrays while src/simulation.rs uses `Particle<D>`, so the model works for any uniform dimension.
- Particles.Pull: its own contract states only the length. The components are stated by `Particles.PullComponents`.
- Dynamics.PosPass: its own contract states only count, dimension and masses. The per-particle formula is `Dynamics.PosPassAt`.
- Dynamics.VelPass: its own contract states only count, dimension and masses. The per-particle formula is `Dynamics.VelPassAt`.
- Dynamics.Step: its own contract states only count, dimension and masses. What one iteration does to each particle is stated by `Dynamics.PosPassAt`, `Dynamics.ForcePassNet` and `Dynamics.VelPassAt`, and for a lone particle by `Dynamics.LoneStep`.
- Dynamics.Iterate: its own contract states only count, dimension and masses. The content is stated by `Dynamics.IterateNext`, and for a force-free lone particle by `Dynamics.FreeParticle`.
- src/bin/main.rs: it only sets up a fixed two-body scenario and prints, so it is not part of this model.
- The `definitions` module: it only aliases `Real`, so it is not part of this model.
- Numerical accuracy and stability of velocity-Verlet with respect to `delta_t` are not modelled.
