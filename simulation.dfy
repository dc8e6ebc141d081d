/** The simulation of src/simulation.rs: a vector of particles, a time step
    and an end time, advanced by velocity Verlet. Its methods change the
    particle vector in place and are proved to compute the sweeps that
    module Dynamics defines on values. */
module Simulations {
  import opened Particles
  import opened Dynamics

  class Simulation {
    var particles: seq<Particle>
    const deltaT: real
    const tEnd: real
    /** The const generic `D` of `Simulation<D>`. */
    ghost const dim: nat

    /** Every particle has `dim` components per vector, which the source's
        array type `[Real; D]` guarantees. */
    ghost predicate Valid()
      reads this
    {
      Uniform(particles, dim)
    }

    /** `Simulation::new`: stores its three arguments. */
    constructor (particles: seq<Particle>, deltaT: real, tEnd: real, ghost dim: nat)
      requires Uniform(particles, dim)
      ensures Valid()
      ensures this.particles == particles && this.deltaT == deltaT && this.tEnd == tEnd && this.dim == dim
    {
      this.particles := particles;
      this.deltaT := deltaT;
      this.tEnd := tEnd;
      this.dim := dim;
    }

    /** `update_pos`: each particle advances its position and then snapshots
        its force. */
    method UpdatePos()
      requires Valid() && Massive(particles)
      modifies this
      ensures Valid() && Massive(particles)
      ensures particles == PosPass(old(particles), dim, deltaT)
    {
      ghost var start := particles;
      var i := 0;
      while i < |particles|
        invariant 0 <= i <= |particles| == |start|
        invariant forall k :: 0 <= k < i ==> particles[k] == Snapshot(Advanced(start[k], deltaT))
        invariant forall k :: i <= k < |particles| ==> particles[k] == start[k]
      {
        var particle := Particles.UpdatePos(particles[i], deltaT);
        particle := UpdateOldF(particle);
        particles := particles[i := particle];
        i := i + 1;
      }
      assert particles == PosPass(start, dim, deltaT);
    }

    /** `update_v`: each particle advances its velocity. */
    method UpdateV()
      requires Valid() && Massive(particles)
      modifies this
      ensures Valid() && Massive(particles)
      ensures particles == VelPass(old(particles), dim, deltaT)
    {
      ghost var start := particles;
      var i := 0;
      while i < |particles|
        invariant 0 <= i <= |particles| == |start|
        invariant forall k :: 0 <= k < i ==> particles[k] == Accelerated(start[k], deltaT)
        invariant forall k :: i <= k < |particles| ==> particles[k] == start[k]
      {
        var particle := Particles.UpdateV(particles[i], deltaT);
        particles := particles[i := particle];
        i := i + 1;
      }
      assert particles == VelPass(start, dim, deltaT);
    }

    /** `update_f`: row by row, a copy of particle `i` interacts with every
        later particle `j`, which is updated in place; the copy is written
        back when the row is done. The square root is a parameter. */
    method UpdateF(sqrt: real -> real)
      requires Valid() && Separated(particles, dim) && RootPositive(sqrt)
      modifies this
      ensures Valid() && Separated(particles, dim)
      ensures particles == ForcePass(old(particles), dim, sqrt)
    {
      ghost var start := particles;
      ghost var act := Interaction(Pulls(start, dim, sqrt));
      var l := |particles|;
      for i := 0 to l
        invariant Valid() && |particles| == l && SameButForces(start, particles)
        invariant particles == SweptRows(start, act, l, i)
      {
        UpdateRow(i, sqrt, start);
      }
    }

    /** One pass of the outer loop of `update_f`: the copy of particle `i`
        interacts with every later particle, which is updated in place, and
        is written back at the end. `start` is the vector the force sweep
        started from: no position has changed since. */
    method UpdateRow(i: nat, sqrt: real -> real, ghost start: seq<Particle>)
      requires Valid() && i < |particles| == |start| && RootPositive(sqrt)
      requires Uniform(start, dim) && Separated(start, dim) && SameButForces(start, particles)
      modifies this
      ensures Valid() && SameButForces(start, particles)
      ensures particles == SweepRow(old(particles), Interaction(Pulls(start, dim, sqrt)), |particles|, i, i + 1)
    {
      ghost var act := Interaction(Pulls(start, dim, sqrt));
      ghost var row := particles;
      var particle := particles[i];
      assert particles[i := particle] == row;
      for j := i + 1 to |particles|
        invariant |particles| == |row| && Uniform(particles[i := particle], dim)
        invariant SameButForces(start, particles[i := particle])
        invariant SweepRow(particles[i := particle], act, |row|, i, j) == SweepRow(row, act, |row|, i, i + 1)
      {
        PairApart(start, dim, i, j, particles[i := particle], particle, particles[j]);
        var q1, q2 := IncludeForces(particle, particles[j], sqrt);
        RowStep(start, dim, i, j, sqrt, particles[i := particle], particle, particles[j], q1, q2);
        WriteBackCommutes(particles, i, j, particle, q1, q2);
        particle := q1;
        particles := particles[j := q2];
      }
      particles := particles[i := particle];
    }

    /** The body of the main loop of `run`: the position sweep, the force
        sweep at the new positions, the velocity sweep. */
    method TimeStep(sqrt: real -> real)
      requires Valid() && Massive(particles) && RootPositive(sqrt)
      requires Separated(PosPass(particles, dim, deltaT), dim)
      modifies this
      ensures Valid() && Massive(particles)
      ensures particles == Step(old(particles), dim, deltaT, sqrt)
    {
      UpdatePos();
      UpdateF(sqrt);
      UpdateV();
    }

    /** `run`: one force sweep, then steps of `deltaT` until the time, which
        starts at zero, reaches `tEnd`. The loop runs `StepCount(tEnd,
        deltaT)` times. Every force sweep divides by the distance of each
        pair, so the trajectory must keep the particles apart; a step that
        never makes progress towards `tEnd` would loop forever. */
    method Run(sqrt: real -> real)
      requires Valid() && Massive(particles) && Separated(particles, dim) && RootPositive(sqrt)
      requires 0.0 < deltaT || tEnd <= 0.0
      requires StaysApart(ForcePass(particles, dim, sqrt), dim, deltaT, sqrt, StepCount(tEnd, deltaT))
      modifies this
      ensures Valid() && Massive(particles)
      ensures particles == Iterate(ForcePass(old(particles), dim, sqrt), dim, deltaT, sqrt, StepCount(tEnd, deltaT))
    {
      var t := 0.0;
      UpdateF(sqrt);
      ghost var first := particles;
      ghost var n := StepCount(tEnd, deltaT);
      ghost var k: nat := 0;
      while t < tEnd
        invariant Valid() && Massive(particles)
        invariant k <= n && t == Elapsed(k, deltaT)
        invariant StaysApart(first, dim, deltaT, sqrt, k)
        invariant particles == Iterate(first, dim, deltaT, sqrt, k)
        decreases n - k
      {
        Clock(tEnd, deltaT, k);
        Advance(first, dim, deltaT, sqrt, k, n);
        TimeStep(sqrt);
        t := t + deltaT;
        k := k + 1;
      }
      Clock(tEnd, deltaT, k);
    }
  }
}
