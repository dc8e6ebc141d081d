/** The self-contained 3-D copy of the simulation in src/lib.rs. Its
    particle operations are the ones of src/particle.rs with three axes
    (module Particles); its position sweep updates position and previous
    force of a particle in one loop over the axes. Every method is proved
    against the same sweeps of module Dynamics as the generic simulation. */
module Lib {
  import opened Particles
  import opened Dynamics

  /** The number of axes of src/lib.rs: every vector is a `[Real; 3]`. */
  const Dim: nat := 3

  /** The body of the loop of `update_pos` for one particle: one pass over
      the axes moves the position and copies the force into the previous
      force. */
  method AdvanceAndSnapshot(p: Particle, dt: real) returns (q: Particle)
    requires p.m != 0.0 && HasDim(p, |p.pos|)
    ensures q == Snapshot(Advanced(p, dt))
  {
    var a := dt * (0.5 / p.m);
    var pos, fOld := p.pos, p.fOld;
    for d := 0 to |p.pos|
      invariant |pos| == |p.pos| && |fOld| == |p.fOld|
      invariant forall k :: 0 <= k < d ==> pos[k] == p.pos[k] + dt * (p.v[k] + a * p.f[k])
      invariant forall k :: 0 <= k < d ==> fOld[k] == p.f[k]
      invariant forall k :: d <= k < |p.pos| ==> pos[k] == p.pos[k] && fOld[k] == p.fOld[k]
    {
      pos := pos[d := pos[d] + dt * (p.v[d] + a * p.f[d])];
      fOld := fOld[d := p.f[d]];
    }
    q := p.(pos := pos, fOld := fOld);
    assert forall k :: 0 <= k < |pos| ==> pos[k] == Advanced(p, dt).pos[k];
    assert pos == Advanced(p, dt).pos;
    assert fOld == p.f;
  }

  class Simulation {
    var particles: seq<Particle>
    const deltaT: real
    const tEnd: real

    /** Every particle has three components per vector. */
    ghost predicate Valid()
      reads this
    {
      Uniform(particles, Dim)
    }

    /** The struct literal the tests of src/lib.rs build. */
    constructor (particles: seq<Particle>, deltaT: real, tEnd: real)
      requires Uniform(particles, Dim)
      ensures Valid()
      ensures this.particles == particles && this.deltaT == deltaT && this.tEnd == tEnd
    {
      this.particles := particles;
      this.deltaT := deltaT;
      this.tEnd := tEnd;
    }

    /** `update_pos`: one loop over the axes of each particle moves its
        position and snapshots its force. */
    method UpdatePos()
      requires Valid() && Massive(particles)
      modifies this
      ensures Valid() && Massive(particles)
      ensures particles == PosPass(old(particles), Dim, deltaT)
    {
      ghost var start := particles;
      var i := 0;
      while i < |particles|
        invariant 0 <= i <= |particles| == |start|
        invariant forall k :: 0 <= k < i ==> particles[k] == Snapshot(Advanced(start[k], deltaT))
        invariant forall k :: i <= k < |particles| ==> particles[k] == start[k]
      {
        var particle := AdvanceAndSnapshot(particles[i], deltaT);
        particles := particles[i := particle];
        i := i + 1;
      }
      assert particles == PosPass(start, Dim, deltaT);
    }

    /** `update_v`: each particle advances its velocity. */
    method UpdateV()
      requires Valid() && Massive(particles)
      modifies this
      ensures Valid() && Massive(particles)
      ensures particles == VelPass(old(particles), Dim, deltaT)
    {
      ghost var start := particles;
      var i := 0;
      while i < |particles|
        invariant 0 <= i <= |particles| == |start|
        invariant forall k :: 0 <= k < i ==> particles[k] == Accelerated(start[k], deltaT)
        invariant forall k :: i <= k < |particles| ==> particles[k] == start[k]
      {
        var particle := Particles.UpdateV(particles[i], deltaT);
        particles := particles[i := particle];
        i := i + 1;
      }
      assert particles == VelPass(start, Dim, deltaT);
    }

    /** `update_f`: row by row, a copy of particle `i` interacts with every
        later particle `j`, which is updated in place; the copy is written
        back when the row is done. The square root is a parameter. */
    method UpdateF(sqrt: real -> real)
      requires Valid() && Separated(particles, Dim) && RootPositive(sqrt)
      modifies this
      ensures Valid() && Separated(particles, Dim)
      ensures particles == ForcePass(old(particles), Dim, sqrt)
    {
      ghost var start := particles;
      ghost var act := Interaction(Pulls(start, Dim, sqrt));
      var l := |particles|;
      for i := 0 to l
        invariant Valid() && |particles| == l && SameButForces(start, particles)
        invariant particles == SweptRows(start, act, l, i)
      {
        UpdateRow(i, sqrt, start);
      }
    }

    /** One pass of the outer loop of `update_f`. `start` is the vector the
        force sweep started from: no position has changed since. */
    method UpdateRow(i: nat, sqrt: real -> real, ghost start: seq<Particle>)
      requires Valid() && i < |particles| == |start| && RootPositive(sqrt)
      requires Uniform(start, Dim) && Separated(start, Dim) && SameButForces(start, particles)
      modifies this
      ensures Valid() && SameButForces(start, particles)
      ensures particles == SweepRow(old(particles), Interaction(Pulls(start, Dim, sqrt)), |particles|, i, i + 1)
    {
      ghost var act := Interaction(Pulls(start, Dim, sqrt));
      ghost var row := particles;
      var particle := particles[i];
      assert particles[i := particle] == row;
      for j := i + 1 to |particles|
        invariant |particles| == |row| && Uniform(particles[i := particle], Dim)
        invariant SameButForces(start, particles[i := particle])
        invariant SweepRow(particles[i := particle], act, |row|, i, j) == SweepRow(row, act, |row|, i, i + 1)
      {
        PairApart(start, Dim, i, j, particles[i := particle], particle, particles[j]);
        var q1, q2 := IncludeForces(particle, particles[j], sqrt);
        RowStep(start, Dim, i, j, sqrt, particles[i := particle], particle, particles[j], q1, q2);
        WriteBackCommutes(particles, i, j, particle, q1, q2);
        particle := q1;
        particles := particles[j := q2];
      }
      particles := particles[i := particle];
    }

    /** The body of the main loop of `run`: the position sweep, the force
        sweep at the new positions, the velocity sweep. */
    method TimeStep(sqrt: real -> real)
      requires Valid() && Massive(particles) && RootPositive(sqrt)
      requires Separated(PosPass(particles, Dim, deltaT), Dim)
      modifies this
      ensures Valid() && Massive(particles)
      ensures particles == Step(old(particles), Dim, deltaT, sqrt)
    {
      UpdatePos();
      UpdateF(sqrt);
      UpdateV();
    }

    /** `run`: one force sweep, then steps of `deltaT` until the time, which
        starts at zero, reaches `tEnd`; the loop runs `StepCount(tEnd,
        deltaT)` times. */
    method Run(sqrt: real -> real)
      requires Valid() && Massive(particles) && Separated(particles, Dim) && RootPositive(sqrt)
      requires 0.0 < deltaT || tEnd <= 0.0
      requires StaysApart(ForcePass(particles, Dim, sqrt), Dim, deltaT, sqrt, StepCount(tEnd, deltaT))
      modifies this
      ensures Valid() && Massive(particles)
      ensures particles == Iterate(ForcePass(old(particles), Dim, sqrt), Dim, deltaT, sqrt, StepCount(tEnd, deltaT))
    {
      var t := 0.0;
      UpdateF(sqrt);
      ghost var first := particles;
      ghost var n := StepCount(tEnd, deltaT);
      ghost var k: nat := 0;
      while t < tEnd
        invariant Valid() && Massive(particles)
        invariant k <= n && t == Elapsed(k, deltaT)
        invariant StaysApart(first, Dim, deltaT, sqrt, k)
        invariant particles == Iterate(first, Dim, deltaT, sqrt, k)
        decreases n - k
      {
        Clock(tEnd, deltaT, k);
        Advance(first, Dim, deltaT, sqrt, k, n);
        TimeStep(sqrt);
        t := t + deltaT;
        k := k + 1;
      }
      Clock(tEnd, deltaT, k);
    }
  }
}
