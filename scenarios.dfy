/** The unit tests of src/particle.rs, src/simulation.rs and src/lib.rs,
    stated as facts about the model. The square root stays a parameter, so
    the expected forces are written with it. */
module Scenarios {
  import opened Particles
  import opened Dynamics

  /** `create_particle`: the constructor stores its arguments and the
      previous force equals the force. */
  lemma CreateParticle()
    ensures var p := New(6.0, [1.0, 2.0, 3.0], [1.0, 2.0, 3.0], [1.0, 2.0, 3.0]);
      p.m == 6.0 && p.pos == [1.0, 2.0, 3.0] && p.v == [1.0, 2.0, 3.0] &&
      p.f == [1.0, 2.0, 3.0] && p.fOld == [1.0, 2.0, 3.0] && HasDim(p, 3)
  {
  }

  /** `update_position`: a particle of mass 6 with position, velocity and
      force (1, 2, 3) moves, with a step of 1, by `v[d] + f[d]/12` along
      each axis. */
  lemma UpdatePosition()
    ensures var p := New(6.0, [1.0, 2.0, 3.0], [1.0, 2.0, 3.0], [1.0, 2.0, 3.0]);
      Uniform([p], 3) && Massive([p]) &&
      PosPass([p], 3, 1.0) == [p.(pos := [25.0 / 12.0, 50.0 / 12.0, 75.0 / 12.0])]
  {
    var p := New(6.0, [1.0, 2.0, 3.0], [1.0, 2.0, 3.0], [1.0, 2.0, 3.0]);
    var q := PosPass([p], 3, 1.0)[0];
    assert q == Snapshot(Advanced(p, 1.0));
    assert q.pos == [25.0 / 12.0, 50.0 / 12.0, 75.0 / 12.0];
  }

  /** `update_velocity`: with force and previous force both (1, 2, 3) the
      velocity (1, 2, 3) of a particle of mass 6 grows by `f[d]/6` in a
      step of 1. */
  lemma UpdateVelocity()
    ensures var p := New(6.0, [1.0, 2.0, 3.0], [1.0, 2.0, 3.0], [1.0, 2.0, 3.0]);
      Uniform([p], 3) && Massive([p]) &&
      VelPass([p], 3, 1.0) == [p.(v := [7.0 / 6.0, 14.0 / 6.0, 21.0 / 6.0])]
  {
    var p := New(6.0, [1.0, 2.0, 3.0], [1.0, 2.0, 3.0], [1.0, 2.0, 3.0]);
    var q := VelPass([p], 3, 1.0)[0];
    assert q == Accelerated(p, 1.0);
    assert q.v == [7.0 / 6.0, 14.0 / 6.0, 21.0 / 6.0];
  }

  /** `update_f`: two particles of mass 6 at (1, 2, 3) and (1, 0, 5) are at
      squared distance 8; the first gains `s * (pos2 - pos1)` with
      `s = 36 / (sqrt(8) * 8)` and the second loses it. */
  lemma UpdateForce(p1: Particle, p2: Particle, sqrt: real -> real)
    requires p1 == New(6.0, [1.0, 2.0, 3.0], [1.0, 2.0, 3.0], [1.0, 2.0, 3.0])
    requires p2 == New(6.0, [1.0, 0.0, 5.0], [3.0, 2.0, 2.0], [4.0, 2.0, 3.0])
    requires RootPositive(sqrt)
    ensures Uniform([p1, p2], 3) && Separated([p1, p2], 3)
    ensures var s := 36.0 / (sqrt(8.0) * 8.0);
      var qs := ForcePass([p1, p2], 3, sqrt);
      qs[0].f == [1.0, 2.0 - 2.0 * s, 3.0 + 2.0 * s] &&
      qs[1].f == [4.0, 2.0 + 2.0 * s, 3.0 - 2.0 * s]
  {
    var s := 36.0 / (sqrt(8.0) * 8.0);
    TestPull(sqrt);
    var c := Pull(p1.m, p1.pos, p2.m, p2.pos, sqrt);
    assert c == [0.0, -2.0 * s, 2.0 * s];
    ForcePassTwo(p1, p2, 3, sqrt);
    var qs := ForcePass([p1, p2], 3, sqrt);
    assert qs[0].f == Plus([1.0, 2.0, 3.0], c);
    assert qs[1].f == Minus([4.0, 2.0, 3.0], c);
    TestShift(s);
  }

  /** Adding and subtracting a pull `(0, -2s, 2s)` to the forces of the
      two particles of `update_f`. */
  lemma TestShift(s: real)
    ensures Plus([1.0, 2.0, 3.0], [0.0, -2.0 * s, 2.0 * s]) == [1.0, 2.0 - 2.0 * s, 3.0 + 2.0 * s]
    ensures Minus([4.0, 2.0, 3.0], [0.0, -2.0 * s, 2.0 * s]) == [4.0, 2.0 + 2.0 * s, 3.0 - 2.0 * s]
  {
  }

  /** The squared distance of the two particles of `update_f` is 8. */
  lemma TestDistance()
    ensures SqDist([1.0, 2.0, 3.0], [1.0, 0.0, 5.0]) == 8.0
  {
    assert Minus([1.0, 2.0, 3.0], [1.0, 0.0, 5.0]) == [0.0, 2.0, -2.0];
    assert [0.0, 2.0, -2.0][1..] == [2.0, -2.0];
    assert [2.0, -2.0][1..] == [-2.0];
    assert [-2.0][1..] == [];
  }

  /** The pull of the second particle of `update_f` on the first. */
  lemma TestPull(sqrt: real -> real)
    requires RootPositive(sqrt)
    ensures 0.0 < SqDist([1.0, 2.0, 3.0], [1.0, 0.0, 5.0])
    ensures var s := 36.0 / (sqrt(8.0) * 8.0);
      Pull(6.0, [1.0, 2.0, 3.0], 6.0, [1.0, 0.0, 5.0], sqrt) == [0.0, -2.0 * s, 2.0 * s]
  {
    TestDistance();
    var s := Strength(36.0, 8.0, sqrt);
    assert s == 36.0 / (sqrt(8.0) * 8.0);
    PullComponents(6.0, [1.0, 2.0, 3.0], 6.0, [1.0, 0.0, 5.0], sqrt);
  }

  /** `run` with a step of 1 and an end time of 10 does ten steps. */
  lemma RunStepCount()
    ensures StepCount(10.0, 1.0) == 10
  {
    var n := StepCount(10.0, 1.0);
    ElapsedProduct(n, 1.0);
    ElapsedProduct(n - 1, 1.0);
  }
}
