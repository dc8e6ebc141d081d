/** One point mass of the simulation (src/particle.rs), together with the
    per-particle integration primitives that src/simulation.rs calls on it.

    A particle is a plain value: the source stores it by value in the
    simulation's vector and updates it through an exclusive `&mut` borrow, so
    every operation that mutates a particle is modelled as a method that takes
    the particle before the call and returns it after the call. */
module Particles {

  /** Mass, position, velocity, force and previous-step force; each vector has
      one component per spatial axis. */
  datatype Particle = Particle(m: real, pos: seq<real>, v: seq<real>, f: seq<real>, fOld: seq<real>)

  /** Every vector of `p` has `dim` components (the source's `[Real; D]`). */
  predicate HasDim(p: Particle, dim: nat) {
    |p.pos| == dim && |p.v| == dim && |p.f| == dim && |p.fOld| == dim
  }

  /** Two particles of one simulation: both of the same dimension. */
  predicate SameDim(p: Particle, q: Particle) {
    HasDim(p, |p.pos|) && HasDim(q, |p.pos|)
  }

  /** The square root the source takes from its float type is not part of
      this model: it is passed in, and all that is known of it is that it is
      positive on positive arguments. */
  ghost predicate RootPositive(sqrt: real -> real) {
    forall r: real :: 0.0 < r ==> 0.0 < sqrt(r)
  }

  // ---------------------------------------------------------------------------
  // Component-wise vector arithmetic

  function Plus(a: seq<real>, b: seq<real>): (r: seq<real>)
    requires |b| == |a|
    ensures |r| == |a|
    ensures forall d :: 0 <= d < |a| ==> r[d] == a[d] + b[d]
  {
    seq(|a|, d requires 0 <= d < |a| => a[d] + b[d])
  }

  function Minus(a: seq<real>, b: seq<real>): (r: seq<real>)
    requires |b| == |a|
    ensures |r| == |a|
    ensures forall d :: 0 <= d < |a| ==> r[d] == a[d] - b[d]
  {
    seq(|a|, d requires 0 <= d < |a| => a[d] - b[d])
  }

  // ---------------------------------------------------------------------------
  // Construction

  /** `Particle::new`: the previous force starts out equal to the given force. */
  function New(m: real, pos: seq<real>, v: seq<real>, f: seq<real>): (p: Particle)
    ensures p.m == m && p.pos == pos && p.v == v && p.f == f
    ensures p.fOld == p.f
    ensures |v| == |pos| && |f| == |pos| ==> HasDim(p, |pos|)
  {
    Particle(m, pos, v, f, f)
  }

  // ---------------------------------------------------------------------------
  // Pairwise force

  /** The squared Euclidean distance (the source's `r`): the difference of
      the two positions, squared component by component and summed. */
  function SqDist(a: seq<real>, b: seq<real>): (r: real)
    requires |b| == |a|
    ensures 0.0 <= r
  {
    SumOfSquares(Minus(a, b))
  }

  function SumOfSquares(u: seq<real>): (s: real)
    ensures 0.0 <= s
  {
    if u == [] then 0.0 else Square(u[0]) + SumOfSquares(u[1..])
  }

  function Square(x: real): (y: real)
    ensures 0.0 <= y
  {
    x * x
  }

  /** A product of two factors of one sign is positive. */
  lemma ProductPositive(a: real, b: real, c: real)
    requires (0.0 < a && 0.0 < b) || (a < 0.0 && b < 0.0)
    requires c == a * b
    ensures 0.0 < c
  {
  }

  /** Only zero squares to zero. */
  lemma SquareZero(x: real)
    ensures Square(x) == 0.0 <==> x == 0.0
  {
    if x != 0.0 {
      ProductPositive(x, x, Square(x));
    }
  }

  /** A sum of squares vanishes exactly when every term is zero. */
  lemma {:induction false} SumOfSquaresZero(u: seq<real>)
    ensures SumOfSquares(u) == 0.0 <==> forall k :: 0 <= k < |u| ==> u[k] == 0.0
  {
    if u != [] {
      SumOfSquaresZero(u[1..]);
      SquareZero(u[0]);
      assert forall k :: 1 <= k < |u| ==> u[k] == u[1..][k - 1];
    }
  }

  /** The squared distance vanishes exactly when the two positions are the
      same point, so `0 < r` says that two bodies do not coincide. */
  lemma SqDistZero(a: seq<real>, b: seq<real>)
    requires |b| == |a|
    ensures SqDist(a, b) == 0.0 <==> a == b
  {
    SumOfSquaresZero(Minus(a, b));
    if SqDist(a, b) == 0.0 {
      assert forall k :: 0 <= k < |a| ==> a[k] == b[k];
    }
  }

  /** The scalar `m1*m2 / (sqrt(r)*r)`; defined only for `r > 0`. It has the
      sign of the mass product: with positive masses the force attracts. */
  function Strength(mm: real, r: real, sqrt: real -> real): (s: real)
    requires 0.0 < r && RootPositive(sqrt)
    ensures 0.0 < mm ==> 0.0 < s
    ensures mm < 0.0 ==> s < 0.0
    ensures mm == 0.0 ==> s == 0.0
  {
    assert 0.0 < sqrt(r) * r;
    mm / (sqrt(r) * r)
  }

  /** The force exerted on a body of mass `m1` at `pos1` by a body of mass
      `m2` at `pos2`: the strength times the raw displacement towards the
      second body. */
  function Pull(m1: real, pos1: seq<real>, m2: real, pos2: seq<real>, sqrt: real -> real): (c: seq<real>)
    requires |pos2| == |pos1| && 0.0 < SqDist(pos1, pos2) && RootPositive(sqrt)
    ensures |c| == |pos1|
  {
    var s := Strength(m1 * m2, SqDist(pos1, pos2), sqrt);
    seq(|pos1|, d requires 0 <= d < |pos1| => s * (pos2[d] - pos1[d]))
  }

  /** Component `d` of the force is the strength times the displacement
      along `d`. */
  lemma PullComponents(m1: real, pos1: seq<real>, m2: real, pos2: seq<real>, sqrt: real -> real)
    requires |pos2| == |pos1| && 0.0 < SqDist(pos1, pos2) && RootPositive(sqrt)
    ensures forall d :: 0 <= d < |pos1| ==>
      Pull(m1, pos1, m2, pos2, sqrt)[d] == Strength(m1 * m2, SqDist(pos1, pos2), sqrt) * (pos2[d] - pos1[d])
  {
  }

  /** `self` with `c` added to its force. */
  function WithAddedForce(p: Particle, c: seq<real>): (q: Particle)
    requires |c| == |p.f|
    ensures q.m == p.m && q.pos == p.pos && q.v == p.v && q.fOld == p.fOld
    ensures |q.f| == |p.f| && forall d :: 0 <= d < |p.f| ==> q.f[d] == p.f[d] + c[d]
  {
    p.(f := Plus(p.f, c))
  }

  /** `self` with `c` taken away from its force. */
  function WithSubtractedForce(p: Particle, c: seq<real>): (q: Particle)
    requires |c| == |p.f|
    ensures q.m == p.m && q.pos == p.pos && q.v == p.v && q.fOld == p.fOld
    ensures |q.f| == |p.f| && forall d :: 0 <= d < |p.f| ==> q.f[d] == p.f[d] - c[d]
  {
    p.(f := Minus(p.f, c))
  }

  /** `Particle::add_f_from`: computes the force `other` exerts on `self`,
      one component per axis, adds it into `self.f` and returns it. `other`
      is only read. */
  method AddFFrom(self: Particle, other: Particle, sqrt: real -> real) returns (updated: Particle, fromOther: seq<real>)
    requires SameDim(self, other) && 0.0 < SqDist(self.pos, other.pos) && RootPositive(sqrt)
    ensures |fromOther| == |self.pos|
    ensures fromOther == Pull(self.m, self.pos, other.m, other.pos, sqrt)
    ensures updated == WithAddedForce(self, fromOther)
  {
    var r := SqDist(self.pos, other.pos);
    var s := Strength(self.m * other.m, r, sqrt);
    ghost var c := Pull(self.m, self.pos, other.m, other.pos, sqrt);
    PullComponents(self.m, self.pos, other.m, other.pos, sqrt);
    fromOther := [];
    var f := self.f;
    for d := 0 to |self.pos|
      invariant fromOther == c[..d]
      invariant |f| == |self.f|
      invariant forall k :: 0 <= k < d ==> f[k] == self.f[k] + c[k]
      invariant forall k :: d <= k < |self.f| ==> f[k] == self.f[k]
    {
      fromOther := fromOther + [s * (other.pos[d] - self.pos[d])];
      assert fromOther[d] == c[d];
      f := f[d := f[d] + fromOther[d]];
    }
    updated := self.(f := f);
    assert fromOther == c;
    assert f == Plus(self.f, fromOther);
  }

  /** `include_forces`: Newton's third law. The force `p2` exerts on `p1` is
      added to `p1` and the same vector is subtracted from `p2`, so the sum of
      the two forces is unchanged on every axis. */
  method IncludeForces(p1: Particle, p2: Particle, sqrt: real -> real) returns (q1: Particle, q2: Particle)
    requires SameDim(p1, p2) && 0.0 < SqDist(p1.pos, p2.pos) && RootPositive(sqrt)
    ensures var c := Pull(p1.m, p1.pos, p2.m, p2.pos, sqrt);
      q1 == WithAddedForce(p1, c) && q2 == WithSubtractedForce(p2, c)
    ensures forall d :: 0 <= d < |p1.f| ==> q1.f[d] + q2.f[d] == p1.f[d] + p2.f[d]
  {
    var fP2IntoP1;
    q1, fP2IntoP1 := AddFFrom(p1, p2, sqrt);
    var f2 := p2.f;
    for d := 0 to |q1.pos|
      invariant |f2| == |p2.f|
      invariant forall k :: 0 <= k < d ==> f2[k] == p2.f[k] - fP2IntoP1[k]
      invariant forall k :: d <= k < |p2.f| ==> f2[k] == p2.f[k]
    {
      f2 := f2[d := f2[d] - fP2IntoP1[d]];
    }
    q2 := p2.(f := f2);
    assert f2 == Minus(p2.f, fP2IntoP1);
  }

  // ---------------------------------------------------------------------------
  // Velocity-Verlet primitives

  /** The position update: `pos[d] + dt*(v[d] + a*f[d])` with
      `a = dt*(0.5/m)`; nothing else changes. */
  function Advanced(p: Particle, dt: real): (q: Particle)
    requires p.m != 0.0 && HasDim(p, |p.pos|)
    ensures q.m == p.m && q.v == p.v && q.f == p.f && q.fOld == p.fOld
    ensures HasDim(q, |p.pos|)
    ensures var a := dt * (0.5 / p.m);
      forall d :: 0 <= d < |p.pos| ==> q.pos[d] == p.pos[d] + dt * (p.v[d] + a * p.f[d])
  {
    var a := dt * (0.5 / p.m);
    p.(pos := seq(|p.pos|, d requires 0 <= d < |p.pos| => p.pos[d] + dt * (p.v[d] + a * p.f[d])))
  }

  /** The force snapshot: the previous force becomes the current force. */
  function Snapshot(p: Particle): (q: Particle)
    ensures q.m == p.m && q.pos == p.pos && q.v == p.v && q.f == p.f
    ensures q.fOld == p.f
  {
    p.(fOld := p.f)
  }

  /** The velocity update from the average of current and previous force:
      `v[d] + a*(f[d] + fOld[d])` with `a = dt*(0.5/m)`; nothing else changes. */
  function Accelerated(p: Particle, dt: real): (q: Particle)
    requires p.m != 0.0 && HasDim(p, |p.pos|)
    ensures q.m == p.m && q.pos == p.pos && q.f == p.f && q.fOld == p.fOld
    ensures HasDim(q, |p.pos|)
    ensures var a := dt * (0.5 / p.m);
      forall d :: 0 <= d < |p.v| ==> q.v[d] == p.v[d] + a * (p.f[d] + p.fOld[d])
  {
    var a := dt * (0.5 / p.m);
    p.(v := seq(|p.v|, d requires 0 <= d < |p.v| => p.v[d] + a * (p.f[d] + p.fOld[d])))
  }

  /** `Particle::update_pos`: advances the position, axis by axis. */
  method UpdatePos(p: Particle, dt: real) returns (q: Particle)
    requires p.m != 0.0 && HasDim(p, |p.pos|)
    ensures q == Advanced(p, dt)
  {
    var a := dt * (0.5 / p.m);
    var pos := p.pos;
    for d := 0 to |p.pos|
      invariant |pos| == |p.pos|
      invariant forall k :: 0 <= k < d ==> pos[k] == p.pos[k] + dt * (p.v[k] + a * p.f[k])
      invariant forall k :: d <= k < |p.pos| ==> pos[k] == p.pos[k]
    {
      pos := pos[d := pos[d] + dt * (p.v[d] + a * p.f[d])];
    }
    q := p.(pos := pos);
    assert forall k :: 0 <= k < |pos| ==> pos[k] == Advanced(p, dt).pos[k];
    assert pos == Advanced(p, dt).pos;
  }

  /** `Particle::update_old_f`: copies the force into the previous force,
      axis by axis. */
  method UpdateOldF(p: Particle) returns (q: Particle)
    requires HasDim(p, |p.pos|)
    ensures q == Snapshot(p)
  {
    var fOld := p.fOld;
    for d := 0 to |p.pos|
      invariant |fOld| == |p.fOld|
      invariant forall k :: 0 <= k < d ==> fOld[k] == p.f[k]
      invariant forall k :: d <= k < |p.fOld| ==> fOld[k] == p.fOld[k]
    {
      fOld := fOld[d := p.f[d]];
    }
    q := p.(fOld := fOld);
  }

  /** `Particle::update_v`: advances the velocity, axis by axis. */
  method UpdateV(p: Particle, dt: real) returns (q: Particle)
    requires p.m != 0.0 && HasDim(p, |p.pos|)
    ensures q == Accelerated(p, dt)
  {
    var a := dt * (0.5 / p.m);
    var v := p.v;
    for d := 0 to |p.v|
      invariant |v| == |p.v|
      invariant forall k :: 0 <= k < d ==> v[k] == p.v[k] + a * (p.f[k] + p.fOld[k])
      invariant forall k :: d <= k < |p.v| ==> v[k] == p.v[k]
    {
      v := v[d := v[d] + a * (p.f[d] + p.fOld[d])];
    }
    q := p.(v := v);
    assert forall k :: 0 <= k < |v| ==> v[k] == Accelerated(p, dt).v[k];
    assert v == Accelerated(p, dt).v;
  }

  // ---------------------------------------------------------------------------
  // Properties of the pairwise force

  /** Negating every component does not change the sum of squares. */
  lemma {:induction false} SumOfSquaresNegated(u: seq<real>, w: seq<real>)
    requires |w| == |u| && forall k :: 0 <= k < |u| ==> w[k] == -u[k]
    ensures SumOfSquares(u) == SumOfSquares(w)
  {
    if u != [] {
      SumOfSquaresNegated(u[1..], w[1..]);
      assert Square(u[0]) == Square(w[0]);
    }
  }

  /** Swapping the two positions does not change the squared distance. */
  lemma SqDistSymmetric(a: seq<real>, b: seq<real>)
    requires |b| == |a|
    ensures SqDist(a, b) == SqDist(b, a)
  {
    SumOfSquaresNegated(Minus(a, b), Minus(b, a));
  }

  /** Newton's third law at the level of one pair: the force the second body
      exerts on the first is the negation of the force the first exerts on the
      second. */
  lemma PullAntisymmetric(m1: real, pos1: seq<real>, m2: real, pos2: seq<real>, sqrt: real -> real)
    requires |pos2| == |pos1| && 0.0 < SqDist(pos1, pos2) && RootPositive(sqrt)
    ensures SqDist(pos2, pos1) == SqDist(pos1, pos2)
    ensures forall d :: 0 <= d < |pos1| ==>
      Pull(m2, pos2, m1, pos1, sqrt)[d] == -Pull(m1, pos1, m2, pos2, sqrt)[d]
  {
    SqDistSymmetric(pos1, pos2);
    PullComponents(m1, pos1, m2, pos2, sqrt);
    PullComponents(m2, pos2, m1, pos1, sqrt);
    assert m2 * m1 == m1 * m2;
    var s := Strength(m1 * m2, SqDist(pos1, pos2), sqrt);
    forall d | 0 <= d < |pos1|
      ensures Pull(m2, pos2, m1, pos1, sqrt)[d] == -Pull(m1, pos1, m2, pos2, sqrt)[d]
    {
      assert Pull(m2, pos2, m1, pos1, sqrt)[d] == s * (pos1[d] - pos2[d]);
      assert Pull(m1, pos1, m2, pos2, sqrt)[d] == s * (pos2[d] - pos1[d]);
    }
  }

  /** A component scaled by a positive factor has the sign of the
      displacement `b - a` it scales. */
  lemma ScaledSign(c: real, s: real, a: real, b: real)
    requires 0.0 < s && c == s * (b - a)
    ensures 0.0 < c <==> a < b
    ensures c < 0.0 <==> b < a
  {
    if a < b {
      assert 0.0 < s * (b - a);
    } else if b < a {
      assert s * (b - a) < 0.0;
    } else {
      assert s * (b - a) == 0.0;
    }
  }

  /** With a positive mass product the force points, on every axis, towards
      the other body: it is positive exactly where the other body lies ahead
      and negative exactly where it lies behind. */
  lemma PullAttracts(m1: real, pos1: seq<real>, m2: real, pos2: seq<real>, sqrt: real -> real)
    requires |pos2| == |pos1| && 0.0 < SqDist(pos1, pos2) && RootPositive(sqrt)
    requires 0.0 < m1 * m2
    ensures forall d :: 0 <= d < |pos1| ==>
      (0.0 < Pull(m1, pos1, m2, pos2, sqrt)[d] <==> pos1[d] < pos2[d]) &&
      (Pull(m1, pos1, m2, pos2, sqrt)[d] < 0.0 <==> pos2[d] < pos1[d])
  {
    var c := Pull(m1, pos1, m2, pos2, sqrt);
    var s := Strength(m1 * m2, SqDist(pos1, pos2), sqrt);
    PullComponents(m1, pos1, m2, pos2, sqrt);
    forall d | 0 <= d < |pos1|
      ensures 0.0 < c[d] <==> pos1[d] < pos2[d]
      ensures c[d] < 0.0 <==> pos2[d] < pos1[d]
    {
      ScaledSign(c[d], s, pos1[d], pos2[d]);
    }
  }

  /** When the previous force equals the current force, the velocity update
      adds `dt/m * f`: the average of the two forces is the force itself. */
  lemma SteadyForceKick(p: Particle, dt: real)
    requires p.m != 0.0 && HasDim(p, |p.pos|)
    requires p.fOld == p.f
    ensures forall d :: 0 <= d < |p.v| ==> Accelerated(p, dt).v[d] == p.v[d] + dt / p.m * p.f[d]
  {
    forall d | 0 <= d < |p.v|
      ensures Accelerated(p, dt).v[d] == p.v[d] + dt / p.m * p.f[d]
    {
      calc {
        dt * (0.5 / p.m) * (p.f[d] + p.fOld[d]);
        dt * (0.5 / p.m) * (2.0 * p.f[d]);
        dt * ((0.5 / p.m) * 2.0) * p.f[d];
        { assert (0.5 / p.m) * 2.0 == 1.0 / p.m; }
        dt * (1.0 / p.m) * p.f[d];
        dt / p.m * p.f[d];
      }
    }
  }
}
