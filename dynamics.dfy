/** What one sweep of the simulation does to the whole vector of particles,
    stated as functions on values. The loops of src/simulation.rs and
    src/lib.rs are proved against these functions; the physical properties
    of the sweeps (Newton's third law for the whole system, every pair
    interacting exactly once, the net force on each body) are proved here. */
module Dynamics {
  import opened Particles

  // ---------------------------------------------------------------------------
  // Well-formed states

  /** Every particle has `dim` components in each of its vectors (the
      source's `Particle<D>` with the const generic `D`). */
  predicate Uniform(ps: seq<Particle>, dim: nat) {
    forall i :: 0 <= i < |ps| ==> HasDim(ps[i], dim)
  }

  /** No particle has zero mass: the integration step divides by it. */
  predicate Massive(ps: seq<Particle>) {
    forall i :: 0 <= i < |ps| ==> ps[i].m != 0.0
  }

  /** No two particles sit at the same place: the force divides by their
      distance. */
  predicate Separated(ps: seq<Particle>, dim: nat)
    requires Uniform(ps, dim)
  {
    forall i, j {:trigger SqDist(ps[i].pos, ps[j].pos)} ::
      0 <= i < |ps| && 0 <= j < |ps| && i != j ==> 0.0 < SqDist(ps[i].pos, ps[j].pos)
  }

  /** `Separated` says exactly that no two particles share a position. */
  lemma SeparatedDistinct(ps: seq<Particle>, dim: nat)
    requires Uniform(ps, dim)
    ensures Separated(ps, dim) <==>
      forall i, j :: 0 <= i < |ps| && 0 <= j < |ps| && i != j ==> ps[i].pos != ps[j].pos
  {
    forall i, j | 0 <= i < |ps| && 0 <= j < |ps| && i != j
      ensures 0.0 < SqDist(ps[i].pos, ps[j].pos) <==> ps[i].pos != ps[j].pos
    {
      SqDistZero(ps[i].pos, ps[j].pos);
    }
  }

  /** `qs` differs from `ps` at most in the current forces. */
  predicate SameButForces(ps: seq<Particle>, qs: seq<Particle>) {
    |qs| == |ps| &&
    forall k :: 0 <= k < |ps| ==>
      qs[k].m == ps[k].m && qs[k].pos == ps[k].pos && qs[k].v == ps[k].v &&
      qs[k].fOld == ps[k].fOld && |qs[k].f| == |ps[k].f|
  }

  // ---------------------------------------------------------------------------
  // Position and velocity sweeps

  /** The position sweep: every particle advances and snapshots its force. */
  function PosPass(ps: seq<Particle>, dim: nat, dt: real): (qs: seq<Particle>)
    requires Uniform(ps, dim) && Massive(ps)
    ensures |qs| == |ps| && Uniform(qs, dim) && Massive(qs)
  {
    seq(|ps|, i requires 0 <= i < |ps| => Snapshot(Advanced(ps[i], dt)))
  }

  /** The velocity sweep: every particle accelerates. */
  function VelPass(ps: seq<Particle>, dim: nat, dt: real): (qs: seq<Particle>)
    requires Uniform(ps, dim) && Massive(ps)
    ensures |qs| == |ps| && Uniform(qs, dim) && Massive(qs)
  {
    seq(|ps|, i requires 0 <= i < |ps| => Accelerated(ps[i], dt))
  }

  /** The position sweep treats each particle on its own: it moves the
      position by `dt*(v + a*f)` with `a = dt*(0.5/m)`, copies the force
      into the previous force and keeps mass, velocity and force. */
  lemma PosPassAt(ps: seq<Particle>, dim: nat, dt: real, k: nat)
    requires Uniform(ps, dim) && Massive(ps) && k < |ps|
    ensures var p, q := ps[k], PosPass(ps, dim, dt)[k];
      q.m == p.m && q.v == p.v && q.f == p.f && q.fOld == p.f &&
      forall d :: 0 <= d < dim ==> q.pos[d] == p.pos[d] + dt * (p.v[d] + dt * (0.5 / p.m) * p.f[d])
  {
  }

  /** The velocity sweep treats each particle on its own: it adds
      `a*(f + fOld)` with `a = dt*(0.5/m)` to the velocity and keeps
      everything else. */
  lemma VelPassAt(ps: seq<Particle>, dim: nat, dt: real, k: nat)
    requires Uniform(ps, dim) && Massive(ps) && k < |ps|
    ensures var p, q := ps[k], VelPass(ps, dim, dt)[k];
      q.m == p.m && q.pos == p.pos && q.f == p.f && q.fOld == p.fOld &&
      forall d :: 0 <= d < dim ==> q.v[d] == p.v[d] + dt * (0.5 / p.m) * (p.f[d] + p.fOld[d])
  {
  }

  // ---------------------------------------------------------------------------
  // The force sweep

  /** A table of force vectors indexed by pairs of particles, every entry
      with `dim` components. */
  ghost predicate Sized(w: (nat, nat) -> seq<real>, dim: nat) {
    forall a: nat, b: nat :: |w(a, b)| == dim
  }

  /** The zero vector. */
  function Zero(dim: nat): (z: seq<real>)
    ensures |z| == dim && forall d :: 0 <= d < dim ==> z[d] == 0.0
  {
    seq(dim, d => 0.0)
  }

  /** The pulls of a state: `w(a, b)` is the force particle `b` exerts on
      particle `a`. The force sweep moves no particle, so every pull it
      applies is an entry of the table of the state it starts from. */
  function Pulls(ps: seq<Particle>, dim: nat, sqrt: real -> real): (w: (nat, nat) -> seq<real>)
    requires Uniform(ps, dim) && Separated(ps, dim) && RootPositive(sqrt)
    ensures Sized(w, dim)
    ensures forall a: nat, b: nat {:trigger w(a, b)} :: a < |ps| && b < |ps| && a != b ==>
      w(a, b) == Pull(ps[a].m, ps[a].pos, ps[b].m, ps[b].pos, sqrt)
  {
    (a: nat, b: nat) =>
      if a < |ps| && b < |ps| && a != b then Pull(ps[a].m, ps[a].pos, ps[b].m, ps[b].pos, sqrt) else Zero(dim)
  }

  /** One call of `include_forces` on particles `i` and `j` of the vector,
      where `c` is the pull of `j` on `i`: `i` gains `c` and `j` loses it. */
  function Interact(ps: seq<Particle>, i: nat, j: nat, c: seq<real>): (qs: seq<Particle>)
    requires i < j < |ps| && |ps[i].f| == |c| && |ps[j].f| == |c|
    ensures |qs| == |ps|
  {
    ps[i := WithAddedForce(ps[i], c)][j := WithSubtractedForce(ps[j], c)]
  }

  /** The interaction of pair `(i, j)` with the pulls of table `w`, as a
      step of the double loop; a pair that is not `i < j < |ps|`, or whose
      force vectors do not match the pull, does nothing. */
  function Interaction(w: (nat, nat) -> seq<real>): (act: (seq<Particle>, nat, nat) -> seq<Particle>)
  {
    (ps: seq<Particle>, i: nat, j: nat) =>
      if i < j < |ps| && |ps[i].f| == |w(i, j)| && |ps[j].f| == |w(i, j)| then Interact(ps, i, j, w(i, j)) else ps
  }

  // ---------------------------------------------------------------------------
  // The visiting order of the double loop, for any state and any step

  /** A list of index pairs `(i, j)` with `i < j < n`. */
  predicate Ordered(pairs: seq<(nat, nat)>, n: nat) {
    forall k :: 0 <= k < |pairs| ==> pairs[k].0 < pairs[k].1 < n
  }

  /** The steps `act` of `pairs`, applied to `s` in list order. */
  function ApplyPairs<S>(s: S, act: (S, nat, nat) -> S, pairs: seq<(nat, nat)>): S
    decreases |pairs|
  {
    if pairs == [] then s
    else act(ApplyPairs(s, act, pairs[..|pairs| - 1]), pairs[|pairs| - 1].0, pairs[|pairs| - 1].1)
  }

  /** Row `i` of the double loop of `update_f`, from column `lo` up to but
      not including `hi`. */
  function Row(i: nat, lo: nat, hi: nat): (row: seq<(nat, nat)>)
    ensures |row| == if lo <= hi then hi - lo else 0
    ensures forall k :: 0 <= k < |row| ==> row[k] == (i, lo + k)
  {
    if hi <= lo then [] else seq(hi - lo, k requires 0 <= k < hi - lo => (i, lo + k))
  }

  /** The pairs the double loop of `update_f` visits in its first `i` rows,
      in visiting order. */
  function Rows(n: nat, i: nat): (pairs: seq<(nat, nat)>)
    requires i <= n
    ensures Ordered(pairs, n)
    ensures forall k :: 0 <= k < |pairs| ==> pairs[k].0 < i
  {
    if i == 0 then [] else Rows(n, i - 1) + Row(i - 1, i, n)
  }

  /** All pairs the double loop visits, in visiting order. */
  function Pairs(n: nat): (pairs: seq<(nat, nat)>)
    ensures Ordered(pairs, n)
  {
    Rows(n, n)
  }

  /** The inner loop of `update_f` for row `i` from column `j` on: steps
      `(i, j)`, `(i, j+1)`, ..., `(i, n-1)` one after the other. */
  function SweepRow<S>(s: S, act: (S, nat, nat) -> S, n: nat, i: nat, j: nat): S
    decreases n - j
  {
    if n <= j then s else SweepRow(act(s, i, j), act, n, i, j + 1)
  }

  /** The state after the first `i` passes of the outer loop of
      `update_f` over `n` particles. */
  function SweptRows<S>(s: S, act: (S, nat, nat) -> S, n: nat, i: nat): S
  {
    if i == 0 then s else SweepRow(SweptRows(s, act, n, i - 1), act, n, i - 1, i)
  }

  /** Running the rest of row `i` after some pairs `done` applies the pairs
      of the rest of the row after them. */
  lemma {:induction false} SweepRowApplies<S>(s: S, act: (S, nat, nat) -> S, n: nat, done: seq<(nat, nat)>, i: nat, j: nat)
    ensures SweepRow(ApplyPairs(s, act, done), act, n, i, j) == ApplyPairs(s, act, done + Row(i, j, n))
    decreases n - j
  {
    if j < n {
      var more := done + [(i, j)];
      assert more[..|more| - 1] == done;
      SweepRowApplies(s, act, n, more, i, j + 1);
      RowCons(i, j, n);
      assert more + Row(i, j + 1, n) == done + Row(i, j, n);
    } else {
      assert done + Row(i, j, n) == done;
    }
  }

  /** A row of at least one column starts with its first column. */
  lemma RowCons(i: nat, j: nat, n: nat)
    requires j < n
    ensures Row(i, j, n) == [(i, j)] + Row(i, j + 1, n)
  {
    var r, t := Row(i, j, n), Row(i, j + 1, n);
    assert forall k :: 0 <= k < |t| ==> r[k + 1] == t[k];
  }

  /** The first `i` passes of the outer loop apply the pairs of the first
      `i` rows. */
  lemma {:induction false} SweptRowsApplies<S>(s: S, act: (S, nat, nat) -> S, n: nat, i: nat)
    requires i <= n
    ensures SweptRows(s, act, n, i) == ApplyPairs(s, act, Rows(n, i))
  {
    if i > 0 {
      SweptRowsApplies(s, act, n, i - 1);
      SweepRowApplies(s, act, n, Rows(n, i - 1), i - 1, i);
    }
  }

  // ---------------------------------------------------------------------------
  // The force sweep

  /** Interactions change forces only. */
  lemma {:induction false} ApplyPairsFrame(ps: seq<Particle>, dim: nat, pairs: seq<(nat, nat)>, w: (nat, nat) -> seq<real>)
    requires Uniform(ps, dim)
    ensures var qs := ApplyPairs(ps, Interaction(w), pairs);
      SameButForces(ps, qs) && Uniform(qs, dim)
    decreases |pairs|
  {
    if pairs != [] {
      var init, last := pairs[..|pairs| - 1], pairs[|pairs| - 1];
      ApplyPairsFrame(ps, dim, init, w);
      InteractionFrame(ApplyPairs(ps, Interaction(w), init), dim, w, last.0, last.1);
    }
  }

  /** One step of the double loop changes forces only. */
  lemma InteractionFrame(ps: seq<Particle>, dim: nat, w: (nat, nat) -> seq<real>, i: nat, j: nat)
    requires Uniform(ps, dim)
    ensures var qs := Interaction(w)(ps, i, j);
      SameButForces(ps, qs) && Uniform(qs, dim)
  {
    if i < j < |ps| && |w(i, j)| == dim {
      assert Interaction(w)(ps, i, j) == Interact(ps, i, j, w(i, j));
    }
  }

  /** `update_f`: every pair interacts once, in the double loop's order,
      with the pull the positions give it. */
  function ForcePass(ps: seq<Particle>, dim: nat, sqrt: real -> real): (qs: seq<Particle>)
    requires Uniform(ps, dim) && Separated(ps, dim) && RootPositive(sqrt)
    ensures SameButForces(ps, qs)
    ensures Uniform(qs, dim) && Separated(qs, dim) && (Massive(ps) ==> Massive(qs))
  {
    var act := Interaction(Pulls(ps, dim, sqrt));
    SweptRowsApplies(ps, act, |ps|, |ps|);
    ApplyPairsFrame(ps, dim, Pairs(|ps|), Pulls(ps, dim, sqrt));
    SweptRows(ps, act, |ps|, |ps|)
  }

  /** The force sweep applies all pairs of the double loop in its order. */
  lemma ForcePassPairs(ps: seq<Particle>, dim: nat, sqrt: real -> real)
    requires Uniform(ps, dim) && Separated(ps, dim) && RootPositive(sqrt)
    ensures ForcePass(ps, dim, sqrt) == ApplyPairs(ps, Interaction(Pulls(ps, dim, sqrt)), Pairs(|ps|))
  {
    SweptRowsApplies(ps, Interaction(Pulls(ps, dim, sqrt)), |ps|, |ps|);
  }
  // ---------------------------------------------------------------------------
  // One step of the row loop, on a copy of particle `i`

  /** The copy of particle `i` and particle `j` are of one dimension and
      apart: interactions move no particle. */
  lemma PairApart(start: seq<Particle>, dim: nat, i: nat, j: nat, cur: seq<Particle>, particle: Particle, other: Particle)
    requires Uniform(start, dim) && Separated(start, dim)
    requires i < j < |cur| == |start| && cur[i] == particle && cur[j] == other
    requires SameButForces(start, cur) && Uniform(cur, dim)
    ensures SameDim(particle, other) && 0.0 < SqDist(particle.pos, other.pos)
  {
    assert 0.0 < SqDist(start[i].pos, start[j].pos);
  }

  /** One call of `include_forces` on the copy and particle `j` does pair
      `(i, j)` of the sweep: the pull it computes is the entry of the table
      of the state the sweep started from, since no position has changed. */
  lemma RowStep(start: seq<Particle>, dim: nat, i: nat, j: nat, sqrt: real -> real,
                cur: seq<Particle>, particle: Particle, other: Particle, q1: Particle, q2: Particle)
    requires Uniform(start, dim) && Separated(start, dim) && RootPositive(sqrt)
    requires i < j < |cur| == |start| && cur[i] == particle && cur[j] == other
    requires SameButForces(start, cur) && Uniform(cur, dim)
    requires SameDim(particle, other) && 0.0 < SqDist(particle.pos, other.pos)
    requires var c := Pull(particle.m, particle.pos, other.m, other.pos, sqrt);
      q1 == WithAddedForce(particle, c) && q2 == WithSubtractedForce(other, c)
    ensures SameButForces(start, cur[i := q1][j := q2]) && Uniform(cur[i := q1][j := q2], dim)
    ensures var act := Interaction(Pulls(start, dim, sqrt));
      SweepRow(cur[i := q1][j := q2], act, |cur|, i, j + 1) == SweepRow(cur, act, |cur|, i, j)
  {
    var w := Pulls(start, dim, sqrt);
    var c := Pull(particle.m, particle.pos, other.m, other.pos, sqrt);
    assert w(i, j) == c;
    assert Interaction(w)(cur, i, j) == Interact(cur, i, j, c) == cur[i := q1][j := q2];
  }

  /** Updating the copy of particle `i` and writing it back later gives the
      same vector as updating it in place. */
  lemma WriteBackCommutes(ps: seq<Particle>, i: nat, j: nat, copy: Particle, q1: Particle, q2: Particle)
    requires i < j < |ps|
    ensures ps[i := copy][i := q1][j := q2] == ps[j := q2][i := q1]
  {
  }

  // ---------------------------------------------------------------------------
  // The pairs are visited exactly once

  /** Lexicographic order on index pairs. */
  predicate Before(p: (nat, nat), q: (nat, nat)) {
    p.0 < q.0 || (p.0 == q.0 && p.1 < q.1)
  }

  /** Every pair `a < b < n` with `a < i` is among the first `i` rows. */
  lemma {:induction false} RowsComplete(n: nat, i: nat, a: nat, b: nat)
    requires a < i <= n && a < b < n
    ensures (a, b) in Rows(n, i)
  {
    var prev, row := Rows(n, i - 1), Row(i - 1, i, n);
    assert Rows(n, i) == prev + row;
    if a == i - 1 {
      assert row[b - i] == (a, b);
      assert Rows(n, i)[|prev| + (b - i)] == (a, b);
    } else {
      RowsComplete(n, i - 1, a, b);
      var t :| 0 <= t < |prev| && prev[t] == (a, b);
      assert Rows(n, i)[t] == (a, b);
    }
  }

  /** The first `i` rows list their pairs in strictly increasing order. */
  lemma {:induction false} RowsIncreasing(n: nat, i: nat)
    requires i <= n
    ensures forall p, q :: 0 <= p < q < |Rows(n, i)| ==> Before(Rows(n, i)[p], Rows(n, i)[q])
  {
    if i > 0 {
      RowsIncreasing(n, i - 1);
      var prev, row := Rows(n, i - 1), Row(i - 1, i, n);
      var all := Rows(n, i);
      assert all == prev + row;
      forall p, q | 0 <= p < q < |all|
        ensures Before(all[p], all[q])
      {
        if q < |prev| {
          assert all[p] == prev[p] && all[q] == prev[q];
        } else if p < |prev| {
          assert all[p] == prev[p] && all[q] == row[q - |prev|];
        } else {
          assert all[p] == row[p - |prev|] && all[q] == row[q - |prev|];
        }
      }
    }
  }

  /** The double loop of `update_f` visits every pair `i < j` of particles
      exactly once, and no other pair. */
  lemma PairsExactlyOnce(n: nat)
    ensures forall a: nat, b: nat :: (a, b) in Pairs(n) <==> a < b < n
    ensures forall p, q :: 0 <= p < q < |Pairs(n)| ==> Pairs(n)[p] != Pairs(n)[q]
  {
    forall a: nat, b: nat | a < b < n
      ensures (a, b) in Pairs(n)
    {
      RowsComplete(n, n, a, b);
    }
    RowsIncreasing(n, n);
  }

  // ---------------------------------------------------------------------------
  // Total force

  /** The sum of the forces of all particles along axis `d`. */
  function TotalForce(ps: seq<Particle>, d: nat): real
    requires forall k :: 0 <= k < |ps| ==> d < |ps[k].f|
  {
    if ps == [] then 0.0 else TotalForce(ps[..|ps| - 1], d) + ps[|ps| - 1].f[d]
  }

  /** Replacing one particle changes the total by the change of its force. */
  lemma {:induction false} TotalForceReplace(ps: seq<Particle>, k: nat, q: Particle, d: nat)
    requires forall i :: 0 <= i < |ps| ==> d < |ps[i].f|
    requires k < |ps| && d < |q.f|
    ensures TotalForce(ps[k := q], d) == TotalForce(ps, d) - ps[k].f[d] + q.f[d]
  {
    var n := |ps|;
    if k == n - 1 {
      assert ps[k := q][..n - 1] == ps[..n - 1];
    } else {
      assert ps[k := q][..n - 1] == ps[..n - 1][k := q];
      TotalForceReplace(ps[..n - 1], k, q, d);
    }
  }

  /** One `include_forces` leaves the total force unchanged on every axis. */
  lemma InteractKeepsTotal(ps: seq<Particle>, dim: nat, i: nat, j: nat, c: seq<real>, d: nat)
    requires Uniform(ps, dim) && i < j < |ps| && |c| == dim && d < dim
    ensures TotalForce(Interact(ps, i, j, c), d) == TotalForce(ps, d)
  {
    var mid := ps[i := WithAddedForce(ps[i], c)];
    TotalForceReplace(ps, i, WithAddedForce(ps[i], c), d);
    TotalForceReplace(mid, j, WithSubtractedForce(ps[j], c), d);
  }

  /** Every step of the double loop leaves the total force unchanged. */
  lemma InteractionKeepsTotal(ps: seq<Particle>, dim: nat, w: (nat, nat) -> seq<real>, i: nat, j: nat, d: nat)
    requires Uniform(ps, dim) && d < dim
    ensures var qs := Interaction(w)(ps, i, j);
      Uniform(qs, dim) && TotalForce(qs, d) == TotalForce(ps, d)
  {
    if i < j < |ps| && |w(i, j)| == dim {
      InteractKeepsTotal(ps, dim, i, j, w(i, j), d);
    }
  }

  /** Any list of interactions leaves the total force unchanged. */
  lemma {:induction false} ApplyPairsKeepsTotal(ps: seq<Particle>, dim: nat, pairs: seq<(nat, nat)>, w: (nat, nat) -> seq<real>, d: nat)
    requires Uniform(ps, dim) && d < dim
    ensures var qs := ApplyPairs(ps, Interaction(w), pairs);
      Uniform(qs, dim) && TotalForce(qs, d) == TotalForce(ps, d)
    decreases |pairs|
  {
    if pairs != [] {
      var init, last := pairs[..|pairs| - 1], pairs[|pairs| - 1];
      ApplyPairsKeepsTotal(ps, dim, init, w, d);
      InteractionKeepsTotal(ApplyPairs(ps, Interaction(w), init), dim, w, last.0, last.1, d);
    }
  }

  /** `update_f` keeps the sum of all forces on every axis: each pair adds
      a force to one body and takes the same force from the other. */
  lemma ForcePassKeepsTotal(ps: seq<Particle>, dim: nat, sqrt: real -> real, d: nat)
    requires Uniform(ps, dim) && Separated(ps, dim) && RootPositive(sqrt)
    requires d < dim
    ensures TotalForce(ForcePass(ps, dim, sqrt), d) == TotalForce(ps, d)
  {
    ForcePassPairs(ps, dim, sqrt);
    ApplyPairsKeepsTotal(ps, dim, Pairs(|ps|), Pulls(ps, dim, sqrt), d);
  }

  // ---------------------------------------------------------------------------
  // Net force on each particle

  /** Axis `d` of a table of force vectors. */
  function Component(w: (nat, nat) -> seq<real>, d: nat): (u: (nat, nat) -> real)
    ensures forall a: nat, b: nat :: d < |w(a, b)| ==> u(a, b) == w(a, b)[d]
  {
    (a: nat, b: nat) => if d < |w(a, b)| then w(a, b)[d] else 0.0
  }

  /** The pairwise forces of a state along axis `d`: `w(a, b)` is the force
      particle `b` exerts on particle `a`. */
  function Field(ps: seq<Particle>, dim: nat, sqrt: real -> real, d: nat): (w: (nat, nat) -> real)
    requires Uniform(ps, dim) && Separated(ps, dim) && RootPositive(sqrt) && d < dim
    ensures forall a: nat, b: nat {:trigger w(a, b)} :: a < |ps| && b < |ps| && a != b ==>
      w(a, b) == Pull(ps[a].m, ps[a].pos, ps[b].m, ps[b].pos, sqrt)[d]
  {
    Component(Pulls(ps, dim, sqrt), d)
  }

  /** Newton's third law for a table of pairwise forces among `n` bodies. */
  ghost predicate Antisymmetric(w: (nat, nat) -> real, n: nat) {
    forall a: nat, b: nat :: a < n && b < n && a != b ==> w(b, a) == -w(a, b)
  }

  /** The pairwise forces of any state obey Newton's third law. */
  lemma FieldAntisymmetric(ps: seq<Particle>, dim: nat, sqrt: real -> real, d: nat)
    requires Uniform(ps, dim) && Separated(ps, dim) && RootPositive(sqrt) && d < dim
    ensures Antisymmetric(Field(ps, dim, sqrt, d), |ps|)
  {
    var w := Field(ps, dim, sqrt, d);
    forall a: nat, b: nat | a < |ps| && b < |ps| && a != b
      ensures w(b, a) == -w(a, b)
    {
      PullAntisymmetric(ps[a].m, ps[a].pos, ps[b].m, ps[b].pos, sqrt);
    }
  }

  /** The sum of the forces that bodies `lo .. hi-1` other than `k` exert on
      body `k`. */
  function NetPull(w: (nat, nat) -> real, k: nat, lo: nat, hi: nat): real
    requires lo <= hi
    decreases hi - lo
  {
    if hi == lo then 0.0
    else NetPull(w, k, lo, hi - 1) + (if hi - 1 == k then 0.0 else w(k, hi - 1))
  }

  /** What the interaction of `pair` adds to the force on body `k`: the
      force of the partner when `k` comes first in the pair, minus the force
      on the partner when `k` comes second, nothing otherwise. */
  function Share(w: (nat, nat) -> real, pair: (nat, nat), k: nat): real {
    if pair.0 == k then w(k, pair.1)
    else if pair.1 == k then -w(pair.0, k)
    else 0.0
  }

  /** The sum of the shares of all `pairs` for body `k`. */
  function Effect(w: (nat, nat) -> real, pairs: seq<(nat, nat)>, k: nat): real
    decreases |pairs|
  {
    if pairs == [] then 0.0 else Effect(w, pairs[..|pairs| - 1], k) + Share(w, pairs[|pairs| - 1], k)
  }

  /** The shares of a concatenation add up. */
  lemma {:induction false} EffectAppend(w: (nat, nat) -> real, xs: seq<(nat, nat)>, ys: seq<(nat, nat)>, k: nat)
    ensures Effect(w, xs + ys, k) == Effect(w, xs, k) + Effect(w, ys, k)
    decreases |ys|
  {
    if ys == [] {
      assert xs + ys == xs;
    } else {
      var init := ys[..|ys| - 1];
      assert (xs + ys)[..|xs + ys| - 1] == xs + init;
      EffectAppend(w, xs, init, k);
    }
  }

  /** The shares of row `a`, columns `lo .. hi-1`, for body `k`: the forces
      of those columns when `k` is the row itself, the force of the row when
      `k` is one of the columns (by Newton's third law), else nothing. */
  lemma {:induction false} EffectRow(w: (nat, nat) -> real, n: nat, a: nat, lo: nat, hi: nat, k: nat)
    requires Antisymmetric(w, n)
    requires a < lo <= hi <= n && k < n
    ensures Effect(w, Row(a, lo, hi), k) ==
      if a == k then NetPull(w, k, lo, hi)
      else if lo <= k < hi then w(k, a)
      else 0.0
    decreases hi - lo
  {
    if lo < hi {
      var row := Row(a, lo, hi);
      assert row[..|row| - 1] == Row(a, lo, hi - 1);
      assert row[|row| - 1] == (a, hi - 1);
      EffectRow(w, n, a, lo, hi - 1, k);
    }
  }

  /** Before row `k` is reached, the shares of the first `i` rows for body
      `k` are the forces of bodies `0 .. i-1`, each met as the row of a pair
      whose column is `k`. */
  lemma {:induction false} EffectRowsBefore(w: (nat, nat) -> real, n: nat, i: nat, k: nat)
    requires Antisymmetric(w, n)
    requires i <= k < n
    ensures Effect(w, Rows(n, i), k) == NetPull(w, k, 0, i)
  {
    if i > 0 {
      var a := i - 1;
      EffectRowsBefore(w, n, a, k);
      EffectRow(w, n, a, i, n, k);
      assert Rows(n, i) == Rows(n, a) + Row(a, i, n);
      EffectAppend(w, Rows(n, a), Row(a, i, n), k);
      var earlier, last := Effect(w, Rows(n, a), k), Effect(w, Row(a, i, n), k);
      assert earlier == NetPull(w, k, 0, a);
      assert last == w(k, a);
      assert NetPull(w, k, 0, i) == NetPull(w, k, 0, a) + w(k, a);
    }
  }

  /** Once row `k` is done, the shares of the first `i` rows for body `k`
      are the forces of all bodies before `k` and all bodies after it. */
  lemma {:induction false} EffectRowsAfter(w: (nat, nat) -> real, n: nat, i: nat, k: nat)
    requires Antisymmetric(w, n)
    requires k < i <= n
    ensures Effect(w, Rows(n, i), k) == NetPull(w, k, 0, k) + NetPull(w, k, k + 1, n)
  {
    var a := i - 1;
    EffectRow(w, n, a, i, n, k);
    assert Rows(n, i) == Rows(n, a) + Row(a, i, n);
    EffectAppend(w, Rows(n, a), Row(a, i, n), k);
    var earlier, last := Effect(w, Rows(n, a), k), Effect(w, Row(a, i, n), k);
    if a == k {
      EffectRowsBefore(w, n, a, k);
      assert earlier == NetPull(w, k, 0, k);
      assert last == NetPull(w, k, k + 1, n);
    } else {
      EffectRowsAfter(w, n, a, k);
      assert last == 0.0;
    }
  }

  /** The forces over `lo .. hi-1` split at any `mid` in between. */
  lemma {:induction false} NetPullSplit(w: (nat, nat) -> real, k: nat, lo: nat, mid: nat, hi: nat)
    requires lo <= mid <= hi
    ensures NetPull(w, k, lo, hi) == NetPull(w, k, lo, mid) + NetPull(w, k, mid, hi)
    decreases hi - mid
  {
    if mid < hi {
      NetPullSplit(w, k, lo, mid, hi - 1);
    }
  }

  /** Over all pairs of the double loop, the shares for body `k` add up to
      the sum of the forces all other bodies exert on `k`. */
  lemma PairsEffect(w: (nat, nat) -> real, n: nat, k: nat)
    requires Antisymmetric(w, n) && k < n
    ensures Effect(w, Pairs(n), k) == NetPull(w, k, 0, n)
  {
    EffectRowsAfter(w, n, n, k);
    NetPullSplit(w, k, 0, k + 1, n);
  }

  /** One interaction adds its share to the force of every particle. */
  lemma InteractShare(ps: seq<Particle>, dim: nat, w: (nat, nat) -> seq<real>, i: nat, j: nat, k: nat, d: nat)
    requires Uniform(ps, dim) && Sized(w, dim)
    requires i < j < |ps| && k < |ps| && d < dim
    ensures Interact(ps, i, j, w(i, j))[k].f[d] == ps[k].f[d] + Share(Component(w, d), (i, j), k)
  {
  }

  /** Applying a list of interactions adds their shares to each force: the
      force before the sweep is kept and the shares accumulate on it. */
  lemma {:induction false} ApplyPairsEffect(ps: seq<Particle>, dim: nat, pairs: seq<(nat, nat)>, w: (nat, nat) -> seq<real>, k: nat, d: nat)
    requires Uniform(ps, dim) && Sized(w, dim) && Ordered(pairs, |ps|) && k < |ps| && d < dim
    ensures var qs := ApplyPairs(ps, Interaction(w), pairs);
      |qs| == |ps| && Uniform(qs, dim) && qs[k].f[d] == ps[k].f[d] + Effect(Component(w, d), pairs, k)
    decreases |pairs|
  {
    if pairs != [] {
      var init, last := pairs[..|pairs| - 1], pairs[|pairs| - 1];
      ApplyPairsEffect(ps, dim, init, w, k, d);
      InteractShare(ApplyPairs(ps, Interaction(w), init), dim, w, last.0, last.1, k, d);
    }
  }

  /** `update_f` adds to each particle's force, on every axis, the sum of
      the forces all other particles exert on it. The force held before the
      sweep is kept, not reset: the sweep accumulates. */
  lemma ForcePassNet(ps: seq<Particle>, dim: nat, sqrt: real -> real, k: nat, d: nat)
    requires Uniform(ps, dim) && Separated(ps, dim) && RootPositive(sqrt)
    requires k < |ps| && d < dim
    ensures ForcePass(ps, dim, sqrt)[k].f[d] == ps[k].f[d] + NetPull(Field(ps, dim, sqrt, d), k, 0, |ps|)
  {
    ForcePassPairs(ps, dim, sqrt);
    ApplyPairsEffect(ps, dim, Pairs(|ps|), Pulls(ps, dim, sqrt), k, d);
    FieldAntisymmetric(ps, dim, sqrt, d);
    PairsEffect(Field(ps, dim, sqrt, d), |ps|, k);
  }

  /** A force table that agrees with `w` on body `k` gives the same net force. */
  lemma {:induction false} NetPullFrame(w: (nat, nat) -> real, v: (nat, nat) -> real, k: nat, lo: nat, hi: nat)
    requires lo <= hi
    requires forall j: nat :: lo <= j < hi && j != k ==> v(k, j) == w(k, j)
    ensures NetPull(v, k, lo, hi) == NetPull(w, k, lo, hi)
    decreases hi - lo
  {
    if lo < hi {
      NetPullFrame(w, v, k, lo, hi - 1);
    }
  }

  /** Forces are accumulated, never reset: a second force sweep from the
      same positions adds the net force a second time. */
  lemma ForcePassTwice(ps: seq<Particle>, dim: nat, sqrt: real -> real, k: nat, d: nat)
    requires Uniform(ps, dim) && Separated(ps, dim) && RootPositive(sqrt)
    requires k < |ps| && d < dim
    ensures var qs := ForcePass(ps, dim, sqrt);
      ForcePass(qs, dim, sqrt)[k].f[d] == ps[k].f[d] + 2.0 * NetPull(Field(ps, dim, sqrt, d), k, 0, |ps|)
  {
    var qs := ForcePass(ps, dim, sqrt);
    ForcePassNet(ps, dim, sqrt, k, d);
    ForcePassNet(qs, dim, sqrt, k, d);
    var w, v := Field(ps, dim, sqrt, d), Field(qs, dim, sqrt, d);
    forall j: nat | 0 <= j < |ps| && j != k
      ensures v(k, j) == w(k, j)
    {
    }
    NetPullFrame(w, v, k, 0, |ps|);
  }

  /** With two particles the force sweep is a single `include_forces` on
      the pair: the first gains the pull of the second and the second loses
      the same vector. */
  lemma ForcePassTwo(p1: Particle, p2: Particle, dim: nat, sqrt: real -> real)
    requires HasDim(p1, dim) && HasDim(p2, dim) && RootPositive(sqrt)
    requires 0.0 < SqDist(p1.pos, p2.pos)
    ensures Uniform([p1, p2], dim) && Separated([p1, p2], dim)
    ensures var c := Pull(p1.m, p1.pos, p2.m, p2.pos, sqrt);
      ForcePass([p1, p2], dim, sqrt) == [WithAddedForce(p1, c), WithSubtractedForce(p2, c)]
  {
    var ps := [p1, p2];
    SqDistSymmetric(p1.pos, p2.pos);
    assert Separated(ps, dim);
    var w := Pulls(ps, dim, sqrt);
    var act := Interaction(w);
    var c := Pull(p1.m, p1.pos, p2.m, p2.pos, sqrt);
    assert w(0, 1) == c;
    var once := act(ps, 0, 1);
    assert once == Interact(ps, 0, 1, c);
    assert once == [WithAddedForce(p1, c), WithSubtractedForce(p2, c)];
    assert SweptRows(ps, act, 2, 1) == SweepRow(ps, act, 2, 0, 1) == SweepRow(once, act, 2, 0, 2) == once;
    assert SweptRows(ps, act, 2, 2) == SweepRow(once, act, 2, 1, 2) == once;
  }

  /** A lone particle feels no force from the sweep. */
  lemma ForcePassOne(p: Particle, dim: nat, sqrt: real -> real)
    requires HasDim(p, dim) && RootPositive(sqrt)
    ensures Uniform([p], dim) && Separated([p], dim)
    ensures ForcePass([p], dim, sqrt) == [p]
  {
    ForcePassPairs([p], dim, sqrt);
    assert Pairs(1) == [];
  }

  // ---------------------------------------------------------------------------
  // Time stepping

  /** One iteration of the main loop of `run`: the position sweep, then the
      force sweep at the new positions, then the velocity sweep. The force
      sweep needs the new positions to be pairwise distinct. */
  function Step(ps: seq<Particle>, dim: nat, dt: real, sqrt: real -> real): (qs: seq<Particle>)
    requires Uniform(ps, dim) && Massive(ps) && RootPositive(sqrt)
    requires Separated(PosPass(ps, dim, dt), dim)
    ensures |qs| == |ps| && Uniform(qs, dim) && Massive(qs)
  {
    VelPass(ForcePass(PosPass(ps, dim, dt), dim, sqrt), dim, dt)
  }

  /** None of the first `k` steps from `ps` brings two particles onto one
      point, so every force sweep of those steps is defined. */
  predicate StaysApart(ps: seq<Particle>, dim: nat, dt: real, sqrt: real -> real, k: nat)
    requires Uniform(ps, dim) && Massive(ps) && RootPositive(sqrt)
    decreases k, 0
  {
    k == 0 || (StaysApart(ps, dim, dt, sqrt, k - 1) && Separated(PosPass(Iterate(ps, dim, dt, sqrt, k - 1), dim, dt), dim))
  }

  /** The state after `k` steps. */
  function Iterate(ps: seq<Particle>, dim: nat, dt: real, sqrt: real -> real, k: nat): (qs: seq<Particle>)
    requires Uniform(ps, dim) && Massive(ps) && RootPositive(sqrt)
    requires StaysApart(ps, dim, dt, sqrt, k)
    ensures |qs| == |ps| && Uniform(qs, dim) && Massive(qs)
    decreases k, 1
  {
    if k == 0 then ps else Step(Iterate(ps, dim, dt, sqrt, k - 1), dim, dt, sqrt)
  }

  /** Step `k + 1` of a trajectory that stays apart is defined and follows
      step `k`. */
  lemma IterateNext(ps: seq<Particle>, dim: nat, dt: real, sqrt: real -> real, k: nat)
    requires Uniform(ps, dim) && Massive(ps) && RootPositive(sqrt)
    requires StaysApart(ps, dim, dt, sqrt, k + 1)
    ensures StaysApart(ps, dim, dt, sqrt, k)
    ensures Separated(PosPass(Iterate(ps, dim, dt, sqrt, k), dim, dt), dim)
    ensures Iterate(ps, dim, dt, sqrt, k + 1) == Step(Iterate(ps, dim, dt, sqrt, k), dim, dt, sqrt)
  {
  }

  /** Within a trajectory that stays apart for `n` steps, step `k + 1 <= n`
      is defined and follows step `k`. */
  lemma Advance(ps: seq<Particle>, dim: nat, dt: real, sqrt: real -> real, k: nat, n: nat)
    requires Uniform(ps, dim) && Massive(ps) && RootPositive(sqrt)
    requires k < n && StaysApart(ps, dim, dt, sqrt, n)
    ensures StaysApart(ps, dim, dt, sqrt, k + 1) && StaysApart(ps, dim, dt, sqrt, k)
    ensures Separated(PosPass(Iterate(ps, dim, dt, sqrt, k), dim, dt), dim)
    ensures Iterate(ps, dim, dt, sqrt, k + 1) == Step(Iterate(ps, dim, dt, sqrt, k), dim, dt, sqrt)
  {
    StaysApartFewer(ps, dim, dt, sqrt, k + 1, n);
    IterateNext(ps, dim, dt, sqrt, k);
  }

  /** A trajectory that stays apart for `k` steps stays apart for fewer. */
  lemma {:induction false} StaysApartFewer(ps: seq<Particle>, dim: nat, dt: real, sqrt: real -> real, j: nat, k: nat)
    requires Uniform(ps, dim) && Massive(ps) && RootPositive(sqrt)
    requires j <= k && StaysApart(ps, dim, dt, sqrt, k)
    ensures StaysApart(ps, dim, dt, sqrt, j)
    decreases k - j
  {
    if j < k {
      StaysApartFewer(ps, dim, dt, sqrt, j, k - 1);
    }
  }

  // ---------------------------------------------------------------------------
  // A lone particle

  /** A lone particle never meets another one, so its trajectory is defined
      for any number of steps. */
  lemma {:induction false} LoneStaysApart(p: Particle, dim: nat, dt: real, sqrt: real -> real, k: nat)
    requires HasDim(p, dim) && p.m != 0.0 && RootPositive(sqrt)
    ensures Uniform([p], dim) && Massive([p])
    ensures StaysApart([p], dim, dt, sqrt, k)
    ensures |Iterate([p], dim, dt, sqrt, k)| == 1
  {
    if k > 0 {
      LoneStaysApart(p, dim, dt, sqrt, k - 1);
    }
  }

  /** One step of a lone particle is a velocity-Verlet step under its own,
      unchanged force: the position gains `dt*(v + dt*(0.5/m)*f)`, the force
      is kept and snapshotted, and the velocity gains `dt/m*f` (the kick of
      a steady force, since the snapshot makes `fOld` equal to `f`). */
  lemma LoneStep(p: Particle, dim: nat, dt: real, sqrt: real -> real)
    requires HasDim(p, dim) && p.m != 0.0 && RootPositive(sqrt)
    ensures Uniform([p], dim) && Massive([p]) && Separated(PosPass([p], dim, dt), dim)
    ensures |Step([p], dim, dt, sqrt)| == 1
    ensures var q := Step([p], dim, dt, sqrt)[0];
      q.m == p.m && q.f == p.f && q.fOld == p.f && HasDim(q, dim) &&
      (forall d :: 0 <= d < dim ==> q.pos[d] == p.pos[d] + dt * (p.v[d] + dt * (0.5 / p.m) * p.f[d])) &&
      (forall d :: 0 <= d < dim ==> q.v[d] == p.v[d] + dt / p.m * p.f[d])
  {
    var r := Snapshot(Advanced(p, dt));
    assert PosPass([p], dim, dt) == [r];
    ForcePassOne(r, dim, sqrt);
    SteadyForceKick(r, dt);
  }

  /** A particle coasting for time `t`: every coordinate moves by `t*v`. */
  function Drift(p: Particle, dim: nat, t: real): (q: Particle)
    requires HasDim(p, dim)
    ensures q.m == p.m && q.v == p.v && q.f == p.f && q.fOld == p.fOld && HasDim(q, dim)
    ensures forall d :: 0 <= d < dim ==> q.pos[d] == p.pos[d] + t * p.v[d]
  {
    p.(pos := seq(dim, d requires 0 <= d < dim => p.pos[d] + t * p.v[d]))
  }

  /** Coasting for `s` and then for `t` is coasting for `s + t`. */
  lemma DriftTwice(p: Particle, dim: nat, s: real, t: real)
    requires HasDim(p, dim)
    ensures Drift(Drift(p, dim, s), dim, t) == Drift(p, dim, s + t)
  {
    var a, b := Drift(Drift(p, dim, s), dim, t), Drift(p, dim, s + t);
    assert forall d :: 0 <= d < dim ==> a.pos[d] == b.pos[d];
  }

  /** With no force, now or before, one step moves a lone particle in a
      straight line by `dt*v` and leaves its velocity alone. */
  lemma FreeStep(p: Particle, dim: nat, dt: real, sqrt: real -> real)
    requires HasDim(p, dim) && p.m != 0.0 && RootPositive(sqrt)
    requires p.f == Zero(dim) && p.fOld == Zero(dim)
    ensures Uniform([p], dim) && Massive([p]) && Separated(PosPass([p], dim, dt), dim)
    ensures Step([p], dim, dt, sqrt) == [Drift(p, dim, dt)]
  {
    LoneStep(p, dim, dt, sqrt);
    var q, e := Step([p], dim, dt, sqrt)[0], Drift(p, dim, dt);
    assert q.pos == e.pos;
    assert q.v == e.v;
  }

  /** A force-free lone particle moves in a straight line at constant
      velocity for any number of steps: after `k` steps it has coasted for
      time `k*dt`. */
  lemma {:induction false} FreeParticle(p: Particle, dim: nat, dt: real, sqrt: real -> real, k: nat)
    requires HasDim(p, dim) && p.m != 0.0 && RootPositive(sqrt)
    requires p.f == Zero(dim) && p.fOld == Zero(dim)
    ensures Uniform([p], dim) && Massive([p]) && StaysApart([p], dim, dt, sqrt, k)
    ensures Iterate([p], dim, dt, sqrt, k) == [Drift(p, dim, k as real * dt)]
  {
    LoneStaysApart(p, dim, dt, sqrt, k);
    if k == 0 {
      assert Drift(p, dim, 0.0).pos == p.pos;
    } else {
      var km: nat := k - 1;
      FreeParticle(p, dim, dt, sqrt, km);
      var r := Drift(p, dim, km as real * dt);
      FreeStep(r, dim, dt, sqrt);
      DriftTwice(p, dim, km as real * dt, dt);
      var u := km as real * dt + dt;
      assert u == k as real * dt;
      assert Iterate([p], dim, dt, sqrt, k) == Step([r], dim, dt, sqrt);
    }
  }

  /** What `run` makes of a lone, force-free particle: the initial force
      sweep leaves it alone, and after any number `n` of loop iterations
      (`run` does `StepCount(tEnd, dt)` of them) it has coasted for `n*dt`. */
  lemma FreeRun(p: Particle, dim: nat, dt: real, sqrt: real -> real, n: nat)
    requires HasDim(p, dim) && p.m != 0.0 && RootPositive(sqrt)
    requires p.f == Zero(dim) && p.fOld == Zero(dim)
    ensures Uniform([p], dim) && Separated([p], dim) && ForcePass([p], dim, sqrt) == [p]
    ensures StaysApart([p], dim, dt, sqrt, n)
    ensures Iterate(ForcePass([p], dim, sqrt), dim, dt, sqrt, n) == [Drift(p, dim, n as real * dt)]
  {
    ForcePassOne(p, dim, sqrt);
    FreeParticle(p, dim, dt, sqrt, n);
    assert Iterate(ForcePass([p], dim, sqrt), dim, dt, sqrt, n) == Iterate([p], dim, dt, sqrt, n);
  }

  // ---------------------------------------------------------------------------
  // The clock

  /** The clock of `run` after `k` steps: the time starts at zero and
      every step adds `dt` to it. */
  function Elapsed(k: nat, dt: real): real {
    if k == 0 then 0.0 else Elapsed(k - 1, dt) + dt
  }

  /** Adding `dt` to zero `k` times gives `k*dt`. */
  lemma {:induction false} ElapsedProduct(k: nat, dt: real)
    ensures Elapsed(k, dt) == k as real * dt
  {
    if k > 0 {
      ElapsedProduct(k - 1, dt);
      assert (k - 1) as real * dt + dt == k as real * dt;
    }
  }

  /** The number of iterations of the main loop of `run`: the loop adds `dt`
      to a time that starts at zero until it reaches `tEnd`, so it runs the
      least `n` with `n*dt >= tEnd` times. A loop that never reaches `tEnd`
      (`dt <= 0 < tEnd`) does not end and is excluded. */
  function StepCount(tEnd: real, dt: real): (n: nat)
    requires 0.0 < dt || tEnd <= 0.0
    ensures tEnd <= Elapsed(n, dt)
    ensures n == 0 || Elapsed(n - 1, dt) < tEnd
  {
    if tEnd <= 0.0 then 0
    else
      var q := tEnd / dt;
      var up := if q.Floor as real == q then q.Floor else q.Floor + 1;
      assert (up - 1) as real < q <= up as real;
      CeilingSteps(tEnd, dt, up);
      ElapsedProduct(up, dt);
      ElapsedProduct(up - 1, dt);
      up
  }

  /** `n` steps of size `dt` reach `tEnd` and `n - 1` do not when `n` is the
      ceiling of `tEnd / dt`. */
  lemma CeilingSteps(tEnd: real, dt: real, n: int)
    requires 0.0 < dt && (n - 1) as real < tEnd / dt <= n as real
    ensures tEnd <= n as real * dt && (n - 1) as real * dt < tEnd
  {
    var q, below, above := tEnd / dt, (n - 1) as real, n as real;
    assert q * dt == tEnd;
    ScaleStrict(below, q, dt);
    assert below * dt < tEnd;
    if q < above {
      ScaleStrict(q, above, dt);
    }
    assert tEnd <= above * dt;
  }

  /** Scaling by a positive factor keeps a strict order. */
  lemma ScaleStrict(a: real, b: real, dt: real)
    requires a < b && 0.0 < dt
    ensures a * dt < b * dt
  {
    assert (b - a) * dt > 0.0;
  }

  /** `StepCount` is the least number of steps that reaches `tEnd`: fewer
      steps fall short of it, and with a positive step any number of steps
      from `StepCount` on reaches it. */
  lemma StepCountLeast(tEnd: real, dt: real, k: nat)
    requires 0.0 < dt || tEnd <= 0.0
    ensures k < StepCount(tEnd, dt) ==> Elapsed(k, dt) < tEnd
    ensures 0.0 < dt ==> (tEnd <= Elapsed(k, dt) <==> StepCount(tEnd, dt) <= k)
  {
    var n := StepCount(tEnd, dt);
    ElapsedProduct(k, dt);
    if k < n {
      ElapsedProduct(n - 1, dt);
      ShortEarlier(tEnd, dt, k as real, (n - 1) as real);
    } else if 0.0 < dt {
      ElapsedProduct(n, dt);
      ReachesLater(tEnd, dt, n as real, k as real);
    }
  }

  /** The clock of `run`: while the time is below `tEnd` fewer than
      `StepCount` steps are done, and once it reaches `tEnd` exactly
      `StepCount` steps are done. */
  lemma Clock(tEnd: real, dt: real, k: nat)
    requires 0.0 < dt || tEnd <= 0.0
    requires k <= StepCount(tEnd, dt)
    ensures Elapsed(k, dt) < tEnd ==> k < StepCount(tEnd, dt)
    ensures tEnd <= Elapsed(k, dt) ==> k == StepCount(tEnd, dt)
  {
    StepCountLeast(tEnd, dt, k);
  }

  /** Fewer steps than a number that falls short fall short too. */
  lemma ShortEarlier(tEnd: real, dt: real, a: real, b: real)
    requires 0.0 < dt && a <= b && b * dt < tEnd
    ensures a * dt < tEnd
  {
    if a < b {
      ScaleStrict(a, b, dt);
    }
  }

  /** More steps than a number that reaches `tEnd` reach it too. */
  lemma ReachesLater(tEnd: real, dt: real, a: real, b: real)
    requires 0.0 < dt && a <= b && tEnd <= a * dt
    ensures tEnd <= b * dt
  {
    if a < b {
      ScaleStrict(a, b, dt);
    }
  }
}
