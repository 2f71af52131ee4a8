/**
 * The physics of `Orbit.step` on plain values: the all-pairs force pass of
 * `Orbit.solve` and the explicit Euler update of `Mass.step`, over snapshots
 * of the bodies. The classes in simulation.dfy are proved to compute exactly
 * these functions; the lemmas here state what they mean.
 */
module Physics {
  import opened Host
  import opened Vectors

  /** RGBA tint, `[1, 1, 1, 1]` unless the caller sets another. */
  datatype Color = Rgba(r: real, g: real, b: real, a: real)

  const White: Color := Rgba(1.0, 1.0, 1.0, 1.0)

  /** The fields of one `Mass` at one moment. */
  datatype Body = Body(
    position: Vec3,
    velocity: Vec3,
    force: Vec3,
    mass: real,
    imageFilename: string,
    color: Color,
    rotation: real,
    spin: real,
    frozen: bool)

  /** Every body can be divided by its mass, as `Mass.step` does. */
  predicate ValidBodies(bs: seq<Body>) {
    forall i :: 0 <= i < |bs| ==> bs[i].mass != 0.0
  }

  /** No body is frozen. */
  predicate AllFree(bs: seq<Body>) {
    forall i :: 0 <= i < |bs| ==> !bs[i].frozen
  }

  /**
   * The force pass divides by the squared distance from every unfrozen body
   * to every other body; this says none of those distances is zero.
   */
  predicate Separated(bs: seq<Body>) {
    forall i, j :: 0 <= i < |bs| && 0 <= j < |bs| && i != j && !bs[i].frozen ==>
      DistSquared(Sub(bs[j].position, bs[i].position)) != 0.0
  }

  /**
   * The pull of `from` on `on`: magnitude `m1 * m2 / |d|^2` along the unit
   * vector of `d = from.position - on.position`.
   */
  function Contribution(on: Body, from: Body, sqrt: real -> real): Vec3
    requires SqrtNonZero(sqrt)
    requires DistSquared(Sub(from.position, on.position)) != 0.0
  {
    var difference := Sub(from.position, on.position);
    Scale(Normalize(difference, sqrt), Gravity(on.mass, from.mass, difference))
  }

  /** Newton's inverse-square magnitude for two masses `difference` apart. */
  function Gravity(m1: real, m2: real, difference: Vec3): real
    requires DistSquared(difference) != 0.0
  {
    (m1 * m2) / DistSquared(difference)
  }

  /**
   * Newton's third law, although the source evaluates each pair twice: the
   * pull of `b` on `a` is exactly the negation of the pull of `a` on `b`.
   */
  lemma ContributionAntisymmetric(a: Body, b: Body, sqrt: real -> real)
    requires SqrtNonZero(sqrt)
    requires DistSquared(Sub(b.position, a.position)) != 0.0
    ensures DistSquared(Sub(a.position, b.position)) != 0.0
    ensures Contribution(b, a, sqrt) == Neg(Contribution(a, b, sqrt))
  {
    var d := Sub(b.position, a.position);
    SubAntisymmetric(a.position, b.position);
    DistEven(d, sqrt);
    NormalizeOdd(d, sqrt);
    var gravity := Gravity(a.mass, b.mass, d);
    assert Gravity(b.mass, a.mass, Neg(d)) == gravity;
    ScaleNeg(Normalize(d, sqrt), gravity);
  }

  /**
   * The force accumulated on body `i` after the inner loop of the force pass
   * has visited bodies `0 .. n-1`, starting from the zero vector that
   * `Mass.initialize` stores and skipping the body itself.
   */
  function PartialForce(bs: seq<Body>, i: nat, n: nat, sqrt: real -> real): Vec3
    requires i < |bs| && n <= |bs| && !bs[i].frozen
    requires Separated(bs) && SqrtNonZero(sqrt)
    decreases n
  {
    if n == 0 then Zero
    else if n - 1 == i then PartialForce(bs, i, n - 1, sqrt)
    else Add(PartialForce(bs, i, n - 1, sqrt), Contribution(bs[i], bs[n - 1], sqrt))
  }

  /** The net force on an unfrozen body: the sum of the pulls of all the others. */
  function NetForce(bs: seq<Body>, i: nat, sqrt: real -> real): Vec3
    requires i < |bs| && !bs[i].frozen
    requires Separated(bs) && SqrtNonZero(sqrt)
  {
    PartialForce(bs, i, |bs|, sqrt)
  }

  /**
   * The bodies after `Orbit.solve`: each unfrozen body carries its net force,
   * and nothing else about any body changes.
   */
  function Solved(bs: seq<Body>, sqrt: real -> real): (r: seq<Body>)
    requires Separated(bs) && SqrtNonZero(sqrt)
    ensures |r| == |bs|
    ensures forall i :: 0 <= i < |bs| ==> r[i] == bs[i].(force := r[i].force)
    ensures forall i :: 0 <= i < |bs| && bs[i].frozen ==> r[i] == bs[i]
  {
    seq(|bs|, i requires 0 <= i < |bs| =>
      if bs[i].frozen then bs[i] else bs[i].(force := NetForce(bs, i, sqrt)))
  }

  /** A mass with nothing else in the simulation ends the force pass with zero force. */
  lemma LoneMassFeelsNothing(b: Body, sqrt: real -> real)
    requires SqrtNonZero(sqrt) && !b.frozen
    ensures Separated([b])
    ensures Solved([b], sqrt)[0].force == Zero
  {
    assert PartialForce([b], 0, 1, sqrt) == PartialForce([b], 0, 0, sqrt);
  }

  /** Sum of the forces of the first `m` bodies. */
  function TotalForce(bs: seq<Body>, m: nat): Vec3
    requires m <= |bs|
  {
    if m == 0 then Zero else Add(TotalForce(bs, m - 1), bs[m - 1].force)
  }

  /** Sum over `i < m` of the pull of body `k` on body `i`. */
  function ColumnSum(bs: seq<Body>, k: nat, m: nat, sqrt: real -> real): Vec3
    requires m <= k < |bs| && AllFree(bs) && Separated(bs) && SqrtNonZero(sqrt)
  {
    if m == 0 then Zero
    else Add(ColumnSum(bs, k, m - 1, sqrt), Contribution(bs[m - 1], bs[k], sqrt))
  }

  /** Sum over `i < m` of the force on body `i` from bodies `0 .. n-1`. */
  function RowSums(bs: seq<Body>, m: nat, n: nat, sqrt: real -> real): Vec3
    requires m <= |bs| && n <= |bs| && AllFree(bs) && Separated(bs) && SqrtNonZero(sqrt)
  {
    if m == 0 then Zero
    else Add(RowSums(bs, m - 1, n, sqrt), PartialForce(bs, m - 1, n, sqrt))
  }

  /** Letting body `n` into the inner loop adds its pull on each of the first `m` bodies. */
  lemma {:induction false} RowSumsExtend(bs: seq<Body>, m: nat, n: nat, sqrt: real -> real)
    requires m <= n < |bs| && AllFree(bs) && Separated(bs) && SqrtNonZero(sqrt)
    ensures RowSums(bs, m, n + 1, sqrt) == Add(RowSums(bs, m, n, sqrt), ColumnSum(bs, n, m, sqrt))
  {
    if m > 0 {
      RowSumsExtend(bs, m - 1, n, sqrt);
      assert PartialForce(bs, m - 1, n + 1, sqrt)
          == Add(PartialForce(bs, m - 1, n, sqrt), Contribution(bs[m - 1], bs[n], sqrt));
    }
  }

  /** The pulls of body `k` on the first `m` bodies cancel their pulls on `k`. */
  lemma {:induction false} CrossCancel(bs: seq<Body>, k: nat, m: nat, sqrt: real -> real)
    requires m <= k < |bs| && AllFree(bs) && Separated(bs) && SqrtNonZero(sqrt)
    ensures Add(ColumnSum(bs, k, m, sqrt), PartialForce(bs, k, m, sqrt)) == Zero
  {
    if m > 0 {
      CrossCancel(bs, k, m - 1, sqrt);
      ContributionAntisymmetric(bs[m - 1], bs[k], sqrt);
    }
  }

  /** Among the first `n` bodies the forces they exert on each other sum to zero. */
  lemma {:induction false} PairwiseCancel(bs: seq<Body>, n: nat, sqrt: real -> real)
    requires n <= |bs| && AllFree(bs) && Separated(bs) && SqrtNonZero(sqrt)
    ensures RowSums(bs, n, n, sqrt) == Zero
  {
    if n > 0 {
      var k := n - 1;
      PairwiseCancel(bs, k, sqrt);
      RowSumsExtend(bs, k, k, sqrt);
      CrossCancel(bs, k, k, sqrt);
      assert PartialForce(bs, k, n, sqrt) == PartialForce(bs, k, k, sqrt);
    }
  }

  lemma {:induction false} TotalOfSolved(bs: seq<Body>, m: nat, sqrt: real -> real)
    requires m <= |bs| && AllFree(bs) && Separated(bs) && SqrtNonZero(sqrt)
    ensures TotalForce(Solved(bs, sqrt), m) == RowSums(bs, m, |bs|, sqrt)
  {
    if m > 0 {
      TotalOfSolved(bs, m - 1, sqrt);
      var solved := Solved(bs, sqrt);
      assert solved[m - 1].force == NetForce(bs, m - 1, sqrt);
      assert TotalForce(solved, m) == Add(TotalForce(solved, m - 1), solved[m - 1].force);
    }
  }

  /** When no body is frozen the forces left by the force pass sum to zero. */
  lemma ForcesCancel(bs: seq<Body>, sqrt: real -> real)
    requires AllFree(bs) && Separated(bs) && SqrtNonZero(sqrt)
    ensures TotalForce(Solved(bs, sqrt), |bs|) == Zero
  {
    TotalOfSolved(bs, |bs|, sqrt);
    PairwiseCancel(bs, |bs|, sqrt);
  }

  /**
   * `Mass.step`: the body turns by `spin * dt`; unless frozen it moves with its
   * old velocity and then accelerates by `force / mass`.
   */
  function StepBody(b: Body, dt: real): Body
    requires b.mass != 0.0
  {
    var turned := b.(rotation := b.rotation + b.spin * dt);
    if b.frozen then turned
    else turned.(
      position := Add(b.position, Scale(b.velocity, dt)),
      velocity := Add(b.velocity, Scale(Scale(b.force, 1.0 / b.mass), dt)))
  }

  /** Every body stepped by the same `dt`, as the loop in `Orbit.step` does. */
  function Advance(bs: seq<Body>, dt: real): (r: seq<Body>)
    requires ValidBodies(bs)
    ensures |r| == |bs| && ValidBodies(r)
    ensures forall i :: 0 <= i < |bs| ==>
      r[i].mass == bs[i].mass && r[i].spin == bs[i].spin && r[i].frozen == bs[i].frozen &&
      r[i].force == bs[i].force && r[i].imageFilename == bs[i].imageFilename && r[i].color == bs[i].color
  {
    seq(|bs|, i requires 0 <= i < |bs| => StepBody(bs[i], dt))
  }

  /** One tick of the physics: the force pass, then every body stepped by `dt`. */
  function Tick(bs: seq<Body>, dt: real, sqrt: real -> real): (r: seq<Body>)
    requires ValidBodies(bs) && Separated(bs) && SqrtNonZero(sqrt)
    ensures |r| == |bs| && ValidBodies(r)
    ensures forall i :: 0 <= i < |bs| ==>
      r[i].mass == bs[i].mass && r[i].spin == bs[i].spin && r[i].frozen == bs[i].frozen
  {
    Advance(Solved(bs, sqrt), dt)
  }

  /** In a list of two unfrozen bodies, the net force on each is the pull of the other. */
  lemma PairForces(b0: Body, b1: Body, sqrt: real -> real)
    requires SqrtNonZero(sqrt) && !b0.frozen && !b1.frozen && Separated([b0, b1])
    ensures DistSquared(Sub(b1.position, b0.position)) != 0.0
    ensures DistSquared(Sub(b0.position, b1.position)) != 0.0
    ensures NetForce([b0, b1], 0, sqrt) == Contribution(b0, b1, sqrt)
    ensures NetForce([b0, b1], 1, sqrt) == Contribution(b1, b0, sqrt)
  {
    var bs := [b0, b1];
    assert bs[0] == b0 && bs[1] == b1;
    assert PartialForce(bs, 0, 1, sqrt) == Zero;
    assert PartialForce(bs, 1, 1, sqrt) == Add(Zero, Contribution(b1, b0, sqrt));
  }

  /** Mirrored unfrozen bodies of equal mass under mirrored forces step to mirrored bodies. */
  lemma StepMirror(b0: Body, b1: Body, dt: real)
    requires b0.mass == b1.mass && b0.mass != 0.0 && !b0.frozen && !b1.frozen
    requires b1.position == Neg(b0.position) && b1.velocity == Neg(b0.velocity) && b1.force == Neg(b0.force)
    ensures StepBody(b1, dt).position == Neg(StepBody(b0, dt).position)
    ensures StepBody(b1, dt).velocity == Neg(StepBody(b0, dt).velocity)
  {
    ScaleNeg(b0.velocity, dt);
    ScaleNeg(b0.force, 1.0 / b0.mass);
    ScaleNeg(Scale(b0.force, 1.0 / b0.mass), dt);
  }

  /**
   * Two equal masses placed symmetrically about the origin with opposite
   * velocities stay symmetric after a tick.
   */
  lemma SymmetricPairStaysSymmetric(b0: Body, b1: Body, dt: real, sqrt: real -> real)
    requires SqrtNonZero(sqrt)
    requires b0.mass == b1.mass && b0.mass != 0.0 && !b0.frozen && !b1.frozen
    requires b1.position == Neg(b0.position) && b1.velocity == Neg(b0.velocity)
    requires Separated([b0, b1])
    ensures ValidBodies([b0, b1])
    ensures var t := Tick([b0, b1], dt, sqrt);
      t[1].position == Neg(t[0].position) && t[1].velocity == Neg(t[0].velocity)
  {
    var bs := [b0, b1];
    PairForces(b0, b1, sqrt);
    ContributionAntisymmetric(b0, b1, sqrt);
    var s := Solved(bs, sqrt);
    assert s[0] == b0.(force := Contribution(b0, b1, sqrt));
    assert s[1] == b1.(force := Contribution(b1, b0, sqrt));
    StepMirror(s[0], s[1], dt);
  }

  /** Sum of `mass * velocity` over the first `m` bodies. */
  function Momentum(bs: seq<Body>, m: nat): Vec3
    requires m <= |bs|
  {
    if m == 0 then Zero else Add(Momentum(bs, m - 1), Scale(bs[m - 1].velocity, bs[m - 1].mass))
  }

  /** One component of an Euler velocity update, weighed by the mass. */
  lemma ImpulseComponent(v: real, f: real, mass: real, dt: real)
    requires mass != 0.0
    ensures (v + (f * (1.0 / mass)) * dt) * mass == v * mass + f * dt
  {
    assert (1.0 / mass) * mass == 1.0;
    assert (v + (f * (1.0 / mass)) * dt) * mass == v * mass + f * dt * ((1.0 / mass) * mass);
  }

  /** A step of an unfrozen body adds `force * dt` to its momentum. */
  lemma StepImpulse(b: Body, dt: real)
    requires b.mass != 0.0 && !b.frozen
    ensures Scale(StepBody(b, dt).velocity, b.mass) == Add(Scale(b.velocity, b.mass), Scale(b.force, dt))
  {
    ImpulseComponent(b.velocity.x, b.force.x, b.mass, dt);
    ImpulseComponent(b.velocity.y, b.force.y, b.mass, dt);
    ImpulseComponent(b.velocity.z, b.force.z, b.mass, dt);
  }

  /** Scaling distributes over a sum of vectors. */
  lemma ScaleAdd(u: Vec3, w: Vec3, k: real)
    ensures Scale(Add(u, w), k) == Add(Scale(u, k), Scale(w, k))
  {
    assert (u.x + w.x) * k == u.x * k + w.x * k;
    assert (u.y + w.y) * k == u.y * k + w.y * k;
    assert (u.z + w.z) * k == u.z * k + w.z * k;
  }

  /** A zero total force adds nothing to the momentum. */
  lemma NoImpulse(p: Vec3, f: Vec3, dt: real)
    requires f == Zero
    ensures Add(p, Scale(f, dt)) == p
  {
  }

  /** Over the first `m` bodies a tick adds `dt` times the total force to the momentum. */
  lemma {:induction false} MomentumAfterTick(bs: seq<Body>, dt: real, sqrt: real -> real, m: nat)
    requires ValidBodies(bs) && AllFree(bs) && Separated(bs) && SqrtNonZero(sqrt) && m <= |bs|
    ensures Momentum(Tick(bs, dt, sqrt), m) == Add(Momentum(bs, m), Scale(TotalForce(Solved(bs, sqrt), m), dt))
  {
    var s := Solved(bs, sqrt);
    if m == 0 {
      assert Scale(Zero, dt) == Zero;
    } else {
      MomentumAfterTick(bs, dt, sqrt, m - 1);
      var t := Tick(bs, dt, sqrt);
      assert t[m - 1] == StepBody(s[m - 1], dt);
      StepImpulse(s[m - 1], dt);
      ScaleAdd(TotalForce(s, m - 1), s[m - 1].force, dt);
    }
  }

  /** When no body is frozen a tick keeps the total momentum. */
  lemma MomentumConserved(bs: seq<Body>, dt: real, sqrt: real -> real)
    requires ValidBodies(bs) && AllFree(bs) && Separated(bs) && SqrtNonZero(sqrt)
    ensures Momentum(Tick(bs, dt, sqrt), |bs|) == Momentum(bs, |bs|)
  {
    ForcesCancel(bs, sqrt);
    MomentumAfterTick(bs, dt, sqrt, |bs|);
    NoImpulse(Momentum(bs, |bs|), TotalForce(Solved(bs, sqrt), |bs|), dt);
  }

  /**
   * Ticks with the time steps `dts` in turn; `None` when a tick would divide
   * by a zero distance, where the source produces NaN.
   */
  ghost function Run(bs: seq<Body>, dts: seq<real>, sqrt: real -> real): (r: Option<seq<Body>>)
    requires ValidBodies(bs) && SqrtNonZero(sqrt)
    ensures r.Some? ==> |r.value| == |bs| && ValidBodies(r.value)
    decreases |dts|
  {
    if dts == [] then Some(bs)
    else if !Separated(bs) then None
    else Run(Tick(bs, dts[0], sqrt), dts[1..], sqrt)
  }

  function Sum(dts: seq<real>): real {
    if dts == [] then 0.0 else dts[0] + Sum(dts[1..])
  }

  /**
   * A frozen body keeps its position, velocity and force through any number
   * of ticks, while its rotation advances by `spin` times the elapsed time.
   */
  lemma {:induction false} FrozenBodyStaysPut(bs: seq<Body>, dts: seq<real>, sqrt: real -> real, i: nat)
    requires ValidBodies(bs) && SqrtNonZero(sqrt) && i < |bs| && bs[i].frozen
    requires Run(bs, dts, sqrt).Some?
    ensures var r := Run(bs, dts, sqrt).value;
      && r[i].position == bs[i].position
      && r[i].velocity == bs[i].velocity
      && r[i].force == bs[i].force
      && r[i].frozen
      && r[i].rotation == bs[i].rotation + bs[i].spin * Sum(dts)
    decreases |dts|
  {
    if dts != [] {
      assert Separated(bs);
      var t := Tick(bs, dts[0], sqrt);
      assert Run(bs, dts, sqrt) == Run(t, dts[1..], sqrt);
      assert t[i] == StepBody(bs[i], dts[0]);
      FrozenBodyStaysPut(t, dts[1..], sqrt, i);
      var s := bs[i].spin;
      assert Sum(dts) == dts[0] + Sum(dts[1..]);
      assert s * Sum(dts) == s * dts[0] + s * Sum(dts[1..]);
    }
  }

  /**
   * A body alone in the simulation feels no force, so any sequence of ticks
   * moves it in a straight line: its position advances by its velocity times
   * the total elapsed time however that time is split into steps.
   */
  lemma {:induction false} LoneBodyDrifts(b: Body, dts: seq<real>, sqrt: real -> real)
    requires SqrtNonZero(sqrt) && b.mass != 0.0 && !b.frozen
    ensures Run([b], dts, sqrt).Some?
    ensures var r := Run([b], dts, sqrt).value[0];
      && r.position == Add(b.position, Scale(b.velocity, Sum(dts)))
      && r.velocity == b.velocity
    decreases |dts|
  {
    if dts == [] {
      assert Scale(b.velocity, 0.0) == Zero;
    } else {
      LoneMassFeelsNothing(b, sqrt);
      var t := Tick([b], dts[0], sqrt);
      var b' := t[0];
      assert b' == StepBody(Solved([b], sqrt)[0], dts[0]);
      assert b'.velocity == b.velocity;
      assert b'.position == Add(b.position, Scale(b.velocity, dts[0]));
      assert t == [b'];
      LoneBodyDrifts(b', dts[1..], sqrt);
      ScaleDistributes(b.velocity, dts[0], Sum(dts[1..]));
    }
  }
}
