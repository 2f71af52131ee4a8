/**
 * The simulation objects: a `Mass` whose fields its methods update in
 * place, and the `Orbit` that owns the list of masses, runs the force pass,
 * steps every mass, sorts the list into painter's order and draws it. The
 * physics methods are proved to compute the functions of module Physics
 * (`StepBody`, `Advance`, `NetForce`, `Solved`, `Tick`); construction is
 * tied to `NewBody` and drawing to `DrawOf`/`DrawsOf` below; the depth sort
 * states its order and permutation directly.
 */
module Simulation {
  import opened Host
  import opened Vectors
  import opened Matrices
  import opened Physics
  import opened Render

  const DefaultImage: string := "planet128.png"

  /**
   * The body `new Mass(position, velocity, mass, imageFilename)` builds:
   * missing arguments, a zero mass and an empty file name fall back to
   * their defaults. `rotationDraw` and `spinDraw` are the two random draws
   * in [0, 1) that pick the starting rotation and the spin.
   */
  function NewBody(position: Option<Vec3>, velocity: Option<Vec3>, mass: Option<real>,
                   imageFilename: Option<string>, rotationDraw: real, spinDraw: real): (b: Body)
    ensures b.mass != 0.0 && b.force == Zero && b.color == White && !b.frozen
    ensures b.position == (if position.Some? then position.value else Zero)
    ensures b.velocity == (if velocity.Some? then velocity.value else Zero)
    ensures mass.Some? && mass.value != 0.0 ==> b.mass == mass.value
    ensures mass.None? || mass.value == 0.0 ==> b.mass == 1.0
    ensures imageFilename.Some? && |imageFilename.value| > 0 ==> b.imageFilename == imageFilename.value
    ensures imageFilename.None? || |imageFilename.value| == 0 ==> b.imageFilename == DefaultImage
    ensures |b.imageFilename| > 0
  {
    Body(
      position.GetOr(Zero),
      velocity.GetOr(Zero),
      Zero,
      if mass.None? || mass.value == 0.0 then 1.0 else mass.value,
      if imageFilename.None? || |imageFilename.value| == 0 then DefaultImage else imageFilename.value,
      White,
      rotationDraw * (PI * 2.0),
      spinDraw * (PI * 2.0) * 2.0 - PI * 2.0,
      false)
  }

  /**
   * Draws in [0, 1) put the starting rotation in [0, 2 pi) and the spin in
   * [-2 pi, 2 pi).
   */
  lemma DrawnAngles(position: Option<Vec3>, velocity: Option<Vec3>, mass: Option<real>,
                    imageFilename: Option<string>, rotationDraw: real, spinDraw: real)
    requires 0.0 <= rotationDraw < 1.0 && 0.0 <= spinDraw < 1.0
    ensures var b := NewBody(position, velocity, mass, imageFilename, rotationDraw, spinDraw);
      0.0 <= b.rotation < 2.0 * PI && -2.0 * PI <= b.spin < 2.0 * PI
  {
  }

  /**
   * `randomVector(magnitude)` in the add-planet handler: a vector of length
   * `magnitude` in direction (cos a, -sin a, sin a) for the angle
   * a = draw * 2 pi, so it always lies in the plane y = -z.
   */
  function RandomVector(magnitude: real, draw: real, math: Math): (v: Vec3)
    ensures v.y == -v.z
  {
    var a := draw * PI * 2.0;
    var sine := math.sin(a);
    assert (-sine) * magnitude == -(sine * magnitude);
    Vec3(math.cos(a) * magnitude, (-sine) * magnitude, sine * magnitude)
  }

  class Mass {
    var position: Vec3
    var velocity: Vec3
    var force: Vec3
    var mass: real
    var imageFilename: string
    var color: Color
    var rotation: real
    var spin: real
    var frozen: bool

    /** The current field values as a value. */
    ghost function State(): Body
      reads this
    {
      Body(position, velocity, force, mass, imageFilename, color, rotation, spin, frozen)
    }

    constructor(position: Option<Vec3>, velocity: Option<Vec3>, mass: Option<real>,
                imageFilename: Option<string>, rotationDraw: real, spinDraw: real)
      ensures State() == NewBody(position, velocity, mass, imageFilename, rotationDraw, spinDraw)
    {
      this.position := position.GetOr(Zero);
      this.velocity := velocity.GetOr(Zero);
      this.force := Zero;
      this.mass := if mass.None? || mass.value == 0.0 then 1.0 else mass.value;
      this.imageFilename := if imageFilename.None? || |imageFilename.value| == 0 then DefaultImage else imageFilename.value;
      this.color := White;
      this.rotation := rotationDraw * (PI * 2.0);
      this.spin := spinDraw * (PI * 2.0) * 2.0 - PI * 2.0;
      this.frozen := false;
    }

    /** Clear the accumulated force; nothing else changes. */
    method Initialize()
      modifies this
      ensures State() == old(State()).(force := Zero)
    {
      force := Zero;
    }

    /** Add `f` to the accumulated force; nothing else changes. */
    method ApplyForce(f: Vec3)
      modifies this
      ensures State() == old(State()).(force := Add(old(force), f))
    {
      force := Add(force, f);
    }

    /**
     * One explicit Euler step of length `dt`. The body always turns by
     * `spin * dt`; a frozen body does nothing else. Otherwise the position
     * moves with the OLD velocity, and only then does the velocity change
     * by `force / mass * dt`. Force, mass and the rest are never touched.
     */
    method Step(dt: real)
      requires mass != 0.0
      modifies this
      ensures old(frozen) ==> position == old(position) && velocity == old(velocity)
      ensures force == old(force) && mass == old(mass) && spin == old(spin) && frozen == old(frozen)
      ensures imageFilename == old(imageFilename) && color == old(color)
      ensures State() == StepBody(old(State()), dt)
    {
      rotation := rotation + spin * dt;
      if frozen {
        return;
      }
      position := Add(position, Scale(velocity, dt));
      velocity := Add(velocity, Scale(Scale(force, 1.0 / mass), dt));
    }
  }

  /** The states of a list of masses, in list order. */
  ghost function States(ms: seq<Mass>): (r: seq<Body>)
    reads ms
    ensures |r| == |ms|
    ensures forall i :: 0 <= i < |ms| ==> r[i] == ms[i].State()
  {
    if ms == [] then [] else States(ms[..|ms| - 1]) + [ms[|ms| - 1].State()]
  }

  /** A mass listed at two indices occurs twice in the multiset of the list. */
  lemma RepeatCounted(ms: seq<Mass>, i: nat, j: nat)
    requires i < j < |ms| && ms[i] == ms[j]
    ensures multiset(ms)[ms[i]] >= 2
  {
    assert ms == ms[..j] + [ms[j]] + ms[j + 1..];
    assert ms[..j][i] == ms[i];
  }

  /** No mass appears at two indices of the list. */
  ghost predicate ListedOnce(ms: seq<Mass>) {
    forall i, j :: 0 <= i < j < |ms| ==> ms[i] != ms[j]
  }

  /** Step every mass of `ms` by the same `dt`, in list order. */
  method StepEach(ms: seq<Mass>, dt: real)
    requires ListedOnce(ms) && ValidBodies(States(ms))
    modifies ms
    ensures States(ms) == Advance(old(States(ms)), dt)
  {
    ghost var before := States(ms);
    for i := 0 to |ms|
      invariant forall k :: 0 <= k < i ==> ms[k].State() == StepBody(before[k], dt)
      invariant forall k :: i <= k < |ms| ==> ms[k].State() == before[k]
    {
      ms[i].Step(dt);
    }
    ghost var after := States(ms);
    assert forall k :: 0 <= k < |ms| ==> after[k] == Advance(before, dt)[k];
  }

  /** Painter's order: the farthest mass (largest z) first. */
  ghost predicate DepthOrdered(ms: seq<Mass>)
    reads ms
  {
    forall i, j :: 0 <= i < j < |ms| ==> ms[i].position.z >= ms[j].position.z
  }

  /**
   * One step of sinking the mass at `j` towards the front: when its left
   * neighbour is shallower, swapping the two keeps the part up to `i` in
   * order around the sinking mass, now at `j - 1`.
   */
  lemma SinkStep(r: seq<Mass>, j: nat, i: nat)
    requires 0 < j <= i < |r|
    requires r[j - 1].position.z < r[j].position.z
    requires forall a, b :: 0 <= a < b <= i && a != j && b != j ==> r[a].position.z >= r[b].position.z
    requires forall b :: j < b <= i ==> r[j].position.z > r[b].position.z
    ensures var t := r[j - 1 := r[j]][j := r[j - 1]];
      multiset(t) == multiset(r) && |t| == |r| && t[i + 1..] == r[i + 1..] &&
      (forall a, b :: 0 <= a < b <= i && a != j - 1 && b != j - 1 ==> t[a].position.z >= t[b].position.z) &&
      (forall b :: j - 1 < b <= i ==> t[j - 1].position.z > t[b].position.z)
  {
    var t := r[j - 1 := r[j]][j := r[j - 1]];
    assert t[i + 1..] == r[i + 1..];
    assert forall k :: 0 <= k < |r| && k != j - 1 && k != j ==> t[k] == r[k];
  }

  /**
   * One pass of insertion sort: the mass at index `i` moves left past every
   * nearer mass before it, so the first `i + 1` masses end up in painter's
   * order. Only the order of the list changes.
   */
  method InsertByDepth(list: seq<Mass>, i: nat) returns (r: seq<Mass>)
    requires i < |list|
    requires forall a, b :: 0 <= a < b < i ==> list[a].position.z >= list[b].position.z
    ensures multiset(r) == multiset(list) && |r| == |list| && r[i + 1..] == list[i + 1..]
    ensures forall a, b :: 0 <= a < b <= i ==> r[a].position.z >= r[b].position.z
  {
    r := list;
    var j := i;
    while j > 0 && r[j - 1].position.z < r[j].position.z
      invariant 0 <= j <= i
      invariant multiset(r) == multiset(list) && |r| == |list| && r[i + 1..] == list[i + 1..]
      invariant forall a, b :: 0 <= a < b <= i && a != j && b != j ==> r[a].position.z >= r[b].position.z
      invariant forall b :: j < b <= i ==> r[j].position.z > r[b].position.z
    {
      SinkStep(r, j, i);
      r := r[j - 1 := r[j]][j := r[j - 1]];
      j := j - 1;
    }
  }

  /** Five bodies, each with a non-zero mass and none frozen. */
  lemma EveryOneOfFive(bs: seq<Body>)
    requires |bs| == 5
    requires bs[0].mass != 0.0 && bs[1].mass != 0.0 && bs[2].mass != 0.0 && bs[3].mass != 0.0 && bs[4].mass != 0.0
    requires !bs[0].frozen && !bs[1].frozen && !bs[2].frozen && !bs[3].frozen && !bs[4].frozen
    ensures ValidBodies(bs) && AllFree(bs)
  {
  }

  /**
   * The five bodies the `Orbit` constructor sets up: earth, mars, a generic
   * planet, neptune and the sun, which spins at 0.2.
   */
  function InitialBodies(draws: seq<real>): (r: seq<Body>)
    requires |draws| == 10
    ensures |r| == 5 && ValidBodies(r) && AllFree(r)
    ensures r[4].mass == 500.0 && r[4].spin == 0.2 && r[4].position == Zero
  {
    var earth := NewBody(Some(Vec3(11.0, 0.0, 0.0)), Some(Vec3(0.0, 7.0, 0.0)), Some(2.0), Some("earth512.png"), draws[0], draws[1]);
    var mars := NewBody(Some(Vec3(0.0, 10.0, 0.0)), Some(Vec3(-1.0, 0.0, 7.0)), Some(1.5), Some("mars512.png"), draws[2], draws[3]);
    var planet := NewBody(Some(Vec3(0.0, 0.0, 9.0)), Some(Vec3(7.0, 0.0, 0.0)), Some(1.5), Some("planet128.png"), draws[4], draws[5]);
    var neptune := NewBody(Some(Vec3(-20.0, 0.0, -5.0)), Some(Vec3(0.0, -3.0, -2.0)), Some(1.0), Some("neptune512.png"), draws[6], draws[7]);
    var sun := NewBody(Some(Zero), Some(Zero), Some(500.0), Some("sun512.png"), draws[8], draws[9]).(spin := 0.2);
    var r := [earth, mars, planet, neptune, sun];
    EveryOneOfFive(r);
    r
  }

  /** A list of five bodies built as the `Orbit` constructor builds them is `InitialBodies`. */
  lemma BuiltAsInitial(draws: seq<real>, bs: seq<Body>)
    requires |draws| == 10 && |bs| == 5
    requires bs[0] == NewBody(Some(Vec3(11.0, 0.0, 0.0)), Some(Vec3(0.0, 7.0, 0.0)), Some(2.0), Some("earth512.png"), draws[0], draws[1])
    requires bs[1] == NewBody(Some(Vec3(0.0, 10.0, 0.0)), Some(Vec3(-1.0, 0.0, 7.0)), Some(1.5), Some("mars512.png"), draws[2], draws[3])
    requires bs[2] == NewBody(Some(Vec3(0.0, 0.0, 9.0)), Some(Vec3(7.0, 0.0, 0.0)), Some(1.5), Some("planet128.png"), draws[4], draws[5])
    requires bs[3] == NewBody(Some(Vec3(-20.0, 0.0, -5.0)), Some(Vec3(0.0, -3.0, -2.0)), Some(1.0), Some("neptune512.png"), draws[6], draws[7])
    requires bs[4] == NewBody(Some(Zero), Some(Zero), Some(500.0), Some("sun512.png"), draws[8], draws[9]).(spin := 0.2)
    ensures bs == InitialBodies(draws)
  {
    var r := InitialBodies(draws);
    assert forall k :: 0 <= k < 5 ==> bs[k] == r[k];
  }

  /** Five pairwise different masses, listed once each. */
  lemma FiveListedOnce(a: Mass, b: Mass, c: Mass, d: Mass, e: Mass)
    requires a != b && a != c && a != d && a != e && b != c && b != d && b != e && c != d && c != e && d != e
    ensures ListedOnce([a, b, c, d, e])
  {
  }

  /** The states of five listed masses. */
  lemma StatesOfFive(a: Mass, b: Mass, c: Mass, d: Mass, e: Mass)
    ensures States([a, b, c, d, e]) == [a.State(), b.State(), c.State(), d.State(), e.State()]
  {
    var r := States([a, b, c, d, e]);
    assert forall k :: 0 <= k < 5 ==> r[k] == [a.State(), b.State(), c.State(), d.State(), e.State()][k];
  }

  /** A list that holds no mass twice counts each of its masses once. */
  lemma {:induction false} ListedOnceCounted(ms: seq<Mass>)
    requires ListedOnce(ms)
    ensures forall m :: m in ms ==> multiset(ms)[m] == 1
  {
    if ms != [] {
      var init, last := ms[..|ms| - 1], ms[|ms| - 1];
      assert ms == init + [last];
      assert ListedOnce(init);
      ListedOnceCounted(init);
      assert last !in init;
    }
  }

  /**
   * Allocate the five starting masses, in list order, as the `Orbit`
   * constructor does: earth, mars, a generic planet, neptune and the sun,
   * whose spin is then set to 0.2.
   */
  method NewStartingMasses(draws: seq<real>) returns (list: seq<Mass>)
    requires |draws| == 10
    ensures |list| == 5 && ListedOnce(list) && States(list) == InitialBodies(draws)
    ensures fresh(list)
  {
    var e := new Mass(Some(Vec3(11.0, 0.0, 0.0)), Some(Vec3(0.0, 7.0, 0.0)), Some(2.0), Some("earth512.png"), draws[0], draws[1]);
    ghost var es := e.State();
    var m := new Mass(Some(Vec3(0.0, 10.0, 0.0)), Some(Vec3(-1.0, 0.0, 7.0)), Some(1.5), Some("mars512.png"), draws[2], draws[3]);
    ghost var ms := m.State();
    var p := new Mass(Some(Vec3(0.0, 0.0, 9.0)), Some(Vec3(7.0, 0.0, 0.0)), Some(1.5), Some("planet128.png"), draws[4], draws[5]);
    ghost var ps := p.State();
    var n := new Mass(Some(Vec3(-20.0, 0.0, -5.0)), Some(Vec3(0.0, -3.0, -2.0)), Some(1.0), Some("neptune512.png"), draws[6], draws[7]);
    ghost var ns := n.State();
    var s := new Mass(Some(Zero), Some(Zero), Some(500.0), Some("sun512.png"), draws[8], draws[9]);
    s.spin := 0.2;
    list := [e, m, p, n, s];
    assert fresh(list);
    ghost var ss := s.State();
    BuiltAsInitial(draws, [es, ms, ps, ns, ss]);
    StatesOfFive(e, m, p, n, s);
    FiveListedOnce(e, m, p, n, s);
  }

  /** The draw of a planet in state `b`, at scale `1 + log(mass)`. */
  function DrawOf(view: View, b: Body, math: Math): (r: DrawCall)
    requires Affine(view.projection)
    ensures Affine(r.matrix) && r.color == b.color
    ensures r.texture.Some? <==> b.imageFilename in view.textureNames
  {
    PlanetDraw(view, b.position, b.imageFilename, 1.0 + math.log(b.mass), b.rotation, b.color, math)
  }

  /** The draws of the planets in states `bs`, in list order. */
  function DrawsOf(view: View, bs: seq<Body>, math: Math): (r: seq<DrawCall>)
    requires Affine(view.projection)
    ensures |r| == |bs|
  {
    if bs == [] then [] else DrawsOf(view, bs[..|bs| - 1], math) + [DrawOf(view, bs[|bs| - 1], math)]
  }

  /** Drawing one more body of a list appends its draw. */
  lemma DrawsOfSnoc(view: View, bs: seq<Body>, i: nat, math: Math)
    requires Affine(view.projection) && i < |bs|
    ensures DrawsOf(view, bs[..i + 1], math) == DrawsOf(view, bs[..i], math) + [DrawOf(view, bs[i], math)]
  {
    assert bs[..i + 1][..i] == bs[..i];
  }

  /** Draw `k` of a list is the draw of body `k`. */
  lemma {:induction false} DrawsOfAt(view: View, bs: seq<Body>, math: Math, k: nat)
    requires Affine(view.projection) && k < |bs|
    ensures DrawsOf(view, bs, math)[k] == DrawOf(view, bs[k], math)
  {
    if k < |bs| - 1 {
      DrawsOfAt(view, bs[..|bs| - 1], math, k);
    }
  }

  class Orbit {
    var timeScale: real
    var masses: seq<Mass>
    const earth: Mass
    const sun: Mass
    const renderer: Renderer

    /**
     * No mass is listed twice, and every mass can be divided by. Both are
     * stated on the multiset of the list, so no reordering can break them.
     */
    ghost predicate Valid()
      reads this, masses
    {
      (forall m :: m in masses ==> multiset(masses)[m] == 1) &&
      (forall m :: m in masses ==> m.mass != 0.0)
    }

    /** The state of every listed mass, in list order. */
    ghost function Bodies(): (r: seq<Body>)
      reads this, masses
      ensures |r| == |masses|
      ensures Valid() ==> ValidBodies(r)
    {
      States(masses)
    }

    /**
     * The initial system: earth, mars, a generic planet, neptune and the sun,
     * in that list order. `draws` are the ten random draws the five `Mass`
     * constructors make, two each, in construction order.
     */
    constructor(renderer: Renderer, draws: seq<real>)
      requires |draws| == 10
      ensures Valid() && Bodies() == InitialBodies(draws)
      ensures this.renderer == renderer && timeScale == 1.0
      ensures |masses| == 5 && masses[0] == earth && masses[4] == sun
      ensures fresh(masses)
    {
      timeScale := 1.0;
      var list := NewStartingMasses(draws);
      earth := list[0];
      sun := list[4];
      masses := list;
      this.renderer := renderer;
      new;
      ListedOnceCounted(masses);
      ValidByIndex();
    }

    /** `orbit.masses.push(m)`: a new mass joins the end of the list. */
    method AddMass(m: Mass)
      requires Valid() && m !in masses && m.mass != 0.0
      modifies this
      ensures Valid()
      ensures masses == old(masses) + [m] && timeScale == old(timeScale)
    {
      masses := masses + [m];
    }

    /**
     * The add-planet handler: a new mass at a random point 10 from the
     * origin, moving at 8 in a random direction, with mass 1 + 2 * `massDraw`,
     * the generic planet image and a random opaque color, joins the end of
     * the list. The draws are the handler's random numbers in call order.
     */
    method AddPlanet(positionDraw: real, velocityDraw: real, massDraw: real, rotationDraw: real, spinDraw: real,
                     red: real, green: real, blue: real, math: Math) returns (m: Mass)
      requires Valid()
      modifies this
      ensures Valid() && fresh(m)
      ensures masses == old(masses) + [m] && timeScale == old(timeScale)
      ensures m.State() == NewBody(Some(RandomVector(10.0, positionDraw, math)), Some(RandomVector(8.0, velocityDraw, math)),
                                   Some(1.0 + massDraw * 2.0), Some(DefaultImage), rotationDraw, spinDraw)
                             .(color := Rgba(red, green, blue, 1.0))
    {
      m := new Mass(Some(RandomVector(10.0, positionDraw, math)), Some(RandomVector(8.0, velocityDraw, math)),
                    Some(1.0 + massDraw * 2.0), Some(DefaultImage), rotationDraw, spinDraw);
      m.color := Rgba(red, green, blue, 1.0);
      AddMass(m);
    }

    /** Valid needs only the list and the mass of each listed state. */
    lemma ValidByIndex()
      requires forall m :: m in masses ==> multiset(masses)[m] == 1
      requires ValidBodies(Bodies())
      ensures Valid()
    {
      forall m | m in masses
        ensures m.mass != 0.0
      {
        var k :| 0 <= k < |masses| && masses[k] == m;
        assert Bodies()[k].mass == m.mass;
      }
    }

    /** Valid lists every mass at one index only. */
    lemma ValidListedOnce()
      requires Valid()
      ensures ListedOnce(masses)
    {
      forall i, j | 0 <= i < j < |masses|
        ensures masses[i] != masses[j]
      {
        if masses[i] == masses[j] {
          RepeatCounted(masses, i, j);
        }
      }
    }

    /**
     * The inner loop of the force pass for the mass at index `i`: reset its
     * force, then add the pull of every other listed mass. `bs` is the
     * snapshot the pulls are read from; the listed masses agree with it on
     * position and mass, which the pass never changes. Only that one mass is
     * written.
     */
    method AccumulateForce(i: nat, ghost bs: seq<Body>, math: Math)
      requires ListedOnce(masses) && i < |masses| && |bs| == |masses|
      requires !bs[i].frozen && Separated(bs) && SqrtNonZero(math.sqrt)
      requires forall k :: 0 <= k < |masses| ==> masses[k].position == bs[k].position && masses[k].mass == bs[k].mass
      modifies masses[i]
      ensures masses[i].State() == old(masses[i].State()).(force := NetForce(bs, i, math.sqrt))
    {
      var m1 := masses[i];
      m1.Initialize();
      for j := 0 to |masses|
        invariant m1.State() == old(m1.State()).(force := PartialForce(bs, i, j, math.sqrt))
      {
        var m2 := masses[j];
        if m1 == m2 {
          assert j == i;
          continue;
        }
        assert j != i && m2.position == bs[j].position && m2.mass == bs[j].mass;
        assert m1.position == bs[i].position && m1.mass == bs[i].mass;
        var difference := Sub(m2.position, m1.position);
        var gravity := Gravity(m1.mass, m2.mass, difference);
        m1.ApplyForce(Scale(Normalize(difference, math.sqrt), gravity));
      }
    }

    /**
     * The force pass: every unfrozen mass has its force reset and then
     * accumulates the pull of every other mass, read from positions the pass
     * never changes. The resulting states are exactly `Solved` of the old
     * ones: frozen masses are untouched and nothing but forces changes.
     */
    method Solve(math: Math)
      requires Valid() && Separated(Bodies()) && SqrtNonZero(math.sqrt)
      modifies masses
      ensures Valid()
      ensures Bodies() == Solved(old(Bodies()), math.sqrt)
    {
      ghost var before := Bodies();
      ghost var target := Solved(before, math.sqrt);
      ValidListedOnce();
      for i := 0 to |masses|
        invariant forall k :: 0 <= k < i ==> masses[k].State() == target[k]
        invariant forall k :: i <= k < |masses| ==> masses[k].State() == before[k]
      {
        if masses[i].frozen {
          continue;
        }
        AccumulateForce(i, before, math);
      }
      assert forall k :: 0 <= k < |masses| ==> Bodies()[k] == target[k];
    }

    /** Step every mass by the same `dt`, in list order. */
    method Integrate(dt: real)
      requires Valid()
      modifies masses
      ensures Valid()
      ensures Bodies() == Advance(old(Bodies()), dt)
    {
      ValidListedOnce();
      StepEach(masses, dt);
      ValidByIndex();
    }

    /**
     * Sort the list by descending z, so that farther masses are drawn
     * first. Only the list is rearranged; no mass changes.
     */
    method SortByDepth()
      requires Valid()
      modifies this
      ensures Valid() && DepthOrdered(masses)
      ensures multiset(masses) == multiset(old(masses))
      ensures timeScale == old(timeScale)
      ensures States(old(masses)) == old(Bodies())
    {
      ghost var original := masses;
      var list := masses;
      for i := 0 to |list|
        invariant multiset(list) == multiset(original) && |list| == |original|
        invariant forall a, b :: 0 <= a < b < i ==> list[a].position.z >= list[b].position.z
        invariant timeScale == old(timeScale) && masses == original
      {
        list := InsertByDepth(list, i);
      }
      masses := list;
    }

    /** `drawPlanet` for the mass at index `i`, at scale `1 + log(mass)`. */
    method DrawOne(i: nat, math: Math) returns (call: DrawCall)
      requires renderer.Valid() && renderer.initialized && i < |masses|
      ensures call == DrawOf(renderer.Current(), masses[i].State(), math)
    {
      var m := masses[i];
      call := renderer.DrawPlanet(m.position, m.imageFilename, 1.0 + math.log(m.mass), m.rotation, m.color, math);
    }

    /** One `drawPlanet` per mass, in list order. */
    method DrawAll(math: Math) returns (draws: seq<DrawCall>)
      requires renderer.Valid() && renderer.initialized
      ensures draws == DrawsOf(renderer.Current(), Bodies(), math)
    {
      ghost var view := renderer.Current();
      ghost var bodies := Bodies();
      draws := [];
      for i := 0 to |masses|
        invariant draws == DrawsOf(view, bodies[..i], math)
      {
        var call := DrawOne(i, math);
        DrawsOfSnoc(view, bodies, i, math);
        draws := draws + [call];
      }
      assert bodies[..|masses|] == bodies;
      assert renderer.Current() == view && Bodies() == bodies;
    }

    /**
     * The physics half of a frame: the force pass, then every mass stepped
     * by `dt`. The new states are `Tick` of the old ones.
     */
    method Move(dt: real, math: Math)
      requires Valid() && Separated(Bodies()) && SqrtNonZero(math.sqrt)
      modifies masses
      ensures Valid()
      ensures Bodies() == Tick(old(Bodies()), dt, math.sqrt)
    {
      ghost var before := Bodies();
      Solve(math);
      ghost var solved := Bodies();
      Integrate(dt);
      assert Bodies() == Advance(solved, dt);
    }

    /**
     * The drawing half of a frame: sort the list into painter's order, then
     * draw every mass in the new order. No mass changes.
     */
    method SortAndDraw(math: Math) returns (draws: seq<DrawCall>)
      requires Valid() && renderer.Valid() && renderer.initialized
      modifies this
      ensures Valid() && DepthOrdered(masses)
      ensures multiset(masses) == multiset(old(masses)) && timeScale == old(timeScale)
      ensures States(old(masses)) == old(Bodies())
      ensures draws == DrawsOf(renderer.Current(), Bodies(), math)
    {
      SortByDepth();
      draws := DrawAll(math);
    }

    /**
     * One frame: the force pass, every mass stepped by `timeStep *
     * timeScale`, the list re-sorted by depth, and every mass drawn. The
     * masses listed before the frame now hold `Tick` of their old states, in
     * the old order; the list is a permutation of the old one in painter's
     * order; the draws follow the new order.
     */
    method Step(timeStep: real, math: Math) returns (draws: seq<DrawCall>)
      requires Valid() && Separated(Bodies()) && SqrtNonZero(math.sqrt)
      requires renderer.Valid() && renderer.initialized
      modifies this, masses
      ensures Valid() && DepthOrdered(masses)
      ensures multiset(masses) == multiset(old(masses)) && timeScale == old(timeScale)
      ensures States(old(masses)) == Tick(old(Bodies()), timeStep * old(timeScale), math.sqrt)
      ensures draws == DrawsOf(renderer.Current(), Bodies(), math)
    {
      ghost var listed := masses;
      Move(timeStep * timeScale, math);
      ghost var after := Bodies();
      assert masses == listed && timeScale == old(timeScale);
      assert States(listed) == Tick(old(Bodies()), timeStep * old(timeScale), math.sqrt);
      draws := SortAndDraw(math);
    }
  }
}
