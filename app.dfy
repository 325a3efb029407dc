/**
  The simulation side of app.js: the deterministic grid layout of
  `regenerateParticles`, the physics part of one `animate` frame, the radius and
  container-scale controls, and the ray/box test used to pick the push/pull point.

  A gl-matrix model matrix is represented by its translation: every matrix the
  simulator builds is `mat4.translate` of the identity or `mat4.fromTranslation`.
 */
module App {
  import opened Vector
  import opened Wrappers
  import opened Collision

  const GridCols: nat := 20
  const GridSpacing: real := 2.0
  /** Magnitude of the push/pull acceleration. */
  const ForceStrength: real := 100.0
  /** Particles closer than this to the interaction point feel no push/pull. */
  const DeadZone: real := 0.01

  // ---------------------------------------------------------------------------
  // Grid layout (regenerateParticles)
  // ---------------------------------------------------------------------------

  /** `(k - GRID_COLS / 2) * GRID_SPACING` for grid cell `k`. */
  function Coordinate(k: int): real {
    (k as real - GridCols as real / 2.0) * GridSpacing
  }

  /** Cells `0 .. GRID_COLS - 1` give coordinates from -20 to 18, and distinct cells distinct ones. */
  lemma CoordinateRange(k: int, l: int)
    ensures 0 <= k < GridCols ==> -20.0 <= Coordinate(k) <= 18.0
    ensures Coordinate(k) == Coordinate(l) ==> k == l
  {
  }

  /**
    Where particle `i` is placed: column `i % 20` along x, layer `i / 400`
    along y and row `(i % 400) / 20` along z.
   */
  function GridPosition(i: nat): (p: Vec3)
    ensures -20.0 <= p.x <= 18.0 && -20.0 <= p.z <= 18.0 && -20.0 <= p.y
    // the first 20^3 particles fill a cube; later ones stack above it
    ensures p.y <= 18.0 <==> i < GridCols * GridCols * GridCols
  {
    var x := Coordinate(i % GridCols);
    var y := Coordinate(i / (GridCols * GridCols));
    var z := Coordinate((i % (GridCols * GridCols)) / GridCols);
    CoordinateRange(i % GridCols, 0);
    CoordinateRange((i % (GridCols * GridCols)) / GridCols, 0);
    Vec3(x, y, z)
  }

  /** Particle `i` of a fresh grid: at rest, with the literal radius 1. */
  function GridParticle(i: nat): Particle {
    Particle(GridPosition(i), Zero, Some(1.0))
  }

  lemma ModAdd(a: nat, b: nat)
    ensures (20 * a + b) % 20 == b % 20
  {
    var r := b % 20;
    assert 20 * a + b == 20 * (a + b / 20) + r;
  }

  /** An index is recovered from its column, row and layer. */
  lemma GridDecomposition(i: nat)
    ensures i == 400 * (i / 400) + 20 * ((i % 400) / 20) + i % 20
  {
    var q := i / 400;
    var m := i % 400;
    assert i == 20 * (20 * q) + m;
    ModAdd(20 * q, m);
    assert m == 20 * (m / 20) + m % 20;
  }

  /** No two particles of a grid share a position. */
  lemma GridPositionInjective(i: nat, j: nat)
    requires GridPosition(i) == GridPosition(j)
    ensures i == j
  {
    CoordinateRange(i % GridCols, j % GridCols);
    CoordinateRange(i / (GridCols * GridCols), j / (GridCols * GridCols));
    CoordinateRange((i % (GridCols * GridCols)) / GridCols, (j % (GridCols * GridCols)) / GridCols);
    GridDecomposition(i);
    GridDecomposition(j);
  }

  /** The first cells: the grid starts at (-20, -20, -20) and runs along x, then z, then y. */
  lemma GridFirstCells()
    ensures GridPosition(0) == Vec3(-20.0, -20.0, -20.0)
    ensures GridPosition(1) == Vec3(-18.0, -20.0, -20.0)
    ensures GridPosition(20) == Vec3(-20.0, -20.0, -18.0)
    ensures GridPosition(400) == Vec3(-20.0, -18.0, -20.0)
    ensures GridPosition(7999) == Vec3(18.0, 18.0, 18.0)
  {
  }

  /** `(GRID_COLS / 2) * GRID_SPACING * containerScale`. */
  function HalfExtent(scale: real): (h: real)
    ensures h == 20.0 * scale
  {
    (GridCols as real / 2.0) * GridSpacing * scale
  }

  /** The cube `[-h, h]^3`, as corner vectors. */
  function Corner(h: real): Vec3 {
    Vec3(h, h, h)
  }

  /**
    With a scale of at least 1.05 each of the first 20^3 grid particles (radius
    1) starts within the container, its sphere touching a wall at most.
   */
  lemma GridInsideContainer(i: nat, scale: real)
    requires i < GridCols * GridCols * GridCols && 21.0 <= HalfExtent(scale)
    ensures InsideBox(Corner(-HalfExtent(scale)), Corner(HalfExtent(scale)), WallRadius(GridParticle(i)), GridPosition(i))
  {
    var p := GridPosition(i);
    assert p.At(0) == p.x && p.At(1) == p.y && p.At(2) == p.z;
  }

  // ---------------------------------------------------------------------------
  // One frame of physics (animate)
  // ---------------------------------------------------------------------------

  /** The velocity change gravity gives every particle in one frame. */
  function Kick(g: real, dt: real): Vec3 {
    Vec3(0.0, -g * dt, 0.0)
  }

  /** `vec3.scaleAndAdd(p.velocity, p.velocity, [0, -g, 0], dt)`. */
  function Gravitate(p: Particle, g: real, dt: real): (q: Particle)
    ensures q.position == p.position && q.radius == p.radius
    ensures q.velocity.x == p.velocity.x && q.velocity.z == p.velocity.z
    ensures q.velocity.y == p.velocity.y - g * dt
    ensures q.velocity == Add(p.velocity, Kick(g, dt))
  {
    p.(velocity := Add(p.velocity, Scale(Vec3(0.0, -g, 0.0), dt)))
  }

  /** `vec3.scaleAndAdd(p.position, p.position, p.velocity, dt)`: explicit Euler. */
  function Advance(p: Particle, dt: real): (q: Particle)
    ensures q.velocity == p.velocity && q.radius == p.radius
    ensures Sub(q.position, p.position) == Scale(p.velocity, dt)
  {
    p.(position := Add(p.position, Scale(p.velocity, dt)))
  }

  /** The value of `interactionMode`: `'push'`, or anything else, which pulls. */
  datatype Mode = Push | Pull

  /** The mouse state the frame reads: `interactionActive`, `interactionMode`, `interactionPoint`. */
  datatype Interaction = Interaction(active: bool, mode: Mode, point: Vec3)

  /**
    One particle of the push/pull loop: outside the dead zone the velocity gains
    `forceStrength * dt` along the unit vector towards the point (pull) or away
    from it (push).
   */
  function Interact(p: Particle, mode: Mode, point: Vec3, dt: real, sqrt: real -> real): (q: Particle)
    ensures q.position == p.position && q.radius == p.radius
    ensures sqrt(Norm2(Sub(point, p.position))) <= DeadZone ==> q == p
  {
    var tmp := Sub(point, p.position);
    var dist := sqrt(Norm2(tmp));
    if dist > DeadZone then
      var n := Div(tmp, dist);
      var dir := if mode == Push then Scale(n, -1.0) else n;
      p.(velocity := Add(p.velocity, Scale(dir, ForceStrength * dt)))
    else
      p
  }

  lemma DotScale(n: Vec3, c: real, u: Vec3)
    ensures Dot(Scale(n, c), u) == c * Dot(n, u)
  {
  }

  lemma DotDiv(u: Vec3, k: real)
    requires k != 0.0
    ensures Dot(Div(u, k), u) == Norm2(u) / k
  {
  }

  lemma SqDiv(s: real)
    requires s != 0.0
    ensures Sq(s) / s == s
  {
  }

  /** Outside the dead zone the velocity change is `+-forceStrength * dt` times the unit vector towards the point. */
  lemma InteractDelta(p: Particle, mode: Mode, point: Vec3, dt: real, sqrt: real -> real)
    requires sqrt(Norm2(Sub(point, p.position))) > DeadZone
    ensures var dist := sqrt(Norm2(Sub(point, p.position)));
      Sub(Interact(p, mode, point, dt, sqrt).velocity, p.velocity) ==
        Scale(Div(Sub(point, p.position), dist), (if mode == Pull then 1.0 else -1.0) * ForceStrength * dt)
  {
    var n := Div(Sub(point, p.position), sqrt(Norm2(Sub(point, p.position))));
    var v := p.velocity;
    var k := ForceStrength * dt;
    if mode == Pull {
      assert Interact(p, mode, point, dt, sqrt).velocity == Add(v, Scale(n, k));
      assert Sub(Add(v, Scale(n, k)), v) == Scale(n, 1.0 * k);
    } else {
      assert Interact(p, mode, point, dt, sqrt).velocity == Add(v, Scale(Scale(n, -1.0), k));
      assert Sub(Add(v, Scale(Scale(n, -1.0), k)), v) == Scale(n, -1.0 * k);
    }
  }

  /**
    Outside the dead zone the velocity change has length `forceStrength * dt`
    and points towards the interaction point for pull, away from it for push:
    its component along `point - position` is `+-forceStrength * dt * dist`.
   */
  lemma InteractKick(p: Particle, mode: Mode, point: Vec3, dt: real, sqrt: real -> real)
    requires IsSqrt(sqrt) && sqrt(Norm2(Sub(point, p.position))) > DeadZone
    ensures var dv := Sub(Interact(p, mode, point, dt, sqrt).velocity, p.velocity);
      Norm2(dv) == Sq(ForceStrength * dt) &&
      Dot(dv, Sub(point, p.position)) ==
        (if mode == Pull then 1.0 else -1.0) * ForceStrength * dt * sqrt(Norm2(Sub(point, p.position)))
  {
    var tmp := Sub(point, p.position);
    var dist := sqrt(Norm2(tmp));
    var c := (if mode == Pull then 1.0 else -1.0) * ForceStrength * dt;
    InteractDelta(p, mode, point, dt, sqrt);
    Norm2Positive(tmp);
    UnitLength(tmp, dist);
    KickLength(Div(tmp, dist), c, ForceStrength * dt);
    KickAlong(tmp, dist, c);
  }

  /** A kick of `+-k` along a unit vector has squared length `k^2`. */
  lemma KickLength(n: Vec3, c: real, k: real)
    requires Norm2(n) == 1.0 && (c == k || c == -k)
    ensures Norm2(Scale(n, c)) == Sq(k)
  {
    Norm2Scale(n, c);
    assert Sq(c) == Sq(k) by {
      if c == -k {
        assert Sq(c) == Mul(-k, -k) && Sq(k) == Mul(k, k);
      }
    }
  }

  /** A kick of `c` along `d / |d|` has component `c * |d|` along `d`. */
  lemma KickAlong(d: Vec3, dist: real, c: real)
    requires dist != 0.0 && Sq(dist) == Norm2(d)
    ensures Dot(Scale(Div(d, dist), c), d) == c * dist
  {
    DotScale(Div(d, dist), c, d);
    DotDiv(d, dist);
    SqDiv(dist);
  }

  function Gravitated(s: seq<Particle>, g: real, dt: real): (r: seq<Particle>)
    ensures |r| == |s| && forall k :: 0 <= k < |s| ==> r[k] == Gravitate(s[k], g, dt)
  {
    seq(|s|, k requires 0 <= k < |s| => Gravitate(s[k], g, dt))
  }

  function Integrated(s: seq<Particle>, dt: real): (r: seq<Particle>)
    ensures |r| == |s| && forall k :: 0 <= k < |s| ==> r[k] == Advance(s[k], dt)
  {
    seq(|s|, k requires 0 <= k < |s| => Advance(s[k], dt))
  }

  /** The push/pull loop, run only while the interaction is active. */
  function Interacted(s: seq<Particle>, interaction: Interaction, dt: real, sqrt: real -> real): (r: seq<Particle>)
    ensures |r| == |s|
    ensures forall k :: 0 <= k < |s| ==>
      r[k] == if interaction.active then Interact(s[k], interaction.mode, interaction.point, dt, sqrt) else s[k]
  {
    if interaction.active then
      seq(|s|, k requires 0 <= k < |s| => Interact(s[k], interaction.mode, interaction.point, dt, sqrt))
    else
      s
  }

  /**
    The particle state after the physics of one frame, in the order of
    `animate`: gravity, integration, the wall pass, the pairwise pass twice,
    then the push/pull field.
   */
  function Frame(s: seq<Particle>, lo: Vec3, hi: Vec3, dt: real, g: real,
                 interaction: Interaction, sqrt: real -> real): seq<Particle>
  {
    var afterGravity := Gravitated(s, g, dt);
    var afterMotion := Integrated(afterGravity, dt);
    var afterWalls := WallPass(afterMotion, lo, hi);
    var afterPairs := PairwisePass(PairwisePass(afterWalls, sqrt), sqrt);
    Interacted(afterPairs, interaction, dt, sqrt)
  }

  /** A frame keeps the number of particles, their order and every radius. */
  lemma FrameKeepsRadii(s: seq<Particle>, lo: Vec3, hi: Vec3, dt: real, g: real,
                        interaction: Interaction, sqrt: real -> real)
    ensures var r := Frame(s, lo, hi, dt, g, interaction, sqrt);
      |r| == |s| && forall k :: 0 <= k < |s| ==> r[k].radius == s[k].radius
  {
  }

  lemma ScaleSucc(v: Vec3, n: real)
    ensures Scale(v, n + 1.0) == Add(v, Scale(v, n))
  {
  }

  /** Gravity adds the same kick to every velocity, so `n` kicks to the total momentum. */
  lemma {:induction false} GravitatedMomentum(s: seq<Particle>, g: real, dt: real)
    ensures Sum(Velocities(Gravitated(s, g, dt))) == Add(Sum(Velocities(s)), Scale(Kick(g, dt), |s| as real))
  {
    var vs := Velocities(Gravitated(s, g, dt));
    var k := Kick(g, dt);
    if s == [] {
      assert vs == [] && Velocities(s) == [];
    } else {
      var rest := s[1..];
      var n := |rest| as real;
      GravitatedMomentum(rest, g, dt);
      var sum := Sum(Velocities(rest));
      assert vs[1..] == Velocities(Gravitated(rest, g, dt));
      assert Sum(vs[1..]) == Add(sum, Scale(k, n));
      assert Velocities(s)[1..] == Velocities(rest);
      assert Sum(Velocities(s)) == Add(s[0].velocity, sum);
      assert vs[0] == Add(s[0].velocity, k);
      assert Sum(vs) == Add(Add(s[0].velocity, k), Add(sum, Scale(k, n)));
      ScaleSucc(k, n);
      assert |s| as real == n + 1.0;
    }
  }

  /** Integration moves particles but leaves every velocity as it is. */
  lemma IntegratedVelocities(s: seq<Particle>, dt: real)
    ensures Velocities(Integrated(s, dt)) == Velocities(s)
  {
  }

  /** The wall pass leaves a sequence whose particles are all inside the box as it is. */
  lemma WallPassInside(s: seq<Particle>, lo: Vec3, hi: Vec3)
    requires forall k :: 0 <= k < |s| ==> InsideBox(lo, hi, WallRadius(s[k]), s[k].position)
    ensures WallPass(s, lo, hi) == s
  {
    forall k | 0 <= k < |s|
      ensures Collided(lo, hi, s[k]) == s[k]
    {
      CollidedInside(lo, hi, s[k]);
    }
  }

  /**
    Without the push/pull field and while no particle reaches a wall, the only
    change of total momentum in a frame is gravity's: `n * (0, -g * dt, 0)`.
   */
  lemma FrameMomentum(s: seq<Particle>, lo: Vec3, hi: Vec3, dt: real, g: real,
                      interaction: Interaction, sqrt: real -> real)
    requires !interaction.active
    requires var moved := Integrated(Gravitated(s, g, dt), dt);
      forall k :: 0 <= k < |moved| ==> InsideBox(lo, hi, WallRadius(moved[k]), moved[k].position)
    ensures Sum(Velocities(Frame(s, lo, hi, dt, g, interaction, sqrt))) ==
      Add(Sum(Velocities(s)), Scale(Kick(g, dt), |s| as real))
  {
    var afterGravity := Gravitated(s, g, dt);
    var afterMotion := Integrated(afterGravity, dt);
    WallPassInside(afterMotion, lo, hi);
    PairwisePassConserves(afterMotion, sqrt);
    PairwisePassConserves(PairwisePass(afterMotion, sqrt), sqrt);
    IntegratedVelocities(afterGravity, dt);
    GravitatedMomentum(s, g, dt);
  }

  /** `particles.forEach(p => vec3.scaleAndAdd(p.velocity, p.velocity, gravity, deltaTime))`. */
  method ApplyGravity(particles: array<Particle>, g: real, dt: real)
    modifies particles
    ensures particles[..] == Gravitated(old(particles[..]), g, dt)
  {
    for k := 0 to particles.Length
      invariant particles[..k] == Gravitated(old(particles[..]), g, dt)[..k]
      invariant particles[k..] == old(particles[k..])
    {
      particles[k] := Gravitate(particles[k], g, dt);
    }
  }

  /** `particles.forEach(p => vec3.scaleAndAdd(p.position, p.position, p.velocity, deltaTime))`. */
  method IntegratePositions(particles: array<Particle>, dt: real)
    modifies particles
    ensures particles[..] == Integrated(old(particles[..]), dt)
  {
    for k := 0 to particles.Length
      invariant particles[..k] == Integrated(old(particles[..]), dt)[..k]
      invariant particles[k..] == old(particles[k..])
    {
      particles[k] := Advance(particles[k], dt);
    }
  }

  /** `mat4.fromTranslation(sphereModelMatrices[i], p.position)` for every particle. */
  method SyncModelMatrices(particles: array<Particle>, matrices: array<Vec3>)
    requires matrices.Length == particles.Length
    modifies matrices
    ensures forall k :: 0 <= k < matrices.Length ==> matrices[k] == particles[k].position
  {
    for k := 0 to particles.Length
      invariant forall l :: 0 <= l < k ==> matrices[l] == particles[l].position
    {
      matrices[k] := particles[k].position;
    }
  }

  /** The push/pull loop over every particle. */
  method ApplyInteraction(particles: array<Particle>, mode: Mode, point: Vec3, dt: real, sqrt: real -> real)
    modifies particles
    ensures particles[..] == Interacted(old(particles[..]), Interaction(true, mode, point), dt, sqrt)
  {
    for k := 0 to particles.Length
      invariant particles[..k] == Interacted(old(particles[..]), Interaction(true, mode, point), dt, sqrt)[..k]
      invariant particles[k..] == old(particles[k..])
    {
      particles[k] := Interact(particles[k], mode, point, dt, sqrt);
    }
  }

  /** The simulator's global state: `particles`, `sphereModelMatrices`, `particleRadius`, `container`. */
  class Simulation {
    var particles: array<Particle>
    var modelMatrices: array<Vec3>
    var particleRadius: real
    const container: RectangularContainer

    /** One model matrix per particle. */
    ghost predicate Valid()
      reads this
    {
      particles.Length == modelMatrices.Length
    }

    /**
      `main()`: `initUI` reads the scale and size sliders and sets the
      container to `[-h, h]^3`, then `regenerateParticles(NUM_SPHERES)`.
     */
    constructor(scale: real, radius: real, count: nat)
      ensures Valid() && fresh(particles) && fresh(modelMatrices) && fresh(container)
      ensures container.min == Corner(-HalfExtent(scale)) && container.max == Corner(HalfExtent(scale))
      ensures particleRadius == radius
      ensures particles.Length == count
      ensures forall k :: 0 <= k < count ==> particles[k] == GridParticle(k) && modelMatrices[k] == GridPosition(k)
    {
      var h := HalfExtent(scale);
      container := new RectangularContainer(Corner(-h), Corner(h));
      particleRadius := radius;
      particles := new Particle[0];
      modelMatrices := new Vec3[0];
      new;
      RegenerateParticles(count);
    }

    /** `regenerateParticles(count)`: replace every particle with a fresh grid of `count`. */
    method RegenerateParticles(count: nat)
      modifies this
      ensures Valid() && fresh(particles) && fresh(modelMatrices)
      ensures particles.Length == count
      ensures forall k :: 0 <= k < count ==> particles[k] == GridParticle(k) && modelMatrices[k] == GridPosition(k)
      ensures particleRadius == old(particleRadius)
    {
      var ps := new Particle[count];
      var ms := new Vec3[count];
      for i := 0 to count
        modifies ps, ms
        invariant forall k :: 0 <= k < i ==> ps[k] == GridParticle(k) && ms[k] == GridPosition(k)
      {
        var translation := GridPosition(i);
        ms[i] := translation;
        ps[i] := Particle(translation, Zero, Some(1.0));
      }
      particles := ps;
      modelMatrices := ms;
    }

    /** The particle-size slider: every particle gets the new radius. */
    method SetParticleRadius(radius: real)
      requires Valid()
      modifies this, particles
      ensures Valid() && particleRadius == radius
      ensures particles == old(particles) && modelMatrices == old(modelMatrices)
      ensures forall k :: 0 <= k < particles.Length ==> particles[k] == old(particles[k]).(radius := Some(radius))
    {
      particleRadius := radius;
      for k := 0 to particles.Length
        modifies particles
        invariant forall l :: 0 <= l < k ==> particles[l] == old(particles[l]).(radius := Some(radius))
        invariant forall l :: k <= l < particles.Length ==> particles[l] == old(particles[l])
      {
        particles[k] := particles[k].(radius := Some(radius));
      }
    }

    /** The container-scale slider: the container becomes `[-h, h]^3` with `h = 20 * scale`. */
    method SetContainerScale(scale: real)
      requires Valid()
      modifies container
      ensures Valid()
      ensures container.min == Corner(-HalfExtent(scale)) && container.max == Corner(HalfExtent(scale))
    {
      var h := HalfExtent(scale);
      container.min := Corner(-h);
      container.max := Corner(h);
    }

    /** The physics of one `animate(time)` frame with `deltaTime = dt`. */
    method Animate(dt: real, gravityMagnitude: real, interaction: Interaction, sqrt: real -> real)
      requires Valid()
      modifies particles, modelMatrices
      ensures Valid()
      ensures particles[..] == Frame(old(particles[..]), container.min, container.max, dt, gravityMagnitude, interaction, sqrt)
      // the drawn spheres are where the particles are
      ensures forall k :: 0 <= k < particles.Length ==> modelMatrices[k] == particles[k].position
    {
      ApplyGravity(particles, gravityMagnitude, dt);
      IntegratePositions(particles, dt);
      HandleContainerCollisions(particles, container);
      HandleParticleCollisions(particles, sqrt);
      HandleParticleCollisions(particles, sqrt);
      SyncModelMatrices(particles, modelMatrices);
      ghost var synced := particles[..];
      if interaction.active {
        ApplyInteraction(particles, interaction.mode, interaction.point, dt, sqrt);
      }
      assert forall k :: 0 <= k < particles.Length ==> particles[k].position == synced[k].position;
    }
  }

  /** What drives the simulation after `main()`: animation frames and the three physics controls. */
  datatype Event =
    | Tick(dt: real, gravityMagnitude: real, interaction: Interaction)
    | SizeSlider(radius: real)
    | ScaleSlider(scale: real)
    | CountSlider(count: nat)

  /** The number of particles after `events`: the last count chosen, or the initial one. */
  function CountAfter(count: nat, events: seq<Event>): nat {
    if events == [] then count
    else match events[|events| - 1]
      case CountSlider(n) => n
      case _ => CountAfter(count, events[..|events| - 1])
  }

  /**
    `main()` followed by a run of the page: the simulation is set up, then each
    event is handled in turn. The store always has one model matrix per
    particle, and only the count slider changes the number of particles.
   */
  method Session(scale: real, radius: real, count: nat, events: seq<Event>, sqrt: real -> real)
    returns (sim: Simulation)
    ensures fresh(sim) && sim.Valid()
    ensures sim.particles.Length == CountAfter(count, events)
  {
    sim := new Simulation(scale, radius, count);
    for k := 0 to |events|
      invariant fresh(sim) && fresh(sim.particles) && fresh(sim.modelMatrices) && fresh(sim.container)
      invariant sim.Valid() && sim.particles.Length == CountAfter(count, events[..k])
    {
      assert events[..k + 1][..k] == events[..k];
      match events[k]
      case Tick(dt, g, interaction) => sim.Animate(dt, g, interaction, sqrt);
      case SizeSlider(r) => sim.SetParticleRadius(r);
      case ScaleSlider(h) => sim.SetContainerScale(h);
      case CountSlider(n) => sim.RegenerateParticles(n);
    }
    assert events[..|events|] == events;
  }

  // ---------------------------------------------------------------------------
  // Ray / box test (intersectRayAABB)
  // ---------------------------------------------------------------------------

  function Min(a: real, b: real): real { if a < b then a else b }
  function Max(a: real, b: real): real { if a < b then b else a }

  /**
    The ray parameters `[near, far]` at which a ray from `o` with direction `d`
    (one coordinate) is at `lo` and at `hi`, in increasing order.
   */
  function Interval(o: real, d: real, lo: real, hi: real): (r: (real, real))
    requires d != 0.0
    ensures r.0 <= r.1
  {
    var t1 := (lo - o) / d;
    var t2 := (hi - o) / d;
    if t1 > t2 then (t2, t1) else (t1, t2)
  }

  /** The interval of the slab of axis `i`. */
  function Slab(origin: Vec3, dir: Vec3, lo: Vec3, hi: Vec3, i: nat): (real, real)
    requires i < 3 && dir.At(i) != 0.0
  {
    Interval(origin.At(i), dir.At(i), lo.At(i), hi.At(i))
  }

  predicate NonzeroDirection(dir: Vec3) {
    dir.x != 0.0 && dir.y != 0.0 && dir.z != 0.0
  }

  /** Where the ray enters the intersection of the three slabs. */
  function Entry(origin: Vec3, dir: Vec3, lo: Vec3, hi: Vec3): real
    requires NonzeroDirection(dir)
  {
    Max(Max(Slab(origin, dir, lo, hi, 0).0, Slab(origin, dir, lo, hi, 1).0), Slab(origin, dir, lo, hi, 2).0)
  }

  /** Where the ray leaves the intersection of the three slabs. */
  function Exit(origin: Vec3, dir: Vec3, lo: Vec3, hi: Vec3): real
    requires NonzeroDirection(dir)
  {
    Min(Min(Slab(origin, dir, lo, hi, 0).1, Slab(origin, dir, lo, hi, 1).1), Slab(origin, dir, lo, hi, 2).1)
  }

  /**
    The answer of the slab method: no hit when the slabs do not overlap,
    otherwise the entry if it is not behind the origin, else the exit if that
    is not behind it.
   */
  function RayHit(origin: Vec3, dir: Vec3, lo: Vec3, hi: Vec3): Option<real>
    requires NonzeroDirection(dir)
  {
    var tmin := Entry(origin, dir, lo, hi);
    var tmax := Exit(origin, dir, lo, hi);
    if tmin > tmax then None
    else if tmin >= 0.0 then Some(tmin)
    else if tmax >= 0.0 then Some(tmax)
    else None
  }

  /** The two divisions and the swap that `intersectRayAABB` makes for axis `i`. */
  method SlabParameters(origin: Vec3, dir: Vec3, min: Vec3, max: Vec3, i: nat) returns (t1: real, t2: real)
    requires i < 3 && dir.At(i) != 0.0
    ensures (t1, t2) == Slab(origin, dir, min, max, i)
  {
    t1 := (min.At(i) - origin.At(i)) / dir.At(i);
    t2 := (max.At(i) - origin.At(i)) / dir.At(i);
    if t1 > t2 {
      t1, t2 := t2, t1;
    }
  }

  /** `intersectRayAABB(origin, dir, min, max)`; `None` is `null`. */
  method IntersectRayAABB(origin: Vec3, dir: Vec3, min: Vec3, max: Vec3) returns (t: Option<real>)
    requires NonzeroDirection(dir)
    ensures t == RayHit(origin, dir, min, max)
  {
    var tmin, tmax := SlabParameters(origin, dir, min, max, 0);
    for i := 1 to 3
      invariant tmin <= tmax
      invariant i == 1 ==> (tmin, tmax) == Slab(origin, dir, min, max, 0)
      invariant i == 2 ==> tmin == Max(Slab(origin, dir, min, max, 0).0, Slab(origin, dir, min, max, 1).0)
      invariant i == 2 ==> tmax == Min(Slab(origin, dir, min, max, 0).1, Slab(origin, dir, min, max, 1).1)
      invariant i == 3 ==> tmin == Entry(origin, dir, min, max) && tmax == Exit(origin, dir, min, max)
    {
      var t1, t2 := SlabParameters(origin, dir, min, max, i);
      if tmin > t2 || t1 > tmax {
        return None;
      }
      tmin := Max(tmin, t1);
      tmax := Min(tmax, t2);
    }
    t := if tmin >= 0.0 then Some(tmin) else if tmax >= 0.0 then Some(tmax) else None;
  }

  /** The point `origin + t * dir`. */
  function PointAt(origin: Vec3, dir: Vec3, t: real): Vec3 {
    Add(origin, Scale(dir, t))
  }

  predicate InBox(p: Vec3, lo: Vec3, hi: Vec3) {
    lo.x <= p.x <= hi.x && lo.y <= p.y <= hi.y && lo.z <= p.z <= hi.z
  }

  lemma DivLe(a: real, d: real, t: real)
    requires 0.0 < d
    ensures a / d <= t <==> a <= d * t
  {
    var q := a / d;
    assert q * d == a;
    if q <= t { assert (t - q) * d >= 0.0; } else { assert (q - t) * d > 0.0; }
  }

  lemma LeDiv(a: real, d: real, t: real)
    requires 0.0 < d
    ensures t <= a / d <==> d * t <= a
  {
    var q := a / d;
    assert q * d == a;
    if t <= q { assert (q - t) * d >= 0.0; } else { assert (t - q) * d > 0.0; }
  }

  lemma NegDivLe(a: real, d: real, t: real)
    requires d < 0.0
    ensures a / d <= t <==> d * t <= a
  {
    var q := a / d;
    assert q * d == a;
    if q <= t { assert (t - q) * (-d) >= 0.0; } else { assert (q - t) * (-d) > 0.0; }
  }

  lemma NegLeDiv(a: real, d: real, t: real)
    requires d < 0.0
    ensures t <= a / d <==> a <= d * t
  {
    var q := a / d;
    assert q * d == a;
    if t <= q { assert (q - t) * (-d) >= 0.0; } else { assert (t - q) * (-d) > 0.0; }
  }

  /** On one axis the ray is between the walls exactly for the parameters of its slab. */
  lemma SlabMembership(o: real, d: real, lo: real, hi: real, t: real)
    requires d != 0.0 && lo <= hi
    ensures (lo <= o + d * t <= hi) <==> (Interval(o, d, lo, hi).0 <= t <= Interval(o, d, lo, hi).1)
  {
    if d > 0.0 {
      DivLe(lo - o, d, t);
      LeDiv(hi - o, d, t);
      DivLe(lo - o, d, (hi - o) / d);
    } else {
      NegDivLe(hi - o, d, t);
      NegLeDiv(lo - o, d, t);
      NegDivLe(hi - o, d, (lo - o) / d);
    }
  }

  /** The same on axis `i` of the ray, in terms of its slab. */
  lemma SlabAxis(origin: Vec3, dir: Vec3, lo: Vec3, hi: Vec3, i: nat, t: real)
    requires i < 3 && dir.At(i) != 0.0 && lo.At(i) <= hi.At(i)
    ensures (lo.At(i) <= PointAt(origin, dir, t).At(i) <= hi.At(i)) <==>
      (Slab(origin, dir, lo, hi, i).0 <= t <= Slab(origin, dir, lo, hi, i).1)
  {
    var o, d, l, h := origin.At(i), dir.At(i), lo.At(i), hi.At(i);
    var slab := Interval(o, d, l, h);
    assert Slab(origin, dir, lo, hi, i) == slab;
    assert PointAt(origin, dir, t).At(i) == o + d * t by {
      assert PointAt(origin, dir, t) == Vec3(origin.x + dir.x * t, origin.y + dir.y * t, origin.z + dir.z * t);
    }
    SlabMembership(o, d, l, h, t);
    assert (l <= o + d * t <= h) <==> (slab.0 <= t <= slab.1);
  }

  /** The ray is inside a (non-empty) box exactly for the parameters from its entry to its exit. */
  lemma InBoxBetween(origin: Vec3, dir: Vec3, lo: Vec3, hi: Vec3, t: real)
    requires NonzeroDirection(dir) && Ordered(lo, hi)
    ensures InBox(PointAt(origin, dir, t), lo, hi) <==>
      Entry(origin, dir, lo, hi) <= t <= Exit(origin, dir, lo, hi)
  {
    var p := PointAt(origin, dir, t);
    var s0 := Slab(origin, dir, lo, hi, 0);
    var s1 := Slab(origin, dir, lo, hi, 1);
    var s2 := Slab(origin, dir, lo, hi, 2);
    SlabAxis(origin, dir, lo, hi, 0, t);
    SlabAxis(origin, dir, lo, hi, 1, t);
    SlabAxis(origin, dir, lo, hi, 2, t);
    assert InBox(p, lo, hi) <==>
      (s0.0 <= t <= s0.1) && (s1.0 <= t <= s1.1) && (s2.0 <= t <= s2.1);
  }

  /** The box is non-empty: `min <= max` on every axis. */
  predicate Ordered(lo: Vec3, hi: Vec3) {
    lo.x <= hi.x && lo.y <= hi.y && lo.z <= hi.z
  }

  /** The points of the ray inside the box are those from the entry to the exit. */
  lemma HitsBetween(origin: Vec3, dir: Vec3, lo: Vec3, hi: Vec3)
    requires NonzeroDirection(dir) && Ordered(lo, hi)
    ensures forall u :: InBox(PointAt(origin, dir, u), lo, hi) <==>
      Entry(origin, dir, lo, hi) <= u <= Exit(origin, dir, lo, hi)
  {
    forall u
      ensures InBox(PointAt(origin, dir, u), lo, hi) <==>
        Entry(origin, dir, lo, hi) <= u <= Exit(origin, dir, lo, hi)
    {
      InBoxBetween(origin, dir, lo, hi, u);
    }
  }

  /** `intersectRayAABB` returns `null` exactly when no point of the ray at or after the origin is in the box. */
  lemma RayMissMeaning(origin: Vec3, dir: Vec3, lo: Vec3, hi: Vec3)
    requires NonzeroDirection(dir) && Ordered(lo, hi)
    ensures RayHit(origin, dir, lo, hi).None? <==>
      forall u :: 0.0 <= u ==> !InBox(PointAt(origin, dir, u), lo, hi)
  {
    HitsBetween(origin, dir, lo, hi);
    var tmin := Entry(origin, dir, lo, hi);
    var tmax := Exit(origin, dir, lo, hi);
    if RayHit(origin, dir, lo, hi).Some? {
      var t := RayHit(origin, dir, lo, hi).value;
      assert 0.0 <= t && tmin <= t <= tmax;
      assert InBox(PointAt(origin, dir, t), lo, hi);
    }
  }

  /**
    A parameter `t` that `intersectRayAABB` returns is not behind the origin
    and its point is in the box. When the whole box lies ahead of the origin it
    is the first point of the ray in the box; when part of the box lies behind
    the origin (the camera is inside the container) it is the last one.
   */
  lemma RayHitMeaning(origin: Vec3, dir: Vec3, lo: Vec3, hi: Vec3)
    requires NonzeroDirection(dir) && Ordered(lo, hi)
    requires RayHit(origin, dir, lo, hi).Some?
    ensures var t := RayHit(origin, dir, lo, hi).value;
      0.0 <= t && InBox(PointAt(origin, dir, t), lo, hi)
    ensures var t := RayHit(origin, dir, lo, hi).value;
      (forall u :: InBox(PointAt(origin, dir, u), lo, hi) ==> 0.0 <= u) ==>
        forall u :: InBox(PointAt(origin, dir, u), lo, hi) ==> t <= u
    ensures var t := RayHit(origin, dir, lo, hi).value;
      forall w :: w < 0.0 && InBox(PointAt(origin, dir, w), lo, hi) ==>
        forall u :: InBox(PointAt(origin, dir, u), lo, hi) ==> u <= t
  {
    HitsBetween(origin, dir, lo, hi);
    var tmin := Entry(origin, dir, lo, hi);
    var tmax := Exit(origin, dir, lo, hi);
    var t := RayHit(origin, dir, lo, hi).value;
    assert tmin <= t <= tmax;
    assert InBox(PointAt(origin, dir, tmin), lo, hi);
  }
}
