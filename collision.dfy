/**
  The collision layer of the simulator (collision.js): an axis-aligned box that
  keeps particles inside it, and the pairwise push-apart-and-bounce response
  between overlapping spheres.

  A JavaScript particle is an object `{position, velocity, radius}` whose arrays
  the collision code edits in place. Here a particle is a record; the JavaScript
  "edit the object's fields" becomes "write the updated record back to the
  particle's slot of the array".
 */
module Collision {
  import opened Vector
  import opened Wrappers

  /** Bounce coefficient of both the wall response and the pair response. */
  const Restitution: real := 0.6

  /** A particle; `radius` is `None` when the object has no `radius` property. */
  datatype Particle = Particle(position: Vec3, velocity: Vec3, radius: Option<real>)

  /** The radius the wall test uses: `particle.radius || 0`. */
  function WallRadius(p: Particle): real {
    p.radius.GetOr(0.0)
  }

  /** The particle lies within `[lo, hi]` on axis `i`, its radius included. */
  predicate InsideOnAxis(lo: Vec3, hi: Vec3, r: real, p: Vec3, i: nat)
    requires i < 3
  {
    lo.At(i) <= p.At(i) - r && p.At(i) + r <= hi.At(i)
  }

  /** The particle lies within the box on every axis. */
  predicate InsideBox(lo: Vec3, hi: Vec3, r: real, p: Vec3) {
    forall i: nat :: i < 3 ==> InsideOnAxis(lo, hi, r, p, i)
  }

  /** The box is wide enough on every axis for a sphere of radius `r`. */
  predicate Fits(lo: Vec3, hi: Vec3, r: real) {
    forall i: nat :: i < 3 ==> lo.At(i) + r <= hi.At(i) - r
  }

  /**
    One axis of `collide`: the new (position, velocity) component of a particle
    of radius `r` at `p` moving with `v`, against the walls `lo` and `hi`.
    The minimum wall is tested first; the maximum wall only when the minimum
    wall was not hit.
   */
  function WallAxis(lo: real, hi: real, r: real, p: real, v: real): (res: (real, real))
    // nothing happens exactly when the sphere is within both walls
    ensures (res.0 == p && res.1 == v) <==> (lo <= p - r && p + r <= hi)
    // a sphere through the minimum wall is put against it and sent inward, slowed down
    ensures p - r < lo ==>
      res.0 - r == lo && 0.0 <= res.1 && Abs(res.1) == Restitution * Abs(v)
    // a sphere through only the maximum wall is put against it and sent inward, slowed down
    ensures lo <= p - r && hi < p + r ==>
      res.0 + r == hi && res.1 <= 0.0 && Abs(res.1) == Restitution * Abs(v)
    // the response never speeds a particle up
    ensures Abs(res.1) <= Abs(v)
    // when the box is wide enough, the sphere ends up inside it
    ensures lo + r <= hi - r ==> lo <= res.0 - r && res.0 + r <= hi
  {
    if p - r < lo then
      (lo + r, Abs(v) * Restitution)
    else if p + r > hi then
      (hi - r, -Abs(v) * Restitution)
    else
      (p, v)
  }

  /** The particle after `collide` against the box `[lo, hi]`: every axis responds on its own. */
  function Collided(lo: Vec3, hi: Vec3, particle: Particle): (q: Particle)
    // only position and velocity respond; the radius is kept
    ensures q.radius == particle.radius
    // the particle is left alone exactly when it is inside the box
    ensures q == particle <==> InsideBox(lo, hi, WallRadius(particle), particle.position)
  {
    var r := WallRadius(particle);
    var p := particle.position;
    var v := particle.velocity;
    var ax := WallAxis(lo.x, hi.x, r, p.x, v.x);
    var ay := WallAxis(lo.y, hi.y, r, p.y, v.y);
    var az := WallAxis(lo.z, hi.z, r, p.z, v.z);
    assert InsideBox(lo, hi, r, p) <==>
      InsideOnAxis(lo, hi, r, p, 0) && InsideOnAxis(lo, hi, r, p, 1) && InsideOnAxis(lo, hi, r, p, 2);
    particle.(position := Vec3(ax.0, ay.0, az.0), velocity := Vec3(ax.1, ay.1, az.1))
  }

  /** After `collide` a particle is inside every axis of a box wide enough for it. */
  lemma CollidedContained(lo: Vec3, hi: Vec3, particle: Particle)
    requires Fits(lo, hi, WallRadius(particle))
    ensures var q := Collided(lo, hi, particle);
      InsideBox(lo, hi, WallRadius(q), q.position)
  {
    var r := WallRadius(particle);
    assert lo.At(0) + r <= hi.At(0) - r;
    assert lo.At(1) + r <= hi.At(1) - r;
    assert lo.At(2) + r <= hi.At(2) - r;
  }

  /** A particle already inside the box is left exactly as it is. */
  lemma CollidedInside(lo: Vec3, hi: Vec3, particle: Particle)
    requires InsideBox(lo, hi, WallRadius(particle), particle.position)
    ensures Collided(lo, hi, particle) == particle
  {
    var r := WallRadius(particle);
    assert InsideOnAxis(lo, hi, r, particle.position, 0);
    assert InsideOnAxis(lo, hi, r, particle.position, 1);
    assert InsideOnAxis(lo, hi, r, particle.position, 2);
  }

  /** A second `collide` in a box wide enough for the particle changes nothing. */
  lemma CollidedIdempotent(lo: Vec3, hi: Vec3, particle: Particle)
    requires Fits(lo, hi, WallRadius(particle))
    ensures Collided(lo, hi, Collided(lo, hi, particle)) == Collided(lo, hi, particle)
  {
    CollidedContained(lo, hi, particle);
    CollidedInside(lo, hi, Collided(lo, hi, particle));
  }

  /** An axis-aligned box; `app.js` reassigns its corners when the container is rescaled. */
  class RectangularContainer {
    var min: Vec3
    var max: Vec3

    constructor(minCorner: Vec3, maxCorner: Vec3)
      ensures min == minCorner && max == maxCorner
    {
      min := minCorner;
      max := maxCorner;
    }

    /** `collide(particle)`: the particle as the axis loop leaves it. */
    method Collide(particle: Particle) returns (q: Particle)
      ensures q == Collided(min, max, particle)
    {
      var r := WallRadius(particle);
      var p := particle.position;
      var v := particle.velocity;
      for i := 0 to 3
        invariant forall k: nat :: k < i ==>
          (p.At(k), v.At(k)) == WallAxis(min.At(k), max.At(k), r, particle.position.At(k), particle.velocity.At(k))
        invariant forall k: nat :: i <= k < 3 ==>
          p.At(k) == particle.position.At(k) && v.At(k) == particle.velocity.At(k)
      {
        if p.At(i) - r < min.At(i) {
          p := p.With(i, min.At(i) + r);
          v := v.With(i, Abs(v.At(i)) * Restitution);
        } else if p.At(i) + r > max.At(i) {
          p := p.With(i, max.At(i) - r);
          v := v.With(i, -Abs(v.At(i)) * Restitution);
        }
      }
      q := particle.(position := p, velocity := v);
      assert p == Vec3(p.At(0), p.At(1), p.At(2));
      assert v == Vec3(v.At(0), v.At(1), v.At(2));
    }
  }

  /** Every particle after one `collide` each, in array order. */
  function WallPass(s: seq<Particle>, lo: Vec3, hi: Vec3): (r: seq<Particle>)
    ensures |r| == |s|
    ensures forall k :: 0 <= k < |s| ==> r[k] == Collided(lo, hi, s[k])
  {
    seq(|s|, k requires 0 <= k < |s| => Collided(lo, hi, s[k]))
  }

  /** `handleContainerCollisions`: `collide` on every particle. */
  method HandleContainerCollisions(particles: array<Particle>, container: RectangularContainer)
    modifies particles
    ensures particles[..] == WallPass(old(particles[..]), container.min, container.max)
  {
    for k := 0 to particles.Length
      invariant particles[..k] == WallPass(old(particles[..]), container.min, container.max)[..k]
      invariant particles[k..] == old(particles[k..])
    {
      var q := container.Collide(particles[k]);
      particles[k] := q;
    }
  }

  /** A pass over a box wide enough for every particle leaves every particle inside it. */
  lemma WallPassContained(s: seq<Particle>, lo: Vec3, hi: Vec3)
    requires forall k :: 0 <= k < |s| ==> Fits(lo, hi, WallRadius(s[k]))
    ensures forall k :: 0 <= k < |s| ==>
      InsideBox(lo, hi, WallRadius(WallPass(s, lo, hi)[k]), WallPass(s, lo, hi)[k].position)
  {
    forall k | 0 <= k < |s| {
      CollidedContained(lo, hi, s[k]);
    }
  }

  // ---------------------------------------------------------------------------
  // Particle-particle response (handleParticleCollisions)
  // ---------------------------------------------------------------------------

  /**
    The pair test of collision.js: both radii are numbers and the squared
    distance between the centres is below the squared sum of the radii. With a
    missing radius the sum is `NaN` and the comparison is false.
   */
  predicate Overlapping(a: Particle, b: Particle) {
    a.radius.Some? && b.radius.Some? &&
    Norm2(Sub(b.position, a.position)) < Sq(a.radius.value + b.radius.value)
  }

  function RadiusSum(a: Particle, b: Particle): real
    requires a.radius.Some? && b.radius.Some?
  {
    a.radius.value + b.radius.value
  }

  /**
    `Math.sqrt(dist2) || rSum`: the centre distance, or the radius sum when the
    centres coincide. It is never zero, so the normal can be formed.
   */
  function ContactDistance(a: Particle, b: Particle, sqrt: real -> real): (dist: real)
    requires Overlapping(a, b)
    ensures dist != 0.0
    ensures IsSqrt(sqrt) && a.position != b.position ==>
      0.0 < dist && Sq(dist) == Norm2(Sub(b.position, a.position))
    ensures IsSqrt(sqrt) && a.position == b.position ==> dist == RadiusSum(a, b)
  {
    var s := sqrt(Norm2(Sub(b.position, a.position)));
    ContactDistanceFacts(a, b, sqrt);
    Norm2Positive(Sub(b.position, a.position));
    if s != 0.0 then s else RadiusSum(a, b)
  }

  lemma ContactDistanceFacts(a: Particle, b: Particle, sqrt: real -> real)
    requires Overlapping(a, b)
    ensures RadiusSum(a, b) != 0.0
    ensures IsSqrt(sqrt) && a.position != b.position ==>
      0.0 < sqrt(Norm2(Sub(b.position, a.position))) &&
      Sq(sqrt(Norm2(Sub(b.position, a.position)))) == Norm2(Sub(b.position, a.position))
    ensures IsSqrt(sqrt) && a.position == b.position ==> sqrt(Norm2(Sub(b.position, a.position))) == 0.0
  {
    var d := Sub(b.position, a.position);
    Norm2Positive(d);
    RadiusSumNonzero(Norm2(d), RadiusSum(a, b));
    SubZero(a.position, b.position);
    if IsSqrt(sqrt) {
      SqrtOfNorm2(d, sqrt);
    }
  }

  /** A radius sum whose square exceeds a non-negative squared distance is not zero. */
  lemma RadiusSumNonzero(dist2: real, rSum: real)
    requires 0.0 <= dist2 < Sq(rSum)
    ensures rSum != 0.0
  {
    assert Sq(0.0) == 0.0;
  }

  /** The root of a squared length is positive exactly for a non-zero vector. */
  lemma SqrtOfNorm2(d: Vec3, sqrt: real -> real)
    requires IsSqrt(sqrt)
    ensures 0.0 <= sqrt(Norm2(d)) && Sq(sqrt(Norm2(d))) == Norm2(d)
    ensures d != Zero <==> 0.0 < sqrt(Norm2(d))
  {
    Norm2Positive(d);
    var s := sqrt(Norm2(d));
    Square(s);
    assert Sq(0.0) == 0.0;
  }

  /** The unit vector from `a` to `b` (the zero vector when the centres coincide). */
  function ContactNormal(a: Particle, b: Particle, sqrt: real -> real): Vec3
    requires Overlapping(a, b)
  {
    Div(Sub(b.position, a.position), ContactDistance(a, b, sqrt))
  }

  /** `velAlongNormal`: the speed of `b` relative to `a` along the contact normal. */
  function NormalSpeed(a: Particle, b: Particle, sqrt: real -> real): real
    requires Overlapping(a, b)
  {
    Dot(Sub(b.velocity, a.velocity), ContactNormal(a, b, sqrt))
  }

  /**
    The body of the inner loop of `handleParticleCollisions` for particles `a`
    (index i) and `b` (index j > i): push overlapping spheres apart along the
    normal, half the overlap each, then, unless they already separate, apply the
    impulse `-(1 + restitution) * velAlongNormal / 2` to each in opposite
    directions.
   */
  function ResolvePair(a: Particle, b: Particle, sqrt: real -> real): (r: (Particle, Particle))
    ensures r.0.radius == a.radius && r.1.radius == b.radius
    ensures !Overlapping(a, b) ==> r == (a, b)
    // the midpoint of the pair does not move
    ensures Add(r.0.position, r.1.position) == Add(a.position, b.position)
    // the total momentum of the pair (equal masses) is preserved
    ensures Add(r.0.velocity, r.1.velocity) == Add(a.velocity, b.velocity)
    // spheres that already move apart keep their velocities
    ensures Overlapping(a, b) && NormalSpeed(a, b, sqrt) > 0.0 ==>
      r.0.velocity == a.velocity && r.1.velocity == b.velocity
  {
    if !Overlapping(a, b) then
      (a, b)
    else
      var dist := ContactDistance(a, b, sqrt);
      var n := ContactNormal(a, b, sqrt);
      var overlap := RadiusSum(a, b) - dist;
      var shift := Scale(n, overlap * 0.5);
      var a1 := a.(position := Sub(a.position, shift));
      var b1 := b.(position := Add(b.position, shift));
      var velAlongNormal := NormalSpeed(a, b, sqrt);
      if velAlongNormal > 0.0 then
        (a1, b1)
      else
        var jImpulse := -(1.0 + Restitution) * velAlongNormal / 2.0;
        (a1.(velocity := Sub(a.velocity, Scale(n, jImpulse))),
         b1.(velocity := Add(b.velocity, Scale(n, jImpulse))))
  }

  /** Two particles at the same point have a zero normal and are left as they are. */
  lemma ResolveCoincident(a: Particle, b: Particle, sqrt: real -> real)
    requires a.position == b.position
    ensures ResolvePair(a, b, sqrt) == (a, b)
  {
    if Overlapping(a, b) {
      SubZero(a.position, b.position);
      var dist := ContactDistance(a, b, sqrt);
      ZeroVector(dist, (RadiusSum(a, b) - dist) * 0.5, Sub(b.velocity, a.velocity));
      var n := ContactNormal(a, b, sqrt);
      assert n == Zero;
    }
  }

  lemma ZeroVector(dist: real, k: real, u: Vec3)
    requires dist != 0.0
    ensures Div(Zero, dist) == Zero && Scale(Zero, k) == Zero && Dot(u, Zero) == 0.0
  {
  }

  /** `b - a` changed by `k` along `n` on each side. */
  lemma SeparationAfterShift(pa: Vec3, pb: Vec3, n: Vec3, k: real)
    ensures Sub(Add(pb, Scale(n, k)), Sub(pa, Scale(n, k))) == Add(Sub(pb, pa), Scale(n, 2.0 * k))
  {
  }

  /** After the push-apart, overlapping spheres with distinct centres exactly touch. */
  lemma ResolveTouches(a: Particle, b: Particle, sqrt: real -> real)
    requires IsSqrt(sqrt) && Overlapping(a, b) && a.position != b.position
    ensures var r := ResolvePair(a, b, sqrt);
      Norm2(Sub(r.1.position, r.0.position)) == Sq(RadiusSum(a, b))
  {
    var d := Sub(b.position, a.position);
    var dist := ContactDistance(a, b, sqrt);
    var n := ContactNormal(a, b, sqrt);
    var rSum := RadiusSum(a, b);
    var overlap := rSum - dist;
    SeparationAfterShift(a.position, b.position, n, overlap * 0.5);
    DivScale(d, dist);
    assert Add(d, Scale(n, overlap)) == Scale(n, rSum) by {
      assert d == Scale(n, dist);
    }
    UnitLength(d, dist);
    Norm2Scale(n, rSum);
  }

  /** The velocity update adds `2k` along `n` to the relative velocity. */
  lemma RelativeAfterImpulse(va: Vec3, vb: Vec3, n: Vec3, k: real)
    ensures Sub(Add(vb, Scale(n, k)), Sub(va, Scale(n, k))) == Add(Sub(vb, va), Scale(n, 2.0 * k))
  {
  }

  lemma DotAlong(u: Vec3, n: Vec3, k: real)
    ensures Dot(Add(u, Scale(n, k)), n) == Dot(u, n) + k * Norm2(n)
  {
  }

  /**
    For approaching spheres with distinct centres the impulse turns the normal
    relative speed `vn` into `-restitution * vn`.
   */
  lemma ResolveRestitution(a: Particle, b: Particle, sqrt: real -> real)
    requires IsSqrt(sqrt) && Overlapping(a, b) && a.position != b.position
    requires NormalSpeed(a, b, sqrt) <= 0.0
    ensures var r := ResolvePair(a, b, sqrt);
      Dot(Sub(r.1.velocity, r.0.velocity), ContactNormal(a, b, sqrt)) == -Restitution * NormalSpeed(a, b, sqrt)
  {
    var d := Sub(b.position, a.position);
    var dist := ContactDistance(a, b, sqrt);
    var n := ContactNormal(a, b, sqrt);
    var vn := NormalSpeed(a, b, sqrt);
    var j := -(1.0 + Restitution) * vn / 2.0;
    RelativeAfterImpulse(a.velocity, b.velocity, n, j);
    UnitLength(d, dist);
    DotAlong(Sub(b.velocity, a.velocity), n, 2.0 * j);
  }

  /** One step of the pair loop: resolve `(s[i], s[j])` and write both back. */
  function StepPair(s: seq<Particle>, i: nat, j: nat, sqrt: real -> real): (r: seq<Particle>)
    requires i < j < |s|
    ensures |r| == |s|
  {
    var p := ResolvePair(s[i], s[j], sqrt);
    s[i := p.0][j := p.1]
  }

  /**
    The rest of the pair loop of `handleParticleCollisions` from outer index `i`
    and inner index `j`: row by row, `j` from `i + 1` up.
   */
  function PairsFrom(s: seq<Particle>, i: nat, j: nat, sqrt: real -> real): (r: seq<Particle>)
    requires i < j
    ensures |r| == |s|
    ensures forall k :: 0 <= k < |s| ==> r[k].radius == s[k].radius
    decreases |s| - i, |s| - j
  {
    if i >= |s| then s
    else if j >= |s| then PairsFrom(s, i + 1, i + 2, sqrt)
    else PairsFrom(StepPair(s, i, j, sqrt), i, j + 1, sqrt)
  }

  /** `handleParticleCollisions` on the particle sequence: every pair `i < j` once, in loop order. */
  function PairwisePass(s: seq<Particle>, sqrt: real -> real): seq<Particle> {
    PairsFrom(s, 0, 1, sqrt)
  }

  /** `handleParticleCollisions`: the nested loop over all pairs `i < j`. */
  method HandleParticleCollisions(particles: array<Particle>, sqrt: real -> real)
    modifies particles
    ensures particles[..] == PairwisePass(old(particles[..]), sqrt)
  {
    for i := 0 to particles.Length
      invariant PairsFrom(particles[..], i, i + 1, sqrt) == PairwisePass(old(particles[..]), sqrt)
    {
      for j := i + 1 to particles.Length
        invariant PairsFrom(particles[..], i, j, sqrt) == PairwisePass(old(particles[..]), sqrt)
      {
        var r := ResolvePair(particles[i], particles[j], sqrt);
        assert StepPair(particles[..], i, j, sqrt) == particles[..][i := r.0][j := r.1];
        particles[i] := r.0;
        particles[j] := r.1;
      }
    }
  }

  function Positions(s: seq<Particle>): (ps: seq<Vec3>)
    ensures |ps| == |s|
    ensures forall k :: 0 <= k < |s| ==> ps[k] == s[k].position
  {
    seq(|s|, k requires 0 <= k < |s| => s[k].position)
  }

  function Velocities(s: seq<Particle>): (vs: seq<Vec3>)
    ensures |vs| == |s|
    ensures forall k :: 0 <= k < |s| ==> vs[k] == s[k].velocity
  {
    seq(|s|, k requires 0 <= k < |s| => s[k].velocity)
  }

  /** One pair step preserves total momentum and the sum of the positions. */
  lemma StepPairConserves(s: seq<Particle>, i: nat, j: nat, sqrt: real -> real)
    requires i < j < |s|
    ensures Sum(Velocities(StepPair(s, i, j, sqrt))) == Sum(Velocities(s))
    ensures Sum(Positions(StepPair(s, i, j, sqrt))) == Sum(Positions(s))
  {
    var p := ResolvePair(s[i], s[j], sqrt);
    var s1 := s[i := p.0];
    var s2 := s1[j := p.1];
    assert Velocities(s1) == Velocities(s)[i := p.0.velocity];
    assert Velocities(s2) == Velocities(s1)[j := p.1.velocity];
    SumUpdate(Velocities(s), i, p.0.velocity);
    SumUpdate(Velocities(s1), j, p.1.velocity);
    assert Positions(s1) == Positions(s)[i := p.0.position];
    assert Positions(s2) == Positions(s1)[j := p.1.position];
    SumUpdate(Positions(s), i, p.0.position);
    SumUpdate(Positions(s1), j, p.1.position);
  }

  /** The pair loop preserves total momentum. */
  lemma {:induction false} PairsFromMomentum(s: seq<Particle>, i: nat, j: nat, sqrt: real -> real)
    requires i < j
    ensures Sum(Velocities(PairsFrom(s, i, j, sqrt))) == Sum(Velocities(s))
    decreases |s| - i, |s| - j
  {
    if i >= |s| {
    } else if j >= |s| {
      PairsFromMomentum(s, i + 1, i + 2, sqrt);
    } else {
      StepPairConserves(s, i, j, sqrt);
      PairsFromMomentum(StepPair(s, i, j, sqrt), i, j + 1, sqrt);
    }
  }

  /** The pair loop preserves the sum of positions, that is the centre of mass. */
  lemma {:induction false} PairsFromCentre(s: seq<Particle>, i: nat, j: nat, sqrt: real -> real)
    requires i < j
    ensures Sum(Positions(PairsFrom(s, i, j, sqrt))) == Sum(Positions(s))
    decreases |s| - i, |s| - j
  {
    if i >= |s| {
    } else if j >= |s| {
      PairsFromCentre(s, i + 1, i + 2, sqrt);
    } else {
      StepPairConserves(s, i, j, sqrt);
      PairsFromCentre(StepPair(s, i, j, sqrt), i, j + 1, sqrt);
    }
  }

  /** `handleParticleCollisions` preserves total momentum and the centre of mass. */
  lemma PairwisePassConserves(s: seq<Particle>, sqrt: real -> real)
    ensures Sum(Velocities(PairwisePass(s, sqrt))) == Sum(Velocities(s))
    ensures Sum(Positions(PairwisePass(s, sqrt))) == Sum(Positions(s))
  {
    PairsFromMomentum(s, 0, 1, sqrt);
    PairsFromCentre(s, 0, 1, sqrt);
  }

  /** No two distinct particles of `s` overlap. */
  predicate Separated(s: seq<Particle>) {
    forall k, l :: 0 <= k < l < |s| ==> !Overlapping(s[k], s[l])
  }

  /** The pair loop leaves a sequence without overlapping pairs as it is. */
  lemma {:induction false} PairsFromSeparated(s: seq<Particle>, i: nat, j: nat, sqrt: real -> real)
    requires i < j && Separated(s)
    ensures PairsFrom(s, i, j, sqrt) == s
    decreases |s| - i, |s| - j
  {
    if i >= |s| {
    } else if j >= |s| {
      PairsFromSeparated(s, i + 1, i + 2, sqrt);
    } else {
      assert !Overlapping(s[i], s[j]);
      assert StepPair(s, i, j, sqrt) == s;
      PairsFromSeparated(s, i, j + 1, sqrt);
    }
  }

  /** `handleParticleCollisions` changes nothing when no two particles overlap. */
  lemma PairwisePassSeparated(s: seq<Particle>, sqrt: real -> real)
    requires Separated(s)
    ensures PairwisePass(s, sqrt) == s
  {
    PairsFromSeparated(s, 0, 1, sqrt);
  }
}
