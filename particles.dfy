/** Values of the cursor particle trail: pointer positions, particles, the
    colour palette, and the rules that decide how many particles a pointer
    move spawns and what each new particle looks like.

    Every `Math.random()` draw of the component is a parameter in [0, 1),
    and `Math.hypot` is replaced by a distance the caller supplies, known
    only as the non-negative number whose square is dx² + dy². Coordinates,
    sizes, speeds and life are exact reals. */
module Particles {

  /** A position in viewport pixels. */
  datatype Point = Point(x: real, y: real)

  /** The four fill colours a particle may be given; a particle keeps the
      index of its colour. */
  const Palette: seq<string> := [
    "rgba(212, 27, 43, 0.6)",
    "rgba(255, 69, 0, 0.6)",
    "rgba(255, 140, 0, 0.5)",
    "rgba(255, 255, 255, 0.4)"
  ]

  type ColorIndex = c: nat | c < 4

  /** One particle of the trail. Velocity never changes after creation;
      position, size and life change once per frame. */
  datatype Particle = Particle(
    x: real,
    y: real,
    size: real,
    speedX: real,
    speedY: real,
    life: real,
    color: ColorIndex)

  /** A value `Math.random()` can return. */
  predicate IsUniform(r: real) {
    0.0 <= r < 1.0
  }

  predicate AllUniform(rs: seq<real>) {
    forall k :: 0 <= k < |rs| ==> IsUniform(rs[k])
  }

  /** The seven random draws spent on one spawned particle, in the order they
      are made: the interpolation fraction, then the six draws of the
      particle record (x jitter, y jitter, size, horizontal speed, vertical
      speed, colour). */
  datatype SpawnDraws = SpawnDraws(
    t: real,
    jitterX: real,
    jitterY: real,
    size: real,
    speedX: real,
    speedY: real,
    color: real)
  {
    predicate Valid() {
      IsUniform(t) && IsUniform(jitterX) && IsUniform(jitterY) && IsUniform(size)
      && IsUniform(speedX) && IsUniform(speedY) && IsUniform(color)
    }
  }

  predicate AllValid(draws: seq<SpawnDraws>) {
    forall k :: 0 <= k < |draws| ==> draws[k].Valid()
  }

  function Abs(r: real): real {
    if r < 0.0 then -r else r
  }

  /** `dist = Math.hypot(dx, dy)` for the move from `from` to `to`: the
      non-negative number whose square is dx² + dy². */
  predicate IsHypot(dist: real, from: Point, to: Point) {
    var dx, dy := to.x - from.x, to.y - from.y;
    dist >= 0.0 && dist * dist == dx * dx + dy * dy
  }

  /** The product of two non-negative numbers is non-negative. */
  lemma ProductNonNegative(a: real, b: real)
    requires 0.0 <= a && 0.0 <= b
    ensures 0.0 <= a * b
  {
  }

  /** The product of two positive numbers is positive. */
  lemma ProductPositive(a: real, b: real)
    requires 0.0 < a && 0.0 < b
    ensures 0.0 < a * b
  {
  }

  /** Squaring keeps the order of non-negative numbers. */
  lemma SquareMonotone(a: real, b: real)
    requires 0.0 <= a && 0.0 <= b
    ensures a * a <= b * b <==> a <= b
  {
    if a <= b {
      ProductNonNegative(a, b - a);
      ProductNonNegative(b, b - a);
      assert a * (b - a) == a * b - a * a;
      assert b * (b - a) == b * b - a * b;
    } else {
      ProductPositive(a, a - b);
      ProductNonNegative(b, a - b);
      assert a * (a - b) == a * a - a * b;
      assert b * (a - b) == a * b - b * b;
    }
  }

  /** The Euclidean length of a move is at least the larger of |dx| and |dy|
      and at most their sum. */
  lemma HypotBounds(dist: real, from: Point, to: Point)
    requires IsHypot(dist, from, to)
    ensures Abs(to.x - from.x) <= dist && Abs(to.y - from.y) <= dist
    ensures dist <= Abs(to.x - from.x) + Abs(to.y - from.y)
  {
    var dx, dy := to.x - from.x, to.y - from.y;
    var ax, ay := Abs(dx), Abs(dy);
    assert ax * ax == dx * dx && ay * ay == dy * dy;
    assert 0.0 <= ax * ay;
    SquareMonotone(ax, dist);
    SquareMonotone(ay, dist);
    assert (ax + ay) * (ax + ay) == ax * ax + 2.0 * (ax * ay) + ay * ay;
    SquareMonotone(dist, ax + ay);
  }

  /** `Math.ceil`: the least integer not below `x`. */
  function Ceil(x: real): (c: int)
    ensures c as real - 1.0 < x <= c as real
  {
    -((-x).Floor)
  }

  /** Number of particles spawned by a pointer move of length `dist`:
      `min(3, ceil(dist / 10))`, that is one particle per started 10 pixels,
      at most three. */
  function SpawnCount(dist: real): (n: nat)
    requires dist >= 0.0
    ensures n <= 3
    ensures n == 0 <==> dist == 0.0
    ensures n == 3 <==> dist > 20.0
    ensures 0 < n < 3 ==> (n - 1) as real * 10.0 < dist <= n as real * 10.0
  {
    var c := Ceil(dist / 10.0);
    if c < 3 then c else 3
  }

  /** A pointer event spawns nothing exactly when the pointer did not move,
      and the full three particles exactly when it moved more than 20
      pixels, that is when dx² + dy² > 400. */
  lemma SpawnCountOfMove(dist: real, from: Point, to: Point)
    requires IsHypot(dist, from, to)
    ensures SpawnCount(dist) == 0 <==> from == to
    ensures from != to ==> 1 <= SpawnCount(dist) <= 3
    ensures SpawnCount(dist) == 3 <==>
      (to.x - from.x) * (to.x - from.x) + (to.y - from.y) * (to.y - from.y) > 400.0
  {
    HypotBounds(dist, from, to);
    SquareMonotone(dist, 20.0);
  }

  /** `a + (b - a) * t`: the point at fraction `t` of the way from `a` to `b`. */
  function Lerp(a: real, b: real, t: real): (r: real)
    ensures 0.0 <= t <= 1.0 && a <= b ==> a <= r <= b
    ensures 0.0 <= t <= 1.0 && b <= a ==> b <= r <= a
  {
    var r := a + (b - a) * t;
    LerpWithin(a, b, t, r);
    r
  }

  /** A fraction in [0, 1] of the way from `a` to `b` lies between them. */
  lemma LerpWithin(a: real, b: real, t: real, r: real)
    requires r == a + (b - a) * t
    ensures 0.0 <= t <= 1.0 && a <= b ==> a <= r <= b
    ensures 0.0 <= t <= 1.0 && b <= a ==> b <= r <= a
  {
    if 0.0 <= t <= 1.0 {
      var d := b - a;
      assert d * (1.0 - t) == d - d * t;
      assert (-d) * t == -(d * t) && (-d) * (1.0 - t) == d * t - d;
      if 0.0 <= d {
        ProductNonNegative(d, t);
        ProductNonNegative(d, 1.0 - t);
      } else {
        ProductNonNegative(-d, t);
        ProductNonNegative(-d, 1.0 - t);
      }
    }
  }

  /** The palette entry picked by a uniform draw: `floor(r * 4)`. */
  function PickColor(r: real): (c: ColorIndex)
    requires IsUniform(r)
    ensures c as real <= r * 4.0 < c as real + 1.0
  {
    (r * 4.0).Floor
  }

  /** What every particle looks like when it is created. */
  predicate Newborn(p: Particle) {
    && p.life == 1.0
    && 0.5 <= p.size < 2.0
    && -0.4 <= p.speedX < 0.4
    && -2.0 < p.speedY <= -0.5
  }

  /** The particle record built at spawn point (x, y): the point plus at most
      2 pixels of jitter on each axis, and bounded random size and velocity. */
  function NewParticle(x: real, y: real, d: SpawnDraws): (p: Particle)
    requires d.Valid()
    ensures Newborn(p)
    ensures x - 2.0 <= p.x < x + 2.0 && y - 2.0 <= p.y < y + 2.0
  {
    Particle(
      x + (d.jitterX - 0.5) * 4.0,
      y + (d.jitterY - 0.5) * 4.0,
      d.size * 1.5 + 0.5,
      (d.speedX - 0.5) * 0.8,
      -d.speedY * 1.5 - 0.5,
      1.0,
      PickColor(d.color))
  }

  /** `p` lies within 2 pixels per axis of a point on the segment from
      `from` (included) towards `to` (excluded). */
  ghost predicate NearSegment(p: Particle, from: Point, to: Point) {
    exists t ::
      && 0.0 <= t < 1.0
      && Lerp(from.x, to.x, t) - 2.0 <= p.x < Lerp(from.x, to.x, t) + 2.0
      && Lerp(from.y, to.y, t) - 2.0 <= p.y < Lerp(from.y, to.y, t) + 2.0
  }

  /** One spawn of a pointer move from `from` to `to`: a particle created at
      the interpolated point chosen by the draw `d.t`. */
  function SpawnAt(from: Point, to: Point, d: SpawnDraws): (p: Particle)
    requires d.Valid()
    ensures Newborn(p) && NearSegment(p, from, to)
  {
    NewParticle(Lerp(from.x, to.x, d.t), Lerp(from.y, to.y, d.t), d)
  }

  /** The particles a pointer move from `from` to `to` appends, one per
      group of draws, in order. */
  function SpawnAlong(from: Point, to: Point, draws: seq<SpawnDraws>): (ps: seq<Particle>)
    requires AllValid(draws)
    ensures |ps| == |draws|
    ensures forall k :: 0 <= k < |ps| ==> Newborn(ps[k]) && NearSegment(ps[k], from, to)
  {
    seq(|draws|, k requires 0 <= k < |draws| => SpawnAt(from, to, draws[k]))
  }

  /** A move straight down from (0, 0) to (0, 100) spawns three particles,
      each with y in [-2, 102). */
  lemma VerticalSwipe(draws: seq<SpawnDraws>)
    requires |draws| == 3 && AllValid(draws)
    ensures SpawnCount(100.0) == 3
    ensures IsHypot(100.0, Point(0.0, 0.0), Point(0.0, 100.0))
    ensures forall p :: p in SpawnAlong(Point(0.0, 0.0), Point(0.0, 100.0), draws) ==>
      -2.0 <= p.y < 102.0 && -2.0 <= p.x < 2.0
  {
    var ps := SpawnAlong(Point(0.0, 0.0), Point(0.0, 100.0), draws);
    forall p | p in ps
      ensures -2.0 <= p.y < 102.0 && -2.0 <= p.x < 2.0
    {
      var k :| 0 <= k < |ps| && ps[k] == p;
      var t := draws[k].t;
      assert p == NewParticle(Lerp(0.0, 0.0, t), Lerp(0.0, 100.0, t), draws[k]);
      assert 0.0 <= Lerp(0.0, 100.0, t) < 100.0;
    }
  }
}
