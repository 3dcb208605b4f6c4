/** The cursor particle trail: a list of live particles, the current and
    previous pointer positions, and the two callbacks that change them — the
    pointer-move handler, which spawns particles along the pointer's path, and
    the frame callback, which updates, draws and culls every particle. */
module CursorParticles {
  import opened Particles
  import opened Frame
  import opened Canvas

  /** The colour of the glow around every particle. */
  const Glow: string := "#D41B2B"

  /** The call a frame makes to draw particle `p`: at its position, with its
      size as radius, its palette colour, its life as opacity and the glow. */
  function Dot(p: Particle): (c: DrawCall)
    ensures c.FillCircle? && c.x == p.x && c.y == p.y && c.radius == p.size
    ensures c.alpha == p.life && c.fill == Palette[p.color] && c.fill in Palette
    ensures c.blur == 2.0 && c.glow == Glow
  {
    DrawCall.FillCircle(p.x, p.y, p.size, Palette[p.color], p.life, 2.0, Glow)
  }

  /** The calls that draw `ps`, in order. */
  function DrawAll(ps: seq<Particle>): (calls: seq<DrawCall>)
    ensures |calls| == |ps|
  {
    seq(|ps|, k requires 0 <= k < |ps| => Dot(ps[k]))
  }

  /** Every circle a frame draws belongs to a surviving particle: its radius
      is above 0.1, and its opacity is the particle's life, in (0, 1]. */
  lemma FrameDrawsOnlyVisible(ps: seq<Particle>, rs: seq<real>)
    requires |ps| <= |rs| && AllUniform(rs)
    requires AllLive(ps)
    ensures forall c :: c in DrawAll(Tick(ps, rs)) ==>
      c.FillCircle? && 0.0 < c.alpha <= 1.0 && c.radius > 0.1 && c.blur == 2.0 && c.glow == Glow
  {
    var ts := Tick(ps, rs);
    TickKeepsLive(ps, rs);
    forall c | c in DrawAll(ts)
      ensures c.FillCircle? && 0.0 < c.alpha <= 1.0 && c.radius > 0.1
    {
      var k :| 0 <= k < |ts| && DrawAll(ts)[k] == c;
      assert Live(ts[k]);
    }
  }

  /** Drawing two lists draws the first, then the second. */
  lemma DrawAllAppend(a: seq<Particle>, b: seq<Particle>)
    ensures DrawAll(a + b) == DrawAll(a) + DrawAll(b)
  {
    assert forall k :: 0 <= k < |a + b| ==> DrawAll(a + b)[k] == (DrawAll(a) + DrawAll(b))[k];
  }

  /** A log that ends with the drawing of `done`, extended by the drawing of
      `kept`, ends with the drawing of `done + kept`. */
  lemma DrawLogAppend(log: seq<DrawCall>, prefix: seq<DrawCall>, done: seq<Particle>, kept: seq<Particle>)
    requires log == prefix + DrawAll(done)
    ensures log + DrawAll(kept) == prefix + DrawAll(done + kept)
  {
    DrawAllAppend(done, kept);
  }

  /** The fill style left behind by drawing `ps` when it was `style` before:
      the colour of the last particle drawn, or `style` if none was. */
  function LastFill(ps: seq<Particle>, style: string): (fill: string)
    ensures ps == [] ==> fill == style
    ensures ps != [] ==> fill in Palette
  {
    if ps == [] then style else Palette[ps[|ps| - 1].color]
  }

  /** Drawing `kept` after `done` leaves the fill style of `done + kept`. */
  lemma LastFillAppend(done: seq<Particle>, kept: seq<Particle>, style: string)
    requires |kept| <= 1
    ensures LastFill(done + kept, style) == if kept == [] then LastFill(done, style) else Palette[kept[0].color]
  {
    if kept == [] {
      assert done + kept == done;
    }
  }

  class ParticleTrail {
    const ctx: Context2D
    var particles: seq<Particle>
    var mouse: Point
    var lastMouse: Point

    /** Only live particles are in the list. */
    ghost predicate Valid()
      reads this
    {
      AllLive(particles)
    }

    /** The state at mount: no particles, both pointer positions at the origin. */
    constructor (ctx: Context2D)
      ensures Valid() && this.ctx == ctx
      ensures particles == [] && mouse == Point(0.0, 0.0) && lastMouse == Point(0.0, 0.0)
    {
      this.ctx := ctx;
      particles := [];
      mouse := Point(0.0, 0.0);
      lastMouse := Point(0.0, 0.0);
    }

    /** The resize handler: the surface takes the viewport's size; the
        particles are untouched. */
    method Resize(innerWidth: nat, innerHeight: nat)
      modifies ctx`width, ctx`height
      ensures ctx.width == innerWidth && ctx.height == innerHeight
      ensures particles == old(particles)
    {
      ctx.Resize(innerWidth, innerHeight);
    }

    /** Appends the particle created at (x, y) from the draws `d`. */
    method CreateParticle(x: real, y: real, d: SpawnDraws)
      requires d.Valid()
      modifies this`particles
      ensures particles == old(particles) + [NewParticle(x, y, d)]
    {
      particles := particles + [NewParticle(x, y, d)];
    }

    /** The pointer-move handler. The pointer moved to (clientX, clientY) at
        distance `dist` from the last recorded position; `draws[i]` holds the
        random draws of the i-th spawned particle. It appends `SpawnCount(dist)`
        particles spread along the move, keeps the old ones as they are, and
        records the new position as the last one. */
    method HandleMouseMove(clientX: real, clientY: real, dist: real, draws: seq<SpawnDraws>)
      requires Valid()
      requires IsHypot(dist, lastMouse, Point(clientX, clientY))
      requires SpawnCount(dist) <= |draws| && AllValid(draws)
      modifies this`particles, this`mouse, this`lastMouse
      ensures Valid()
      ensures mouse == Point(clientX, clientY) && lastMouse == mouse
      ensures particles == old(particles) + SpawnAlong(old(lastMouse), mouse, draws[..SpawnCount(dist)])
    {
      mouse := mouse.(x := clientX);
      mouse := mouse.(y := clientY);
      var count := SpawnCount(dist);
      for i := 0 to count
        invariant mouse == Point(clientX, clientY) && lastMouse == old(lastMouse)
        invariant particles == old(particles) + SpawnAlong(lastMouse, mouse, draws[..i])
      {
        var t := draws[i].t;
        var spawnX := Lerp(lastMouse.x, mouse.x, t);
        var spawnY := Lerp(lastMouse.y, mouse.y, t);
        CreateParticle(spawnX, spawnY, draws[i]);
        assert SpawnAlong(lastMouse, mouse, draws[..i + 1])
            == SpawnAlong(lastMouse, mouse, draws[..i]) + [SpawnAt(lastMouse, mouse, draws[i])];
      }
      lastMouse := mouse;
      NewbornsAreLive(SpawnAlong(old(lastMouse), mouse, draws[..count]));
    }

    /** One step of the frame loop at index `i`, with the random draw `r`:
        the particle there loses life, moves by its velocity and shrinks, in
        place; then it is drawn if it is still visible and spliced out of the
        list otherwise. `kept` tells which. */
    method Visit(i: nat, r: real) returns (kept: bool)
      requires i < |particles| && IsUniform(r)
      requires ctx.shadowBlur == 2.0 && ctx.shadowColor == Glow
      modifies this`particles, ctx`globalAlpha, ctx`fillStyle, ctx`calls
      ensures kept == Visible(Update(old(particles[i]), r))
      ensures particles == old(particles[..i]) + Keep(Update(old(particles[i]), r)) + old(particles[i + 1..])
      ensures ctx.calls == old(ctx.calls) + DrawAll(Keep(Update(old(particles[i]), r)))
      ensures ctx.fillStyle == if kept then Palette[old(particles[i]).color] else old(ctx.fillStyle)
    {
      var p := particles[i];
      p := p.(life := p.life - (0.04 + r * 0.03));
      p := p.(x := p.x + p.speedX);
      p := p.(y := p.y + p.speedY);
      p := p.(size := p.size * 0.92);
      particles := particles[i := p];
      kept := p.life > 0.0 && p.size > 0.1;
      if kept {
        ctx.globalAlpha := p.life;
        ctx.fillStyle := Palette[p.color];
        ctx.FillCircle(p.x, p.y, p.size);
        assert particles == old(particles[..i]) + [p] + old(particles[i + 1..]);
      } else {
        particles := particles[..i] + particles[i + 1..];
      }
    }

    /** The frame callback. `decay[k]` is the random draw spent on the k-th
        particle visited. The surface is cleared, the glow set, every particle
        updated, drawn or removed by `Pass`, and opacity and blur reset. */
    method Animate(decay: seq<real>)
      requires Valid()
      requires |particles| <= |decay| && AllUniform(decay)
      modifies this`particles, ctx
      ensures Valid()
      ensures particles == Tick(old(particles), decay)
      ensures ctx.calls == old(ctx.calls) + [ClearRect(ctx.width, ctx.height)] + DrawAll(particles)
      ensures ctx.globalAlpha == 1.0 && ctx.shadowBlur == 0.0 && ctx.shadowColor == Glow
      ensures ctx.fillStyle == LastFill(particles, old(ctx.fillStyle))
      ensures ctx.width == old(ctx.width) && ctx.height == old(ctx.height)
    {
      ctx.Clear();
      ctx.shadowBlur := 2.0;
      ctx.shadowColor := Glow;
      TickKeepsLive(particles, decay);
      Pass(decay);
      ctx.globalAlpha := 1.0;
      ctx.shadowBlur := 0.0;
    }

    /** The loop of a frame over the particle list, which removes particles
        in place while walking forward (`splice(i, 1)` then `i--`). Every
        particle is visited exactly once, in order: the list afterwards is the
        frame's `Tick` of the list before, and the circles drawn are exactly
        the survivors, in order. */
    method Pass(decay: seq<real>)
      requires |particles| <= |decay| && AllUniform(decay)
      requires ctx.shadowBlur == 2.0 && ctx.shadowColor == Glow
      modifies this`particles, ctx`globalAlpha, ctx`fillStyle, ctx`calls
      ensures particles == Tick(old(particles), decay)
      ensures ctx.calls == old(ctx.calls) + DrawAll(particles)
      ensures ctx.fillStyle == LastFill(particles, old(ctx.fillStyle))
    {
      ghost var before := particles;
      ghost var cleared := ctx.calls;
      ghost var style := ctx.fillStyle;
      var visited := 0;
      var i: int := 0;
      while i < |particles|
        invariant 0 <= visited <= |before|
        invariant particles == Tick(before[..visited], decay) + before[visited..]
        invariant i == |Tick(before[..visited], decay)|
        invariant ctx.calls == cleared + DrawAll(Tick(before[..visited], decay))
        invariant ctx.fillStyle == LastFill(Tick(before[..visited], decay), style)
        decreases |particles| - i
      {
        ghost var done, rest := Tick(before[..visited], decay), before[visited + 1..];
        assert particles[..i] == done && particles[i] == before[visited] && particles[i + 1..] == rest;
        ghost var calls0, kept0 := ctx.calls, Keep(Update(before[visited], decay[visited]));
        var kept := Visit(i, decay[visited]);
        if !kept {
          i := i - 1;
        }
        TickSnoc(before, decay, visited);
        DrawLogAppend(calls0, cleared, done, kept0);
        LastFillAppend(done, kept0, style);
        visited := visited + 1;
        i := i + 1;
      }
      assert before[..visited] == before;
    }
  }
}
