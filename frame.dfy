/** The per-frame pass over the live particles, as a specification: every
    particle is updated once (life decays, position integrates, size
    shrinks), and the updated particles that are still visible are kept in
    their original order. */
module Frame {
  import opened Particles

  /** How much life a particle loses in one frame, given the frame's random
      draw `r` for it: 0.04 plus up to 0.03 of noise. */
  function Decay(r: real): (d: real)
    requires IsUniform(r)
    ensures 0.04 <= d < 0.07
  {
    0.04 + r * 0.03
  }

  /** One frame's update of one particle. */
  function Update(p: Particle, r: real): (q: Particle)
    requires IsUniform(r)
    ensures p.life - 0.07 < q.life <= p.life - 0.04
    ensures q.x == p.x + p.speedX && q.y == p.y + p.speedY
    ensures q.size == p.size * 0.92
    ensures p.size > 0.0 ==> 0.0 < q.size < p.size
    ensures q.speedX == p.speedX && q.speedY == p.speedY && q.color == p.color
  {
    p.(life := p.life - Decay(r), x := p.x + p.speedX, y := p.y + p.speedY, size := p.size * 0.92)
  }

  /** A particle is drawn, and kept, while it has life left and is larger
      than a tenth of a pixel. */
  predicate Visible(p: Particle) {
    p.life > 0.0 && p.size > 0.1
  }

  /** Every particle of `ps` updated with the draw of the same index. */
  function UpdateAll(ps: seq<Particle>, rs: seq<real>): (us: seq<Particle>)
    requires |ps| <= |rs| && AllUniform(rs)
    ensures |us| == |ps|
  {
    seq(|ps|, k requires 0 <= k < |ps| => Update(ps[k], rs[k]))
  }

  /** The visible particles of `ps`, in order. */
  function Survivors(ps: seq<Particle>): (ss: seq<Particle>)
    ensures |ss| <= |ps|
    ensures forall k :: 0 <= k < |ss| ==> Visible(ss[k])
  {
    if ps == [] then []
    else if Visible(ps[0]) then [ps[0]] + Survivors(ps[1..])
    else Survivors(ps[1..])
  }

  /** The particle list after one frame, particle `k` using draw `rs[k]`. */
  function Tick(ps: seq<Particle>, rs: seq<real>): (ts: seq<Particle>)
    requires |ps| <= |rs| && AllUniform(rs)
    ensures |ts| <= |ps|
    ensures forall k :: 0 <= k < |ts| ==> Visible(ts[k])
  {
    Survivors(UpdateAll(ps, rs))
  }

  /** `[p]` when `p` survives, `[]` when it is removed. */
  function Keep(p: Particle): seq<Particle> {
    if Visible(p) then [p] else []
  }

  /** Filtering one more particle at the end extends the result by that
      particle exactly when it is visible. */
  lemma {:induction false} SurvivorsSnoc(ps: seq<Particle>, p: Particle)
    ensures Survivors(ps + [p]) == Survivors(ps) + Keep(p)
  {
    if ps == [] {
      assert ps + [p] == [p];
    } else {
      assert (ps + [p])[0] == ps[0];
      assert (ps + [p])[1..] == ps[1..] + [p];
      SurvivorsSnoc(ps[1..], p);
    }
  }

  /** Processing one more particle of the frame appends its updated self
      when it survives and nothing otherwise. */
  lemma TickSnoc(ps: seq<Particle>, rs: seq<real>, k: nat)
    requires k < |ps| <= |rs| && AllUniform(rs)
    ensures Tick(ps[..k + 1], rs) == Tick(ps[..k], rs) + Keep(Update(ps[k], rs[k]))
  {
    assert UpdateAll(ps[..k + 1], rs) == UpdateAll(ps[..k], rs) + [Update(ps[k], rs[k])];
    SurvivorsSnoc(UpdateAll(ps[..k], rs), Update(ps[k], rs[k]));
  }

  /** Filtering a concatenation filters each part. */
  lemma {:induction false} SurvivorsAppend(ps: seq<Particle>, qs: seq<Particle>)
    ensures Survivors(ps + qs) == Survivors(ps) + Survivors(qs)
  {
    if ps == [] {
      assert ps + qs == qs;
    } else {
      assert (ps + qs)[0] == ps[0];
      assert (ps + qs)[1..] == ps[1..] + qs;
      SurvivorsAppend(ps[1..], qs);
    }
  }

  /** Particles appended after a list do not change what a frame does to
      the list: its particles come out first, exactly as they would alone,
      followed by the frame's result for the appended ones. */
  lemma TickAppend(ps: seq<Particle>, qs: seq<Particle>, rs: seq<real>)
    requires |ps| + |qs| <= |rs| && AllUniform(rs)
    ensures Tick(ps + qs, rs) == Tick(ps, rs) + Tick(qs, rs[|ps|..])
  {
    assert UpdateAll(ps + qs, rs) == UpdateAll(ps, rs) + UpdateAll(qs, rs[|ps|..]);
    SurvivorsAppend(UpdateAll(ps, rs), UpdateAll(qs, rs[|ps|..]));
  }

  /** A particle survives filtering exactly when it was in the list and is
      visible. */
  lemma {:induction false} SurvivorsMembership(ps: seq<Particle>, p: Particle)
    ensures p in Survivors(ps) <==> p in ps && Visible(p)
  {
    if ps != [] {
      SurvivorsMembership(ps[1..], p);
      assert ps == [ps[0]] + ps[1..];
    }
  }

  /** Filtering removes nothing exactly when every particle is visible. */
  lemma {:induction false} SurvivorsKeepsAll(ps: seq<Particle>)
    ensures Survivors(ps) == ps <==> forall k :: 0 <= k < |ps| ==> Visible(ps[k])
  {
    if ps != [] {
      SurvivorsKeepsAll(ps[1..]);
      if !Visible(ps[0]) {
        assert |Survivors(ps)| < |ps|;
      }
    }
  }

  /** `sub` is `s` with some elements removed and the rest in order. */
  ghost predicate IsSubsequence(sub: seq<Particle>, s: seq<Particle>)
    decreases |s|
  {
    if sub == [] then true
    else if s == [] then false
    else if sub[0] == s[0] then IsSubsequence(sub[1..], s[1..])
    else IsSubsequence(sub, s[1..])
  }

  /** Filtering keeps the survivors in their original relative order. */
  lemma {:induction false} SurvivorsInOrder(ps: seq<Particle>)
    ensures IsSubsequence(Survivors(ps), ps)
  {
    if ps != [] {
      SurvivorsInOrder(ps[1..]);
      if !Visible(ps[0]) {
        SubsequenceOfTail(Survivors(ps[1..]), ps);
      }
    }
  }

  lemma {:induction false} SubsequenceOfTail(sub: seq<Particle>, s: seq<Particle>)
    requires s != [] && IsSubsequence(sub, s[1..])
    ensures IsSubsequence(sub, s)
    decreases |s|, 0
  {
    if sub != [] && sub[0] == s[0] {
      SubsequenceDropHead(sub, s[1..]);
    }
  }

  lemma {:induction false} SubsequenceDropHead(sub: seq<Particle>, s: seq<Particle>)
    requires sub != [] && IsSubsequence(sub, s)
    ensures IsSubsequence(sub[1..], s)
    decreases |s|, 1
  {
    if sub[0] != s[0] {
      SubsequenceDropHead(sub, s[1..]);
      SubsequenceOfTail(sub[1..], s);
    } else {
      SubsequenceOfTail(sub[1..], s);
    }
  }

  /** Every particle left after a frame is the update of a particle that
      was there before, and is visible. */
  lemma TickOrigin(ps: seq<Particle>, rs: seq<real>, q: Particle)
    requires |ps| <= |rs| && AllUniform(rs)
    requires q in Tick(ps, rs)
    ensures Visible(q)
    ensures exists k :: 0 <= k < |ps| && q == Update(ps[k], rs[k])
  {
    SurvivorsMembership(UpdateAll(ps, rs), q);
    var k :| 0 <= k < |ps| && UpdateAll(ps, rs)[k] == q;
    assert q == Update(ps[k], rs[k]);
  }

  /** A frame never adds particles, and never changes a particle's
      velocity or colour: each survivor keeps those of its original. */
  lemma TickKeepsVelocityAndColor(ps: seq<Particle>, rs: seq<real>, q: Particle)
    requires |ps| <= |rs| && AllUniform(rs)
    requires q in Tick(ps, rs)
    ensures |Tick(ps, rs)| <= |ps|
    ensures exists k ::
      && 0 <= k < |ps|
      && q.speedX == ps[k].speedX && q.speedY == ps[k].speedY && q.color == ps[k].color
      && q.life <= ps[k].life - 0.04
      && (ps[k].size > 0.0 ==> q.size < ps[k].size)
  {
    TickOrigin(ps, rs, q);
    var k :| 0 <= k < |ps| && q == Update(ps[k], rs[k]);
    assert q.speedX == ps[k].speedX && q.speedY == ps[k].speedY && q.color == ps[k].color;
  }

  /** What holds of every particle in the live list: it is visible, its life
      is at most the 1.0 it was born with, it is smaller than the largest
      newborn, and its velocity is that of a newborn. */
  predicate Live(p: Particle) {
    && Visible(p)
    && p.life <= 1.0
    && p.size < 2.0
    && -0.4 <= p.speedX < 0.4
    && -2.0 < p.speedY <= -0.5
  }

  predicate AllLive(ps: seq<Particle>) {
    forall k :: 0 <= k < |ps| ==> Live(ps[k])
  }

  /** Newborn particles are live. */
  lemma NewbornsAreLive(ps: seq<Particle>)
    requires forall k :: 0 <= k < |ps| ==> Newborn(ps[k])
    ensures AllLive(ps)
  {
  }

  /** A frame keeps the live-list invariant. */
  lemma TickKeepsLive(ps: seq<Particle>, rs: seq<real>)
    requires |ps| <= |rs| && AllUniform(rs)
    requires AllLive(ps)
    ensures AllLive(Tick(ps, rs))
  {
    var ts := Tick(ps, rs);
    forall j | 0 <= j < |ts|
      ensures Live(ts[j])
    {
      TickOrigin(ps, rs, ts[j]);
    }
  }

  /** If every particle has life at most `bound`, after a frame every
      particle has life at most `bound - 0.04`. */
  lemma TickLowersLife(ps: seq<Particle>, rs: seq<real>, bound: real)
    requires |ps| <= |rs| && AllUniform(rs)
    requires forall k :: 0 <= k < |ps| ==> ps[k].life <= bound
    ensures forall j :: 0 <= j < |Tick(ps, rs)| ==> Tick(ps, rs)[j].life <= bound - 0.04
  {
    var ts := Tick(ps, rs);
    forall j | 0 <= j < |ts|
      ensures ts[j].life <= bound - 0.04
    {
      TickOrigin(ps, rs, ts[j]);
    }
  }

  /** The draws of a run of frames are usable for a list of `n` particles:
      each frame has a draw for every particle there might still be. */
  predicate RoundsFor(rounds: seq<seq<real>>, n: nat) {
    forall i :: 0 <= i < |rounds| ==> n <= |rounds[i]| && AllUniform(rounds[i])
  }

  /** The particle list after several frames without pointer moves. */
  function Run(ps: seq<Particle>, rounds: seq<seq<real>>): (qs: seq<Particle>)
    requires RoundsFor(rounds, |ps|)
    ensures |qs| <= |ps|
    decreases |rounds|
  {
    if rounds == [] then ps
    else Run(Tick(ps, rounds[0]), rounds[1..])
  }

  /** After `n` frames every remaining particle has lost at least
      `0.04 * n` life. */
  lemma {:induction false} RunLowersLife(ps: seq<Particle>, rounds: seq<seq<real>>, bound: real)
    requires RoundsFor(rounds, |ps|)
    requires forall k :: 0 <= k < |ps| ==> ps[k].life <= bound
    ensures forall j :: 0 <= j < |Run(ps, rounds)| ==>
      Run(ps, rounds)[j].life <= bound - 0.04 * |rounds| as real
    decreases |rounds|
  {
    if rounds != [] {
      TickLowersLife(ps, rounds[0], bound);
      RunLowersLife(Tick(ps, rounds[0]), rounds[1..], bound - 0.04);
    }
  }

  /** Every particle left after `n` frames descends from a particle of the
      starting list: it has the same velocity and colour and at least
      `0.04 * n` less life. */
  lemma {:induction false} RunOrigin(ps: seq<Particle>, rounds: seq<seq<real>>, q: Particle)
    requires RoundsFor(rounds, |ps|)
    requires q in Run(ps, rounds)
    ensures exists k ::
      && 0 <= k < |ps|
      && q.life <= ps[k].life - 0.04 * |rounds| as real
      && q.speedX == ps[k].speedX && q.speedY == ps[k].speedY && q.color == ps[k].color
    decreases |rounds|
  {
    if rounds == [] {
      var k :| 0 <= k < |ps| && ps[k] == q;
      assert q.life <= ps[k].life - 0.04 * |rounds| as real;
    } else {
      var ts := Tick(ps, rounds[0]);
      RunOrigin(ts, rounds[1..], q);
      var j :|
        && 0 <= j < |ts|
        && q.life <= ts[j].life - 0.04 * |rounds[1..]| as real
        && q.speedX == ts[j].speedX && q.speedY == ts[j].speedY && q.color == ts[j].color;
      TickKeepsVelocityAndColor(ps, rounds[0], ts[j]);
      var k :|
        && 0 <= k < |ps|
        && ts[j].speedX == ps[k].speedX && ts[j].speedY == ps[k].speedY && ts[j].color == ps[k].color
        && ts[j].life <= ps[k].life - 0.04;
      assert q.life <= ps[k].life - 0.04 * |rounds| as real;
    }
  }

  /** After at least one frame every remaining particle is visible. */
  lemma {:induction false} RunLeavesVisible(ps: seq<Particle>, rounds: seq<seq<real>>)
    requires RoundsFor(rounds, |ps|) && rounds != []
    ensures forall j :: 0 <= j < |Run(ps, rounds)| ==> Visible(Run(ps, rounds)[j])
    decreases |rounds|
  {
    if |rounds| > 1 {
      RunLeavesVisible(Tick(ps, rounds[0]), rounds[1..]);
    }
  }

  /** A particle born with life 1.0 is gone after at most 25 frames: life
      drops by at least 0.04 per frame and a particle is kept only while its
      life is positive. */
  lemma ExpiresWithin25Frames(ps: seq<Particle>, rounds: seq<seq<real>>)
    requires RoundsFor(rounds, |ps|) && |rounds| >= 25
    requires forall k :: 0 <= k < |ps| ==> ps[k].life <= 1.0
    ensures Run(ps, rounds) == []
  {
    RunLowersLife(ps, rounds, 1.0);
    RunLeavesVisible(ps, rounds);
    var qs := Run(ps, rounds);
    if qs != [] {
      assert false;
    }
  }
}
