/** Particle decay: particles move, lose life at twice the frame time, and vanish at life <= 0. */
module Particles {
  import opened Base
  import opened Entities

  /** One frame of a particle; the visual scale shrinks by 0.9 per frame. */
  function Age(p: Particle, delta: real): Particle {
    p.(pos := Add(p.pos, Scale(p.vel, delta)), life := p.life - delta * 2.0, scale := p.scale * 0.9)
  }

  /**
   * The particles after one frame, in their original order: each one aged,
   * and kept exactly when its life is still positive.
   */
  function Decayed(ps: seq<Particle>, delta: real): (r: seq<Particle>)
    ensures |r| <= |ps|
    ensures forall q :: q in r ==> q.life > 0.0
    decreases |ps|
  {
    if ps == [] then []
    else
      var q := Age(ps[0], delta);
      (if q.life <= 0.0 then [] else [q]) + Decayed(ps[1..], delta)
  }

  /** A particle is kept exactly when it is one of the aged particles whose life is still positive. */
  lemma {:induction false} DecayedMembers(ps: seq<Particle>, delta: real, q: Particle)
    ensures q in Decayed(ps, delta) <==> exists i :: 0 <= i < |ps| && q == Age(ps[i], delta) && q.life > 0.0
    decreases |ps|
  {
    if ps != [] {
      DecayedMembers(ps[1..], delta, q);
      assert forall i :: 1 <= i < |ps| ==> ps[i] == ps[1..][i - 1];
      if q == Age(ps[0], delta) && q.life > 0.0 {
        assert q in Decayed(ps, delta);
      }
    }
  }

  /** Decay works particle by particle, so the survivors keep their order. */
  lemma {:induction false} DecayedAppend(s: seq<Particle>, t: seq<Particle>, delta: real)
    ensures Decayed(s + t, delta) == Decayed(s, delta) + Decayed(t, delta)
  {
    if s == [] {
      assert s + t == t;
    } else {
      assert (s + t)[1..] == s[1..] + t;
      DecayedAppend(s[1..], t, delta);
    }
  }

  /** No particle is removed exactly when every particle still has life after aging. */
  lemma {:induction false} DecayedKeepsAll(ps: seq<Particle>, delta: real)
    ensures |Decayed(ps, delta)| == |ps| <==> forall i :: 0 <= i < |ps| ==> Age(ps[i], delta).life > 0.0
  {
    if ps != [] {
      DecayedKeepsAll(ps[1..], delta);
      assert forall i :: 1 <= i < |ps| ==> ps[i] == ps[1..][i - 1];
    }
  }
}
