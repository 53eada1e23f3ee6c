/** The status-effect engine: timed slow effects attached to an enemy, their
    per-tick countdown and expiry, and the speed factor they produce. */
module Effects {
  import opened Catalog

  /** A timed modifier. The source has one kind, 'slow', carrying the
      remaining duration in seconds and a speed multiplier. */
  datatype Effect = Slow(duration: real, multiplier: real)

  /** The effect a frost hit attaches. */
  const FrostSlow: Effect := Slow(SlowDuration, SlowMultiplier)

  /** One effect after `dt` seconds. */
  function Tick(e: Effect, dt: real): Effect
  {
    e.(duration := e.duration - dt)
  }

  /** The effect list after one tick: every duration is lowered by `dt` and the
      effects whose new duration is at most 0 are dropped. */
  function Expire(effects: seq<Effect>, dt: real): seq<Effect>
  {
    if effects == [] then []
    else (if Tick(effects[0], dt).duration > 0.0 then [Tick(effects[0], dt)] else [])
         + Expire(effects[1..], dt)
  }

  /** Product of the multipliers of all slow effects, applied to the base speed. */
  function SlowFactor(effects: seq<Effect>): real
  {
    if effects == [] then 1.0 else effects[0].multiplier * SlowFactor(effects[1..])
  }

  /** Expiry never adds effects. */
  lemma {:induction false} ExpireShrinks(effects: seq<Effect>, dt: real)
    ensures |Expire(effects, dt)| <= |effects|
  {
    if effects != [] {
      ExpireShrinks(effects[1..], dt);
    }
  }

  /** Every surviving effect has a positive duration and is an effect of the
      input with its duration lowered by `dt`. */
  lemma {:induction false} ExpireSound(effects: seq<Effect>, dt: real, f: Effect)
    requires f in Expire(effects, dt)
    ensures f.duration > 0.0 && f.(duration := f.duration + dt) in effects
  {
    var head := Tick(effects[0], dt);
    var rest := Expire(effects[1..], dt);
    if head.duration > 0.0 && f == head {
      assert f.(duration := f.duration + dt) == effects[0];
    } else {
      assert f in rest;
      ExpireSound(effects[1..], dt, f);
      var g := f.(duration := f.duration + dt);
      var k :| 0 <= k < |effects[1..]| && effects[1..][k] == g;
      assert effects[k + 1] == g;
    }
  }

  /** Every effect whose new duration is positive survives. */
  lemma {:induction false} ExpireComplete(effects: seq<Effect>, dt: real, e: Effect)
    requires e in effects && Tick(e, dt).duration > 0.0
    ensures Tick(e, dt) in Expire(effects, dt)
  {
    if e != effects[0] {
      assert e in effects[1..];
      ExpireComplete(effects[1..], dt, e);
    }
  }

  /** Expiry works element by element, so the survivors keep their relative order. */
  lemma {:induction false} ExpireAppend(a: seq<Effect>, b: seq<Effect>, dt: real)
    ensures Expire(a + b, dt) == Expire(a, dt) + Expire(b, dt)
  {
    if a != [] {
      assert (a + b)[1..] == a[1..] + b;
      ExpireAppend(a[1..], b, dt);
    } else {
      assert a + b == b;
    }
  }

  /** Two ticks of `a` then `b` seconds expire the same effects as one tick of
      `a + b` seconds, provided the second tick does not go backwards in time. */
  lemma {:induction false} ExpireCompose(effects: seq<Effect>, a: real, b: real)
    requires b >= 0.0
    ensures Expire(Expire(effects, a), b) == Expire(effects, a + b)
  {
    if effects != [] {
      ExpireCompose(effects[1..], a, b);
      var head := Tick(effects[0], a);
      var rest := Expire(effects[1..], a);
      if head.duration > 0.0 {
        assert Expire(effects, a) == [head] + rest;
        ExpireAppend([head], rest, b);
        assert [head][1..] == [];
        assert Expire([head], b) == (if Tick(head, b).duration > 0.0 then [Tick(head, b)] else []) + Expire([], b);
        assert Tick(head, b) == Tick(effects[0], a + b);
      } else {
        assert Expire(effects, a) == rest;
        assert Tick(effects[0], a + b).duration <= 0.0;
      }
    }
  }

  /** Effects are never merged: each added slow multiplies the speed factor
      again, so two slows of 0.5 give 0.25. */
  lemma {:induction false} SlowFactorAppend(effects: seq<Effect>, e: Effect)
    ensures SlowFactor(effects + [e]) == SlowFactor(effects) * e.multiplier
  {
    if effects == [] {
      assert [] + [e] == [e];
    } else {
      assert (effects + [e])[1..] == effects[1..] + [e];
      SlowFactorAppend(effects[1..], e);
    }
  }

  /** With every multiplier in (0, 1] the factor is in (0, 1]: slows never
      stop an enemy and never speed it up. */
  lemma {:induction false} SlowFactorBounds(effects: seq<Effect>)
    requires forall i :: 0 <= i < |effects| ==> 0.0 < effects[i].multiplier <= 1.0
    ensures 0.0 < SlowFactor(effects) <= 1.0
  {
    if effects != [] {
      assert forall i :: 0 <= i < |effects[1..]| ==> effects[1..][i] == effects[i + 1];
      SlowFactorBounds(effects[1..]);
      var m, f := effects[0].multiplier, SlowFactor(effects[1..]);
      ProductInUnitInterval(m, f);
      assert SlowFactor(effects) == m * f;
    }
  }

  lemma ProductInUnitInterval(m: real, f: real)
    requires 0.0 < m <= 1.0 && 0.0 < f <= 1.0
    ensures 0.0 < m * f <= 1.0
  {
    var d := 1.0 - m;
    assert d * f >= 0.0;
    assert m * f == f - d * f;
  }
}
