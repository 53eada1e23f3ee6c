/** updateEnemies as a function on values: the part of the game one sweep
    over the enemy list reads and writes, the pass the sweep makes at each
    index, from the last enemy down to the first, and what the whole sweep
    amounts to. */
module Sweeps {
  import opened Util
  import opened Geometry
  import opened Effects
  import opened Entities

  /** What a sweep reads and writes: the enemy list, gold, score and lives,
      the towers' records, and the states of the enemies swept, indexed as
      the list stood when the sweep began. */
  datatype Sweep = Sweep(enemies: seq<Enemy>, gold: int, score: int, lives: int,
                         records: seq<Record>, states: seq<EnemyState>)

  /** The pass of updateEnemies' loop at index `i`: the enemy there takes its
      `Step`; a killed one is removed, paid for with its reward and ten times
      that in score, and credited to a tower; one at the end of the path is
      removed for one life. */
  function SweepAt(w: Sweep, i: nat, path: seq<Point>, dt: real, gameSpeed: int, advance: Stepper): Sweep
  {
    if i < |w.enemies| && i < |w.states| then
      var e, s := w.enemies[i], w.states[i];
      var fate := FateOf(s);
      var bounty := if fate == Killed then e.reward else 0;
      Sweep(if fate == InPlay then w.enemies else w.enemies[..i] + w.enemies[i + 1..],
            w.gold + bounty, w.score + 10 * bounty,
            w.lives - (if fate == Escaped then 1 else 0),
            if fate == Killed then Credit(w.records, e) else w.records,
            w.states[i := Step(s, path, dt, gameSpeed, advance)])
    else w
  }

  /** The pass at `i` over a killed enemy: it leaves the list, and its
      reward is paid, scored ten times and credited. */
  lemma SweepAtKilled(w: Sweep, i: nat, path: seq<Point>, dt: real, gameSpeed: int, advance: Stepper)
    requires i < |w.enemies| && i < |w.states| && FateOf(w.states[i]) == Killed
    ensures SweepAt(w, i, path, dt, gameSpeed, advance)
            == w.(enemies := w.enemies[..i] + w.enemies[i + 1..], gold := w.gold + w.enemies[i].reward,
                  score := w.score + 10 * w.enemies[i].reward, records := Credit(w.records, w.enemies[i]))
  {
    assert w.states[i := Step(w.states[i], path, dt, gameSpeed, advance)] == w.states;
  }

  /** The pass at `i` over an enemy at the end of the path: it leaves the
      list for one life. */
  lemma SweepAtEscaped(w: Sweep, i: nat, path: seq<Point>, dt: real, gameSpeed: int, advance: Stepper)
    requires i < |w.enemies| && i < |w.states| && FateOf(w.states[i]) == Escaped
    ensures SweepAt(w, i, path, dt, gameSpeed, advance)
            == w.(enemies := w.enemies[..i] + w.enemies[i + 1..], lives := w.lives - 1)
  {
    assert w.states[i := Step(w.states[i], path, dt, gameSpeed, advance)] == w.states;
  }

  /** The pass at `i` over an enemy in play: only its state changes, by a
      `Step`. */
  lemma SweepAtInPlay(w: Sweep, i: nat, path: seq<Point>, dt: real, gameSpeed: int, advance: Stepper)
    requires i < |w.enemies| && i < |w.states| && FateOf(w.states[i]) == InPlay
    ensures SweepAt(w, i, path, dt, gameSpeed, advance)
            == w.(states := w.states[i := Step(w.states[i], path, dt, gameSpeed, advance)])
  {
  }

  /** The passes at indices n - 1 down to i, in that order. */
  function SweepDown(w: Sweep, n: nat, i: nat, path: seq<Point>, dt: real, gameSpeed: int, advance: Stepper): Sweep
    decreases n - i
  {
    if i >= n then w
    else SweepAt(SweepDown(w, n, i + 1, path, dt, gameSpeed, advance), i, path, dt, gameSpeed, advance)
  }

  /** A whole sweep, from the last enemy of the list down to the first. */
  function SweepAll(w: Sweep, path: seq<Point>, dt: real, gameSpeed: int, advance: Stepper): Sweep
  {
    SweepDown(w, |w.enemies|, 0, path, dt, gameSpeed, advance)
  }

  /** After the passes down to index `i`, the enemies before `i` are untouched
      and followed by the survivors of the rest; gold, score and lives account
      for the rest's kills and escapes; the rest's kills are credited; and the
      rest's states have taken their step. */
  lemma {:induction false} SweepDownSpec(w: Sweep, i: nat, path: seq<Point>, dt: real, gameSpeed: int, advance: Stepper)
    requires |w.states| == |w.enemies| && Distinct(w.enemies) && i <= |w.enemies|
    ensures var es, fs, r := w.enemies, Fates(w.states), SweepDown(w, |w.enemies|, i, path, dt, gameSpeed, advance);
      r.enemies == es[..i] + Survivors(es[i..], fs[i..])
      && r.gold == w.gold + Bounty(es[i..], fs[i..]) && r.score == w.score + 10 * Bounty(es[i..], fs[i..])
      && r.lives == w.lives - Count(fs[i..], Escaped)
      && r.records == CreditAll(w.records, es[i..], fs[i..])
      && r.states == w.states[..i] + Walk(w.states[i..], path, dt, gameSpeed, advance)
    decreases |w.enemies| - i
  {
    var es, fs := w.enemies, Fates(w.states);
    if i == |es| {
      assert es[..i] == es && w.states[..i] == w.states;
    } else {
      SweepDownSpec(w, i + 1, path, dt, gameSpeed, advance);
      SweepStep(w, i, SweepDown(w, |es|, i + 1, path, dt, gameSpeed, advance), path, dt, gameSpeed, advance);
    }
  }

  /** The pass at index `i`, after the passes down to `i + 1` have left `v`,
      extends `SweepDownSpec` from `i + 1` to `i`. */
  lemma SweepStep(w: Sweep, i: nat, v: Sweep, path: seq<Point>, dt: real, gameSpeed: int, advance: Stepper)
    requires |w.states| == |w.enemies| && Distinct(w.enemies) && i < |w.enemies|
    requires var es, fs := w.enemies, Fates(w.states);
      v.enemies == es[..i + 1] + Survivors(es[i + 1..], fs[i + 1..])
      && v.gold == w.gold + Bounty(es[i + 1..], fs[i + 1..]) && v.score == w.score + 10 * Bounty(es[i + 1..], fs[i + 1..])
      && v.lives == w.lives - Count(fs[i + 1..], Escaped)
      && v.records == CreditAll(w.records, es[i + 1..], fs[i + 1..])
      && v.states == w.states[..i + 1] + Walk(w.states[i + 1..], path, dt, gameSpeed, advance)
    ensures var es, fs, r := w.enemies, Fates(w.states), SweepAt(v, i, path, dt, gameSpeed, advance);
      r.enemies == es[..i] + Survivors(es[i..], fs[i..])
      && r.gold == w.gold + Bounty(es[i..], fs[i..]) && r.score == w.score + 10 * Bounty(es[i..], fs[i..])
      && r.lives == w.lives - Count(fs[i..], Escaped)
      && r.records == CreditAll(w.records, es[i..], fs[i..])
      && r.states == w.states[..i] + Walk(w.states[i..], path, dt, gameSpeed, advance)
  {
    var es, fs := w.enemies, Fates(w.states);
    WalkStep(es, fs, i, w.records);
    SpliceStep(es, fs, i, v.enemies);
    WalkExtend(w.states, i, path, dt, gameSpeed, advance);
    assert v.enemies[i] == es[i] && v.states[i] == w.states[i] && FateOf(w.states[i]) == fs[i];
  }

  /** What a whole sweep amounts to: the enemies left are the ones in play, in
      their order; gold grows by the rewards of the killed ones and score by
      ten times that; a life is lost per enemy at the end of the path; the
      kills are credited to the towers; and every enemy takes its step. */
  lemma SweepAllSpec(w: Sweep, path: seq<Point>, dt: real, gameSpeed: int, advance: Stepper)
    requires |w.states| == |w.enemies| && Distinct(w.enemies)
    ensures var es, fs := w.enemies, Fates(w.states);
      SweepAll(w, path, dt, gameSpeed, advance)
      == Sweep(Survivors(es, fs), w.gold + Bounty(es, fs), w.score + 10 * Bounty(es, fs),
               w.lives - Count(fs, Escaped), CreditAll(w.records, es, fs),
               Walk(w.states, path, dt, gameSpeed, advance))
  {
    SweepDownSpec(w, 0, path, dt, gameSpeed, advance);
    assert w.enemies[0..] == w.enemies && w.states[0..] == w.states && Fates(w.states)[0..] == Fates(w.states);
  }
}
