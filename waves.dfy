/** The wave/spawn controller as a state machine over the game statistics and
    the wave fields of the game. The game's methods are proved to move their
    fields exactly as these transitions do.

    States: idle (no wave active, countdown running), spawning (wave active,
    fewer enemies spawned than the wave holds), draining (all spawned, waiting
    for the live set to empty), won and lost (paused and stopped). */
module Waves {
  import opened Catalog
  import opened Economy

  datatype Controller = Controller(
    wave: int, lives: int, gold: int, score: int,
    waveActive: bool, enemiesInWave: int, enemiesSpawned: int,
    enemySpawnTimer: real, waveTimer: real,
    isPaused: bool, gameRunning: bool)

  /** What holds in every reachable state: waves are counted from 1 and a wave
      never spawns more enemies than it holds. */
  predicate Inv(c: Controller)
  {
    c.wave >= 1 && 0 <= c.enemiesSpawned <= c.enemiesInWave
  }

  /** spawnWave: a wave of 5 + 2 * wave enemies becomes active. */
  function StartWave(c: Controller): Controller
  {
    c.(enemiesInWave := WaveSize(c.wave), enemiesSpawned := 0, enemySpawnTimer := 0.0, waveActive := true)
  }

  /** gameOver and gameWin: the game stops and is paused. */
  function Stop(c: Controller): Controller
  {
    c.(gameRunning := false, isPaused := true)
  }

  /** completeWave: the wave counter advances, the bonus is paid, and then
      either the game is won or the countdown to the next wave restarts. */
  function CompleteWave(c: Controller): Controller
  {
    var w := c.wave + 1;
    var bonus := WaveBonus(w);
    var c1 := c.(waveActive := false, wave := w, gold := c.gold + bonus, score := c.score + bonus * 5);
    if w > MaxWaves then Stop(c1) else c1.(waveTimer := WaveDelay)
  }

  /** The first step of a tick: the spawn timer always runs, the countdown
      runs only between waves. */
  function TickTimers(c: Controller, dt: real): Controller
  {
    c.(enemySpawnTimer := c.enemySpawnTimer + dt,
       waveTimer := if !c.waveActive && c.waveTimer > 0.0 then c.waveTimer - dt else c.waveTimer)
  }

  /** An enemy is due: the wave is active, more than a second has passed since
      the wave started or since the last spawn, and the wave is not complete. */
  predicate ShouldSpawn(c: Controller)
  {
    c.waveActive && c.enemySpawnTimer > SpawnInterval && c.enemiesSpawned < c.enemiesInWave
  }

  /** The part of a tick before the entities are updated: timers, then at most
      one spawn. */
  function Begin(c: Controller, dt: real): Controller
  {
    var c1 := TickTimers(c, dt);
    if ShouldSpawn(c1) then c1.(enemiesSpawned := c1.enemiesSpawned + 1, enemySpawnTimer := 0.0) else c1
  }

  /** The wave is over: active, every enemy spawned, and none left alive. */
  predicate Drained(c: Controller, noEnemies: bool)
  {
    c.waveActive && c.enemiesSpawned >= c.enemiesInWave && noEnemies
  }

  /** The part of a tick after the entities are updated: wave completion, the
      loss check and the automatic start of the next wave, in that order. */
  function Finish(c: Controller, noEnemies: bool): Controller
  {
    var c1 := if Drained(c, noEnemies) then CompleteWave(c) else c;
    var c2 := if c1.lives <= 0 then Stop(c1) else c1;
    if !c2.waveActive && c2.waveTimer <= 0.0 then StartWave(c2) else c2
  }

  /** Every transition keeps the invariant, whatever the elapsed time and
      whatever the entity updates did to lives, gold and score in between. */
  lemma InvariantKept(c: Controller, dt: real, noEnemies: bool, lives: int, gold: int, score: int)
    requires Inv(c)
    ensures Inv(StartWave(c)) && Inv(Stop(c)) && Inv(CompleteWave(c))
    ensures Inv(Begin(c, dt))
    ensures Inv(Finish(Begin(c, dt).(lives := lives, gold := gold, score := score), noEnemies))
  {
  }

  /** A tick spawns at most one enemy, and one exactly when the wave is active,
      not yet fully spawned and the spawn timer passes one second. Between
      waves only the countdown runs; during a wave it is frozen. */
  lemma BeginSpawnsAtMostOne(c: Controller, dt: real)
    ensures var r := Begin(c, dt);
      r.enemiesSpawned == c.enemiesSpawned + 1 <==>
        c.waveActive && c.enemySpawnTimer + dt > SpawnInterval && c.enemiesSpawned < c.enemiesInWave
    ensures var r := Begin(c, dt);
      r.enemiesSpawned == c.enemiesSpawned || r.enemiesSpawned == c.enemiesSpawned + 1
    ensures var r := Begin(c, dt);
      r.waveTimer == (if !c.waveActive && c.waveTimer > 0.0 then c.waveTimer - dt else c.waveTimer)
    ensures var r := Begin(c, dt);
      r.wave == c.wave && r.waveActive == c.waveActive && r.enemiesInWave == c.enemiesInWave
  {
  }

  /** The wave counter advances exactly when the wave is drained, and then the
      bonus 20 + 5 * newWave is paid, and five times that is scored. */
  lemma CompletionIffDrained(c: Controller, noEnemies: bool)
    ensures var r := Finish(c, noEnemies);
      (r.wave == c.wave + 1 <==> Drained(c, noEnemies)) && (r.wave == c.wave || r.wave == c.wave + 1)
    ensures var r := Finish(c, noEnemies);
      Drained(c, noEnemies) ==> r.gold == c.gold + WaveBonus(c.wave + 1) && r.score == c.score + 5 * WaveBonus(c.wave + 1)
    ensures var r := Finish(c, noEnemies);
      !Drained(c, noEnemies) ==> r.gold == c.gold && r.score == c.score
  {
  }

  /** On completing a wave of a running game with lives left, the game is won,
      paused and stopped exactly when the new wave number passes the last wave;
      otherwise the countdown restarts at 15 seconds and no wave is active. */
  lemma WonIffPastLastWave(c: Controller, noEnemies: bool)
    requires Drained(c, noEnemies) && !c.isPaused && c.gameRunning && c.lives > 0
    ensures var r := Finish(c, noEnemies);
      (r.isPaused <==> c.wave + 1 > MaxWaves) && (r.gameRunning <==> c.wave + 1 <= MaxWaves)
    ensures var r := Finish(c, noEnemies);
      c.wave + 1 <= MaxWaves ==> r.waveTimer == WaveDelay && !r.waveActive
  {
  }

  /** As written, a winning tick still reaches the automatic start of the next
      wave: when the countdown had already run out, a wave past the last one
      becomes active in the stopped game. */
  lemma WinTickStartsAnotherWave(c: Controller, noEnemies: bool)
    requires Drained(c, noEnemies) && c.wave + 1 > MaxWaves && c.waveTimer <= 0.0
    ensures var r := Finish(c, noEnemies);
      r.isPaused && !r.gameRunning && r.waveActive && r.wave == c.wave + 1
      && r.enemiesInWave == WaveSize(c.wave + 1) && r.enemiesSpawned == 0
  {
  }

  /** Losing: once lives are at most 0 after a tick, the game is paused and stopped. */
  lemma LossIsTerminal(c: Controller, noEnemies: bool)
    ensures var r := Finish(c, noEnemies);
      r.lives == c.lives && (r.lives <= 0 ==> r.isPaused && !r.gameRunning)
  {
  }

  /** The drained-to-idle transition fires once per wave: the tick after a
      completion cannot complete again, whatever happens in between. */
  lemma NoSecondCompletion(c: Controller, noEnemies: bool, dt: real, noEnemies2: bool,
                           lives: int, gold: int, score: int)
    requires Inv(c) && Drained(c, noEnemies)
    ensures var r := Finish(c, noEnemies);
      var next := Begin(r, dt).(lives := lives, gold := gold, score := score);
      !Drained(next, noEnemies2) && Finish(next, noEnemies2).wave == r.wave
  {
    var r := Finish(c, noEnemies);
    assert r.wave == c.wave + 1 >= 2;
    assert !r.waveActive || (r.enemiesSpawned == 0 && r.enemiesInWave == WaveSize(r.wave));
  }
}
