/** Static game data of the tower-defence engine: the tower and enemy catalogues
    and the fixed constants the simulation uses. */
module Catalog {

  /** The six tower types, keyed in the source by the strings
      'kinetic', 'plasma', 'frost', 'lightning', 'nano', 'fusion'. */
  datatype TowerKind = Kinetic | Plasma | Frost | Lightning | Nano | Fusion

  /** Base stats of a tower type: price in gold, damage per projectile,
      targeting radius and shots per second. */
  datatype TowerStats = TowerStats(cost: int, damage: real, range: real, fireRate: real)

  function Stats(k: TowerKind): TowerStats
  {
    match k
    case Kinetic => TowerStats(15, 8.0, 100.0, 1.5)
    case Plasma => TowerStats(25, 15.0, 80.0, 1.0)
    case Frost => TowerStats(20, 5.0, 70.0, 0.8)
    case Lightning => TowerStats(35, 12.0, 90.0, 1.2)
    case Nano => TowerStats(30, 10.0, 60.0, 2.0)
    case Fusion => TowerStats(50, 25.0, 120.0, 0.6)
  }

  /** Every catalogue entry has positive stats and costs at least 15 gold. */
  lemma StatsPositive(k: TowerKind)
    ensures Stats(k).cost >= 15 && Stats(k).damage > 0.0
    ensures Stats(k).range > 0.0 && Stats(k).fireRate > 0.0
  {
  }

  /** An enemy type: base health, base speed (pixels per frame at 60 frames
      per second) and base reward in gold. */
  datatype EnemyType = EnemyType(name: string, health: int, speed: real, reward: int)

  const EnemyTypes: seq<EnemyType> := [
    EnemyType("Scout", 20, 2.5, 5),
    EnemyType("Warrior", 40, 1.8, 10),
    EnemyType("Tank", 80, 1.2, 20),
    EnemyType("Flyer", 30, 3.0, 15),
    EnemyType("Boss", 200, 0.8, 50)
  ]

  // Starting game statistics.
  const StartGold: int := 100
  const StartLives: int := 20
  const FirstWave: int := 1
  const MaxWaves: int := 20

  // Layout.
  const GridSize: int := 40

  // Wave controller timing, in simulated seconds.
  const WaveDelay: real := 15.0
  const SpawnInterval: real := 1.0

  // Combat.
  const ProjectileSpeed: int := 400
  const ChainRange: real := 60.0
  const ChainDamage: real := 8.0
  const MaxChains: nat := 3
  const SlowDuration: real := 2.0
  const SlowMultiplier: real := 0.5

  // Distance thresholds.
  const HitRadius: real := 8.0
  const WaypointRadius: real := 5.0
  const SelectRadius: real := 25.0

  /** Milliseconds per second: the cooldown of a tower is 1000 / fireRate. */
  const MillisPerSecond: real := 1000.0
}
