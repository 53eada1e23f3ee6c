/** The three kinds of mutable game object (enemies, towers, projectiles),
    the grid cell record, and the functions over collections of them that
    specify the engine's loops: which enemies survive an update, what their
    removal pays, which tower is credited with a kill, which enemy a tower
    targets, which enemies a lightning chain strikes, which pooled projectile
    is reused. */
module Entities {
  import opened Util
  import opened Catalog
  import opened Economy
  import opened Geometry
  import opened Effects

  /** An enemy walking the path. Health is a real number: projectile damage
      grows by a factor 1.3 per tower upgrade. */
  class Enemy {
    const kind: EnemyType
    var x: real
    var y: real
    var pathIndex: nat
    var health: real
    const maxHealth: int
    const speed: real
    const reward: int
    var effects: seq<Effect>
    var isDead: bool
    var reachedEnd: bool

    /** spawnEnemy: an enemy of type `t` at the first waypoint, with health
        and reward scaled for wave `wave`. */
    constructor Spawn(t: EnemyType, start: Point, wave: int)
      ensures IsSpawnedAs(t, start, wave)
    {
      kind := t;
      x, y := start.x, start.y;
      pathIndex := 0;
      health := Scaled(t.health, wave) as real;
      maxHealth := Scaled(t.health, wave);
      speed := t.speed;
      reward := Scaled(t.reward, wave);
      effects := [];
      isDead, reachedEnd := false, false;
    }

    ghost predicate IsSpawnedAs(t: EnemyType, start: Point, wave: int)
      reads this
    {
      (kind, x, y, pathIndex, maxHealth, health, speed, reward, effects, isDead, reachedEnd)
      == (t, start.x, start.y, 0, Scaled(t.health, wave), Scaled(t.health, wave) as real,
          t.speed, Scaled(t.reward, wave), [], false, false)
    }

    function Position(): Point
      reads this`x, this`y
    {
      Point(x, y)
    }

    /** The state `moveEnemy` reads and writes. */
    function Progress(): Motion
      reads this`x, this`y, this`pathIndex, this`reachedEnd
    {
      Motion.Motion(Point(x, y), pathIndex, reachedEnd)
    }

    /** Everything one pass of updateEnemies reads or writes of this enemy. */
    function State(): EnemyState
      reads this`x, this`y, this`pathIndex, this`reachedEnd, this`effects, this`isDead
    {
      EnemyState(Progress(), effects, isDead, speed)
    }

    /** One step of chainLightning's walk from `src`, with `chained` enemies
        struck so far: an eligible enemy is struck while fewer than three are,
        losing 8 health and dying at 0 or below. */
    method ChainHit(src: Enemy, chained: int) returns (count: int)
      modifies this`health, this`isDead
      ensures var hit := old(ChainEligible(src, this)) && chained < MaxChains;
        count == (if hit then chained + 1 else chained)
        && if hit then health == old(health) - ChainDamage && isDead == (health <= 0.0)
           else health == old(health) && isDead == old(isDead)
    {
      count := chained;
      if this != src && !isDead && chained < MaxChains {
        if Within(Position(), src.Position(), ChainRange) {
          health := health - ChainDamage;
          count := chained + 1;
          if health <= 0.0 {
            isDead := true;
          }
        }
      }
    }
  }

  /** A placed tower. Its type, position and catalogue price never change;
      level, damage, range, fire rate and sell value change on upgrade,
      target and last shot time on every tick. */
  class Tower {
    const kind: TowerKind
    const x: real
    const y: real
    const cost: int
    var level: int
    var kills: int
    var damage: real
    var range: real
    var fireRate: real
    var lastShot: int
    var target: Enemy?
    var sellValue: int

    /** The tower placeTower creates: level 1, catalogue stats, sell value
        floor(0.7 * cost). */
    constructor Place(k: TowerKind, at: Point)
      ensures IsNew(k, at)
    {
      kind := k;
      x, y := at.x, at.y;
      cost := Stats(k).cost;
      level, kills := 1, 0;
      damage, range, fireRate := Stats(k).damage, Stats(k).range, Stats(k).fireRate;
      lastShot := 0;
      target := null;
      sellValue := PlacementSellValue(Stats(k).cost);
    }

    ghost predicate IsNew(k: TowerKind, at: Point)
      reads this
    {
      (kind, x, y, cost, level, kills, damage, range, fireRate, lastShot, target, sellValue)
      == (k, at.x, at.y, Stats(k).cost, 1, 0, Stats(k).damage, Stats(k).range, Stats(k).fireRate,
          0, null, PlacementSellValue(Stats(k).cost))
    }

    /** upgradeTower's change to the tower: one level up, damage, range and
        fire rate up by 30%, 10% and 20%, and the sell value raised to
        floor(1.4 * sellValue). */
    method Upgrade()
      modifies this`level, this`damage, this`range, this`fireRate, this`sellValue
      ensures (level, damage, range, fireRate, sellValue)
              == (old(level) + 1, old(damage) * 1.3, old(range) * 1.1, old(fireRate) * 1.2,
                  UpgradedSellValue(old(sellValue)))
    {
      level := level + 1;
      damage := damage * 1.3;
      range := range * 1.1;
      fireRate := fireRate * 1.2;
      sellValue := UpgradedSellValue(sellValue);
    }

    /** killEnemy's change to the tower credited with a kill: one more
        kill, and no target. */
    method CreditKill()
      modifies this`kills, this`target
      ensures Record(target, kills) == Record(null, old(kills) + 1)
    {
      kills := kills + 1;
      target := null;
    }

    function Position(): Point
    {
      Point(x, y)
    }
  }

  /** A pooled projectile. An inactive one is free for reuse. */
  class Projectile {
    var active: bool
    var x: real
    var y: real
    var targetX: real
    var targetY: real
    var target: Enemy?
    var speed: int
    var damage: real
    var kind: Option<TowerKind>

    /** The blank projectile getProjectileFromPool adds when none is free. */
    constructor ()
      ensures Blank()
    {
      active := false;
      x, y, targetX, targetY := 0.0, 0.0, 0.0, 0.0;
      target := null;
      speed := 0;
      damage := 0.0;
      kind := None;
    }

    ghost predicate Blank()
      reads this
    {
      (active, x, y, targetX, targetY, target, speed, damage, kind)
      == (false, 0.0, 0.0, 0.0, 0.0, null, 0, 0.0, None)
    }

    function Position(): Point
      reads this`x, this`y
    {
      Point(x, y)
    }

    /** What the simulation reads and writes of this projectile. */
    function View(): Flight
      reads this`active, this`x, this`y, this`target, this`speed, this`damage, this`kind
    {
      Flight(active, Point(x, y), target, speed, damage, kind)
    }

    /** shootProjectile's initialisation: fired from tower `t` at its target. */
    method Launch(t: Tower)
      requires t.target != null
      modifies this`active, this`x, this`y, this`targetX, this`targetY, this`target, this`speed,
               this`damage, this`kind
      ensures Fired(this, t)
    {
      active := true;
      x, y := t.x, t.y;
      targetX, targetY := t.target.x, t.target.y;
      target := t.target;
      speed := ProjectileSpeed;
      damage := t.damage;
      kind := Some(t.kind);
    }

    /** A free projectile aims at nothing, a target is a spawned enemy, and
        damage is non-negative. */
    ghost predicate Sound(spawned: set<Enemy>)
      reads this`active, this`target, this`damage
    {
      (!active ==> target == null) && (target != null ==> target in spawned) && damage >= 0.0
    }
  }

  /** shootProjectile's initialisation: `p` flies from the tower towards its
      target, with speed 400 and the tower's damage and type. */
  ghost predicate Fired(p: Projectile, t: Tower)
    reads p, t, t.target
    requires t.target != null
  {
    (p.active, p.x, p.y, p.targetX, p.targetY, p.target, p.speed, p.damage, p.kind)
    == (true, t.x, t.y, t.target.x, t.target.y, t.target, ProjectileSpeed, t.damage, Some(t.kind))
  }

  /** What the simulation reads and writes of a projectile: whether it
      flies, its position, its target, speed, damage and tower type. (The aim
      point targetX/targetY set at launch is never read again.) */
  datatype Flight = Flight(active: bool, pos: Point, target: Enemy?, speed: int, damage: real, kind: Option<TowerKind>)

  /** The flights of a list of projectiles, in order. */
  ghost function Flights(ps: seq<Projectile>): (r: seq<Flight>)
    reads ps`active, ps`x, ps`y, ps`target, ps`speed, ps`damage, ps`kind
    ensures |r| == |ps| && forall k {:trigger r[k]} :: 0 <= k < |ps| ==> r[k] == ps[k].View()
  {
    if ps == [] then [] else [ps[0].View()] + Flights(ps[1..])
  }

  /** The flight shootProjectile launches from tower `t`: from the tower
      towards its target, with speed 400 and the tower's damage and type. */
  function ShotFrom(t: Tower): Flight
    reads t`target, t`damage
  {
    Flight(true, t.Position(), t.target, ProjectileSpeed, t.damage, Some(t.kind))
  }

  /** Index of the first free flight, or |fs| when all fly. */
  function FirstFree(fs: seq<Flight>): (k: nat)
    ensures k <= |fs| && (k < |fs| ==> !fs[k].active) && forall j :: 0 <= j < k ==> fs[j].active
  {
    if fs == [] then 0
    else if !fs[0].active then 0
    else 1 + FirstFree(fs[1..])
  }

  /** getProjectileFromPool followed by the launch, on flights: flight `f`
      takes the first free slot, or a new slot at the end when none is free. */
  function Load(fs: seq<Flight>, f: Flight): seq<Flight>
  {
    var k := FirstFree(fs);
    if k < |fs| then fs[k := f] else fs + [f]
  }

  /** One tower's pass on the flights: its shot, if it fired, is loaded. */
  function Shoot(fs: seq<Flight>, shot: Option<Flight>): seq<Flight>
  {
    match shot
    case None => fs
    case Some(f) => Load(fs, f)
  }

  /** The towers' shots `shots`, in tower order, loaded one after the other. */
  function Volley(fs: seq<Flight>, shots: seq<Option<Flight>>): seq<Flight>
    decreases |shots|
  {
    if shots == [] then fs else Shoot(Volley(fs, shots[..|shots| - 1]), shots[|shots| - 1])
  }

  /** What a volley of flying shots amounts to: no flying projectile is
      reloaded, every shot is in the air afterwards, and every slot holds
      either its old flight or one of the shots. */
  lemma {:induction false} VolleySpec(fs: seq<Flight>, shots: seq<Option<Flight>>)
    requires forall k :: 0 <= k < |shots| && shots[k].Some? ==> shots[k].value.active
    ensures var r := Volley(fs, shots);
      |fs| <= |r|
      && (forall i :: 0 <= i < |fs| && fs[i].active ==> r[i] == fs[i])
      && (forall k :: 0 <= k < |shots| && shots[k].Some? ==> shots[k].value in r)
      && (forall i :: 0 <= i < |r| ==> (i < |fs| && r[i] == fs[i]) || Some(r[i]) in shots)
    decreases |shots|
  {
    if shots != [] {
      var n := |shots| - 1;
      var init := shots[..n];
      var prev := Volley(fs, init);
      VolleySpec(fs, init);
      assert forall k :: 0 <= k < n ==> init[k] == shots[k];
      if shots[n].Some? {
        var f, j := shots[n].value, FirstFree(prev);
        assert Volley(fs, shots) == Load(prev, f);
        forall k | 0 <= k < |shots| && shots[k].Some?
          ensures shots[k].value in Volley(fs, shots)
        {
          if k < n {
            var i :| 0 <= i < |prev| && prev[i] == shots[k].value;
            assert i != j;
            assert Volley(fs, shots)[i] == prev[i];
          } else {
            assert Volley(fs, shots)[if j < |prev| then j else |prev|] == f;
          }
        }
        forall i | 0 <= i < |Volley(fs, shots)|
          ensures (i < |fs| && Volley(fs, shots)[i] == fs[i]) || Some(Volley(fs, shots)[i]) in shots
        {
          if i != j && i < |prev| {
            assert Volley(fs, shots)[i] == prev[i];
            if Some(prev[i]) in init {
              var k :| 0 <= k < n && init[k] == Some(prev[i]);
              assert shots[k] == Some(prev[i]);
            }
          } else {
            assert Volley(fs, shots)[i] == f && shots[n] == Some(f);
          }
        }
      } else {
        forall i | 0 <= i < |prev| && Some(prev[i]) in init
          ensures Some(prev[i]) in shots
        {
          var k :| 0 <= k < n && init[k] == Some(prev[i]);
          assert shots[k] == Some(prev[i]);
        }
      }
    }
  }

  /** The last shot times of the towers, in tower order. */
  ghost function LastShots(ts: seq<Tower>): (r: seq<int>)
    reads ts`lastShot
    ensures |r| == |ts| && forall k {:trigger r[k]} :: 0 <= k < |ts| ==> r[k] == ts[k].lastShot
  {
    if ts == [] then [] else [ts[0].lastShot] + LastShots(ts[1..])
  }

  /** The targets findTarget picks for the towers, in tower order. */
  ghost function Aims(ts: seq<Tower>, es: seq<Enemy>): (r: seq<Enemy?>)
    reads ts`range, es`isDead, es`x, es`y, es`pathIndex
    ensures |r| == |ts|
  {
    if ts == [] then [] else [BestTarget(ts[0], es)] + Aims(ts[1..], es)
  }

  /** Each aim is findTarget's choice for its tower. */
  lemma {:induction false} AimsAt(ts: seq<Tower>, es: seq<Enemy>)
    ensures forall k :: 0 <= k < |ts| ==> Aims(ts, es)[k] == BestTarget(ts[k], es)
    decreases |ts|
  {
    if ts != [] {
      AimsAt(ts[1..], es);
    }
  }

  /** Tower `t` has had its pass of updateTowers at time `now`, from last
      shot time `lastShot`: it aims at `aim`, its last shot is as `ShotTime`
      says, and `shot` is the flight it launched, when it fired. */
  ghost predicate Turned(t: Tower, now: int, aim: Enemy?, lastShot: int, shot: Option<Flight>)
    reads t`fireRate, t`target, t`lastShot, t`damage
  {
    t.fireRate > 0.0 && t.target == aim && t.lastShot == ShotTime(aim, lastShot, now, t.fireRate)
    && shot == if Fires(aim, lastShot, now, t.fireRate) then Some(ShotFrom(t)) else None
  }

  /** The first `k` towers of `ts` have had their pass at `now`, from the
      aims `aims` and last shot times `shots`, launching `volley`. */
  ghost predicate TurnedUpTo(ts: seq<Tower>, k: nat, now: int, aims: seq<Enemy?>, shots: seq<int>, volley: seq<Option<Flight>>)
    reads ts`fireRate, ts`target, ts`lastShot, ts`damage
  {
    k <= |ts| && |aims| == |ts| && |shots| == |ts| && |volley| == k
    && forall g {:trigger OpenTick(g)} :: OpenTick(g) ==>
       forall j :: 0 <= j < k ==> Turned(ts[j], now, aims[j], shots[j], volley[j])
  }

  /** The towers of `ts` from `k` on have not had their pass: their last
      shot times are `shots`. */
  ghost predicate PendingFrom(ts: seq<Tower>, k: nat, shots: seq<int>)
    reads ts`lastShot
  {
    |shots| == |ts| && forall j :: k <= j < |ts| ==> ts[j].lastShot == shots[j]
  }

  /** A grid cell: its centre, whether a tower stands on it or the path
      crosses it, and the tower standing on it. */
  datatype Cell = Cell(x: real, y: real, occupied: bool, onPath: bool, tower: Tower?)

  /** Position, waypoint index and end flag of an enemy. */
  datatype Motion = Motion(pos: Point, pathIndex: nat, reachedEnd: bool)

  /** One step of moveEnemy: at the last waypoint the enemy reaches the end;
      closer than 5 to the next waypoint it advances its index without moving;
      otherwise it moves `step` towards that waypoint. */
  function Move(m: Motion, path: seq<Point>, step: real, advance: Stepper): Motion
  {
    if m.pathIndex >= |path| - 1 then m.(reachedEnd := true)
    else
      var next := path[m.pathIndex + 1];
      if Closer(next, m.pos, WaypointRadius) then m.(pathIndex := m.pathIndex + 1)
      else m.(pos := advance(m.pos, next, step))
  }

  /** The waypoint index only ever grows by one, never past the last waypoint,
      and only when the enemy is within 5 of that waypoint; the end flag is set
      exactly at the last waypoint, and once set it stays set. */
  lemma MoveProgress(m: Motion, path: seq<Point>, step: real, advance: Stepper)
    ensures var r := Move(m, path, step, advance);
      (r.pathIndex == m.pathIndex || r.pathIndex == m.pathIndex + 1)
      && (r.pathIndex == m.pathIndex + 1 ==>
            r.pathIndex < |path| && Closer(path[r.pathIndex], m.pos, WaypointRadius) && r.pos == m.pos)
      && (m.pathIndex <= |path| - 1 ==> r.pathIndex <= |path| - 1)
      && (r.reachedEnd <==> m.reachedEnd || m.pathIndex >= |path| - 1)
      && (r.reachedEnd && !m.reachedEnd ==> r == m.(reachedEnd := true))
  {
  }

  /** Distance moveEnemy covers in one step: the base speed slowed by every
      effect, per 1/60 second, times the game speed. */
  function StepLength(speed: real, effects: seq<Effect>, dt: real, gameSpeed: int): real
  {
    speed * SlowFactor(effects) * dt * 60.0 * gameSpeed as real
  }

  /** Hits only wear enemies down: health never rises, death is never undone,
      and effects are only appended. */
  twostate predicate EnemyWorn(e: Enemy)
    reads e
  {
    e.health <= old(e.health) && (old(e.isDead) ==> e.isDead) && old(e.effects) <= e.effects
  }

  /** An enemy's state as seen by one pass of updateEnemies. */
  datatype EnemyState = EnemyState(motion: Motion, effects: seq<Effect>, isDead: bool, speed: real)

  /** What one update does with an enemy, read off its flags before the update:
      a killed enemy is removed and paid for, an enemy at the end of the path is
      removed for one life, and any other enemy stays in play. */
  datatype Fate = Killed | Escaped | InPlay

  function FateOf(s: EnemyState): Fate
  {
    if s.isDead then Killed else if s.motion.reachedEnd then Escaped else InPlay
  }

  /** One pass of updateEnemies on one enemy: an enemy in play takes one
      `Move` of its slowed step length and then has its effects expired; any
      other enemy is left alone (it is removed from the list instead). */
  function Step(s: EnemyState, path: seq<Point>, dt: real, gameSpeed: int, advance: Stepper): EnemyState
  {
    if FateOf(s) == InPlay then
      s.(motion := Move(s.motion, path, StepLength(s.speed, s.effects, dt, gameSpeed), advance),
         effects := Expire(s.effects, dt))
    else s
  }

  /** A step never revives or un-escapes an enemy and never kills one; an
      enemy in play escapes exactly when it stood at the last waypoint. Its
      speed never changes, and its effects only shrink. */
  lemma StepFate(s: EnemyState, path: seq<Point>, dt: real, gameSpeed: int, advance: Stepper)
    ensures var r := Step(s, path, dt, gameSpeed, advance);
      FateOf(r) == (if FateOf(s) != InPlay then FateOf(s)
                    else if s.motion.pathIndex >= |path| - 1 then Escaped else InPlay)
      && r.speed == s.speed && r.isDead == s.isDead && |r.effects| <= |s.effects|
  {
    ExpireShrinks(s.effects, dt);
  }

  /** The states of a list of enemies, in order. */
  ghost function States(es: seq<Enemy>): (r: seq<EnemyState>)
    reads es`x, es`y, es`pathIndex, es`reachedEnd, es`effects, es`isDead
    ensures |r| == |es| && forall k {:trigger r[k]} :: 0 <= k < |es| ==> r[k] == es[k].State()
  {
    if es == [] then [] else [es[0].State()] + States(es[1..])
  }

  /** When only enemy `i` changed since the states were `before`, the state
      list changed at `i` only. */
  lemma StatesUpdated(es: seq<Enemy>, before: seq<EnemyState>, i: nat)
    requires i < |es| == |before| && forall k :: 0 <= k < |es| && k != i ==> es[k].State() == before[k]
    ensures States(es) == before[i := es[i].State()]
  {
    assert forall k :: 0 <= k < |es| ==> States(es)[k] == before[i := es[i].State()][k];
  }

  /** The fates of a list of states, in order. */
  function Fates(ss: seq<EnemyState>): (r: seq<Fate>)
    ensures |r| == |ss| && forall k {:trigger r[k]} :: 0 <= k < |ss| ==> r[k] == FateOf(ss[k])
  {
    if ss == [] then [] else [FateOf(ss[0])] + Fates(ss[1..])
  }

  /** The states updateEnemies leaves behind: one `Step` for every enemy. */
  function Walk(ss: seq<EnemyState>, path: seq<Point>, dt: real, gameSpeed: int, advance: Stepper): (r: seq<EnemyState>)
    ensures |r| == |ss| && forall k {:trigger r[k]} :: 0 <= k < |ss| ==> r[k] == Step(ss[k], path, dt, gameSpeed, advance)
  {
    if ss == [] then [] else [Step(ss[0], path, dt, gameSpeed, advance)] + Walk(ss[1..], path, dt, gameSpeed, advance)
  }

  /** One more step of the backward walk: stepping state `i` of the list whose
      suffix past `i` is already walked gives the list walked from `i`. */
  lemma WalkExtend(ss: seq<EnemyState>, i: nat, path: seq<Point>, dt: real, gameSpeed: int, advance: Stepper)
    requires i < |ss|
    ensures (ss[..i + 1] + Walk(ss[i + 1..], path, dt, gameSpeed, advance))[i] == ss[i]
    ensures (ss[..i + 1] + Walk(ss[i + 1..], path, dt, gameSpeed, advance))[i := Step(ss[i], path, dt, gameSpeed, advance)]
            == ss[..i] + Walk(ss[i..], path, dt, gameSpeed, advance)
  {
    var a := ss[..i + 1] + Walk(ss[i + 1..], path, dt, gameSpeed, advance);
    var b := ss[..i] + Walk(ss[i..], path, dt, gameSpeed, advance);
    assert forall k :: 0 <= k < |b| ==> a[i := Step(ss[i], path, dt, gameSpeed, advance)][k] == b[k];
  }

  /** The enemies whose fate is to stay in play, in their order. */
  function Survivors(es: seq<Enemy>, fs: seq<Fate>): seq<Enemy>
    requires |fs| == |es|
  {
    if es == [] then [] else (if fs[0] == InPlay then [es[0]] else []) + Survivors(es[1..], fs[1..])
  }

  /** Gold paid for the killed enemies: the sum of their rewards. */
  function Bounty(es: seq<Enemy>, fs: seq<Fate>): int
    requires |fs| == |es|
  {
    if es == [] then 0 else (if fs[0] == Killed then es[0].reward else 0) + Bounty(es[1..], fs[1..])
  }

  /** The killed enemies. */
  function Slain(es: seq<Enemy>, fs: seq<Fate>): set<Enemy>
    requires |fs| == |es|
  {
    if es == [] then {} else (if fs[0] == Killed then {es[0]} else {}) + Slain(es[1..], fs[1..])
  }

  /** How many enemies have fate `f`. */
  function Count(fs: seq<Fate>, f: Fate): nat
  {
    if fs == [] then 0 else (if fs[0] == f then 1 else 0) + Count(fs[1..], f)
  }

  /** The survivors are exactly the enemies in play, each kept once. */
  lemma {:induction false} SurvivorsSpec(es: seq<Enemy>, fs: seq<Fate>)
    requires |fs| == |es| && Distinct(es)
    ensures forall e :: e in Survivors(es, fs) ==> e in es
    ensures forall k :: 0 <= k < |es| ==> (es[k] in Survivors(es, fs) <==> fs[k] == InPlay)
    ensures Distinct(Survivors(es, fs))
    decreases |es|
  {
    if es != [] {
      var rest := Survivors(es[1..], fs[1..]);
      DistinctSplit(es, 0);
      SurvivorsSpec(es[1..], fs[1..]);
      assert Survivors(es, fs) == (if fs[0] == InPlay then [es[0]] else []) + rest;
      assert es[0] !in es[1..];
      assert es[0] !in rest;
      forall k | 1 <= k < |es|
        ensures es[k] in Survivors(es, fs) <==> fs[k] == InPlay
      {
        assert es[k] == es[1..][k - 1] && fs[k] == fs[1..][k - 1];
        assert es[k] != es[0];
      }
      if fs[0] == InPlay {
        DistinctPrepend(es[0], rest);
      } else {
        assert Survivors(es, fs) == rest;
      }
    }
  }

  /** Every enemy of the list is either a survivor, killed or escaped. */
  lemma {:induction false} SurvivorsCount(es: seq<Enemy>, fs: seq<Fate>)
    requires |fs| == |es|
    ensures |es| == |Survivors(es, fs)| + Count(fs, Killed) + Count(fs, Escaped)
    decreases |es|
  {
    if es != [] {
      SurvivorsCount(es[1..], fs[1..]);
    }
  }

  /** The killed enemies' rewards are non-negative when every reward is. */
  lemma {:induction false} BountyNonNegative(es: seq<Enemy>, fs: seq<Fate>)
    requires |fs| == |es| && forall i :: 0 <= i < |es| ==> es[i].reward >= 0
    ensures Bounty(es, fs) >= 0
    decreases |es|
  {
    if es != [] {
      BountyNonNegative(es[1..], fs[1..]);
    }
  }

  /** Only listed enemies are killed ones. */
  lemma {:induction false} SlainAreListed(es: seq<Enemy>, fs: seq<Fate>, e: Enemy)
    requires |fs| == |es| && e !in es
    ensures e !in Slain(es, fs)
    decreases |es|
  {
    if es != [] {
      assert e != es[0] && e !in es[1..];
      SlainAreListed(es[1..], fs[1..], e);
    }
  }

  /** What updateEnemies reads and writes of a tower: its target and its
      kill count. */
  datatype Record = Record(target: Enemy?, kills: int)

  /** The records of the towers, in tower order. */
  ghost function Records(ts: seq<Tower>): (r: seq<Record>)
    reads ts`target, ts`kills
    ensures |r| == |ts| && forall k {:trigger r[k]} :: 0 <= k < |ts| ==> r[k] == Record(ts[k].target, ts[k].kills)
  {
    if ts == [] then [] else [Record(ts[0].target, ts[0].kills)] + Records(ts[1..])
  }

  /** When only tower `i` changed since the records were `before`, the
      record list changed at `i` only. */
  lemma RecordsUpdated(ts: seq<Tower>, before: seq<Record>, i: nat)
    requires i < |ts| == |before|
    requires forall k :: 0 <= k < |ts| && k != i ==> Record(ts[k].target, ts[k].kills) == before[k]
    ensures Records(ts) == before[i := Record(ts[i].target, ts[i].kills)]
  {
    assert forall k :: 0 <= k < |ts| ==> Records(ts)[k] == before[i := Record(ts[i].target, ts[i].kills)][k];
  }

  /** canShoot, with the check of updateTowers before it: a tower aiming at
      `target` fires at time `now` when it has a target and its cooldown has
      passed since `lastShot`. */
  predicate Fires(target: Enemy?, lastShot: int, now: int, fireRate: real)
    requires fireRate > 0.0
  {
    target != null && Ready(now, lastShot, fireRate)
  }

  /** A tower's last shot time after its pass at `now`: `now` when it fires,
      the old time otherwise. */
  function ShotTime(target: Enemy?, lastShot: int, now: int, fireRate: real): int
    requires fireRate > 0.0
  {
    if Fires(target, lastShot, now, fireRate) then now else lastShot
  }

  /** A tower's last shot time after passes at the times `nows`, aiming at
      `targets`, starting from last shot time `lastShot`. */
  function LastShotAfter(lastShot: int, targets: seq<Enemy?>, nows: seq<int>, fireRate: real): int
    requires fireRate > 0.0 && |targets| == |nows|
    decreases |nows|
  {
    if nows == [] then lastShot
    else
      var n := |nows| - 1;
      ShotTime(targets[n], LastShotAfter(lastShot, targets[..n], nows[..n], fireRate), nows[n], fireRate)
  }

  /** Over any run of passes, whatever the clock says, the last shot time
      never falls, and from any point of the run to its end it either stays
      put or moves on by at least one cooldown: a tower never fires twice
      within 1000 / fireRate milliseconds. */
  lemma {:induction false} ShotTimesSpaced(lastShot: int, targets: seq<Enemy?>, nows: seq<int>, fireRate: real, i: nat)
    requires fireRate > 0.0 && |targets| == |nows| && i <= |nows|
    ensures var a, b := LastShotAfter(lastShot, targets[..i], nows[..i], fireRate),
                        LastShotAfter(lastShot, targets, nows, fireRate);
      a <= b && (a == b || (b - a) as real >= MillisPerSecond / fireRate)
    decreases |nows|
  {
    if i < |nows| {
      var n := |nows| - 1;
      ShotTimesSpaced(lastShot, targets[..n], nows[..n], fireRate, i);
      assert targets[..n][..i] == targets[..i] && nows[..n][..i] == nows[..i];
      assert MillisPerSecond / fireRate > 0.0;
    } else {
      assert targets[..i] == targets && nows[..i] == nows;
    }
  }

  /** Index of the first tower aiming at `e`, or |rs| when none does. */
  function FirstAiming(rs: seq<Record>, e: Enemy): (k: nat)
    ensures k <= |rs|
    ensures k < |rs| ==> rs[k].target == e
    ensures forall j :: 0 <= j < k ==> rs[j].target != e
  {
    if rs == [] then 0
    else if rs[0].target == e then 0
    else 1 + FirstAiming(rs[1..], e)
  }

  /** killEnemy's credit: the first tower aiming at the killed enemy `e`
      counts one more kill and drops its target; when none aims at it,
      nothing changes. */
  function Credit(rs: seq<Record>, e: Enemy): seq<Record>
  {
    var k := FirstAiming(rs, e);
    if k < |rs| then rs[k := Record(null, rs[k].kills + 1)] else rs
  }

  /** The credits of updateEnemies' backward walk over `es` with fates `fs`:
      the last enemy's kill is credited first. */
  function CreditAll(rs: seq<Record>, es: seq<Enemy>, fs: seq<Fate>): seq<Record>
    requires |fs| == |es|
  {
    if es == [] then rs
    else
      var r := CreditAll(rs, es[1..], fs[1..]);
      if fs[0] == Killed then Credit(r, es[0]) else r
  }

  /** Tower `k` is credited for one of the enemies `dead`: it aims at one of
      them and is the first tower to aim at that one. */
  predicate CreditedAt(rs: seq<Record>, dead: set<Enemy>, k: int)
    requires 0 <= k < |rs|
  {
    rs[k].target != null && rs[k].target in dead && forall j :: 0 <= j < k ==> rs[j].target != rs[k].target
  }

  /** The walk's credits, all at once: exactly the first tower aiming at each
      killed enemy drops its target and counts one more kill, whatever the
      order of the kills; every other tower keeps its record. */
  lemma {:induction false} CreditAllSpec(rs: seq<Record>, es: seq<Enemy>, fs: seq<Fate>)
    requires |fs| == |es| && Distinct(es)
    ensures var r := CreditAll(rs, es, fs);
      |r| == |rs|
      && forall k :: 0 <= k < |rs| ==>
           r[k] == if CreditedAt(rs, Slain(es, fs), k) then Record(null, rs[k].kills + 1) else rs[k]
    decreases |es|
  {
    if es != [] {
      var dead := Slain(es[1..], fs[1..]);
      var mid := CreditAll(rs, es[1..], fs[1..]);
      DistinctRemove(es, 0);
      assert es[..0] + es[1..] == es[1..];
      CreditAllSpec(rs, es[1..], fs[1..]);
      if fs[0] == Killed {
        var e := es[0];
        assert e !in es[1..];
        SlainAreListed(es[1..], fs[1..], e);
        assert forall j :: 0 <= j < |rs| ==> (mid[j].target == e <==> rs[j].target == e);
        var k0 := FirstAiming(mid, e);
        assert forall k :: 0 <= k < |rs| ==>
          (CreditedAt(rs, dead + {e}, k) <==> CreditedAt(rs, dead, k) || k == k0);
      }
    }
  }

  /** One step of updateEnemies' backward walk, as values: the fate of enemy
      `i` decides whether it is kept, paid for or costs a life, and a kill
      credits one more tower. */
  lemma WalkStep(es: seq<Enemy>, fs: seq<Fate>, i: nat, rs: seq<Record>)
    requires |fs| == |es| && i < |es| && Distinct(es)
    ensures es[i] !in es[..i] && es[i] !in es[i + 1..] && es[i..] == [es[i]] + es[i + 1..]
    ensures Survivors(es[i..], fs[i..]) == (if fs[i] == InPlay then [es[i]] else []) + Survivors(es[i + 1..], fs[i + 1..])
    ensures Bounty(es[i..], fs[i..]) == (if fs[i] == Killed then es[i].reward else 0) + Bounty(es[i + 1..], fs[i + 1..])
    ensures Count(fs[i..], Escaped) == (if fs[i] == Escaped then 1 else 0) + Count(fs[i + 1..], Escaped)
    ensures CreditAll(rs, es[i..], fs[i..])
            == if fs[i] == Killed then Credit(CreditAll(rs, es[i + 1..], fs[i + 1..]), es[i]) else CreditAll(rs, es[i + 1..], fs[i + 1..])
  {
    assert es[i..][0] == es[i] && es[i..][1..] == es[i + 1..];
    assert fs[i..][0] == fs[i] && fs[i..][1..] == fs[i + 1..];
    DistinctSplit(es, i);
  }

  /** Removing or keeping enemy `i` of the walked list: the list stays the
      prefix not yet walked followed by the survivors of the walked suffix. */
  lemma SpliceStep(es: seq<Enemy>, fs: seq<Fate>, i: nat, list: seq<Enemy>)
    requires |fs| == |es| && i < |es| && list == es[..i + 1] + Survivors(es[i + 1..], fs[i + 1..])
    ensures i < |list| && list[i] == es[i]
    ensures Survivors(es[i..], fs[i..]) == (if fs[i] == InPlay then [es[i]] else []) + Survivors(es[i + 1..], fs[i + 1..])
    ensures (if fs[i] == InPlay then list else list[..i] + list[i + 1..]) == es[..i] + Survivors(es[i..], fs[i..])
  {
    assert es[i..][0] == es[i] && es[i..][1..] == es[i + 1..];
    assert fs[i..][0] == fs[i] && fs[i..][1..] == fs[i + 1..];
    assert list[..i] == es[..i];
    assert list[i + 1..] == Survivors(es[i + 1..], fs[i + 1..]);
  }

  /** An enemy tower `t` may aim at: alive and within its range. */
  ghost predicate Targetable(t: Tower, e: Enemy)
    reads t`range, e`isDead, e`x, e`y
  {
    !e.isDead && Within(e.Position(), t.Position(), t.range)
  }

  /** findTarget's choice: null exactly when no enemy is targetable; otherwise
      a targetable enemy furthest along the path, the first such on ties. */
  ghost predicate IsBestTarget(t: Tower, es: seq<Enemy>, r: Enemy?)
    reads t`range, es`isDead, es`x, es`y, es`pathIndex
  {
    if r == null then forall j :: 0 <= j < |es| ==> !Targetable(t, es[j])
    else exists i :: 0 <= i < |es| && es[i] == r && BestAt(t, es, i)
  }

  ghost predicate BestAt(t: Tower, es: seq<Enemy>, i: int)
    reads t`range, es`isDead, es`x, es`y, es`pathIndex
    requires 0 <= i < |es|
  {
    Targetable(t, es[i])
    && (forall j :: 0 <= j < |es| && Targetable(t, es[j]) ==> es[j].pathIndex <= es[i].pathIndex)
    && (forall j :: 0 <= j < i && Targetable(t, es[j]) ==> es[j].pathIndex < es[i].pathIndex)
  }

  /** findTarget's scan: walking `es` in order, an enemy replaces the choice
      so far when it is targetable and strictly further along the path. */
  ghost function BestTarget(t: Tower, es: seq<Enemy>): (r: Enemy?)
    reads t`range, es`isDead, es`x, es`y, es`pathIndex
    ensures r != null ==> r in es
    decreases |es|
  {
    if es == [] then null
    else
      var b, e := BestTarget(t, es[..|es| - 1]), es[|es| - 1];
      if Targetable(t, e) && (b == null || e.pathIndex > b.pathIndex) then e else b
  }

  /** The scan finds the best target. */
  lemma {:induction false} BestTargetIsBest(t: Tower, es: seq<Enemy>)
    ensures IsBestTarget(t, es, BestTarget(t, es))
    decreases |es|
  {
    if es != [] {
      var n := |es|;
      var init, e := es[..n - 1], es[n - 1];
      var b := BestTarget(t, init);
      BestTargetIsBest(t, init);
      assert forall j :: 0 <= j < n - 1 ==> init[j] == es[j];
      if Targetable(t, e) && (b == null || e.pathIndex > b.pathIndex) {
        if b != null {
          var i :| 0 <= i < |init| && init[i] == b && BestAt(t, init, i);
        }
        assert BestAt(t, es, n - 1);
      } else if b != null {
        var i :| 0 <= i < |init| && init[i] == b && BestAt(t, init, i);
        assert BestAt(t, es, i);
      }
    }
  }

  /** findTarget's scan over enemies none of which is dead: the furthest
      along the path within range, the first such on ties. */
  ghost function FurthestWithin(t: Tower, es: seq<Enemy>): (r: Enemy?)
    reads t`range, es`x, es`y, es`pathIndex
    ensures r != null ==> r in es
    decreases |es|
  {
    if es == [] then null
    else
      var b, e := FurthestWithin(t, es[..|es| - 1]), es[|es| - 1];
      if Within(e.Position(), t.Position(), t.range) && (b == null || e.pathIndex > b.pathIndex) then e else b
  }

  /** With every enemy alive, the scan does not depend on the death flags:
      it is the furthest enemy within range. */
  lemma {:induction false} AliveTargets(t: Tower, es: seq<Enemy>)
    requires forall e :: e in es ==> !e.isDead
    ensures BestTarget(t, es) == FurthestWithin(t, es)
    decreases |es|
  {
    if es != [] {
      var init := es[..|es| - 1];
      assert forall e :: e in init ==> e in es;
      AliveTargets(t, init);
      assert es[|es| - 1] in es;
    }
  }

  /** The targets findTarget picks for the towers among enemies none of
      which is dead, in tower order. */
  ghost function Furthests(ts: seq<Tower>, es: seq<Enemy>): (r: seq<Enemy?>)
    reads ts`range, es`x, es`y, es`pathIndex
    ensures |r| == |ts|
  {
    if ts == [] then [] else [FurthestWithin(ts[0], es)] + Furthests(ts[1..], es)
  }

  /** Among enemies that are all alive, each tower aims at the one within
      its range furthest along the path. */
  lemma {:induction false} AliveAims(ts: seq<Tower>, es: seq<Enemy>)
    requires forall e :: e in es ==> !e.isDead
    ensures Aims(ts, es) == Furthests(ts, es)
    decreases |ts|
  {
    if ts != [] {
      AliveTargets(ts[0], es);
      AliveAims(ts[1..], es);
    }
  }

  /** The scan of findTarget depends only on where the enemies are and on
      the tower's range (by induction on `es`). */
  twostate lemma FurthestKept(new t: Tower, es: seq<Enemy>)
    requires old(allocated(t)) && t.range == old(t.range)
    requires forall e :: e in es ==> e.x == old(e.x) && e.y == old(e.y) && e.pathIndex == old(e.pathIndex)
    ensures FurthestWithin(t, es) == old(FurthestWithin(t, es))
  {
  }

  /** The same for every tower's scan (by induction on `ts`). */
  twostate lemma FurthestsKept(new ts: seq<Tower>, es: seq<Enemy>)
    requires old(allocated(ts)) && forall t :: t in ts ==> t.range == old(t.range)
    requires forall e :: e in es ==> e.x == old(e.x) && e.y == old(e.y) && e.pathIndex == old(e.pathIndex)
    ensures Furthests(ts, es) == old(Furthests(ts, es))
  {
    if ts != [] {
      FurthestKept(ts[0], es);
    }
  }

  /** The best target is unique: two choices satisfying the rule coincide. */
  lemma BestTargetUnique(t: Tower, es: seq<Enemy>, i: int, j: int)
    requires 0 <= i < |es| && 0 <= j < |es| && BestAt(t, es, i) && BestAt(t, es, j)
    ensures i == j
  {
  }

  /** The tower's cooldown has passed: at least 1000 / fireRate milliseconds
      since its last shot. */
  predicate Ready(now: int, lastShot: int, fireRate: real)
    requires fireRate > 0.0
  {
    (now - lastShot) as real >= MillisPerSecond / fireRate
  }

  /** Readiness in multiplicative form: the elapsed seconds times the fire rate
      reach one shot. */
  lemma ReadyIffElapsedShots(now: int, lastShot: int, fireRate: real)
    requires fireRate > 0.0
    ensures Ready(now, lastShot, fireRate) <==> (now - lastShot) as real * fireRate >= MillisPerSecond
  {
    var d := (now - lastShot) as real;
    var c := MillisPerSecond / fireRate;
    assert c * fireRate == MillisPerSecond;
    if d >= c {
      assert d * fireRate - c * fireRate == (d - c) * fireRate;
    } else {
      assert c * fireRate - d * fireRate == (c - d) * fireRate;
    }
  }

  /** Shot times that each respect the cooldown of the previous one span at
      least (n - 1) cooldowns: a tower fires at most once per 1000 / fireRate
      milliseconds. */
  lemma {:induction false} ShotsSpaced(times: seq<int>, fireRate: real)
    requires fireRate > 0.0 && |times| >= 1
    requires forall i :: 0 < i < |times| ==> Ready(times[i], times[i - 1], fireRate)
    ensures (times[|times| - 1] - times[0]) as real >= (|times| - 1) as real * (MillisPerSecond / fireRate)
    decreases |times|
  {
    if |times| > 1 {
      var init := times[..|times| - 1];
      ShotsSpaced(init, fireRate);
      assert init[|init| - 1] == times[|times| - 2];
    }
  }

  /** An enemy a lightning chain from `src` may strike: another enemy, alive,
      within 60. */
  ghost predicate ChainEligible(src: Enemy, e: Enemy)
    reads src`x, src`y, e`isDead, e`x, e`y
  {
    e != src && !e.isDead && Within(e.Position(), src.Position(), ChainRange)
  }

  /** Number of eligible enemies in `es`. */
  ghost function ChainCount(src: Enemy, es: seq<Enemy>): nat
    reads src`x, src`y, es`isDead, es`x, es`y
  {
    if es == [] then 0
    else ChainCount(src, es[..|es| - 1]) + (if ChainEligible(src, es[|es| - 1]) then 1 else 0)
  }

  /** chainLightning strikes enemy `j`: it is eligible and fewer than three
      eligible enemies precede it. */
  ghost predicate ChainVictim(src: Enemy, es: seq<Enemy>, j: int)
    reads src`x, src`y, es`isDead, es`x, es`y
    requires 0 <= j < |es|
  {
    ChainEligible(src, es[j]) && ChainCount(src, es[..j]) < MaxChains
  }

  /** For each enemy of `es`, whether a chain from `src` strikes it. */
  ghost function Strikes(src: Enemy, es: seq<Enemy>): (r: seq<bool>)
    reads src`x, src`y, es`isDead, es`x, es`y
    ensures |r| == |es| && forall j {:trigger r[j]} :: 0 <= j < |es| ==> r[j] == ChainVictim(src, es, j)
    decreases |es|
  {
    if es == [] then []
    else
      var init := es[..|es| - 1];
      assert forall j :: 0 <= j < |init| ==> init[j] == es[j] && init[..j] == es[..j];
      Strikes(src, init) + [ChainVictim(src, es, |es| - 1)]
  }

  /** The effect of chainLightning from `src` on the enemies `es` up to index
      `n`: each struck enemy loses 8 health and dies at 0 or below; every
      other enemy but the source keeps its health and its death flag. */
  twostate predicate ChainAppliedUpTo(src: Enemy, es: seq<Enemy>, n: int)
    reads es
    requires n <= |es|
  {
    var struck := old(Strikes(src, es));
    forall j :: 0 <= j < n && es[j] != src ==> if struck[j] then Struck(es[j]) else Spared(es[j])
  }

  /** Enemy `e` took a chain hit: 8 health less, dead at 0 or below. */
  twostate predicate Struck(e: Enemy)
    reads e
  {
    e.health == old(e.health) - ChainDamage && e.isDead == (e.health <= 0.0)
  }

  /** Enemy `e` kept its health and its death flag. */
  twostate predicate Spared(e: Enemy)
    reads e
  {
    e.health == old(e.health) && e.isDead == old(e.isDead)
  }

  twostate predicate ChainApplied(src: Enemy, es: seq<Enemy>)
    reads es
  {
    ChainAppliedUpTo(src, es, |es|)
  }

  /** hitTarget with applyTowerEffects, from the projectile's damage and
      type: the target loses the damage and dies at 0 or below; a frost hit
      attaches one FrostSlow; a lightning hit sets off a chain from the target
      over `es`, any other hit leaves the other enemies' health and death
      flags alone. */
  twostate predicate HitDealt(e: Enemy, damage: real, kind: Option<TowerKind>, es: seq<Enemy>)
    reads e, es
  {
    e.health == old(e.health) - damage && e.isDead == (old(e.isDead) || e.health <= 0.0)
    && e.effects == (if kind == Some(Frost) then old(e.effects) + [FrostSlow] else old(e.effects))
    && (kind == Some(Lightning) ==> ChainApplied(e, es))
    && (kind != Some(Lightning) ==>
          forall j :: 0 <= j < |es| && es[j] != e ==>
            es[j].health == old(es[j].health) && es[j].isDead == old(es[j].isDead))
  }

  /** Number of struck enemies. */
  ghost function VictimCount(src: Enemy, es: seq<Enemy>): nat
    reads src`x, src`y, es`isDead, es`x, es`y
  {
    if es == [] then 0
    else VictimCount(src, es[..|es| - 1]) + (if ChainVictim(src, es, |es| - 1) then 1 else 0)
  }

  /** A chain strikes the first min(3, eligible) eligible enemies: at most three,
      and every eligible one while there are at most three. */
  lemma {:induction false} ChainStrikesAtMostThree(src: Enemy, es: seq<Enemy>)
    ensures VictimCount(src, es) == if ChainCount(src, es) < MaxChains then ChainCount(src, es) else MaxChains
    decreases |es|
  {
    if es != [] {
      var init := es[..|es| - 1];
      ChainStrikesAtMostThree(src, init);
      assert es[..|es| - 1] == init;
    }
  }

  /** Index of the first inactive projectile, or |ps| when all are active. */
  ghost function FirstInactive(ps: seq<Projectile>): (k: nat)
    reads ps
    ensures k <= |ps|
    ensures k < |ps| ==> !ps[k].active
    ensures forall j :: 0 <= j < k ==> ps[j].active
  {
    if ps == [] then 0
    else if !ps[0].active then 0
    else 1 + FirstInactive(ps[1..])
  }

  /** The first free projectile is the first free flight. */
  lemma {:induction false} FirstInactiveFree(ps: seq<Projectile>)
    ensures FirstInactive(ps) == FirstFree(Flights(ps))
    decreases |ps|
  {
    if ps != [] {
      FirstInactiveFree(ps[1..]);
      assert Flights(ps)[1..] == Flights(ps[1..]);
    }
  }

  /** One homing step of a projectile of speed `speed` from `from` towards
      `to`: `speed * dt * gameSpeed` along `advance`. */
  function HomingStep(from: Point, to: Point, speed: int, dt: real, gameSpeed: int, advance: Stepper): Point
  {
    advance(from, to, speed as real * dt * gameSpeed as real)
  }

  /** One pass of updateProjectiles over projectile `p`, whose target was
      `e`: a free projectile stays as it was; one still flying kept its live
      target, was not within 8 of it and took one `advance` step of
      speed * dt * gameSpeed towards it; one released has no target and did
      not move, its target being missing, dead, or within 8 (a hit). */
  twostate predicate ProjectileStepped(p: Projectile, e: Enemy?, dt: real, gameSpeed: int, advance: Stepper)
    reads p, e
  {
    if !old(p.active) then !p.active && p.target == old(p.target) && p.Position() == old(p.Position())
    else if p.active then
      e != null && !old(e.isDead) && p.target == e && !Closer(e.Position(), old(p.Position()), HitRadius)
      && p.Position() == HomingStep(old(p.Position()), e.Position(), p.speed, dt, gameSpeed, advance)
    else
      p.target == null && p.Position() == old(p.Position())
      && (e == null || e.isDead || Closer(e.Position(), old(p.Position()), HitRadius))
  }

  /** Projectile `p` has had its pass of updateProjectiles from flight `f`:
      a free projectile is as it was; one still flying had a target, was not
      within 8 of it and took one `advance` step towards it; one released
      has no target and did not move, its target being missing, dead, or
      within 8 (a hit). Its speed, damage and type never change. */
  ghost predicate Flew(p: Projectile, f: Flight, dt: real, gameSpeed: int, advance: Stepper)
    reads p, f.target
  {
    var e := f.target;
    if !f.active then p.View() == f
    else if p.active then
      e != null && !Closer(e.Position(), f.pos, HitRadius)
      && p.View() == f.(pos := HomingStep(f.pos, e.Position(), f.speed, dt, gameSpeed, advance))
    else
      p.View() == f.(active := false, target := null)
      && (e == null || e.isDead || Closer(e.Position(), f.pos, HitRadius))
  }

  /** Projectile `p` has not taken its pass yet: its flag, target and
      position are as they were. */
  twostate predicate Unstepped(p: Projectile)
    reads p
  {
    p.active == old(p.active) && p.target == old(p.target) && p.x == old(p.x) && p.y == old(p.y)
  }

  /** Index of the first tower within 25 of `p` (the selection radius of
      selectExistingTower, upgradeTowerAt and sellTowerAt), or |ts|. */
  function FirstNear(ts: seq<Tower>, p: Point): (k: nat)
    ensures k <= |ts|
    ensures k < |ts| ==> Within(p, ts[k].Position(), SelectRadius)
    ensures forall j :: 0 <= j < k ==> !Within(p, ts[j].Position(), SelectRadius)
  {
    if ts == [] then 0
    else if Within(p, ts[0].Position(), SelectRadius) then 0
    else 1 + FirstNear(ts[1..], p)
  }

  /** The pool and the list are one list of distinct, sound projectiles. */
  ghost predicate PoolOk(pool: seq<Projectile>, list: seq<Projectile>, spawned: set<Enemy>)
    reads list`active, list`target, list`damage
  {
    pool == list && Distinct(list) && forall i :: 0 <= i < |list| ==> list[i].Sound(spawned)
  }

  /** Enemies are distinct spawned enemies, never above their maximum
      health, with non-negative rewards. */
  ghost predicate EnemiesOk(enemies: seq<Enemy>, spawned: set<Enemy>)
    reads enemies`health
  {
    Distinct(enemies)
    && forall i :: 0 <= i < |enemies| ==>
         enemies[i] in spawned && enemies[i].health <= enemies[i].maxHealth as real && enemies[i].reward >= 0
  }

  /** Towers are distinct, with positive damage, range and fire rate. */
  ghost predicate TowersOk(towers: seq<Tower>)
    reads towers`damage, towers`range, towers`fireRate
  {
    Distinct(towers)
    && forall i :: 0 <= i < |towers| ==>
         towers[i].damage > 0.0 && towers[i].range > 0.0 && towers[i].fireRate > 0.0
  }
}
