/**
 * The combat rules on the arena: a hit on a tower, an enemy or the organ
 * (`receiveDamage` and the death cascade it may start), the two handlers that
 * create locks from physics contacts, and the cooldown rules of
 * `Tower.update` and `Enemy.attackTarget`.
 */
module Combat {
  import opened Wrappers
  import opened Geometry
  import opened Entity
  import opened Units
  import opened Organs
  import opened Arenas
  import L = Links
  import C = Cascade

  /** Replaces a tower's hit points and activity; its references are untouched. */
  function WithTowerBody(a: Arena, t: TowerId, b: Vitals): (r: Arena)
    requires t in a.towers
    ensures r.towers == a.towers[t := a.towers[t].(body := b)] && r.enemies == a.enemies && r.organ == a.organ
    ensures Closed(r) <==> Closed(a)
    ensures Linked(r) <==> Linked(a)
  {
    var r := a.(towers := a.towers[t := a.towers[t].(body := b)]);
    TowerLocksFrame(a, r);
    AttackersFrame(a, r);
    ClosedFrame(a, r);
    r
  }

  /** Replaces an enemy's hit points and activity; its references are untouched. */
  function WithEnemyBody(a: Arena, e: EnemyId, b: Vitals): (r: Arena)
    requires e in a.enemies
    ensures r.enemies == a.enemies[e := a.enemies[e].(body := b)] && r.towers == a.towers && r.organ == a.organ
    ensures Closed(r) <==> Closed(a)
    ensures Linked(r) <==> Linked(a)
  {
    var r := a.(enemies := a.enemies[e := a.enemies[e].(body := b)]);
    TowerLocksFrame(a, r);
    AttackersFrame(a, r);
    ClosedFrame(a, r);
    r
  }

  /** `Tower.receiveDamage(d)`: the hit points, then on the killing hit `Tower.onDestroy`. */
  function DamageTower(a: Arena, t: TowerId, d: int): (r: Arena)
    requires Closed(a) && t in a.towers
    ensures r.towers.Keys == a.towers.Keys && r.enemies.Keys == a.enemies.Keys
    ensures r.towers[t].body.hp == ReceiveDamage(a.towers[t].body, d).hp
    ensures r.towers[t].body.active <==> a.towers[t].body.active && !Kills(a.towers[t].body, d)
  {
    var b := ReceiveDamage(a.towers[t].body, d);
    var a1 := WithTowerBody(a, t, b);
    if Kills(a.towers[t].body, d) then C.TowerDeath(a1, t) else a1
  }

  /** `Enemy.receiveDamage(d)`: the hit points, then on the killing hit `Enemy.onDestroy`. The
      enemy stays active: only the end of its death animation deactivates it. */
  function DamageEnemy(a: Arena, e: EnemyId, d: int): (r: Arena)
    requires Closed(a) && e in a.enemies
    ensures r.towers.Keys == a.towers.Keys && r.enemies.Keys == a.enemies.Keys
    ensures r.enemies[e].body == ReceiveDamage(a.enemies[e].body, d)
    ensures Kills(a.enemies[e].body, d) ==> r.enemies[e].target == None
  {
    var b := ReceiveDamage(a.enemies[e].body, d);
    var a1 := WithEnemyBody(a, e, b);
    if Kills(a.enemies[e].body, d) then C.EnemyDeath(a1, e) else a1
  }

  /** `ImmuneOrgan.receiveDamage(d)`: no guard of its own; at zero hit points the organ's body
      is disabled and every active attacker drops its lock. */
  function DamageOrganArena(a: Arena, d: int): (r: Arena)
    requires Closed(a)
    ensures r.towers.Keys == a.towers.Keys && r.enemies.Keys == a.enemies.Keys
    ensures r.organ == DamageOrgan(a.organ, d).(attackers := r.organ.attackers)
    ensures r.organ.hp == DamageOrgan(a.organ, d).hp && r.organ.active == a.organ.active
  {
    var a1 := a.(organ := DamageOrgan(a.organ, d));
    ClosedFrame(a, a1);
    if a1.organ.hp <= 0 then C.OrganFall(a1) else a1
  }

  /** A hit on any unit keeps the links two-way. */
  lemma DamageTowerKeepsLinked(a: Arena, t: TowerId, d: int)
    requires Closed(a) && Linked(a) && t in a.towers
    ensures Closed(DamageTower(a, t, d)) && Linked(DamageTower(a, t, d))
  {
    var a1 := WithTowerBody(a, t, ReceiveDamage(a.towers[t].body, d));
    if Kills(a.towers[t].body, d) {
      C.TowerDeathReleasesAll(a1, t);
    }
  }

  lemma DamageEnemyKeepsLinked(a: Arena, e: EnemyId, d: int)
    requires Closed(a) && Linked(a) && e in a.enemies
    ensures Closed(DamageEnemy(a, e, d)) && Linked(DamageEnemy(a, e, d))
  {
    var a1 := WithEnemyBody(a, e, ReceiveDamage(a.enemies[e].body, d));
    if Kills(a.enemies[e].body, d) {
      C.EnemyDeathReleasesAll(a1, e);
    }
  }

  lemma DamageOrganKeepsLinked(a: Arena, d: int)
    requires Closed(a) && Linked(a)
    ensures Closed(DamageOrganArena(a, d)) && Linked(DamageOrganArena(a, d))
  {
    var a1 := a.(organ := DamageOrgan(a.organ, d));
    ClosedFrame(a, a1);
    TowerLocksFrame(a, a1);
    AttackersFrame(a, a1);
    if a1.organ.hp <= 0 {
      C.OrganFallReleasesAll(a1);
    }
  }

  /** A unit already dead or inactive ignores hits entirely: nothing in the arena changes. */
  lemma DeadTowerIgnoresHits(a: Arena, t: TowerId, d: int)
    requires Closed(a) && t in a.towers && IgnoresDamage(a.towers[t].body)
    ensures DamageTower(a, t, d) == a
  {
    assert a.towers[t := a.towers[t].(body := a.towers[t].body)] == a.towers;
  }

  lemma DeadEnemyIgnoresHits(a: Arena, e: EnemyId, d: int)
    requires Closed(a) && e in a.enemies && IgnoresDamage(a.enemies[e].body)
    ensures DamageEnemy(a, e, d) == a
  {
    assert a.enemies[e := a.enemies[e].(body := a.enemies[e].body)] == a.enemies;
  }

  /** An enemy shot overlapping the organ (GameScene.ts:168-178 and `handleEnemyProjectileHit`):
      it lands only on a reachable organ, whose `receiveDamage` then runs. */
  function OrganShot(a: Arena, d: int): (r: Arena)
    requires Closed(a)
    ensures Closed(r) && r.towers.Keys == a.towers.Keys && r.enemies.Keys == a.enemies.Keys
  {
    if Reachable(a.organ) then
      DamageOrganArenaKeepsClosed(a, d);
      DamageOrganArena(a, d)
    else a
  }

  /** Shots landing in turn, first to last. */
  function OrganShots(a: Arena, ds: seq<int>): (r: Arena)
    requires Closed(a)
    ensures Closed(r)
    decreases |ds|
  {
    if ds == [] then a else OrganShots(OrganShot(a, ds[0]), ds[1..])
  }

  lemma DamageOrganArenaKeepsClosed(a: Arena, d: int)
    requires Closed(a)
    ensures Closed(DamageOrganArena(a, d))
  {
    var a1 := a.(organ := DamageOrgan(a.organ, d));
    ClosedFrame(a, a1);
    if a1.organ.hp <= 0 {
      C.ReleaseAttackersKeepsClosed(a1, a1.organ.attackers);
    }
  }

  /** A fallen organ absorbs no shot: no run of enemy shots changes anything, so every enemy
      locked onto it stays locked and no organ event is sent again. */
  lemma {:induction false} UnreachableOrganAbsorbsNoShots(a: Arena, ds: seq<int>)
    requires Closed(a) && !Reachable(a.organ)
    ensures OrganShots(a, ds) == a
  {
    if ds != [] {
      UnreachableOrganAbsorbsNoShots(OrganShot(a, ds[0]), ds[1..]);
    }
  }

  /** The shot that takes the organ to zero is the last one it takes: its body is disabled, and
      every later shot leaves the arena as that shot left it, however many enemies lock onto the
      organ in the meantime. */
  lemma FallIsFinalForShots(a: Arena, d: int, ds: seq<int>)
    requires Closed(a) && Reachable(a.organ) && DamageOrgan(a.organ, d).hp == 0
    ensures !Reachable(OrganShot(a, d).organ)
    ensures OrganShots(OrganShot(a, d), ds) == OrganShot(a, d)
  {
    UnreachableOrganAbsorbsNoShots(OrganShot(a, d), ds);
  }

  /** `onDestroy`'s 'enemyDefeated' reward: paid only while the enemy still has hit points. */
  function DefeatReward(en: Enemy): (r: int)
    ensures r != 0 ==> en.body.hp > 0 && r == en.config.reward
  {
    if en.body.hp > 0 then en.config.reward else 0
  }

  /** Hence an enemy killed by damage pays nothing: the reward goes only to an enemy that
      reaches the goal with hit points left. */
  lemma KillsPayNoReward(en: Enemy, d: int)
    requires Kills(en.body, d)
    ensures DefeatReward(en.(body := ReceiveDamage(en.body, d))) == 0
  {
    KillsIffHpReachesZero(en.body, d);
  }

  /** The range handler: an active tower locks an active enemy only if the enemy can still be
      targeted (`tower.canTarget(enemy)`). */
  function RangeLock(a: Arena, t: TowerId, e: EnemyId): (r: Arena)
    requires Closed(a) && t in a.towers && e in a.enemies
    ensures r.towers.Keys == a.towers.Keys && r.enemies.Keys == a.enemies.Keys
    ensures r.towers[t].target == (if a.towers[t].body.active && a.enemies[e].body.active && CanBeTargeted(a.enemies[e]) then Some(e) else a.towers[t].target)
  {
    if a.towers[t].body.active && a.enemies[e].body.active && CanBeTargeted(a.enemies[e])
    then L.TowerSetTarget(a, t, e)
    else a
  }

  /** The range handler keeps the links two-way and every enemy within its slots. */
  lemma RangeLockKeepsInvariants(a: Arena, t: TowerId, e: EnemyId)
    requires Closed(a) && t in a.towers && e in a.enemies
    ensures Closed(RangeLock(a, t, e))
    ensures Linked(a) ==> Linked(RangeLock(a, t, e))
    ensures SlotsRespected(a) ==> SlotsRespected(RangeLock(a, t, e))
  {
    if a.towers[t].body.active && a.enemies[e].body.active && CanBeTargeted(a.enemies[e]) {
      L.TowerSetTargetKeepsClosed(a, t, e);
      if Linked(a) {
        L.TowerSetTargetKeepsLinked(a, t, e);
      }
      if SlotsRespected(a) {
        L.GuardedTowerLockKeepsSlots(a, t, e);
      }
    }
  }

  /** The collision handler: an active enemy touching an active tower locks onto it, with no
      slot check. */
  function CollisionLock(a: Arena, e: EnemyId, t: TowerId): (r: Arena)
    requires Closed(a) && t in a.towers && e in a.enemies
    ensures r.towers.Keys == a.towers.Keys && r.enemies.Keys == a.enemies.Keys
    ensures r.enemies[e].target == (if a.towers[t].body.active && a.enemies[e].body.active then Some(AtTower(t)) else a.enemies[e].target)
  {
    if a.enemies[e].body.active && a.towers[t].body.active
    then L.EnemySetTarget(a, e, AtTower(t))
    else a
  }

  /** The collision handler keeps the links two-way, but a tower whose slots are full still
      gains the colliding enemy as one more attacker. */
  lemma CollisionLockOverfills(a: Arena, e: EnemyId, t: TowerId)
    requires Closed(a) && t in a.towers && e in a.enemies
    ensures Closed(CollisionLock(a, e, t))
    ensures Linked(a) ==> Linked(CollisionLock(a, e, t))
    ensures a.towers[t].body.active && a.enemies[e].body.active && e !in a.towers[t].attackers ==>
      |CollisionLock(a, e, t).towers[t].attackers| == |a.towers[t].attackers| + 1
  {
    if a.enemies[e].body.active && a.towers[t].body.active {
      L.EnemySetTargetKeepsClosed(a, e, AtTower(t));
      if Linked(a) {
        L.EnemySetTargetKeepsLinked(a, e, AtTower(t));
      }
    }
  }

  /** The validity check at the top of `Tower.update`: the locked enemy is inactive, dead, or
      farther than the tower's range. */
  predicate LosesTarget(a: Arena, t: TowerId)
    requires Closed(a) && t in a.towers
  {
    var tw := a.towers[t];
    tw.target.Some? &&
      var en := a.enemies[tw.target.value];
      !en.body.active || !IsAlive(en.body) || FartherThan(tw.pos, en.pos, tw.config.range)
  }

  /** `Tower.update(time, delta, enemiesVisible)` on the arena: the validity check, then the fire
      gate. The flag says whether `fire()` is called; nextFire moves on whenever it is, whatever
      `fire()` then does. */
  function TowerTick(a: Arena, t: TowerId, time: int, enemiesVisible: bool): (r: (Arena, bool))
    requires Closed(a) && t in a.towers
    ensures r.0.towers.Keys == a.towers.Keys && r.0.enemies.Keys == a.enemies.Keys
    ensures r.1 <==> enemiesVisible && !LosesTarget(a, t) && a.towers[t].target.Some? && time > a.towers[t].nextFire
    ensures r.0.towers[t].nextFire == if r.1 then time + a.towers[t].config.fireRate else a.towers[t].nextFire
    ensures r.0.towers[t].target == if LosesTarget(a, t) then None else a.towers[t].target
  {
    L.TowerClearTargetKeepsClosed(a, t);
    var a1 := if LosesTarget(a, t) then L.TowerClearTarget(a, t) else a;
    var tw := a1.towers[t];
    if enemiesVisible && tw.target.Some? && time > tw.nextFire
    then (WithNextFire(a1, t, time + tw.config.fireRate), true)
    else (a1, false)
  }

  function WithNextFire(a: Arena, t: TowerId, n: int): (r: Arena)
    requires t in a.towers
    ensures r.towers == a.towers[t := a.towers[t].(nextFire := n)] && r.enemies == a.enemies && r.organ == a.organ
  {
    a.(towers := a.towers[t := a.towers[t].(nextFire := n)])
  }

  /** When `update` calls `fire()`, the guard at the top of `fire()` always passes: the validity
      check has just cleared any target that is inactive or dead. */
  lemma FireGuardFollowsValidityCheck(a: Arena, t: TowerId, time: int, enemiesVisible: bool)
    requires Closed(a) && t in a.towers && TowerTick(a, t, time, enemiesVisible).1
    ensures a.towers[t].target.Some?
    ensures var en := a.enemies[a.towers[t].target.value]; en.body.active && IsAlive(en.body)
  {
  }

  /** The fire-rate cooldown: two calls of `fire()` by the same tower are more than fireRate
      milliseconds apart. */
  lemma TowerShotsAreSpaced(a: Arena, t: TowerId, t1: int, t2: int, v1: bool, v2: bool)
    requires Closed(a) && t in a.towers
    requires TowerTick(a, t, t1, v1).1
    requires Closed(TowerTick(a, t, t1, v1).0)
    requires TowerTick(TowerTick(a, t, t1, v1).0, t, t2, v2).1
    ensures t2 > t1 + a.towers[t].config.fireRate
  {
    var a1 := TowerTick(a, t, t1, v1).0;
    assert a1.towers[t].nextFire == t1 + a.towers[t].config.fireRate;
    assert a1.towers[t].config == a.towers[t].config by {
      L.TowerClearTargetKeepsClosed(a, t);
    }
  }

  /** A freshly placed tower never fires at time 0: nextFire starts at 0 and the gate is strict. */
  lemma NoShotAtTimeZero(a: Arena, t: TowerId, v: bool)
    requires Closed(a) && t in a.towers && a.towers[t].nextFire == 0
    ensures !TowerTick(a, t, 0, v).1
  {
  }

  /** Whether the defender an enemy is locked on counts as active; the boundary line's activity
      comes from the scene. */
  predicate TargetActive(a: Arena, g: EnemyTarget, boundaryActive: bool)
  {
    match g
    case AtTower(t) => t in a.towers && a.towers[t].body.active
    case AtOrgan => a.organ.active
    case AtBoundary(_) => boundaryActive
  }

  /** The cooldown of `attackTarget(time)`: with a target and time past nextAttack, nextAttack
      moves to time + fireRate (whether or not a projectile was launched); otherwise nothing. */
  function AttackCooldown(en: Enemy, time: int): (r: Enemy)
    ensures en.target.Some? && time > en.nextAttack ==> r == en.(nextAttack := time + en.config.fireRate)
    ensures !(en.target.Some? && time > en.nextAttack) ==> r == en
  {
    if en.target.None? then en
    else if time <= en.nextAttack then en
    else en.(nextAttack := time + en.config.fireRate)
  }

  /** Two attacks by the same enemy are more than fireRate milliseconds apart. */
  lemma EnemyAttacksAreSpaced(en: Enemy, t1: int, t2: int)
    requires AttackCooldown(en, t1) != en
    requires AttackCooldown(AttackCooldown(en, t1), t2) != AttackCooldown(en, t1)
    ensures t2 > t1 + en.config.fireRate
  {
  }

  /** The search gate of `Enemy.update`: no target or an inactive one, and time past nextSearch. */
  predicate SearchDue(a: Arena, en: Enemy, time: int, boundaryActive: bool)
  {
    (en.target.None? || !TargetActive(a, en.target.value, boundaryActive)) && time > en.nextSearch
  }

  /** The interval between two searches, in milliseconds. */
  const SearchInterval := 500

  /** Searches by one enemy are more than 500 ms apart. */
  lemma SearchesAreSpaced(a: Arena, b: Arena, en: Enemy, t1: int, t2: int, bA: bool)
    requires SearchDue(a, en, t1, bA)
    requires SearchDue(b, en.(nextSearch := t1 + SearchInterval), t2, bA)
    ensures t2 > t1 + SearchInterval
  {
  }

  /** A new tower enters the table under an id no unit refers to yet, with no lock either way. */
  function JoinTower(a: Arena, id: TowerId, tw: Tower): (r: Arena)
    requires Closed(a) && id !in a.towers && tw.target == None && tw.attackers == {}
    ensures r == a.(towers := a.towers[id := tw]) && Closed(r)
  {
    a.(towers := a.towers[id := tw])
  }

  /** A new tower keeps the links two-way and every slot cap. */
  lemma JoinTowerKeepsInvariants(a: Arena, id: TowerId, tw: Tower)
    requires Closed(a) && id !in a.towers && tw.target == None && tw.attackers == {}
    ensures Linked(a) ==> Linked(JoinTower(a, id, tw))
    ensures SlotsRespected(a) ==> SlotsRespected(JoinTower(a, id, tw))
  {
    assert forall e :: e in a.enemies ==> id !in a.enemies[e].targetedBy;
  }

  /** A new enemy enters the table under an id no unit refers to yet, with no lock either way. */
  function JoinEnemy(a: Arena, id: EnemyId, en: Enemy): (r: Arena)
    requires Closed(a) && id !in a.enemies && en.target == None && en.targetedBy == {}
    ensures r == a.(enemies := a.enemies[id := en]) && Closed(r)
  {
    a.(enemies := a.enemies[id := en])
  }

  /** A new enemy keeps the links two-way and every slot cap. */
  lemma JoinEnemyKeepsInvariants(a: Arena, id: EnemyId, en: Enemy)
    requires Closed(a) && id !in a.enemies && en.target == None && en.targetedBy == {}
    ensures Linked(a) ==> Linked(JoinEnemy(a, id, en))
    ensures SlotsRespected(a) ==> SlotsRespected(JoinEnemy(a, id, en))
  {
    assert forall t :: t in a.towers ==> id !in a.towers[t].attackers;
    assert id !in a.organ.attackers;
  }
}
