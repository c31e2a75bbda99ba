/**
 * The game scene (src/game/scenes/GameScene.ts) as a class whose fields the
 * handlers update in place: the tables of towers and enemies, the organ, the
 * display groups, the target list, the projectile pool, player health and
 * resources, the tower selection, and the log of emitted events. The methods
 * of the entity classes that change more than their own object (locks,
 * `onDestroy`, `receiveDamage`, `update`) are methods of the scene here,
 * taking the unit's id; each is proved to produce the arena state that the
 * pure rules of the Links, Cascade, Combat and Targeting modules give.
 */
module Scene {
  import opened Wrappers
  import opened Geometry
  import opened Entity
  import opened Units
  import opened Organs
  import opened Arenas
  import opened Projectiles
  import L = Links
  import C = Cascade
  import T = Targeting
  import K = Combat
  import P = Placement
  import opened Behaviour
  import W = Waves

  /** The events the scene emits that the combat rules produce or consume. */
  datatype GameEvent =
    | PlayerHealthChanged(health: int)
    | GameOver
    | ShowGameOver
    | ResourcesChanged(resources: int)
    | EnemyDefeated(reward: int)
    | EnemyReachedGoal(reward: int)
    | OrganUpgraded(level: int, hp: int, maxHp: int, resourceGen: int)
    | OrganDamaged(hp: int, maxHp: int, damage: int)
    | OrganDestroyed
    | ResourceGenerated(amount: int)

  /** What the scene's own listeners do, synchronously, when an event is emitted: the new
      resources, whether the scene pauses, and the events they emit in turn. */
  function Heard(ev: GameEvent, resources: int): (r: (int, bool, seq<GameEvent>))
    ensures ev.EnemyDefeated? ==> r == (resources + ev.reward, false, [ResourcesChanged(resources + ev.reward)])
    ensures ev.ResourceGenerated? ==> r == (resources + ev.amount, false, [ResourcesChanged(resources + ev.amount)])
    ensures ev.GameOver? ==> r == (resources, true, [ShowGameOver])
    ensures !(ev.EnemyDefeated? || ev.ResourceGenerated? || ev.GameOver?) ==> r == (resources, false, [])
  {
    match ev
    case EnemyDefeated(reward) => (resources + reward, false, [ResourcesChanged(resources + reward)])
    case ResourceGenerated(amount) => (resources + amount, false, [ResourcesChanged(resources + amount)])
    case GameOver => (resources, true, [ShowGameOver])
    case _ => (resources, false, [])
  }

  /** The group with one member taken out, as Phaser's destroy() does. */
  function Without(s: seq<nat>, x: nat): (r: seq<nat>)
    ensures forall y :: y in r <==> y in s && y != x
    ensures |r| <= |s|
  {
    if s == [] then []
    else if s[0] == x then Without(s[1..], x)
    else [s[0]] + Without(s[1..], x)
  }

  /** The events `Enemy.onDestroy` leads to through the scene's listener: 'enemyDefeated' and
      the new total, only for an enemy that still has hit points. */
  function DefeatNews(en: Enemy, resources: int): (r: seq<GameEvent>)
    ensures r == [] <==> en.body.hp <= 0
    ensures r != [] ==> r == [EnemyDefeated(en.config.reward), ResourcesChanged(resources + en.config.reward)]
  {
    if en.body.hp > 0 then [EnemyDefeated(en.config.reward), ResourcesChanged(resources + en.config.reward)] else []
  }

  /** The pool after a draw from it that handed out q: unchanged, with q at the first dead
      index, when there was one; otherwise q appended at the end. */
  predicate Drawn(first: Option<nat>, before: seq<Projectile>, after: seq<Projectile>, q: Projectile)
  {
    (first.Some? ==> after == before && first.value < |after| && q == after[first.value])
    && (first.None? ==> after == before + [q])
  }

  /** q is in flight with the arguments of the shot sh, fired from `from` along `heading`. */
  predicate Carries(q: Projectile, sh: Shot, from: Pos, heading: Pos)
    reads q
  {
    q.active && q.target == Some(sh.aim) && q.GetDamage() == sh.damage && q.speed == sh.speed
    && q.isEnemyProjectile == sh.isEnemy && q.maxRange == RangeLimit(sh.range) && q.origin == from
    && q.velocity == heading
  }

  /** The index `getFirstDead(false)` finds: the first projectile in the pool that is not active. */
  function FirstDeadIn(ps: seq<Projectile>): (r: Option<nat>)
    reads set q | q in ps
    ensures r.None? <==> forall i :: 0 <= i < |ps| ==> ps[i].active
    ensures r.Some? ==> r.value < |ps| && !ps[r.value].active
    ensures r.Some? ==> forall i :: 0 <= i < r.value ==> ps[i].active
    decreases |ps|
  {
    if ps == [] then None
    else if !ps[0].active then Some(0)
    else match FirstDeadIn(ps[1..])
      case None => None
      case Some(k) => Some(k + 1)
  }

  /** `damagePlayer(damage)` on values: the new health, clamped at zero, and the events the scene
      then sees: 'playerHealthChanged', and at zero 'gameOver' with the 'showGameOver' its
      listener emits. */
  function Harm(health: int, damage: int): (r: (int, seq<GameEvent>))
    ensures r.0 == Max(0, health - damage) && r.0 >= 0
    ensures r.0 == 0 <==> r.1 == [PlayerHealthChanged(0), GameOver, ShowGameOver]
    ensures r.0 > 0 <==> r.1 == [PlayerHealthChanged(r.0)]
  {
    var h := Max(0, health - damage);
    (h, if h <= 0 then [PlayerHealthChanged(h), GameOver, ShowGameOver] else [PlayerHealthChanged(h)])
  }

  /** Once health is zero, every further hit announces the game's end again. */
  lemma GameOverRepeats(health: int, damage: int)
    requires health <= 0 && damage >= 0
    ensures Harm(health, damage) == (0, [PlayerHealthChanged(0), GameOver, ShowGameOver])
  {
  }

  class GameScene {
    var towers: map<TowerId, Tower>
    var enemies: map<EnemyId, Enemy>
    var organ: Organ
    /** The members of the towers and enemies groups, in the order they were added. */
    var towerGroup: seq<TowerId>
    var enemyGroup: seq<EnemyId>
    /** The tower part of `allTargets` as of the last `updateAllTargets`; the organ follows it. */
    var allTargets: seq<TowerId>
    /** The next unused id; the source's object identities. */
    var nextId: nat
    var pool: seq<Projectile>
    var playerHealth: int
    var playerResources: int
    var selectedTowerType: Option<string>
    var events: seq<GameEvent>
    var paused: bool
    const width: int
    const height: int
    const gameWidth: int
    const gameStartTime: int
    const towerCatalogue: map<string, TowerConfig>
    const enemyCatalogue: map<string, EnemyConfig>
    const boundaryLine: Option<BoundaryLine>

    function Snapshot(): Arena
      reads this`towers, this`enemies, this`organ
    {
      Arena(towers, enemies, organ)
    }

    /** The scene's representation invariant: no dangling id, groups and target list drawn
        from the tables, ids below nextId, a pool of distinct projectiles. */
    ghost predicate Valid()
      reads this`towers, this`enemies, this`organ, this`towerGroup, this`enemyGroup, this`allTargets
      reads this`nextId, this`pool
    {
      Closed(Snapshot())
      && (forall t :: t in towerGroup ==> t in towers)
      && (forall t :: t in allTargets ==> t in towers)
      && (forall e :: e in enemyGroup ==> e in enemies)
      && (forall t :: t in towers ==> t < nextId)
      && (forall e :: e in enemies ==> e < nextId)
      && (forall i, j :: 0 <= i < j < |pool| ==> pool[i] != pool[j])
    }

    /** `create()`: the game area is the left three quarters of the screen, the organ stands 180
        left of its edge at mid-height, nothing else is on the field, and the target list holds
        only the organ. */
    constructor (width: int, height: int, now: int, initialHealth: int, initialResources: int,
                 towerCatalogue: map<string, TowerConfig>, enemyCatalogue: map<string, EnemyConfig>,
                 organConfig: OrganConfig, boundaryLine: Option<BoundaryLine>)
      requires width % 4 == 0 && height % 2 == 0
      ensures Valid()
      ensures this.width == width && this.height == height && gameWidth * 4 == width * 3
      ensures organ == NewOrgan(Pos(gameWidth - 180, height / 2), organConfig)
      ensures towers == map[] && enemies == map[] && towerGroup == [] && enemyGroup == [] && allTargets == []
      ensures pool == [] && events == [] && !paused && selectedTowerType == None
      ensures playerHealth == initialHealth && playerResources == initialResources && gameStartTime == now
      ensures this.towerCatalogue == towerCatalogue && this.enemyCatalogue == enemyCatalogue
      ensures this.boundaryLine == boundaryLine
    {
      this.width := width;
      this.height := height;
      gameWidth := width / 4 * 3;
      gameStartTime := now;
      this.towerCatalogue := towerCatalogue;
      this.enemyCatalogue := enemyCatalogue;
      this.boundaryLine := boundaryLine;
      playerHealth := initialHealth;
      playerResources := initialResources;
      towers := map[];
      enemies := map[];
      organ := NewOrgan(Pos(width / 4 * 3 - 180, height / 2), organConfig);
      towerGroup := [];
      enemyGroup := [];
      allTargets := [];
      nextId := 0;
      pool := [];
      selectedTowerType := None;
      events := [];
      paused := false;
    }

    /** `this.events.emit(ev)`, running the scene's listeners: 'enemyDefeated' and
        'resourceGenerated' credit the player and announce the new total, 'gameOver' pauses the
        scene and asks for the game-over screen. */
    method Emit(ev: GameEvent)
      modifies this`events, this`playerResources, this`paused
      ensures var h := Heard(ev, old(playerResources));
        playerResources == h.0 && paused == (old(paused) || h.1) && events == old(events) + [ev] + h.2
    {
      var h := Heard(ev, playerResources);
      events := events + [ev] + h.2;
      playerResources := h.0;
      if h.1 {
        paused := true;
      }
    }

    // ---- locks ----

    /** `Tower.clearTarget()` */
    method TowerClearTarget(t: TowerId)
      requires Valid() && t in towers
      modifies this`towers, this`enemies
      ensures Valid() && Snapshot() == L.TowerClearTarget(old(Snapshot()), t)
    {
      L.TowerClearTargetKeepsClosed(Snapshot(), t);
      var r := L.TowerClearTarget(Snapshot(), t);
      towers, enemies := r.towers, r.enemies;
    }

    /** `Enemy.clearTarget()` */
    method EnemyClearTarget(e: EnemyId)
      requires Valid() && e in enemies
      modifies this`towers, this`enemies, this`organ
      ensures Valid() && Snapshot() == L.EnemyClearTarget(old(Snapshot()), e)
    {
      L.EnemyClearTargetKeepsClosed(Snapshot(), e);
      var r := L.EnemyClearTarget(Snapshot(), e);
      towers, enemies, organ := r.towers, r.enemies, r.organ;
    }

    /** `Enemy.setTarget(target)` */
    method EnemySetTarget(e: EnemyId, g: EnemyTarget)
      requires Valid() && e in enemies && L.IsDefender(Snapshot(), g)
      modifies this`towers, this`enemies, this`organ
      ensures Valid() && Snapshot() == L.EnemySetTarget(old(Snapshot()), e, g)
    {
      L.EnemySetTargetKeepsClosed(Snapshot(), e, g);
      var r := L.EnemySetTarget(Snapshot(), e, g);
      towers, enemies, organ := r.towers, r.enemies, r.organ;
    }

    /** `attackers.forEach(enemy => { if (enemy.active) enemy.clearTarget(); })`, over the set as
        it was when the walk began. */
    method ReleaseAttackers(d: set<EnemyId>)
      requires Valid() && d <= enemies.Keys
      modifies this`towers, this`enemies, this`organ
      ensures Valid() && Snapshot() == C.ReleaseAttackers(old(Snapshot()), d)
    {
      ghost var a0 := Snapshot();
      C.ReleaseNoAttackers(a0);
      var remaining := d;
      assert d - remaining == {};
      while remaining != {}
        invariant remaining <= d
        invariant Valid() && Snapshot() == C.ReleaseAttackers(a0, d - remaining)
        decreases remaining
      {
        var e :| e in remaining;
        C.ReleaseAttackersStep(a0, d - remaining, e);
        assert (d - remaining) + {e} == d - (remaining - {e});
        if enemies[e].body.active {
          EnemyClearTarget(e);
        }
        remaining := remaining - {e};
      }
      assert d - remaining == d;
    }

    /** `targetedBy.forEach(tower => { if (tower.active) tower.clearTarget(); })` */
    method ReleaseLockers(d: set<TowerId>)
      requires Valid() && d <= towers.Keys
      modifies this`towers, this`enemies
      ensures Valid() && Snapshot() == C.ReleaseLockers(old(Snapshot()), d)
    {
      ghost var a0 := Snapshot();
      C.ReleaseNoLockers(a0);
      var remaining := d;
      assert d - remaining == {};
      while remaining != {}
        invariant remaining <= d
        invariant Valid() && Snapshot() == C.ReleaseLockers(a0, d - remaining)
        decreases remaining
      {
        var t :| t in remaining;
        C.ReleaseLockersStep(a0, d - remaining, t);
        assert (d - remaining) + {t} == d - (remaining - {t});
        if towers[t].body.active {
          TowerClearTarget(t);
        }
        remaining := remaining - {t};
      }
      assert d - remaining == d;
    }
  
    // ---- deaths ----

    /** `Tower.onDestroy` and the Phaser `destroy()` it ends with: the tower drops its lock, every
        active attacker drops its lock on the tower, and the tower leaves the scene and its group. */
    method TowerOnDestroy(t: TowerId)
      requires Valid() && t in towers
      modifies this`towers, this`enemies, this`organ, this`towerGroup
      ensures Valid() && Snapshot() == C.TowerDeath(old(Snapshot()), t)
      ensures towerGroup == Without(old(towerGroup), t)
    {
      TowerClearTarget(t);
      ReleaseAttackers(towers[t].attackers);
      C.DestroyTowerKeepsLinks(Snapshot(), t);
      towers := C.DestroyTower(Snapshot(), t).towers;
      towerGroup := Without(towerGroup, t);
    }

    /** The lock part of `Enemy.onDestroy`: `clearTarget()`, then the walk over `targetedBy`. */
    method EnemyUnlock(e: EnemyId)
      requires Valid() && e in enemies
      modifies this`towers, this`enemies, this`organ
      ensures Valid() && Snapshot() == C.EnemyDeath(old(Snapshot()), e)
    {
      EnemyClearTarget(e);
      ReleaseLockers(enemies[e].targetedBy);
    }

    /** `Enemy.onDestroy`: the enemy drops its lock, every active tower locked on it drops that
        lock, and 'enemyDefeated' with the reward is emitted only while the enemy has hit points.
        The death animation follows; its end is `EnemyDestroyEntity`. */
    method EnemyOnDestroy(e: EnemyId)
      requires Valid() && e in enemies
      modifies this`towers, this`enemies, this`organ, this`events, this`playerResources, this`paused
      ensures Valid() && Snapshot() == C.EnemyDeath(old(Snapshot()), e)
      ensures events == old(events) + DefeatNews(old(enemies[e]), old(playerResources))
      ensures playerResources == old(playerResources) + K.DefeatReward(old(enemies[e]))
      ensures paused == old(paused)
    {
      var en := enemies[e];
      EnemyUnlock(e);
      PayDefeat(en);
    }

    /** The 'enemyDefeated' emission of `Enemy.onDestroy`, which the scene answers by crediting
        the reward: only an enemy that still has hit points pays. */
    method PayDefeat(en: Enemy)
      modifies this`events, this`playerResources, this`paused
      ensures events == old(events) + DefeatNews(en, old(playerResources))
      ensures playerResources == old(playerResources) + K.DefeatReward(en)
      ensures paused == old(paused)
    {
      if en.body.hp > 0 {
        Emit(EnemyDefeated(en.config.reward));
      }
    }

    /** `destroyEntity()` at the end of the death animation: the enemy leaves the scene and the
        enemies group. */
    method EnemyDestroyEntity(e: EnemyId)
      requires Valid() && e in enemies
      modifies this`enemies, this`enemyGroup
      ensures Valid()
      ensures enemies == old(enemies)[e := old(enemies[e]).(body := old(enemies[e]).body.(active := false))]
      ensures enemyGroup == Without(old(enemyGroup), e)
    {
      var a := K.WithEnemyBody(Snapshot(), e, enemies[e].body.(active := false));
      enemies := a.enemies;
      enemyGroup := Without(enemyGroup, e);
    }

    // ---- hits ----

    /** `Tower.receiveDamage(d)`: ignored by a tower already inactive or dead; otherwise the hit
        points drop, clamped at zero, and at zero the tower dies. */
    method TowerReceiveDamage(t: TowerId, d: int)
      requires Valid() && t in towers
      modifies this`towers, this`enemies, this`organ, this`towerGroup
      ensures Valid() && Snapshot() == K.DamageTower(old(Snapshot()), t, d)
      ensures towerGroup == if Kills(old(towers[t].body), d) then Without(old(towerGroup), t) else old(towerGroup)
    {
      if IgnoresDamage(towers[t].body) {
        K.DeadTowerIgnoresHits(Snapshot(), t, d);
        return;
      }
      var b := ReceiveDamage(towers[t].body, d);
      towers := K.WithTowerBody(Snapshot(), t, b).towers;
      if b.hp <= 0 {
        TowerOnDestroy(t);
      }
    }

    /** `Enemy.receiveDamage(d)`: the same guard and clamp; at zero `Enemy.onDestroy` runs, which
        then pays no reward. */
    method EnemyReceiveDamage(e: EnemyId, d: int)
      requires Valid() && e in enemies
      modifies this`towers, this`enemies, this`organ, this`events, this`playerResources, this`paused
      ensures Valid() && Snapshot() == K.DamageEnemy(old(Snapshot()), e, d)
      ensures events == old(events) && playerResources == old(playerResources) && paused == old(paused)
    {
      if IgnoresDamage(enemies[e].body) {
        K.DeadEnemyIgnoresHits(Snapshot(), e, d);
        return;
      }
      var b := ReceiveDamage(enemies[e].body, d);
      enemies := K.WithEnemyBody(Snapshot(), e, b).enemies;
      if b.hp <= 0 {
        EnemyOnDestroy(e);
      }
    }

    /** `ImmuneOrgan.receiveDamage(d)`: no guard at all; 'organDamaged' is always emitted, and at
        zero hit points the organ turns invisible, 'organDestroyed' is emitted and every active
        attacker drops its lock, on every such hit. */
    method OrganReceiveDamage(d: int)
      requires Valid()
      modifies this`towers, this`enemies, this`organ, this`events
      ensures Valid() && Snapshot() == K.DamageOrganArena(old(Snapshot()), d)
      ensures var o := DamageOrgan(old(organ), d);
        events == old(events) + [OrganDamaged(o.hp, o.maxHp, d)] + (if o.hp <= 0 then [OrganDestroyed] else [])
    {
      ClosedFrame(Snapshot(), Snapshot().(organ := DamageOrgan(organ, d)));
      organ := DamageOrgan(organ, d);
      events := events + [OrganDamaged(organ.hp, organ.maxHp, d)];
      if organ.hp <= 0 {
        events := events + [OrganDestroyed];
        ReleaseAttackers(organ.attackers);
      }
    }
  
    // ---- the projectile pool ----

    /** The search `getFirstDead(false)` performs over the pool. */
    method FirstDead() returns (r: Option<nat>)
      ensures r == FirstDeadIn(pool)
      ensures r.Some? ==> r.value < |pool| && !pool[r.value].active
    {
      var i := 0;
      while i < |pool|
        invariant 0 <= i <= |pool|
        invariant forall j :: 0 <= j < i ==> pool[j].active
      {
        if !pool[i].active {
          return Some(i);
        }
        i := i + 1;
      }
      return None;
    }

    /** `getProjectileFromPool(x, y)`: the first inactive projectile is moved to (x, y), made
        active and visible and stopped; when there is none, a new projectile is built there and
        added to the pool, and it stays inactive, as its constructor leaves it. */
    method GetProjectileFromPool(p: Pos) returns (q: Projectile)
      requires Valid()
      modifies this`pool, pool
      ensures Valid() && q in pool && q.pos == p
      ensures old(FirstDeadIn(pool)).Some? ==>
        pool == old(pool) && q == pool[old(FirstDeadIn(pool)).value]
        && q.active && q.visible && q.velocity == Pos(0, 0)
      ensures old(FirstDeadIn(pool)).None? ==>
        fresh(q) && pool == old(pool) + [q] && !q.active && !q.visible
      ensures forall r :: r in old(pool) && r != q ==> unchanged(r)
    {
      var k := FirstDead();
      if k.None? {
        q := new Projectile(p);
        pool := pool + [q];
      } else {
        q := pool[k.value];
        q.SetPosition(p);
        q.active := true;
        q.visible := true;
        q.velocity := Pos(0, 0);
      }
    }

    // ---- collision handlers ----

    /** The overlap of a projectile with an enemy: the filter of `setupPhysics` (a tower's shot,
        still active, on a live enemy) and then `handleProjectileHit` (both active): the enemy
        takes the shot's damage and the shot is recycled. */
    method OnTowerShotHit(q: Projectile, e: EnemyId) returns (hit: bool)
      requires Valid() && e in enemies
      modifies this`towers, this`enemies, this`organ, this`events, this`playerResources, this`paused, q
      ensures hit <==> old(!q.isEnemyProjectile && q.active && IsAlive(enemies[e].body) && enemies[e].body.active)
      ensures Valid()
      ensures hit ==> Snapshot() == K.DamageEnemy(old(Snapshot()), e, old(q.damage)) && q.Recycled()
      ensures !hit ==> Snapshot() == old(Snapshot()) && unchanged(q)
      ensures events == old(events) && playerResources == old(playerResources) && paused == old(paused)
    {
      hit := !q.isEnemyProjectile && q.active && IsAlive(enemies[e].body) && enemies[e].body.active;
      if hit {
        EnemyReceiveDamage(e, q.GetDamage());
        q.Recycle();
      }
    }

    /** An enemy shot overlapping a tower: the filter (an enemy shot, both active) and
        `handleEnemyProjectileHit`: the tower takes the damage and the shot is recycled. */
    method OnEnemyShotHitTower(q: Projectile, t: TowerId) returns (hit: bool)
      requires Valid() && t in towers
      modifies this`towers, this`enemies, this`organ, this`towerGroup, q
      ensures hit <==> old(q.isEnemyProjectile && q.active && towers[t].body.active)
      ensures Valid()
      ensures hit ==> Snapshot() == K.DamageTower(old(Snapshot()), t, old(q.damage)) && q.Recycled()
      ensures hit ==> towerGroup == if Kills(old(towers[t].body), old(q.damage)) then Without(old(towerGroup), t) else old(towerGroup)
      ensures !hit ==> Snapshot() == old(Snapshot()) && unchanged(q) && towerGroup == old(towerGroup)
    {
      hit := q.isEnemyProjectile && q.active && towers[t].body.active;
      if hit {
        TowerReceiveDamage(t, q.GetDamage());
        q.Recycle();
      }
    }

    /** An enemy shot overlapping the immune organ: the same filter and handler, with the organ's
        own `receiveDamage`. Arcade physics reports no overlap once the organ's body has been
        disabled at zero hit points, so a fallen organ is never hit. */
    method OnEnemyShotHitOrgan(q: Projectile) returns (hit: bool)
      requires Valid()
      modifies this`towers, this`enemies, this`organ, this`events, q
      ensures hit <==> old(q.isEnemyProjectile && q.active && Reachable(organ))
      ensures Valid()
      ensures old(q.isEnemyProjectile && q.active) ==> Snapshot() == K.OrganShot(old(Snapshot()), old(q.damage))
      ensures hit ==> Snapshot() == K.DamageOrganArena(old(Snapshot()), old(q.damage)) && q.Recycled()
      ensures hit ==> var o := DamageOrgan(old(organ), old(q.damage));
        events == old(events) + [OrganDamaged(o.hp, o.maxHp, old(q.damage))] + (if o.hp <= 0 then [OrganDestroyed] else [])
      ensures !hit ==> Snapshot() == old(Snapshot()) && unchanged(q) && events == old(events)
    {
      hit := q.isEnemyProjectile && q.active && Reachable(organ);
      if hit {
        OrganReceiveDamage(q.GetDamage());
        q.Recycle();
      }
    }

    /** `damagePlayer(damage)`: health drops, clamped at zero, 'playerHealthChanged' is emitted,
        and at zero 'gameOver', whose listener pauses the scene. */
    method DamagePlayer(damage: int)
      modifies this`playerHealth, this`events, this`playerResources, this`paused
      ensures (playerHealth, events) == (Harm(old(playerHealth), damage).0, old(events) + Harm(old(playerHealth), damage).1)
      ensures paused == (old(paused) || playerHealth <= 0)
      ensures playerResources == old(playerResources)
    {
      playerHealth := Max(0, playerHealth - damage);
      Emit(PlayerHealthChanged(playerHealth));
      assert events == old(events) + [PlayerHealthChanged(playerHealth)];
      if playerHealth <= 0 {
        Emit(GameOver);
        assert events == old(events) + [PlayerHealthChanged(0), GameOver, ShowGameOver];
      }
    }
  
    // ---- target search ----

    /** The search loop of `findTarget` over `getAllTargets()`: the running minimum over the open
        candidates, replaced only by a strictly closer one. */
    method NearestTarget(p: Pos) returns (r: Option<nat>)
      requires Valid()
      ensures T.AllDefenders(Snapshot(), T.Candidates(allTargets))
      ensures r == T.Nearest(Snapshot(), p, T.Candidates(allTargets), |allTargets| + 1)
    {
      T.ListedTowersAreDefenders(Snapshot(), allTargets);
      var cs := T.Candidates(allTargets);
      r := None;
      var best := 0;
      var i := 0;
      while i < |cs|
        invariant 0 <= i <= |cs|
        invariant r == T.Nearest(Snapshot(), p, cs, i)
        invariant r.Some? ==> best == T.Dist(Snapshot(), p, cs, r.value)
      {
        if T.Open(Snapshot(), cs[i]) {
          var d := DistSq(p, T.PosOf(Snapshot(), cs[i]));
          if r.None? || d < best {
            r := Some(i);
            best := d;
          }
        }
        i := i + 1;
      }
    }

    /** `Enemy.findTarget()`: the nearest open candidate, else an active organ. */
    method FindTarget(e: EnemyId)
      requires Valid() && e in enemies
      modifies this`towers, this`enemies, this`organ
      ensures Valid() && T.AllDefenders(old(Snapshot()), T.Candidates(allTargets))
      ensures Snapshot() == T.FindTarget(old(Snapshot()), e, allTargets)
    {
      var k := NearestTarget(enemies[e].pos);
      var cs := T.Candidates(allTargets);
      if k.Some? {
        EnemySetTarget(e, cs[k.value]);
      } else if organ.active {
        EnemySetTarget(e, AtOrgan);
      }
    }

    /** `notifyNearbyEnemiesOfNewTower(tower)`: in group order, every active enemy strictly
        within 200 of the new tower searches again. */
    method NotifyNearby(spot: Pos)
      requires Valid()
      modifies this`towers, this`enemies, this`organ
      ensures Valid() && T.AllDefenders(old(Snapshot()), T.Candidates(allTargets))
      ensures Snapshot() == T.NotifyNearby(old(Snapshot()), enemyGroup, spot, allTargets)
    {
      ghost var a0 := Snapshot();
      T.ListedTowersAreDefenders(a0, allTargets);
      var i := 0;
      while i < |enemyGroup|
        invariant 0 <= i <= |enemyGroup|
        invariant Valid() && Snapshot() == T.NotifyNearby(a0, enemyGroup[..i], spot, allTargets)
      {
        var e := enemyGroup[i];
        T.NotifyNearbyStep(a0, enemyGroup, i, spot, allTargets);
        if enemies[e].body.active && DistSq(enemies[e].pos, spot) < T.SensingRadius * T.SensingRadius {
          FindTarget(e);
        }
        i := i + 1;
      }
      assert enemyGroup[..|enemyGroup|] == enemyGroup;
    }
  
    // ---- placement ----

    /** `onSelectTower(type)`: any name is kept; it is looked up only when the player clicks. */
    method OnSelectTower(name: string)
      modifies this`selectedTowerType
      ensures selectedTowerType == Some(name)
    {
      selectedTowerType := Some(name);
    }

    /** `updateAllTargets()`: the target list becomes the towers group, followed by the organ. */
    method UpdateAllTargets()
      requires Valid()
      modifies this`allTargets
      ensures Valid() && allTargets == towerGroup
    {
      allTargets := towerGroup;
    }

    /** `new Tower(this, x, y, config)`: a fresh tower with no lock either way, under the next id. */
    method NewTowerAt(p: Pos, c: TowerConfig) returns (id: TowerId)
      requires Valid()
      modifies this`towers, this`nextId
      ensures Valid() && id == old(nextId) && nextId == id + 1
      ensures Snapshot() == K.JoinTower(old(Snapshot()), id, NewTower(p, c))
    {
      id := nextId;
      towers := K.JoinTower(Snapshot(), id, NewTower(p, c)).towers;
      nextId := nextId + 1;
    }

    /** `new Tower(this, x, y, config)` and `this.towers.add(tower)`. */
    method AddTower(p: Pos, c: TowerConfig) returns (id: TowerId)
      requires Valid()
      modifies this`towers, this`towerGroup, this`nextId
      ensures Valid() && id == old(nextId) && nextId == id + 1
      ensures Snapshot() == K.JoinTower(old(Snapshot()), id, NewTower(p, c))
      ensures towerGroup == old(towerGroup) + [id]
    {
      id := NewTowerAt(p, c);
      towerGroup := towerGroup + [id];
    }

    /** `deployedTowers.forEach(tower => this.notifyNearbyEnemiesOfNewTower(tower))` */
    method NotifyEach(spots: seq<Pos>)
      requires Valid()
      modifies this`towers, this`enemies, this`organ
      ensures Valid() && T.AllDefenders(old(Snapshot()), T.Candidates(allTargets))
      ensures Snapshot() == P.NotifyAll(old(Snapshot()), enemyGroup, spots, allTargets)
    {
      ghost var a0 := Snapshot();
      T.ListedTowersAreDefenders(a0, allTargets);
      var j := 0;
      while j < |spots|
        invariant 0 <= j <= |spots|
        invariant Valid() && Snapshot() == P.NotifyAll(a0, enemyGroup, spots[..j], allTargets)
      {
        P.NotifyAllStep(a0, enemyGroup, spots, j, allTargets);
        NotifyNearby(spots[j]);
        j := j + 1;
      }
      assert spots[..|spots|] == spots;
    }

    /** `deploySingleTower(x, y, config)`: one tower where the player clicked, with no bounds
        check; the target list is rebuilt and the enemies near it search again. */
    method DeploySingleTower(p: Pos, c: TowerConfig)
      requires Valid()
      modifies this`towers, this`enemies, this`organ, this`towerGroup, this`nextId, this`allTargets
      ensures Valid() && nextId == old(nextId) + 1
      ensures towerGroup == old(towerGroup) + [old(nextId)] && allTargets == towerGroup
      ensures Snapshot() == P.Deploy(old(Snapshot()), old(nextId), [p], c, enemyGroup, allTargets)
    {
      ghost var a0, first := Snapshot(), nextId;
      var id := AddTower(p, c);
      UpdateAllTargets();
      P.DeployOne(a0, first, p, c, enemyGroup, allTargets);
      NotifyNearby(p);
    }

    /** One tower of a formation: it joins after the ones already built. */
    method NewFormationTower(q: Pos, c: TowerConfig, ghost a0: Arena, ghost first: nat, ghost spots: seq<Pos>)
      returns (id: TowerId)
      requires Valid() && Closed(a0) && forall k :: k in a0.towers ==> k < first
      requires Snapshot() == P.Joined(a0, first, spots, c) && nextId == first + |spots|
      modifies this`towers, this`nextId
      ensures Valid() && id == old(nextId) && nextId == id + 1
      ensures Snapshot() == P.Joined(a0, first, spots + [q], c)
    {
      P.JoinedStep(a0, first, spots, q, c);
      id := NewTowerAt(q, c);
    }

    /** The loop of `deployMultipleTowers`: the formation's positions in order, each built
        unless it fails the bounds check; returns the positions used. The towers built are the
        ones under the ids from the old `nextId` on. */
    method PlaceFormation(center: Pos, c: TowerConfig, count: int, ringOffset: (nat, int) -> Pos)
      returns (spots: seq<Pos>)
      requires Valid()
      modifies this`towers, this`nextId
      ensures Valid() && spots == P.FieldSpots(P.Formation(center, count, ringOffset), gameWidth, height)
      ensures nextId == old(nextId) + |spots|
      ensures Snapshot() == P.Joined(old(Snapshot()), old(nextId), spots, c)
    {
      ghost var a0, first := Snapshot(), nextId;
      ghost var ps := P.Formation(center, count, ringOffset);
      spots := [];
      var i := 0;
      while i < count
        invariant 0 <= i <= |ps|
        invariant spots == P.FieldSpots(ps[..i], gameWidth, height)
        invariant Closed(a0) && forall k :: k in a0.towers ==> k < first
        invariant Valid() && nextId == first + |spots|
        invariant Snapshot() == P.Joined(a0, first, spots, c)
      {
        var q := P.FormationSpot(center, count, i, ringOffset);
        P.FieldSpotsStep(ps, i, gameWidth, height);
        if P.InField(q, gameWidth, height) {
          var id := NewFormationTower(q, c, a0, first, spots);
          spots := spots + [q];
        }
        i := i + 1;
      }
      assert ps[..i] == ps;
    }

    /** `deployMultipleTowers(x, y, config, count)`: the formation is built and its towers join
        the towers group (nothing reads the group inside the loop, so they join it together, in
        the order they were built), the target list is rebuilt, and the enemies near each placed
        tower search again. */
    method DeployMultipleTowers(center: Pos, c: TowerConfig, count: int, ringOffset: (nat, int) -> Pos)
      requires Valid()
      modifies this`towers, this`enemies, this`organ, this`towerGroup, this`nextId, this`allTargets
      ensures Valid()
      ensures var spots := P.FieldSpots(P.Formation(center, count, ringOffset), gameWidth, height);
        nextId == old(nextId) + |spots| && towerGroup == old(towerGroup) + P.Ids(old(nextId), |spots|)
        && allTargets == towerGroup
        && Snapshot() == P.Deploy(old(Snapshot()), old(nextId), spots, c, enemyGroup, allTargets)
    {
      ghost var a0 := Snapshot();
      var first := nextId;
      var spots := PlaceFormation(center, c, count, ringOffset);
      P.IdsMembers(first, |spots|);
      P.JoinedContents(a0, first, spots, c);
      towerGroup := towerGroup + P.Ids(first, |spots|);
      UpdateAllTargets();
      NotifyEach(spots);
    }

    /** `placeTower(x, y, type)`: nothing for a name without configuration; otherwise a count
        of one deploys a single tower and any other count a formation. */
    method PlaceTower(p: Pos, name: string, ringOffset: (nat, int) -> Pos)
      requires Valid()
      modifies this`towers, this`enemies, this`organ, this`towerGroup, this`nextId, this`allTargets
      ensures Valid()
      ensures name !in towerCatalogue ==>
        Snapshot() == old(Snapshot()) && nextId == old(nextId) && towerGroup == old(towerGroup) && allTargets == old(allTargets)
      ensures name in towerCatalogue ==>
        var spots := P.PlacedSpots(p, towerCatalogue[name], gameWidth, height, ringOffset);
        nextId == old(nextId) + |spots| && towerGroup == old(towerGroup) + P.Ids(old(nextId), |spots|)
        && allTargets == towerGroup
        && Snapshot() == P.Deploy(old(Snapshot()), old(nextId), spots, towerCatalogue[name], enemyGroup, allTargets)
    {
      if name !in towerCatalogue {
        return;
      }
      var c := towerCatalogue[name];
      var n := P.DeployCount(c);
      if n == 1 {
        assert P.Ids(nextId, 1) == [nextId];
        DeploySingleTower(p, c);
      } else {
        DeployMultipleTowers(p, c, n, ringOffset);
      }
    }

    /** The purchase in `handlePlacement`: `placeTower`, then the cost is deducted (in full,
        however many towers the bounds check let through) and the new total announced. */
    method BuyTowers(p: Pos, name: string, ringOffset: (nat, int) -> Pos)
      requires Valid() && name in towerCatalogue
      modifies this`towers, this`enemies, this`organ, this`towerGroup, this`nextId, this`allTargets
      modifies this`playerResources, this`events, this`paused
      ensures Valid() && paused == old(paused)
      ensures var c := towerCatalogue[name];
        var spots := P.PlacedSpots(p, c, gameWidth, height, ringOffset);
        nextId == old(nextId) + |spots| && towerGroup == old(towerGroup) + P.Ids(old(nextId), |spots|)
        && allTargets == towerGroup
        && Snapshot() == P.Deploy(old(Snapshot()), old(nextId), spots, c, enemyGroup, allTargets)
        && playerResources == old(playerResources) - c.cost
        && events == old(events) + [ResourcesChanged(playerResources)]
    {
      PlaceTower(p, name, ringOffset);
      playerResources := playerResources - towerCatalogue[name].cost;
      Emit(ResourcesChanged(playerResources));
    }

    /** `handlePlacement`: a click right of the game area drops the selection; with no
        selection nothing happens; a selected name without configuration makes the cost lookup
        throw, so nothing changes; otherwise, if the player can pay, the towers are bought, and
        the selection is dropped. */
    method HandlePlacement(p: Pos, ringOffset: (nat, int) -> Pos) returns (outcome: P.Outcome)
      requires Valid()
      modifies this`towers, this`enemies, this`organ, this`towerGroup, this`nextId, this`allTargets
      modifies this`playerResources, this`events, this`paused, this`selectedTowerType
      ensures Valid() && paused == old(paused)
      ensures outcome == P.Decide(p.x, gameWidth, old(selectedTowerType), towerCatalogue, old(playerResources))
      ensures selectedTowerType == if outcome == P.NothingSelected || outcome == P.UnknownTower then old(selectedTowerType) else None
      ensures !outcome.Placed? ==>
        Snapshot() == old(Snapshot()) && nextId == old(nextId) && towerGroup == old(towerGroup) && allTargets == old(allTargets)
        && playerResources == old(playerResources) && events == old(events)
      ensures outcome.Placed? ==>
        var spots := P.PlacedSpots(p, outcome.config, gameWidth, height, ringOffset);
        nextId == old(nextId) + |spots| && towerGroup == old(towerGroup) + P.Ids(old(nextId), |spots|)
        && allTargets == towerGroup
        && Snapshot() == P.Deploy(old(Snapshot()), old(nextId), spots, outcome.config, enemyGroup, allTargets)
        && playerResources == old(playerResources) - outcome.config.cost
        && events == old(events) + [ResourcesChanged(playerResources)]
    {
      outcome := P.Decide(p.x, gameWidth, selectedTowerType, towerCatalogue, playerResources);
      if p.x > gameWidth {
        selectedTowerType := None;
        return;
      }
      if selectedTowerType.None? || selectedTowerType.value == "" {
        return;
      }
      var name := selectedTowerType.value;
      if name !in towerCatalogue {
        return;
      }
      if playerResources >= towerCatalogue[name].cost {
        BuyTowers(p, name, ringOffset);
      }
      selectedTowerType := None;
    }

    // ---- lock handlers ----

    /** `Tower.setTarget(enemy)` */
    method TowerSetTarget(t: TowerId, e: EnemyId)
      requires Valid() && t in towers && e in enemies
      modifies this`towers, this`enemies
      ensures Valid() && Snapshot() == L.TowerSetTarget(old(Snapshot()), t, e)
    {
      L.TowerSetTargetKeepsClosed(Snapshot(), t, e);
      var r := L.TowerSetTarget(Snapshot(), t, e);
      towers, enemies := r.towers, r.enemies;
    }

    /** `handleEnemyInTowerRange(tower, enemy)`: both must be active, and the tower locks on only
        if the enemy can still be targeted. */
    method OnEnemyInTowerRange(t: TowerId, e: EnemyId)
      requires Valid() && t in towers && e in enemies
      modifies this`towers, this`enemies
      ensures Valid() && Snapshot() == K.RangeLock(old(Snapshot()), t, e)
    {
      if !towers[t].body.active || !enemies[e].body.active {
        return;
      }
      if CanBeTargeted(enemies[e]) {
        TowerSetTarget(t, e);
      }
    }

    /** `handleEnemyTowerCollision(enemy, tower)`: both must be active; the enemy then locks onto
        the tower with no slot check. */
    method OnEnemyTowerCollision(e: EnemyId, t: TowerId)
      requires Valid() && t in towers && e in enemies
      modifies this`towers, this`enemies, this`organ
      ensures Valid() && Snapshot() == K.CollisionLock(old(Snapshot()), e, t)
    {
      if !enemies[e].body.active || !towers[t].body.active {
        return;
      }
      EnemySetTarget(e, AtTower(t));
    }

    // ---- the organ ----

    /** `onUpgradeOrgan()`: when the player can pay the upgrade cost and the organ is below its
        maximum level, the cost is deducted, `upgrade()` runs and announces the new level, and
        the new total is announced; otherwise nothing happens. */
    method OnUpgradeOrgan() returns (upgraded: bool)
      requires Valid()
      modifies this`organ, this`playerResources, this`events, this`paused
      ensures Valid() && paused == old(paused)
      ensures upgraded <==> old(playerResources) >= old(organ).config.upgradeCost && CanUpgrade(old(organ))
      ensures upgraded ==> (organ == Upgrade(old(organ)).1 && organ.level == old(organ).level + 1
        && playerResources == old(playerResources) - old(organ).config.upgradeCost && playerResources >= 0
        && events == old(events) + [OrganUpgraded(organ.level, organ.hp, organ.maxHp, ResourceGenAt(organ.config, organ.level)),
                                    ResourcesChanged(playerResources)])
      ensures !upgraded ==> organ == old(organ) && playerResources == old(playerResources) && events == old(events)
    {
      upgraded := playerResources >= organ.config.upgradeCost && CanUpgrade(organ);
      if upgraded {
        playerResources := playerResources - organ.config.upgradeCost;
        ClosedFrame(Snapshot(), Snapshot().(organ := Upgrade(organ).1));
        organ := Upgrade(organ).1;
        Emit(OrganUpgraded(organ.level, organ.hp, organ.maxHp, ResourceGenAt(organ.config, organ.level)));
        Emit(ResourcesChanged(playerResources));
      }
    }

    /** The organ's part of the scene's `update`: for an active organ, `ImmuneOrgan.update`,
        whose resource timer emits 'resourceGenerated' with the current generation rate, which
        the scene credits and announces. */
    method OrganUpdate(time: int)
      requires Valid()
      modifies this`organ, this`playerResources, this`events, this`paused
      ensures Valid() && paused == old(paused)
      ensures var tick := ResourceTick(old(organ), time);
        var gen := ResourceGenAt(old(organ).config, old(organ).level);
        organ == tick.1
        && (tick.0 ==> playerResources == old(playerResources) + gen
                       && events == old(events) + [ResourceGenerated(gen), ResourcesChanged(playerResources)])
        && (!tick.0 ==> playerResources == old(playerResources) && events == old(events))
    {
      if !organ.active {
        return;
      }
      var tick := ResourceTick(organ, time);
      if tick.0 {
        Emit(ResourceGenerated(ResourceGenAt(organ.config, organ.level)));
      }
      ClosedFrame(Snapshot(), Snapshot().(organ := tick.1));
      organ := tick.1;
    }

    // ---- waves ----

    /** `new Enemy(this, x, y, config)` and `this.enemies.add(enemy)`, under the next id. */
    method AddEnemy(p: Pos, c: EnemyConfig) returns (id: EnemyId)
      requires Valid()
      modifies this`enemies, this`enemyGroup, this`nextId
      ensures Valid() && id == old(nextId) && nextId == id + 1
      ensures Snapshot() == K.JoinEnemy(old(Snapshot()), id, NewEnemy(p, c))
      ensures enemyGroup == old(enemyGroup) + [id]
    {
      id := nextId;
      enemies := K.JoinEnemy(Snapshot(), id, NewEnemy(p, c)).enemies;
      enemyGroup := enemyGroup + [id];
      nextId := nextId + 1;
    }

    /** `spawnEnemy(type)`: nothing for a type without configuration; otherwise a new enemy at
        x = -50 and height `y` (the draw of `Phaser.Math.Between(100, height - 100)`) joins the
        enemies group, the target list is rebuilt, and the enemy searches for a target. */
    method SpawnEnemy(name: string, y: int) returns (spawned: Option<EnemyId>)
      requires Valid()
      modifies this`towers, this`enemies, this`organ, this`enemyGroup, this`nextId, this`allTargets
      ensures Valid()
      ensures spawned.Some? <==> name in enemyCatalogue
      ensures spawned.None? ==>
        Snapshot() == old(Snapshot()) && enemyGroup == old(enemyGroup) && nextId == old(nextId) && allTargets == old(allTargets)
      ensures spawned.Some? ==>
        spawned.value == old(nextId) && nextId == old(nextId) + 1
        && enemyGroup == old(enemyGroup) + [old(nextId)] && allTargets == towerGroup
        && Snapshot() == W.Spawned(old(Snapshot()), old(nextId), NewEnemy(Pos(W.SpawnX, y), enemyCatalogue[name]), allTargets)
    {
      if name !in enemyCatalogue {
        return None;
      }
      var id := AddEnemy(Pos(W.SpawnX, y), enemyCatalogue[name]);
      UpdateAllTargets();
      FindTarget(id);
      spawned := Some(id);
    }

    /** The callback of a wave's timer: an enemy of the wave's kind only while the elapsed
        seconds lie within the wave's window. */
    method OnWaveTimer(w: W.Wave, now: int, y: int) returns (spawned: Option<EnemyId>)
      requires Valid()
      modifies this`towers, this`enemies, this`organ, this`enemyGroup, this`nextId, this`allTargets
      ensures Valid()
      ensures spawned.Some? <==> W.InWindow(w, now, gameStartTime) && w.enemyType in enemyCatalogue
      ensures spawned.None? ==>
        Snapshot() == old(Snapshot()) && enemyGroup == old(enemyGroup) && nextId == old(nextId) && allTargets == old(allTargets)
      ensures spawned.Some? ==>
        spawned.value == old(nextId) && nextId == old(nextId) + 1
        && enemyGroup == old(enemyGroup) + [old(nextId)] && allTargets == towerGroup
        && Snapshot() == W.Spawned(old(Snapshot()), old(nextId), NewEnemy(Pos(W.SpawnX, y), enemyCatalogue[w.enemyType]), allTargets)
    {
      var elapsed := W.ElapsedSeconds(now, gameStartTime);
      if elapsed >= w.startTime as real && elapsed <= w.endTime as real {
        spawned := SpawnEnemy(w.enemyType, y);
      } else {
        spawned := None;
      }
    }

    /** `hasVisibleEnemies()`: the walk over the enemies group that stops at the first enemy on
        the screen. */
    method HasVisibleEnemies() returns (visible: bool)
      requires Valid()
      ensures visible <==> exists i :: 0 <= i < |enemyGroup| && W.OnScreen(enemies[enemyGroup[i]], width, height)
    {
      var i := 0;
      while i < |enemyGroup|
        invariant 0 <= i <= |enemyGroup|
        invariant forall j :: 0 <= j < i ==> !W.OnScreen(enemies[enemyGroup[j]], width, height)
      {
        if W.OnScreen(enemies[enemyGroup[i]], width, height) {
          return true;
        }
        i := i + 1;
      }
      return false;
    }

    // ---- towers on each frame ----

    /** `Tower.fire()`: nothing without a target that is active and alive; otherwise a projectile
        is drawn from the pool at the tower, and only if it comes out active is it fired at the
        target with the tower's damage and projectile speed, as a tower shot without a range
        limit. A projectile newly built by the pool is inactive, so that shot is lost. */
    method TowerFire(t: TowerId, heading: Pos) returns (shot: Option<Projectile>)
      requires Valid() && t in towers
      modifies this`pool, pool
      ensures Valid()
      ensures var tw := towers[t];
        var armed := tw.target.Some? && enemies[tw.target.value].body.active && IsAlive(enemies[tw.target.value].body);
        (!armed ==> shot == None && pool == old(pool))
        && (armed ==> (shot.Some? <==> old(FirstDeadIn(pool)).Some?))
        && (armed && old(FirstDeadIn(pool)).Some? ==> pool == old(pool))
        && (armed && old(FirstDeadIn(pool)).None? ==> (|pool| == |old(pool)| + 1 && pool[..|old(pool)|] == old(pool)
              && fresh(pool[|pool| - 1]) && !pool[|pool| - 1].active))
      ensures shot.Some? ==> (towers[t].target.Some? && shot.value in pool
        && var q, tw := shot.value, towers[t];
        q.active && q.target == Some(enemies[tw.target.value].pos) && q.GetDamage() == tw.config.damage
        && q.speed == tw.config.projectileSpeed && !q.isEnemyProjectile && q.maxRange == 0
        && q.origin == tw.pos && q.velocity == heading)
      ensures forall r :: r in old(pool) && (shot.None? || r != shot.value) ==> unchanged(r)
    {
      var tw := towers[t];
      if tw.target.None? || !enemies[tw.target.value].body.active || !IsAlive(enemies[tw.target.value].body) {
        return None;
      }
      var q := GetProjectileFromPool(tw.pos);
      if q.active {
        q.Fire(enemies[tw.target.value].pos, tw.config.damage, tw.config.projectileSpeed, false, 0, heading);
        shot := Some(q);
      } else {
        shot := None;
      }
    }

    /** The validity check at the top of `Tower.update`: a target that is inactive, dead or out
        of range is dropped. */
    method TowerCheckTarget(t: TowerId)
      requires Valid() && t in towers
      modifies this`towers, this`enemies
      ensures Valid()
      ensures Snapshot() == if K.LosesTarget(old(Snapshot()), t) then L.TowerClearTarget(old(Snapshot()), t) else old(Snapshot())
    {
      if K.LosesTarget(Snapshot(), t) {
        TowerClearTarget(t);
      }
    }

    /** `Tower.update(time, delta, enemiesVisible)`: the validity check, then the fire gate; the
        cooldown restarts whenever `fire()` is called, whether or not a shot leaves. */
    method TowerUpdate(t: TowerId, time: int, enemiesVisible: bool, heading: Pos) returns (shot: Option<Projectile>)
      requires Valid() && t in towers
      modifies this`towers, this`enemies, this`pool, pool
      ensures Valid()
      ensures Snapshot() == K.TowerTick(old(Snapshot()), t, time, enemiesVisible).0
      ensures var fired := K.TowerTick(old(Snapshot()), t, time, enemiesVisible).1;
        (!fired ==> shot == None && pool == old(pool))
        && (fired ==> (shot.Some? <==> old(FirstDeadIn(pool)).Some?))
        && (fired && old(FirstDeadIn(pool)).Some? ==> pool == old(pool))
        && (fired && old(FirstDeadIn(pool)).None? ==> (|pool| == |old(pool)| + 1 && pool[..|old(pool)|] == old(pool)
              && fresh(pool[|pool| - 1]) && !pool[|pool| - 1].active))
      ensures shot.Some? ==> (old(towers[t]).target.Some? && shot.value in pool
        && var q, tw := shot.value, old(towers[t]);
        q.active && q.target == Some(old(enemies[tw.target.value]).pos) && q.GetDamage() == tw.config.damage
        && q.speed == tw.config.projectileSpeed && !q.isEnemyProjectile && q.maxRange == 0 && q.origin == tw.pos
        && q.velocity == heading)
      ensures forall r :: r in old(pool) && (shot.None? || r != shot.value) ==> unchanged(r)
    {
      ghost var a0 := Snapshot();
      TowerCheckTarget(t);
      shot := None;
      var tw := towers[t];
      if enemiesVisible && tw.target.Some? && time > tw.nextFire {
        K.FireGuardFollowsValidityCheck(a0, t, time, enemiesVisible);
        shot := TowerFireAndRearm(t, time, heading);
      }
    }

    /** The body of the fire gate: `fire()`, then nextFire := time + fireRate. */
    method TowerFireAndRearm(t: TowerId, time: int, heading: Pos) returns (shot: Option<Projectile>)
      requires Valid() && t in towers && towers[t].target.Some?
      requires enemies[towers[t].target.value].body.active && IsAlive(enemies[towers[t].target.value].body)
      modifies this`towers, this`pool, pool
      ensures Valid()
      ensures Snapshot() == K.WithNextFire(old(Snapshot()), t, time + old(towers[t]).config.fireRate)
      ensures shot.Some? <==> old(FirstDeadIn(pool)).Some?
      ensures old(FirstDeadIn(pool)).Some? ==> pool == old(pool)
      ensures old(FirstDeadIn(pool)).None? ==>
        |pool| == |old(pool)| + 1 && pool[..|old(pool)|] == old(pool) && fresh(pool[|pool| - 1]) && !pool[|pool| - 1].active
      ensures shot.Some? ==> (shot.value in pool
        && var q, tw := shot.value, old(towers[t]);
        q.active && q.target == Some(enemies[tw.target.value].pos) && q.GetDamage() == tw.config.damage
        && q.speed == tw.config.projectileSpeed && !q.isEnemyProjectile && q.maxRange == 0 && q.origin == tw.pos
        && q.velocity == heading)
      ensures forall r :: r in old(pool) && (shot.None? || r != shot.value) ==> unchanged(r)
    {
      shot := TowerFire(t, heading);
      TowerRearm(t, time + towers[t].config.fireRate);
    }

    /** The rearm of the fire gate: nextFire := the given time, nothing else changes. */
    method TowerRearm(t: TowerId, nextFire: int)
      requires Valid() && t in towers
      modifies this`towers
      ensures Valid() && Snapshot() == K.WithNextFire(old(Snapshot()), t, nextFire)
      ensures towers[t] == old(towers[t]).(nextFire := nextFire)
    {
      var a := K.WithNextFire(Snapshot(), t, nextFire);
      ClosedFrame(Snapshot(), a);
      towers := a.towers;
    }

    // ---- enemies on each frame ----

    /** An enemy shot: `getProjectileFromPool(x, y)` at the enemy, then `fire` with the shot's
        arguments. Unlike a tower, the enemy fires whatever the pool returns, and `fire` arms a
        newly built projectile too, so the shot always leaves. */
    method Launch(from: Pos, s: Shot, heading: Pos) returns (q: Projectile)
      requires Valid()
      modifies this`pool, pool
      ensures Valid() && q in pool
      ensures Drawn(old(FirstDeadIn(pool)), old(pool), pool, q) && (old(FirstDeadIn(pool)).None? ==> fresh(q))
      ensures Carries(q, s, from, heading)
      ensures forall r :: r in old(pool) && r != q ==> unchanged(r)
    {
      q := GetProjectileFromPool(from);
      q.Fire(s.aim, s.damage, s.speed, s.isEnemy, s.range, heading);
    }

    /** `Enemy.attackTarget(time)` */
    method EnemyAttackTarget(e: EnemyId, time: int, heading: Pos) returns (shot: Option<Projectile>)
      requires Valid() && e in enemies
      modifies this`enemies, this`pool, pool
      ensures Valid()
      ensures var r := AttackTarget(old(Snapshot()), e, time, gameWidth, BoundaryActive(boundaryLine));
        Snapshot() == r.0 && (shot.Some? <==> r.1.Some?)
        && (r.1.None? ==> pool == old(pool))
        && (r.1.Some? ==> (shot.value in pool && Drawn(old(FirstDeadIn(pool)), old(pool), pool, shot.value)
             && (old(FirstDeadIn(pool)).None? ==> fresh(shot.value))
             && shot.value.isEnemyProjectile && Carries(shot.value, r.1.value, old(enemies[e]).pos, heading)))
      ensures forall r :: r in old(pool) && (shot.None? || r != shot.value) ==> unchanged(r)
    {
      var en := enemies[e];
      shot := None;
      if en.target.None? || time <= en.nextAttack {
        return;
      }
      if K.TargetActive(Snapshot(), en.target.value, BoundaryActive(boundaryLine)) {
        var sh := Shot(AimOf(Snapshot(), en.target.value, gameWidth), en.config.damage, EnemyShotSpeed, true, en.config.attackRange);
        var q := Launch(en.pos, sh, heading);
        shot := Some(q);
      }
      enemies := WithEnemy(Snapshot(), e, K.AttackCooldown(en, time)).enemies;
    }

    /** The goal branches of `Enemy.update`, for an enemy at the right edge of the game area;
        returns whether the legacy goal callback was scheduled. */
    method EnemyAtGoal(e: EnemyId, time: int) returns (goal: bool)
      requires Valid() && e in enemies
      modifies this`enemies, this`playerHealth, this`events, this`playerResources, this`paused
      ensures Valid() && playerResources == old(playerResources)
      ensures var s := GoalStep(old(Snapshot()), e, time, boundaryLine);
        Snapshot() == s.arena && goal == s.goal
        && (s.harm.Some? ==> (playerHealth, events) == (Harm(old(playerHealth), s.harm.value).0, old(events) + Harm(old(playerHealth), s.harm.value).1)
                             && paused == (old(paused) || playerHealth <= 0))
        && (s.harm.None? ==> playerHealth == old(playerHealth) && events == old(events) && paused == old(paused))
    {
      if enemies[e].mode == Attacking {
        goal := false;
        EnemyHoldGoal(e, time);
      } else {
        goal := EnemyReachGoal(e, time);
      }
    }

    /** An enemy already attacking at the goal damages the player once its cooldown has passed. */
    method EnemyHoldGoal(e: EnemyId, time: int)
      requires Valid() && e in enemies && enemies[e].mode == Attacking
      modifies this`enemies, this`playerHealth, this`events, this`playerResources, this`paused
      ensures Valid() && playerResources == old(playerResources)
      ensures var s := GoalStep(old(Snapshot()), e, time, boundaryLine);
        Snapshot() == s.arena
        && (s.harm.Some? ==> (playerHealth, events) == (Harm(old(playerHealth), s.harm.value).0, old(events) + Harm(old(playerHealth), s.harm.value).1)
                             && paused == (old(paused) || playerHealth <= 0))
        && (s.harm.None? ==> playerHealth == old(playerHealth) && events == old(events) && paused == old(paused))
    {
      var en := enemies[e];
      if time > en.nextAttack {
        DamagePlayer(en.config.damage);
        enemies := WithEnemy(Snapshot(), e, en.(nextAttack := time + en.config.fireRate)).enemies;
      }
    }

    /** A moving enemy arriving at the goal: with a boundary line it locks onto the line, turns
        to attacking, damages the player and restarts its cooldown; without one, the legacy
        `damagePlayer` turns it to attacking, damages the player and schedules the goal callback. */
    method EnemyReachGoal(e: EnemyId, time: int) returns (goal: bool)
      requires Valid() && e in enemies && enemies[e].mode == Moving
      modifies this`enemies, this`playerHealth, this`events, this`playerResources, this`paused
      ensures Valid() && playerResources == old(playerResources)
      ensures var s := GoalStep(old(Snapshot()), e, time, boundaryLine);
        Snapshot() == s.arena && goal == s.goal && s.harm.Some?
        && (playerHealth, events) == (Harm(old(playerHealth), s.harm.value).0, old(events) + Harm(old(playerHealth), s.harm.value).1)
        && paused == (old(paused) || playerHealth <= 0)
    {
      var en := enemies[e];
      if boundaryLine.Some? {
        L.BoundaryAssignKeepsClosed(Snapshot(), e, boundaryLine.value.pos);
        enemies := L.BoundaryAssign(Snapshot(), e, boundaryLine.value.pos).enemies;
        DamagePlayer(en.config.damage);
        enemies := WithEnemy(Snapshot(), e, enemies[e].(nextAttack := time + en.config.fireRate)).enemies;
        goal := false;
      } else {
        enemies := WithEnemy(Snapshot(), e, en.(mode := Attacking)).enemies;
        DamagePlayer(en.config.damage);
        goal := true;
      }
    }

    /** The search gate of `Enemy.update`. */
    method EnemySearch(e: EnemyId, time: int)
      requires Valid() && e in enemies
      modifies this`towers, this`enemies, this`organ
      ensures Valid() && T.AllDefenders(old(Snapshot()), T.Candidates(allTargets))
      ensures Snapshot() == Search(old(Snapshot()), e, time, BoundaryActive(boundaryLine), allTargets)
    {
      T.ListedTowersAreDefenders(Snapshot(), allTargets);
      if K.SearchDue(Snapshot(), enemies[e], time, BoundaryActive(boundaryLine)) {
        FindTarget(e);
        enemies := WithEnemy(Snapshot(), e, enemies[e].(nextSearch := time + K.SearchInterval)).enemies;
      }
    }

    /** `Enemy.update` away from the goal: the search gate, then the state machine. */
    method EnemyAdvance(e: EnemyId, time: int, heading: Pos) returns (shot: Option<Projectile>)
      requires Valid() && e in enemies
      modifies this`towers, this`enemies, this`organ, this`pool, pool
      ensures Valid() && T.AllDefenders(old(Snapshot()), T.Candidates(allTargets))
      ensures var s := AdvanceStep(old(Snapshot()), e, time, gameWidth, BoundaryActive(boundaryLine), allTargets);
        Snapshot() == s.arena && (shot.Some? <==> s.shot.Some?)
        && (s.shot.None? ==> pool == old(pool))
        && (s.shot.Some? ==> (shot.value in pool && Drawn(old(FirstDeadIn(pool)), old(pool), pool, shot.value)
             && (old(FirstDeadIn(pool)).None? ==> fresh(shot.value))
             && shot.value.isEnemyProjectile && Carries(shot.value, s.shot.value, old(enemies[e]).pos, heading)))
      ensures forall r :: r in old(pool) && (shot.None? || r != shot.value) ==> unchanged(r)
    {
      EnemySearch(e, time);
      shot := EnemyEngage(e, time, heading);
    }

    /** The state machine of `Enemy.update` after the search gate. */
    method EnemyEngage(e: EnemyId, time: int, heading: Pos) returns (shot: Option<Projectile>)
      requires Valid() && e in enemies
      modifies this`enemies, this`pool, pool
      ensures Valid()
      ensures var s := Engage(old(Snapshot()), e, time, gameWidth, BoundaryActive(boundaryLine));
        Snapshot() == s.arena && (shot.Some? <==> s.shot.Some?)
        && (s.shot.None? ==> pool == old(pool))
        && (s.shot.Some? ==> (shot.value in pool && Drawn(old(FirstDeadIn(pool)), old(pool), pool, shot.value)
             && (old(FirstDeadIn(pool)).None? ==> fresh(shot.value))
             && shot.value.isEnemyProjectile && Carries(shot.value, s.shot.value, old(enemies[e]).pos, heading)))
      ensures forall r :: r in old(pool) && (shot.None? || r != shot.value) ==> unchanged(r)
    {
      shot := None;
      var en := enemies[e];
      if en.mode == Moving && en.target.Some? {
        if !FartherThan(en.pos, TargetPos(Snapshot(), en.target.value), en.config.attackRange) {
          enemies := WithEnemy(Snapshot(), e, en.(mode := Attacking)).enemies;
        }
      } else if en.mode == Attacking {
        shot := EnemyAttackTarget(e, time, heading);
      }
    }

    /** `Enemy.update(time, delta)`: an inactive enemy does nothing; at the goal the goal
        branches run; elsewhere the search gate and the state machine. Returns whether the
        legacy goal callback was scheduled and the projectile launched, if any. */
    method EnemyUpdate(e: EnemyId, time: int, heading: Pos) returns (goal: bool, shot: Option<Projectile>)
      requires Valid() && e in enemies
      modifies this`towers, this`enemies, this`organ, this`pool, pool
      modifies this`playerHealth, this`events, this`playerResources, this`paused
      ensures Valid() && T.AllDefenders(old(Snapshot()), T.Candidates(allTargets)) && playerResources == old(playerResources)
      ensures var s := EnemyStep(old(Snapshot()), e, time, gameWidth, boundaryLine, allTargets);
        Snapshot() == s.arena && goal == s.goal && (shot.Some? <==> s.shot.Some?)
        && (s.harm.Some? ==> (playerHealth, events) == (Harm(old(playerHealth), s.harm.value).0, old(events) + Harm(old(playerHealth), s.harm.value).1)
                             && paused == (old(paused) || playerHealth <= 0))
        && (s.harm.None? ==> playerHealth == old(playerHealth) && events == old(events) && paused == old(paused))
        && (s.shot.None? ==> pool == old(pool))
        && (s.shot.Some? ==> (shot.value in pool && Drawn(old(FirstDeadIn(pool)), old(pool), pool, shot.value)
             && (old(FirstDeadIn(pool)).None? ==> fresh(shot.value))
             && shot.value.isEnemyProjectile && Carries(shot.value, s.shot.value, old(enemies[e]).pos, heading)))
      ensures forall r :: r in old(pool) && (shot.None? || r != shot.value) ==> unchanged(r)
    {
      ghost var a0 := Snapshot();
      T.ListedTowersAreDefenders(a0, allTargets);
      goal, shot := false, None;
      if !enemies[e].body.active {
        return;
      }
      if AtGoal(enemies[e], gameWidth) {
        goal := EnemyAtGoal(e, time);
      } else {
        shot := EnemyAdvance(e, time, heading);
      }
    }

    /** The callback the legacy goal path schedules 500 ms on: 'enemyReachedGoal' with the
        reward, which no listener of the scene hears, then `Enemy.onDestroy`, which, as the enemy
        still has hit points, pays its reward through 'enemyDefeated'. */
    method EnemyGoalReached(e: EnemyId)
      requires Valid() && e in enemies
      modifies this`towers, this`enemies, this`organ, this`events, this`playerResources, this`paused
      ensures Valid() && Snapshot() == C.EnemyDeath(old(Snapshot()), e) && paused == old(paused)
      ensures events == old(events) + [EnemyReachedGoal(old(enemies[e]).config.reward)] + DefeatNews(old(enemies[e]), old(playerResources))
      ensures playerResources == old(playerResources) + K.DefeatReward(old(enemies[e]))
    {
      Emit(EnemyReachedGoal(enemies[e].config.reward));
      EnemyOnDestroy(e);
    }
  }
}
