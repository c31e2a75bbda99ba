/**
 * The death cascades: what `Tower.onDestroy`, `Enemy.onDestroy` and the
 * organ's zero-hit-point branch of `receiveDamage` do to the locks. Each of
 * them walks a Set with `forEach` and calls `clearTarget` on every member
 * that is still active. A `clearTarget` call only ever deletes the member
 * being visited from the walked set, so the walk visits exactly the members
 * present when it starts, and the outcome does not depend on the order:
 * ReleaseAttackers and ReleaseLockers give it in closed form.
 */
module Cascade {
  import opened Wrappers
  import opened Entity
  import opened Units
  import opened Organs
  import opened Arenas
  import opened Links

  /** The members of a walked enemy set that are still active, and so get `clearTarget`. */
  function ReleasedEnemies(a: Arena, d: set<EnemyId>): (r: set<EnemyId>)
    ensures forall e :: e in r <==> e in d && e in a.enemies && a.enemies[e].body.active
  {
    set e | e in d && e in a.enemies && a.enemies[e].body.active
  }

  /** The state after `d.forEach(enemy => { if (enemy.active) enemy.clearTarget(); })`. */
  function ReleaseAttackers(a: Arena, d: set<EnemyId>): (r: Arena)
    requires Closed(a)
    ensures r.towers.Keys == a.towers.Keys && r.enemies.Keys == a.enemies.Keys
    ensures forall e :: e in a.enemies ==>
      r.enemies[e] == (if e in d && a.enemies[e].body.active then a.enemies[e].(target := None) else a.enemies[e])
    ensures forall t :: t in a.towers ==>
      r.towers[t] == a.towers[t].(attackers := a.towers[t].attackers - ReleasedFrom(a, d, AtTower(t)))
    ensures r.organ == a.organ.(attackers := a.organ.attackers - ReleasedFrom(a, d, AtOrgan))
  {
    var rel := ReleasedEnemies(a, d);
    Arena(
      map t | t in a.towers :: a.towers[t].(attackers := a.towers[t].attackers - ReleasedFrom(a, d, AtTower(t))),
      map e | e in a.enemies :: if e in rel then a.enemies[e].(target := None) else a.enemies[e],
      a.organ.(attackers := a.organ.attackers - ReleasedFrom(a, d, AtOrgan)))
  }

  /** The released enemies whose lock was on the defender g: the ones g loses from its attackers. */
  function ReleasedFrom(a: Arena, d: set<EnemyId>, g: EnemyTarget): (r: set<EnemyId>)
    ensures forall e :: e in r <==> e in ReleasedEnemies(a, d) && a.enemies[e].target == Some(g)
  {
    set e | e in ReleasedEnemies(a, d) && a.enemies[e].target == Some(g)
  }

  /** Walking no enemy changes nothing: where a walk starts. */
  lemma ReleaseNoAttackers(a: Arena)
    requires Closed(a)
    ensures ReleaseAttackers(a, {}) == a
  {
    var r := ReleaseAttackers(a, {});
    forall t | t in a.towers ensures r.towers[t] == a.towers[t] {
      assert ReleasedFrom(a, {}, AtTower(t)) == {};
    }
    assert ReleasedFrom(a, {}, AtOrgan) == {};
    assert r.towers == a.towers;
    assert r.enemies == a.enemies;
  }

  lemma ReleaseAttackersKeepsClosed(a: Arena, d: set<EnemyId>)
    requires Closed(a)
    ensures Closed(ReleaseAttackers(a, d))
  {
    var r := ReleaseAttackers(a, d);
    forall t | t in r.towers ensures TowerRefsIn(r.enemies.Keys, r.towers[t]) {
      assert TowerRefsIn(a.enemies.Keys, a.towers[t]);
    }
    forall e | e in r.enemies ensures EnemyRefsIn(r.towers.Keys, r.enemies[e]) {
      assert EnemyRefsIn(a.towers.Keys, a.enemies[e]);
    }
  }

  lemma ReleasedFromGrows(a: Arena, v: set<EnemyId>, e: EnemyId, g: EnemyTarget)
    requires e in a.enemies && e !in v
    ensures ReleasedFrom(a, v + {e}, g) ==
      ReleasedFrom(a, v, g) + (if a.enemies[e].body.active && a.enemies[e].target == Some(g) then {e} else {})
  {
  }

  /** One step of the walk: visiting one more member e is `clearTarget` on e when it is active. */
  lemma ReleaseAttackersStep(a: Arena, v: set<EnemyId>, e: EnemyId)
    requires Closed(a) && e in a.enemies && e !in v
    ensures Closed(ReleaseAttackers(a, v))
    ensures ReleaseAttackers(a, v + {e}) ==
      (if a.enemies[e].body.active then EnemyClearTarget(ReleaseAttackers(a, v), e) else ReleaseAttackers(a, v))
  {
    ReleaseAttackersKeepsClosed(a, v);
    if a.enemies[e].body.active {
      ReleaseActiveStep(a, v, e);
    } else {
      ReleaseInactiveStep(a, v, e);
    }
  }

  lemma ReleaseActiveStep(a: Arena, v: set<EnemyId>, e: EnemyId)
    requires Closed(a) && e in a.enemies && e !in v && a.enemies[e].body.active
    requires Closed(ReleaseAttackers(a, v))
    ensures ReleaseAttackers(a, v + {e}) == EnemyClearTarget(ReleaseAttackers(a, v), e)
  {
    var p := ReleaseAttackers(a, v);
    var q := ReleaseAttackers(a, v + {e});
    var c := EnemyClearTarget(p, e);
    assert p.enemies[e] == a.enemies[e];
    assert q.enemies == c.enemies;
    ReleaseActiveStepTowers(a, v, e);
    ReleasedFromGrows(a, v, e, AtOrgan);
  }

  lemma ReleaseActiveStepTowers(a: Arena, v: set<EnemyId>, e: EnemyId)
    requires Closed(a) && e in a.enemies && e !in v && a.enemies[e].body.active
    requires Closed(ReleaseAttackers(a, v))
    ensures ReleaseAttackers(a, v + {e}).towers == EnemyClearTarget(ReleaseAttackers(a, v), e).towers
  {
    var p := ReleaseAttackers(a, v);
    var q := ReleaseAttackers(a, v + {e});
    var c := EnemyClearTarget(p, e);
    assert p.enemies[e] == a.enemies[e];
    forall t | t in a.towers ensures q.towers[t] == c.towers[t] {
      ReleasedFromGrows(a, v, e, AtTower(t));
    }
  }

  lemma ReleaseInactiveStep(a: Arena, v: set<EnemyId>, e: EnemyId)
    requires Closed(a) && e in a.enemies && e !in v && !a.enemies[e].body.active
    ensures ReleaseAttackers(a, v + {e}) == ReleaseAttackers(a, v)
  {
    var p := ReleaseAttackers(a, v);
    var q := ReleaseAttackers(a, v + {e});
    assert q.enemies == p.enemies;
    forall t | t in a.towers ensures q.towers[t] == p.towers[t] {
      ReleasedFromGrows(a, v, e, AtTower(t));
    }
    assert q.towers == p.towers;
    ReleasedFromGrows(a, v, e, AtOrgan);
  }

  /** Releasing attackers keeps both kinds of lock two-way. */
  lemma ReleaseAttackersKeepsLinked(a: Arena, d: set<EnemyId>)
    requires Closed(a) && Linked(a)
    ensures Linked(ReleaseAttackers(a, d))
  {
    var r := ReleaseAttackers(a, d);
    TowerLocksFrame(a, r);
    forall u, x | u in r.towers && x in r.towers[u].attackers
      ensures x in r.enemies && r.enemies[x].target == Some(AtTower(u))
    {
      assert x in a.towers[u].attackers;
    }
    forall x | x in r.organ.attackers
      ensures x in r.enemies && r.enemies[x].target == Some(AtOrgan)
    {
      assert x in a.organ.attackers;
    }
    forall x | x in r.enemies && r.enemies[x].target.Some? && r.enemies[x].target.value.AtTower?
      ensures r.enemies[x].target.value.tower in r.towers && x in r.towers[r.enemies[x].target.value.tower].attackers
    {
      assert r.enemies[x].target == a.enemies[x].target;
    }
  }

  /** The members of a walked tower set that are still active, and so get `clearTarget`. */
  function ReleasedTowers(a: Arena, d: set<TowerId>): (r: set<TowerId>)
    ensures forall t :: t in r <==> t in d && t in a.towers && a.towers[t].body.active
  {
    set t | t in d && t in a.towers && a.towers[t].body.active
  }

  /** The released towers that were locked on enemy e: the ones e loses from its targetedBy. */
  function ReleasedLockersOf(a: Arena, d: set<TowerId>, e: EnemyId): (r: set<TowerId>)
    ensures forall t :: t in r <==> t in ReleasedTowers(a, d) && a.towers[t].target == Some(e)
  {
    set t | t in ReleasedTowers(a, d) && a.towers[t].target == Some(e)
  }

  /** The state after `d.forEach(tower => { if (tower.active) tower.clearTarget(); })`. */
  function ReleaseLockers(a: Arena, d: set<TowerId>): (r: Arena)
    requires Closed(a)
    ensures r.towers.Keys == a.towers.Keys && r.enemies.Keys == a.enemies.Keys && r.organ == a.organ
    ensures forall t :: t in a.towers ==>
      r.towers[t] == (if t in d && a.towers[t].body.active then a.towers[t].(target := None) else a.towers[t])
    ensures forall e :: e in a.enemies ==>
      r.enemies[e] == a.enemies[e].(targetedBy := a.enemies[e].targetedBy - ReleasedLockersOf(a, d, e))
  {
    var rel := ReleasedTowers(a, d);
    Arena(
      map t | t in a.towers :: if t in rel then a.towers[t].(target := None) else a.towers[t],
      map e | e in a.enemies :: a.enemies[e].(targetedBy := a.enemies[e].targetedBy - ReleasedLockersOf(a, d, e)),
      a.organ)
  }

  /** Walking no tower changes nothing. */
  lemma ReleaseNoLockers(a: Arena)
    requires Closed(a)
    ensures ReleaseLockers(a, {}) == a
  {
    var r := ReleaseLockers(a, {});
    forall e | e in a.enemies ensures r.enemies[e] == a.enemies[e] {
      assert ReleasedLockersOf(a, {}, e) == {};
    }
    assert r.towers == a.towers;
    assert r.enemies == a.enemies;
  }

  lemma ReleaseLockersKeepsClosed(a: Arena, d: set<TowerId>)
    requires Closed(a)
    ensures Closed(ReleaseLockers(a, d))
  {
    var r := ReleaseLockers(a, d);
    forall t | t in r.towers ensures TowerRefsIn(r.enemies.Keys, r.towers[t]) {
      assert TowerRefsIn(a.enemies.Keys, a.towers[t]);
    }
    forall e | e in r.enemies ensures EnemyRefsIn(r.towers.Keys, r.enemies[e]) {
      assert EnemyRefsIn(a.towers.Keys, a.enemies[e]);
    }
  }

  lemma ReleasedLockersGrow(a: Arena, v: set<TowerId>, t: TowerId, e: EnemyId)
    requires t in a.towers && t !in v
    ensures ReleasedLockersOf(a, v + {t}, e) ==
      ReleasedLockersOf(a, v, e) + (if a.towers[t].body.active && a.towers[t].target == Some(e) then {t} else {})
  {
  }

  /** One step of the walk: visiting one more member t is `clearTarget` on t when it is active. */
  lemma ReleaseLockersStep(a: Arena, v: set<TowerId>, t: TowerId)
    requires Closed(a) && t in a.towers && t !in v
    ensures Closed(ReleaseLockers(a, v))
    ensures ReleaseLockers(a, v + {t}) ==
      (if a.towers[t].body.active then TowerClearTarget(ReleaseLockers(a, v), t) else ReleaseLockers(a, v))
  {
    ReleaseLockersKeepsClosed(a, v);
    if a.towers[t].body.active {
      ReleaseLockersActiveStep(a, v, t);
    } else {
      ReleaseLockersInactiveStep(a, v, t);
    }
  }

  lemma ReleaseLockersActiveStep(a: Arena, v: set<TowerId>, t: TowerId)
    requires Closed(a) && t in a.towers && t !in v && a.towers[t].body.active
    requires Closed(ReleaseLockers(a, v))
    ensures ReleaseLockers(a, v + {t}) == TowerClearTarget(ReleaseLockers(a, v), t)
  {
    var p := ReleaseLockers(a, v);
    var q := ReleaseLockers(a, v + {t});
    var c := TowerClearTarget(p, t);
    assert p.towers[t] == a.towers[t];
    assert q.towers == c.towers;
    ReleaseLockersActiveStepEnemies(a, v, t);
  }

  lemma ReleaseLockersActiveStepEnemies(a: Arena, v: set<TowerId>, t: TowerId)
    requires Closed(a) && t in a.towers && t !in v && a.towers[t].body.active
    requires Closed(ReleaseLockers(a, v))
    ensures ReleaseLockers(a, v + {t}).enemies == TowerClearTarget(ReleaseLockers(a, v), t).enemies
  {
    var p := ReleaseLockers(a, v);
    var q := ReleaseLockers(a, v + {t});
    var c := TowerClearTarget(p, t);
    assert p.towers[t] == a.towers[t];
    forall e | e in a.enemies ensures q.enemies[e] == c.enemies[e] {
      ReleasedLockersGrow(a, v, t, e);
    }
  }

  lemma ReleaseLockersInactiveStep(a: Arena, v: set<TowerId>, t: TowerId)
    requires Closed(a) && t in a.towers && t !in v && !a.towers[t].body.active
    ensures ReleaseLockers(a, v + {t}) == ReleaseLockers(a, v)
  {
    var p := ReleaseLockers(a, v);
    var q := ReleaseLockers(a, v + {t});
    assert q.towers == p.towers;
    forall e | e in a.enemies ensures q.enemies[e] == p.enemies[e] {
      ReleasedLockersGrow(a, v, t, e);
    }
    assert q.enemies == p.enemies;
  }

  /** Releasing lockers keeps both kinds of lock two-way. */
  lemma ReleaseLockersKeepsLinked(a: Arena, d: set<TowerId>)
    requires Closed(a) && Linked(a)
    ensures Linked(ReleaseLockers(a, d))
  {
    var r := ReleaseLockers(a, d);
    AttackersFrame(a, r);
    forall x, u | x in r.enemies && u in r.enemies[x].targetedBy
      ensures u in r.towers && r.towers[u].target == Some(x)
    {
      assert u in a.enemies[x].targetedBy;
    }
  }

  // ---- The three cascades ------------------------------------------------

  /** Phaser's `destroy()` on a tower: it leaves the scene, which the model records as inactive. */
  function DestroyTower(a: Arena, t: TowerId): (r: Arena)
    requires t in a.towers
    ensures r.towers == a.towers[t := a.towers[t].(body := a.towers[t].body.(active := false))]
    ensures r.enemies == a.enemies && r.organ == a.organ
  {
    a.(towers := a.towers[t := a.towers[t].(body := a.towers[t].body.(active := false))])
  }

  /** Destroying a sprite changes no lock. */
  lemma DestroyTowerKeepsLinks(a: Arena, t: TowerId)
    requires t in a.towers
    ensures Closed(DestroyTower(a, t)) <==> Closed(a)
    ensures Linked(DestroyTower(a, t)) <==> Linked(a)
  {
    var r := DestroyTower(a, t);
    TowerLocksFrame(a, r);
    AttackersFrame(a, r);
    ClosedFrame(a, r);
  }

  /** `Tower.onDestroy` followed by Phaser's `destroy()`: the tower drops its own lock, every
      active attacker drops its lock on the tower, and the tower becomes inactive. */
  function TowerDeath(a: Arena, t: TowerId): (r: Arena)
    requires Closed(a) && t in a.towers
    ensures r.towers.Keys == a.towers.Keys && r.enemies.Keys == a.enemies.Keys
    ensures !r.towers[t].body.active && r.towers[t].target == None
    ensures r.towers[t].body == a.towers[t].body.(active := false)
  {
    TowerClearTargetKeepsClosed(a, t);
    var a1 := TowerClearTarget(a, t);
    ReleaseAttackersKeepsClosed(a1, a1.towers[t].attackers);
    DestroyTower(ReleaseAttackers(a1, a1.towers[t].attackers), t)
  }

  /** A tower's death keeps the links two-way and leaves no active enemy locked on it. */
  lemma TowerDeathReleasesAll(a: Arena, t: TowerId)
    requires Closed(a) && Linked(a) && t in a.towers
    ensures Closed(TowerDeath(a, t)) && Linked(TowerDeath(a, t))
    ensures forall e :: e in a.enemies && TowerDeath(a, t).enemies[e].body.active ==>
      TowerDeath(a, t).enemies[e].target != Some(AtTower(t))
    ensures forall x :: x in a.enemies ==> t !in TowerDeath(a, t).enemies[x].targetedBy
  {
    TowerClearTargetKeepsClosed(a, t);
    TowerClearTargetKeepsLinked(a, t);
    var a1 := TowerClearTarget(a, t);
    var d := a1.towers[t].attackers;
    ReleaseAttackersKeepsClosed(a1, d);
    ReleaseAttackersKeepsLinked(a1, d);
    var a2 := ReleaseAttackers(a1, d);
    DestroyTowerKeepsLinks(a2, t);
    ReleaseFreesDefender(a1, AtTower(t), d);
  }

  /** After the walk over a defender's attackers in a linked arena, no active enemy is locked on it. */
  lemma ReleaseFreesDefender(a: Arena, g: EnemyTarget, d: set<EnemyId>)
    requires Closed(a) && Linked(a) && IsDefender(a, g)
    requires d == (if g.AtTower? then a.towers[g.tower].attackers else a.organ.attackers)
    ensures forall e :: e in a.enemies && ReleaseAttackers(a, d).enemies[e].body.active ==>
      ReleaseAttackers(a, d).enemies[e].target != Some(g)
  {
    var r := ReleaseAttackers(a, d);
    forall e | e in a.enemies && r.enemies[e].body.active
      ensures r.enemies[e].target != Some(g)
    {
      if a.enemies[e].target == Some(g) {
        assert e in d;
      }
    }
  }

  /** `Enemy.onDestroy`: the enemy drops its own lock and every active tower locked on it drops
      that lock. The enemy itself stays active until its death animation ends. */
  function EnemyDeath(a: Arena, e: EnemyId): (r: Arena)
    requires Closed(a) && e in a.enemies
    ensures r.towers.Keys == a.towers.Keys && r.enemies.Keys == a.enemies.Keys
    ensures r.enemies[e].target == None && r.enemies[e].body == a.enemies[e].body
  {
    EnemyClearTargetKeepsClosed(a, e);
    var a1 := EnemyClearTarget(a, e);
    ReleaseLockers(a1, a1.enemies[e].targetedBy)
  }

  /** An enemy's death keeps the links two-way and leaves no active tower locked on it. */
  lemma EnemyDeathReleasesAll(a: Arena, e: EnemyId)
    requires Closed(a) && Linked(a) && e in a.enemies
    ensures Closed(EnemyDeath(a, e)) && Linked(EnemyDeath(a, e))
    ensures forall t :: t in a.towers && EnemyDeath(a, e).towers[t].body.active ==>
      EnemyDeath(a, e).towers[t].target != Some(e)
    ensures forall t :: t in a.towers ==> e !in EnemyDeath(a, e).towers[t].attackers
    ensures e !in EnemyDeath(a, e).organ.attackers
  {
    EnemyClearTargetKeepsClosed(a, e);
    EnemyClearTargetKeepsLinked(a, e);
    var a1 := EnemyClearTarget(a, e);
    var d := a1.enemies[e].targetedBy;
    ReleaseLockersKeepsClosed(a1, d);
    ReleaseLockersKeepsLinked(a1, d);
    ReleaseFreesEnemy(a1, e);
  }

  /** After the walk over an enemy's `targetedBy` in a linked arena, no active tower is locked on it. */
  lemma ReleaseFreesEnemy(a: Arena, e: EnemyId)
    requires Closed(a) && Linked(a) && e in a.enemies
    ensures forall t :: t in a.towers && ReleaseLockers(a, a.enemies[e].targetedBy).towers[t].body.active ==>
      ReleaseLockers(a, a.enemies[e].targetedBy).towers[t].target != Some(e)
  {
    var d := a.enemies[e].targetedBy;
    var r := ReleaseLockers(a, d);
    forall t | t in a.towers && r.towers[t].body.active
      ensures r.towers[t].target != Some(e)
    {
      if a.towers[t].target == Some(e) {
        assert t in d;
      }
    }
  }

  /** The organ's zero-hit-point branch: every active attacker drops its lock on the organ. */
  function OrganFall(a: Arena): (r: Arena)
    requires Closed(a)
    ensures r.towers.Keys == a.towers.Keys && r.enemies.Keys == a.enemies.Keys
  {
    ReleaseAttackers(a, a.organ.attackers)
  }

  /** After the organ falls, no active enemy is locked on it and the links stay two-way. */
  lemma OrganFallReleasesAll(a: Arena)
    requires Closed(a) && Linked(a)
    ensures Closed(OrganFall(a)) && Linked(OrganFall(a))
    ensures forall e :: e in a.enemies && OrganFall(a).enemies[e].body.active ==>
      OrganFall(a).enemies[e].target != Some(AtOrgan)
  {
    ReleaseAttackersKeepsClosed(a, a.organ.attackers);
    ReleaseAttackersKeepsLinked(a, a.organ.attackers);
    ReleaseFreesDefender(a, AtOrgan, a.organ.attackers);
  }
}
