/**
 * The combat state of one game scene as a value: every tower and enemy the
 * scene has created, by id, and the immune organ. Entities are never removed
 * from the tables; destroyed ones stay with `active` false, exactly as a
 * destroyed sprite object keeps its last field values.
 */
module Arenas {
  import opened Wrappers
  import opened Entity
  import opened Units
  import opened Organs

  datatype Arena = Arena(towers: map<TowerId, Tower>, enemies: map<EnemyId, Enemy>, organ: Organ)

  /** A tower's references are ids of the given enemy table. */
  predicate TowerRefsIn(enemyIds: set<EnemyId>, tw: Tower)
  {
    (tw.target.Some? ==> tw.target.value in enemyIds) && tw.attackers <= enemyIds
  }

  /** An enemy's references are ids of the given tower table. */
  predicate EnemyRefsIn(towerIds: set<TowerId>, en: Enemy)
  {
    (en.target.Some? && en.target.value.AtTower? ==> en.target.value.tower in towerIds) && en.targetedBy <= towerIds
  }

  /** No id held by a unit dangles. In the game every reference is an object, so this always
      holds there; with ids it is the representation invariant every operation keeps. */
  predicate Closed(a: Arena)
  {
    (forall t :: t in a.towers ==> TowerRefsIn(a.enemies.Keys, a.towers[t]))
    && (forall e :: e in a.enemies ==> EnemyRefsIn(a.towers.Keys, a.enemies[e]))
    && a.organ.attackers <= a.enemies.Keys
  }

  /** Tower locks are two-way: a tower targets an enemy exactly when it is in that enemy's `targetedBy`. */
  predicate TowerLocksLinked(a: Arena)
  {
    (forall t :: t in a.towers && a.towers[t].target.Some? ==>
       a.towers[t].target.value in a.enemies && t in a.enemies[a.towers[t].target.value].targetedBy)
    && (forall e, t :: e in a.enemies && t in a.enemies[e].targetedBy ==>
       t in a.towers && a.towers[t].target == Some(e))
  }

  /** Enemy locks are two-way: an enemy targets a tower or the organ exactly when it is in that
      defender's `attackers`. */
  predicate AttackersLinked(a: Arena)
  {
    (forall e :: e in a.enemies && a.enemies[e].target.Some? && a.enemies[e].target.value.AtTower? ==>
       a.enemies[e].target.value.tower in a.towers && e in a.towers[a.enemies[e].target.value.tower].attackers)
    && (forall t, e :: t in a.towers && e in a.towers[t].attackers ==>
       e in a.enemies && a.enemies[e].target == Some(AtTower(t)))
    && (forall e :: e in a.enemies && a.enemies[e].target == Some(AtOrgan) ==> e in a.organ.attackers)
    && (forall e :: e in a.organ.attackers ==> e in a.enemies && a.enemies[e].target == Some(AtOrgan))
  }

  /** The pairing that `setTarget` and `clearTarget` maintain on both kinds of lock. */
  predicate Linked(a: Arena)
  {
    TowerLocksLinked(a) && AttackersLinked(a)
  }

  /** The slot caps: no enemy is locked by more towers than its `targetedBySlots`, and no tower
      or organ is attacked by more enemies than its `attractionSlots`. */
  predicate SlotsRespected(a: Arena)
  {
    (forall e :: e in a.enemies ==> |a.enemies[e].targetedBy| <= a.enemies[e].config.targetedBySlots)
    && (forall t :: t in a.towers ==> |a.towers[t].attackers| <= a.towers[t].config.attractionSlots)
    && |a.organ.attackers| <= a.organ.config.attractionSlots
  }

  /** A linked arena has no dangling ids. */
  lemma LinkedIsClosed(a: Arena)
    requires Linked(a)
    requires forall e :: e in a.enemies && a.enemies[e].target.Some? && a.enemies[e].target.value.AtTower? ==>
       a.enemies[e].target.value.tower in a.towers
    ensures Closed(a)
  {
    forall t | t in a.towers ensures TowerRefsIn(a.enemies.Keys, a.towers[t]) {
      forall e | e in a.towers[t].attackers ensures e in a.enemies { }
    }
    forall e | e in a.enemies ensures EnemyRefsIn(a.towers.Keys, a.enemies[e]) {
      forall t | t in a.enemies[e].targetedBy ensures t in a.towers { }
    }
  }

  /** TowerLocksLinked only reads the tables' keys, tower targets and enemy `targetedBy` sets. */
  lemma TowerLocksFrame(a: Arena, b: Arena)
    requires a.towers.Keys == b.towers.Keys && a.enemies.Keys == b.enemies.Keys
    requires forall t :: t in a.towers ==> a.towers[t].target == b.towers[t].target
    requires forall e :: e in a.enemies ==> a.enemies[e].targetedBy == b.enemies[e].targetedBy
    ensures TowerLocksLinked(a) <==> TowerLocksLinked(b)
  {
  }

  /** AttackersLinked only reads the tables' keys, enemy targets and the `attackers` sets. */
  lemma AttackersFrame(a: Arena, b: Arena)
    requires a.towers.Keys == b.towers.Keys && a.enemies.Keys == b.enemies.Keys
    requires forall t :: t in a.towers ==> a.towers[t].attackers == b.towers[t].attackers
    requires forall e :: e in a.enemies ==> a.enemies[e].target == b.enemies[e].target
    requires a.organ.attackers == b.organ.attackers
    ensures AttackersLinked(a) <==> AttackersLinked(b)
  {
  }

  /** Closed only reads the tables' keys and the units' references. */
  lemma ClosedFrame(a: Arena, b: Arena)
    requires a.towers.Keys == b.towers.Keys && a.enemies.Keys == b.enemies.Keys
    requires forall t :: t in a.towers ==> a.towers[t].target == b.towers[t].target && a.towers[t].attackers == b.towers[t].attackers
    requires forall e :: e in a.enemies ==> a.enemies[e].target == b.enemies[e].target && a.enemies[e].targetedBy == b.enemies[e].targetedBy
    requires a.organ.attackers == b.organ.attackers
    ensures Closed(a) <==> Closed(b)
  {
  }
}
