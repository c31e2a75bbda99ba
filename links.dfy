/**
 * The lock operations of Tower.ts and Enemy.ts on the arena value:
 * `Tower.setTarget` / `clearTarget` (tower → enemy locks, mirrored in the
 * enemy's `targetedBy`) and `Enemy.setTarget` / `clearTarget` (enemy →
 * defender locks, mirrored in the defender's `attackers`), plus the direct
 * assignment of the boundary line in `Enemy.update`.
 */
module Links {
  import opened Wrappers
  import opened Entity
  import opened Units
  import opened Organs
  import opened Arenas

  /** The `targetedBy` set of enemy `me` after a tower whose lock was `prev` locks onto `e`:
      `setTarget` removes it from a different old target and adds it to the new one. */
  function Relock(s: set<TowerId>, t: TowerId, prev: Option<EnemyId>, e: EnemyId, me: EnemyId): (r: set<TowerId>)
    ensures t in r <==> e == me || (t in s && prev != Some(me))
    ensures forall u :: u != t ==> (u in r <==> u in s)
  {
    if e == me then s + {t}
    else if prev == Some(me) then s - {t}
    else s
  }

  /** `Tower.setTarget(enemy)`. No slot check is made here. */
  function TowerSetTarget(a: Arena, t: TowerId, e: EnemyId): (r: Arena)
    requires Closed(a) && t in a.towers && e in a.enemies
    ensures r.towers == a.towers[t := a.towers[t].(target := Some(e))]
    ensures r.organ == a.organ && r.enemies.Keys == a.enemies.Keys
    ensures forall x :: x in a.enemies ==>
      r.enemies[x] == a.enemies[x].(targetedBy := Relock(a.enemies[x].targetedBy, t, a.towers[t].target, e, x))
  {
    var prev := a.towers[t].target;
    Arena(
      a.towers[t := a.towers[t].(target := Some(e))],
      map x | x in a.enemies :: a.enemies[x].(targetedBy := Relock(a.enemies[x].targetedBy, t, prev, e, x)),
      a.organ)
  }

  /** The `targetedBy` set of enemy `me` after a tower whose lock was `prev` calls `clearTarget`. */
  function Unlock(s: set<TowerId>, t: TowerId, prev: Option<EnemyId>, me: EnemyId): (r: set<TowerId>)
    ensures t in r <==> t in s && prev != Some(me)
    ensures forall u :: u != t ==> (u in r <==> u in s)
  {
    if prev == Some(me) then s - {t} else s
  }

  /** `Tower.clearTarget()`: a no-op without a target. */
  function TowerClearTarget(a: Arena, t: TowerId): (r: Arena)
    requires Closed(a) && t in a.towers
    ensures a.towers[t].target == None ==> r == a
    ensures r.towers == a.towers[t := a.towers[t].(target := None)]
    ensures r.organ == a.organ && r.enemies.Keys == a.enemies.Keys
    ensures forall x :: x in a.enemies ==>
      r.enemies[x] == a.enemies[x].(targetedBy := Unlock(a.enemies[x].targetedBy, t, a.towers[t].target, x))
  {
    var prev := a.towers[t].target;
    if prev.Some? then
      Arena(
        a.towers[t := a.towers[t].(target := None)],
        map x | x in a.enemies :: a.enemies[x].(targetedBy := Unlock(a.enemies[x].targetedBy, t, prev, x)),
        a.organ)
    else
      assert a.towers[t := a.towers[t].(target := None)] == a.towers;
      assert forall x :: x in a.enemies ==> a.enemies[x].(targetedBy := Unlock(a.enemies[x].targetedBy, t, prev, x)) == a.enemies[x];
      a
  }

  /** A defender the arena can hold a lock on: a tower of the table, or the organ. */
  predicate IsDefender(a: Arena, g: EnemyTarget)
  {
    match g
    case AtTower(t) => t in a.towers
    case AtOrgan => true
    case AtBoundary(_) => false
  }

  /** The attackers of defender `me` after an enemy moves its lock from `prev` to `g`:
      `setTarget` removes it from a different old defender and adds it to the new one. */
  function Rejoin(s: set<EnemyId>, e: EnemyId, prev: Option<EnemyTarget>, g: EnemyTarget, me: EnemyTarget): (r: set<EnemyId>)
    ensures e in r <==> g == me || (e in s && prev != Some(me))
    ensures forall x :: x != e ==> (x in r <==> x in s)
  {
    if g == me then s + {e}
    else if prev == Some(me) then s - {e}
    else s
  }

  /** `Enemy.setTarget(target)`: leaves a different old defender, joins the new one's attackers,
      and switches to 'moving'. No slot check is made here. */
  function EnemySetTarget(a: Arena, e: EnemyId, g: EnemyTarget): (r: Arena)
    requires Closed(a) && e in a.enemies && IsDefender(a, g)
    ensures r.enemies == a.enemies[e := a.enemies[e].(target := Some(g), mode := Moving)]
    ensures r.towers.Keys == a.towers.Keys
    ensures forall t :: t in a.towers ==>
      r.towers[t] == a.towers[t].(attackers := Rejoin(a.towers[t].attackers, e, a.enemies[e].target, g, AtTower(t)))
    ensures r.organ == a.organ.(attackers := Rejoin(a.organ.attackers, e, a.enemies[e].target, g, AtOrgan))
  {
    var prev := a.enemies[e].target;
    Arena(
      map t | t in a.towers :: a.towers[t].(attackers := Rejoin(a.towers[t].attackers, e, prev, g, AtTower(t))),
      a.enemies[e := a.enemies[e].(target := Some(g), mode := Moving)],
      a.organ.(attackers := Rejoin(a.organ.attackers, e, prev, g, AtOrgan)))
  }

  /** The attackers of defender `me` after an enemy whose lock was `prev` calls `clearTarget`. */
  function Leave(s: set<EnemyId>, e: EnemyId, prev: Option<EnemyTarget>, me: EnemyTarget): (r: set<EnemyId>)
    ensures e in r <==> e in s && prev != Some(me)
    ensures forall x :: x != e ==> (x in r <==> x in s)
  {
    if prev == Some(me) then s - {e} else s
  }

  /** `Enemy.clearTarget()`: a no-op without a target. The boundary line object is not part of
      the modelled code; leaving it changes nothing here. */
  function EnemyClearTarget(a: Arena, e: EnemyId): (r: Arena)
    requires Closed(a) && e in a.enemies
    ensures a.enemies[e].target == None ==> r == a
    ensures r.enemies == a.enemies[e := a.enemies[e].(target := None)]
    ensures r.towers.Keys == a.towers.Keys
    ensures forall t :: t in a.towers ==>
      r.towers[t] == a.towers[t].(attackers := Leave(a.towers[t].attackers, e, a.enemies[e].target, AtTower(t)))
    ensures r.organ == a.organ.(attackers := Leave(a.organ.attackers, e, a.enemies[e].target, AtOrgan))
  {
    var prev := a.enemies[e].target;
    if prev.Some? then
      Arena(
        map t | t in a.towers :: a.towers[t].(attackers := Leave(a.towers[t].attackers, e, prev, AtTower(t))),
        a.enemies[e := a.enemies[e].(target := None)],
        a.organ.(attackers := Leave(a.organ.attackers, e, prev, AtOrgan)))
    else
      assert a.enemies[e := a.enemies[e].(target := None)] == a.enemies;
      a
  }

  /** The boundary branch of `Enemy.update`: `target` is overwritten with the boundary line and
      the state becomes 'attacking', without leaving the old defender's attackers. */
  function BoundaryAssign(a: Arena, e: EnemyId, line: Geometry.Pos): (r: Arena)
    requires e in a.enemies
    ensures r.enemies == a.enemies[e := a.enemies[e].(target := Some(AtBoundary(line)), mode := Attacking)]
    ensures r.towers == a.towers && r.organ == a.organ
  {
    a.(enemies := a.enemies[e := a.enemies[e].(target := Some(AtBoundary(line)), mode := Attacking)])
  }

  // ---- Closedness is kept ------------------------------------------------

  lemma TowerSetTargetKeepsClosed(a: Arena, t: TowerId, e: EnemyId)
    requires Closed(a) && t in a.towers && e in a.enemies
    ensures Closed(TowerSetTarget(a, t, e))
  {
    var r := TowerSetTarget(a, t, e);
    forall x | x in r.enemies ensures EnemyRefsIn(r.towers.Keys, r.enemies[x]) {
      assert EnemyRefsIn(a.towers.Keys, a.enemies[x]);
    }
  }

  lemma TowerClearTargetKeepsClosed(a: Arena, t: TowerId)
    requires Closed(a) && t in a.towers
    ensures Closed(TowerClearTarget(a, t))
  {
    var r := TowerClearTarget(a, t);
    forall x | x in r.enemies ensures EnemyRefsIn(r.towers.Keys, r.enemies[x]) {
      assert EnemyRefsIn(a.towers.Keys, a.enemies[x]);
    }
  }

  lemma EnemySetTargetKeepsClosed(a: Arena, e: EnemyId, g: EnemyTarget)
    requires Closed(a) && e in a.enemies && IsDefender(a, g)
    ensures Closed(EnemySetTarget(a, e, g))
  {
    var r := EnemySetTarget(a, e, g);
    forall t | t in r.towers ensures TowerRefsIn(r.enemies.Keys, r.towers[t]) {
      assert TowerRefsIn(a.enemies.Keys, a.towers[t]);
    }
  }

  lemma EnemyClearTargetKeepsClosed(a: Arena, e: EnemyId)
    requires Closed(a) && e in a.enemies
    ensures Closed(EnemyClearTarget(a, e))
  {
    var r := EnemyClearTarget(a, e);
    forall t | t in r.towers ensures TowerRefsIn(r.enemies.Keys, r.towers[t]) {
      assert TowerRefsIn(a.enemies.Keys, a.towers[t]);
    }
  }

  lemma BoundaryAssignKeepsClosed(a: Arena, e: EnemyId, line: Geometry.Pos)
    requires Closed(a) && e in a.enemies
    ensures Closed(BoundaryAssign(a, e, line))
  {
    var r := BoundaryAssign(a, e, line);
    forall x | x in r.enemies ensures EnemyRefsIn(r.towers.Keys, r.enemies[x]) {
      assert EnemyRefsIn(a.towers.Keys, a.enemies[x]);
    }
  }

  // ---- Two-way links are kept by setTarget and clearTarget ---------------

  /** `Tower.setTarget` keeps both kinds of lock two-way. */
  lemma TowerSetTargetKeepsLinked(a: Arena, t: TowerId, e: EnemyId)
    requires Closed(a) && Linked(a) && t in a.towers && e in a.enemies
    ensures Linked(TowerSetTarget(a, t, e))
  {
    var r := TowerSetTarget(a, t, e);
    AttackersFrame(a, r);
    forall x, u | x in r.enemies && u in r.enemies[x].targetedBy
      ensures u in r.towers && r.towers[u].target == Some(x)
    {
      if u != t {
        assert u in a.enemies[x].targetedBy;
      }
    }
  }

  /** `Tower.clearTarget` keeps both kinds of lock two-way, and afterwards no enemy lists the tower. */
  lemma TowerClearTargetKeepsLinked(a: Arena, t: TowerId)
    requires Closed(a) && Linked(a) && t in a.towers
    ensures Linked(TowerClearTarget(a, t))
    ensures forall x :: x in a.enemies ==> t !in TowerClearTarget(a, t).enemies[x].targetedBy
  {
    var r := TowerClearTarget(a, t);
    AttackersFrame(a, r);
    forall x, u | x in r.enemies && u in r.enemies[x].targetedBy
      ensures u in r.towers && r.towers[u].target == Some(x)
    {
      assert u in a.enemies[x].targetedBy;
    }
  }

  /** `Enemy.setTarget` keeps both kinds of lock two-way. */
  lemma EnemySetTargetKeepsLinked(a: Arena, e: EnemyId, g: EnemyTarget)
    requires Closed(a) && Linked(a) && e in a.enemies && IsDefender(a, g)
    ensures Linked(EnemySetTarget(a, e, g))
  {
    var r := EnemySetTarget(a, e, g);
    TowerLocksFrame(a, r);
    EnemySetTargetTowerSide(a, e, g, r);
    EnemySetTargetOrganSide(a, e, g, r);
  }

  lemma EnemySetTargetTowerSide(a: Arena, e: EnemyId, g: EnemyTarget, r: Arena)
    requires Closed(a) && Linked(a) && e in a.enemies && IsDefender(a, g)
    requires r == EnemySetTarget(a, e, g)
    ensures forall x :: x in r.enemies && r.enemies[x].target.Some? && r.enemies[x].target.value.AtTower? ==>
       r.enemies[x].target.value.tower in r.towers && x in r.towers[r.enemies[x].target.value.tower].attackers
    ensures forall u, x :: u in r.towers && x in r.towers[u].attackers ==>
       x in r.enemies && r.enemies[x].target == Some(AtTower(u))
  {
    forall x | x in r.enemies && r.enemies[x].target.Some? && r.enemies[x].target.value.AtTower?
      ensures r.enemies[x].target.value.tower in r.towers && x in r.towers[r.enemies[x].target.value.tower].attackers
    {
      var u := r.enemies[x].target.value.tower;
      if x != e {
        assert a.enemies[x].target == r.enemies[x].target;
        assert x in a.towers[u].attackers;
      } else {
        assert g == AtTower(u);
      }
    }
    forall u, x | u in r.towers && x in r.towers[u].attackers
      ensures x in r.enemies && r.enemies[x].target == Some(AtTower(u))
    {
      if x != e {
        assert x in a.towers[u].attackers;
        assert a.enemies[x].target == Some(AtTower(u));
      } else if g != AtTower(u) {
        assert false;
      }
    }
  }

  lemma EnemySetTargetOrganSide(a: Arena, e: EnemyId, g: EnemyTarget, r: Arena)
    requires Closed(a) && Linked(a) && e in a.enemies && IsDefender(a, g)
    requires r == EnemySetTarget(a, e, g)
    ensures forall x :: x in r.enemies && r.enemies[x].target == Some(AtOrgan) ==> x in r.organ.attackers
    ensures forall x :: x in r.organ.attackers ==> x in r.enemies && r.enemies[x].target == Some(AtOrgan)
  {
    forall x | x in r.enemies && r.enemies[x].target == Some(AtOrgan)
      ensures x in r.organ.attackers
    {
      if x != e {
        assert a.enemies[x].target == r.enemies[x].target;
      }
    }
    forall x | x in r.organ.attackers
      ensures x in r.enemies && r.enemies[x].target == Some(AtOrgan)
    {
      if x != e {
        assert x in a.organ.attackers;
      }
    }
  }

  /** `Enemy.clearTarget` keeps both kinds of lock two-way, and afterwards no defender lists the enemy. */
  lemma EnemyClearTargetKeepsLinked(a: Arena, e: EnemyId)
    requires Closed(a) && Linked(a) && e in a.enemies
    ensures Linked(EnemyClearTarget(a, e))
    ensures forall t :: t in a.towers ==> e !in EnemyClearTarget(a, e).towers[t].attackers
    ensures e !in EnemyClearTarget(a, e).organ.attackers
  {
    var r := EnemyClearTarget(a, e);
    TowerLocksFrame(a, r);
    forall u, x | u in r.towers && x in r.towers[u].attackers
      ensures x in r.enemies && r.enemies[x].target == Some(AtTower(u))
    {
      assert x in a.towers[u].attackers;
    }
    forall x | x in r.organ.attackers
      ensures x in r.enemies && r.enemies[x].target == Some(AtOrgan)
    {
      assert x in a.organ.attackers;
    }
  }

  /** The boundary assignment does break the pairing: an enemy attacking a tower that reaches the
      line keeps its place in the tower's attackers while targeting the line. */
  lemma BoundaryAssignBreaksLinked()
    ensures exists a: Arena, e: EnemyId :: e in a.enemies && Closed(a) && Linked(a) && !Linked(BoundaryAssign(a, e, Geometry.Pos(0, 0)))
  {
    var tc := TowerConfig(10, 100, 500, 1, 1200, 2, 50, None);
    var ec := EnemyConfig(10, 50, 5, 1, 30, 1000, 2);
    var tw := NewTower(Geometry.Pos(0, 0), tc).(attackers := {0});
    var en := NewEnemy(Geometry.Pos(5, 0), ec).(target := Some(AtTower(0)));
    var oc := OrganConfig(1, 5, 100, 100, 20, 2, 1, 3);
    var a := Arena(map[0 := tw], map[0 := en], Organ(true, true, true, 100, 100, Geometry.Pos(500, 0), oc, 1, {}, 0));
    assert Linked(a);
    var r := BoundaryAssign(a, 0, Geometry.Pos(0, 0));
    assert 0 in r.towers[0].attackers && r.enemies[0].target != Some(AtTower(0));
    assert Closed(a);
  }

  // ---- Slot caps ----------------------------------------------------------

  /** The range handler's guarded lock (`canTarget` first, then `setTarget`) keeps every slot cap. */
  lemma GuardedTowerLockKeepsSlots(a: Arena, t: TowerId, e: EnemyId)
    requires Closed(a) && SlotsRespected(a) && t in a.towers && e in a.enemies
    requires CanBeTargeted(a.enemies[e])
    ensures SlotsRespected(TowerSetTarget(a, t, e))
  {
    var r := TowerSetTarget(a, t, e);
    forall x | x in r.enemies ensures |r.enemies[x].targetedBy| <= r.enemies[x].config.targetedBySlots {
      if x != e {
        assert r.enemies[x].targetedBy <= a.enemies[x].targetedBy;
        SubsetCard(r.enemies[x].targetedBy, a.enemies[x].targetedBy);
      }
    }
  }

  /** A lock onto a defender whose slots are not full keeps every slot cap. */
  lemma GuardedEnemyLockKeepsSlots(a: Arena, e: EnemyId, g: EnemyTarget)
    requires Closed(a) && SlotsRespected(a) && e in a.enemies && IsDefender(a, g)
    requires g.AtTower? ==> !IsAttractionSlotsFull(a.towers[g.tower])
    requires g.AtOrgan? ==> !IsOrganSlotsFull(a.organ)
    ensures SlotsRespected(EnemySetTarget(a, e, g))
  {
    var r := EnemySetTarget(a, e, g);
    forall t | t in r.towers ensures |r.towers[t].attackers| <= r.towers[t].config.attractionSlots {
      if g != AtTower(t) {
        SubsetCard(r.towers[t].attackers, a.towers[t].attackers);
      }
    }
    if g != AtOrgan {
      SubsetCard(r.organ.attackers, a.organ.attackers);
    }
  }

  lemma SubsetCard<T>(s: set<T>, u: set<T>)
    requires s <= u
    ensures |s| <= |u|
  {
    if s != {} {
      var x :| x in s;
      SubsetCard(s - {x}, u - {x});
    }
  }

  /** `Enemy.setTarget` does not check slots itself: called on a tower whose slots are full, as the
      collision handler does, it adds the enemy past the cap. */
  lemma UnguardedEnemyLockCanOverfill(a: Arena, e: EnemyId, t: TowerId)
    requires Closed(a) && e in a.enemies && t in a.towers
    requires |a.towers[t].attackers| == a.towers[t].config.attractionSlots && e !in a.towers[t].attackers
    ensures |EnemySetTarget(a, e, AtTower(t)).towers[t].attackers| == a.towers[t].config.attractionSlots + 1
    ensures !SlotsRespected(EnemySetTarget(a, e, AtTower(t)))
  {
    var r := EnemySetTarget(a, e, AtTower(t));
    assert r.towers[t].attackers == a.towers[t].attackers + {e};
  }

  /** `Tower.setTarget` does not check slots itself either: a tower locking onto an enemy whose
      `targetedBySlots` are full adds itself past the cap. */
  lemma UnguardedTowerLockCanOverfill(a: Arena, t: TowerId, e: EnemyId)
    requires Closed(a) && t in a.towers && e in a.enemies
    requires |a.enemies[e].targetedBy| == a.enemies[e].config.targetedBySlots && t !in a.enemies[e].targetedBy
    ensures |TowerSetTarget(a, t, e).enemies[e].targetedBy| == a.enemies[e].config.targetedBySlots + 1
    ensures !SlotsRespected(TowerSetTarget(a, t, e))
  {
    var r := TowerSetTarget(a, t, e);
    assert r.enemies[e].targetedBy == a.enemies[e].targetedBy + {t};
  }
}
