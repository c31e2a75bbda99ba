/**
 * `Enemy.findTarget`: among the scene's target list (the towers recorded at
 * the last `updateAllTargets`, then the organ) pick the nearest one that is
 * active and whose attraction slots are not full; the strict `<` of the
 * running minimum keeps the earliest on ties. Without such a candidate the
 * enemy falls back to the organ if it is active, with no slot check.
 */
module Targeting {
  import opened Wrappers
  import opened Geometry
  import opened Units
  import opened Organs
  import opened Arenas
  import opened Links

  /** `getAllTargets()`: the recorded towers in order, then the organ. */
  function Candidates(towerList: seq<TowerId>): (r: seq<EnemyTarget>)
    ensures |r| == |towerList| + 1 && r[|towerList|] == AtOrgan
    ensures forall i :: 0 <= i < |towerList| ==> r[i] == AtTower(towerList[i])
  {
    seq(|towerList| + 1, i requires 0 <= i <= |towerList| =>
      if i < |towerList| then AtTower(towerList[i]) else AtOrgan)
  }

  /** Every candidate names a defender of the arena. */
  predicate AllDefenders(a: Arena, cs: seq<EnemyTarget>)
  {
    forall i :: 0 <= i < |cs| ==> IsDefender(a, cs[i])
  }

  /** The filter of the search loop: active, and `isAttractionSlotsFull()` false. */
  predicate Open(a: Arena, c: EnemyTarget)
  {
    match c
    case AtTower(t) => t in a.towers && a.towers[t].body.active && !IsAttractionSlotsFull(a.towers[t])
    case AtOrgan => a.organ.active && !IsOrganSlotsFull(a.organ)
    case AtBoundary(_) => false
  }

  function PosOf(a: Arena, c: EnemyTarget): Pos
    requires IsDefender(a, c)
  {
    match c
    case AtTower(t) => a.towers[t].pos
    case AtOrgan => a.organ.pos
  }

  /** Squared distance from p to candidate i. */
  function Dist(a: Arena, p: Pos, cs: seq<EnemyTarget>, i: nat): int
    requires AllDefenders(a, cs) && i < |cs|
  {
    DistSq(p, PosOf(a, cs[i]))
  }

  /** The index the search loop ends with after the first n candidates: the running minimum
      is replaced only by an open candidate strictly closer than the current best. */
  function Nearest(a: Arena, p: Pos, cs: seq<EnemyTarget>, n: nat): (r: Option<nat>)
    requires AllDefenders(a, cs) && n <= |cs|
    ensures r.None? <==> forall j :: 0 <= j < n ==> !Open(a, cs[j])
    ensures r.Some? ==> r.value < n && Open(a, cs[r.value])
    ensures r.Some? ==> forall j :: 0 <= j < n && Open(a, cs[j]) ==> Dist(a, p, cs, r.value) <= Dist(a, p, cs, j)
    ensures r.Some? ==> forall j :: 0 <= j < r.value && Open(a, cs[j]) ==> Dist(a, p, cs, j) > Dist(a, p, cs, r.value)
    decreases n
  {
    if n == 0 then None
    else
      var best := Nearest(a, p, cs, n - 1);
      if Open(a, cs[n - 1]) && (best.None? || Dist(a, p, cs, n - 1) < Dist(a, p, cs, best.value))
      then Some(n - 1)
      else best
  }

  /** The choice is determined: an index that is open, no farther than any open candidate, and
      strictly nearer than every open candidate before it, is the one the search returns. */
  lemma NearestIsUnique(a: Arena, p: Pos, cs: seq<EnemyTarget>, k: nat)
    requires AllDefenders(a, cs) && k < |cs| && Open(a, cs[k])
    requires forall j :: 0 <= j < |cs| && Open(a, cs[j]) ==> Dist(a, p, cs, k) <= Dist(a, p, cs, j)
    requires forall j :: 0 <= j < k && Open(a, cs[j]) ==> Dist(a, p, cs, j) > Dist(a, p, cs, k)
    ensures Nearest(a, p, cs, |cs|) == Some(k)
  {
    var r := Nearest(a, p, cs, |cs|);
    assert r.Some?;
    var m := r.value;
    if m < k {
      assert false;
    } else if m > k {
      assert false;
    }
  }

  /** `findTarget()`: lock onto the nearest open candidate, else fall back to an active organ
      regardless of its slots, else change nothing. */
  function FindTarget(a: Arena, e: EnemyId, towerList: seq<TowerId>): (r: Arena)
    requires Closed(a) && e in a.enemies && AllDefenders(a, Candidates(towerList))
    ensures r.towers.Keys == a.towers.Keys && r.enemies.Keys == a.enemies.Keys
    ensures forall x :: x in a.enemies && x != e ==> r.enemies[x].target == a.enemies[x].target
    ensures Closed(r)
  {
    var cs := Candidates(towerList);
    match Nearest(a, a.enemies[e].pos, cs, |cs|)
    case Some(k) => EnemySetTargetKeepsClosed(a, e, cs[k]); EnemySetTarget(a, e, cs[k])
    case None => if a.organ.active then EnemySetTargetKeepsClosed(a, e, AtOrgan); EnemySetTarget(a, e, AtOrgan) else a
  }

  /** What `findTarget` locks onto, if anything. */
  function Choice(a: Arena, e: EnemyId, towerList: seq<TowerId>): (r: Option<EnemyTarget>)
    requires e in a.enemies && AllDefenders(a, Candidates(towerList))
    ensures r.Some? ==> IsDefender(a, r.value)
    ensures r.Some? && Open(a, r.value) ==> r.value in Candidates(towerList)
    ensures r.None? <==> !a.organ.active && forall j :: 0 <= j < |towerList| + 1 ==> !Open(a, Candidates(towerList)[j])
  {
    var cs := Candidates(towerList);
    match Nearest(a, a.enemies[e].pos, cs, |cs|)
    case Some(k) => Some(cs[k])
    case None => if a.organ.active then Some(AtOrgan) else None
  }

  /** `findTarget` is `setTarget` on its choice. */
  lemma FindTargetIsChoice(a: Arena, e: EnemyId, towerList: seq<TowerId>)
    requires Closed(a) && e in a.enemies && AllDefenders(a, Candidates(towerList))
    ensures var c := Choice(a, e, towerList);
      FindTarget(a, e, towerList) == if c.Some? then EnemySetTarget(a, e, c.value) else a
  {
  }

  /** `findTarget` keeps both kinds of lock two-way. */
  lemma FindTargetKeepsLinked(a: Arena, e: EnemyId, towerList: seq<TowerId>)
    requires Closed(a) && Linked(a) && e in a.enemies && AllDefenders(a, Candidates(towerList))
    ensures Closed(FindTarget(a, e, towerList)) && Linked(FindTarget(a, e, towerList))
  {
    var c := Choice(a, e, towerList);
    if c.Some? {
      EnemySetTargetKeepsClosed(a, e, c.value);
      EnemySetTargetKeepsLinked(a, e, c.value);
    }
  }

  /** When some candidate is open, the lock `findTarget` takes keeps every slot cap. */
  lemma FindTargetOpenChoiceKeepsSlots(a: Arena, e: EnemyId, towerList: seq<TowerId>, j: nat)
    requires Closed(a) && SlotsRespected(a) && e in a.enemies && AllDefenders(a, Candidates(towerList))
    requires j <= |towerList| && Open(a, Candidates(towerList)[j])
    ensures SlotsRespected(FindTarget(a, e, towerList))
  {
    var cs := Candidates(towerList);
    var n := Nearest(a, a.enemies[e].pos, cs, |cs|);
    assert n.Some? by { assert Open(a, cs[j]); }
    var k := n.value;
    assert FindTarget(a, e, towerList) == EnemySetTarget(a, e, cs[k]);
    GuardedEnemyLockKeepsSlots(a, e, cs[k]);
  }

  /** The fallback takes no notice of the organ's slots: when no candidate is open and the organ
      is active, an enemy searching is added to the organ's attackers even when they already
      fill its cap. */
  lemma FallbackIgnoresOrganSlots(a: Arena, e: EnemyId, towerList: seq<TowerId>)
    requires Closed(a) && e in a.enemies && AllDefenders(a, Candidates(towerList))
    requires forall j :: 0 <= j < |Candidates(towerList)| ==> !Open(a, Candidates(towerList)[j])
    requires a.organ.active
    requires |a.organ.attackers| == a.organ.config.attractionSlots && e !in a.organ.attackers
    ensures FindTarget(a, e, towerList).enemies[e].target == Some(AtOrgan)
    ensures |FindTarget(a, e, towerList).organ.attackers| == a.organ.config.attractionSlots + 1
    ensures !SlotsRespected(FindTarget(a, e, towerList))
  {
    var cs := Candidates(towerList);
    assert Nearest(a, a.enemies[e].pos, cs, |cs|).None?;
    var r := FindTarget(a, e, towerList);
    assert r == EnemySetTarget(a, e, AtOrgan);
    assert r.organ.attackers == a.organ.attackers + {e};
  }

  /** The organ stays a candidate, and the fallback, at zero hit points: it is never made
      inactive, so an enemy that searches locks onto it even after it has fallen. */
  lemma FallenOrganIsStillChosen(a: Arena, e: EnemyId)
    requires Closed(a) && e in a.enemies && a.organ.active && a.organ.hp == 0
    requires a.enemies[e].target == None
    ensures FindTarget(a, e, []).enemies[e].target == Some(AtOrgan)
  {
    assert Candidates([]) == [AtOrgan];
  }

  /** Every tower of a list drawn from the table is a defender, and so is every candidate. */
  lemma ListedTowersAreDefenders(a: Arena, towerList: seq<TowerId>)
    requires forall t :: t in towerList ==> t in a.towers
    ensures AllDefenders(a, Candidates(towerList))
  {
    var cs := Candidates(towerList);
    forall i | 0 <= i < |cs|
      ensures IsDefender(a, cs[i])
    {
      if i < |towerList| {
        assert towerList[i] in towerList;
      }
    }
  }

  /** The radius within which a new tower makes enemies search again. */
  const SensingRadius := 200

  /** `notifyNearbyEnemiesOfNewTower(tower)`: in the enemy group's order, every active enemy
      strictly closer than 200 to the new tower runs `findTarget`. */
  function NotifyNearby(a: Arena, ids: seq<EnemyId>, spot: Pos, towerList: seq<TowerId>): (r: Arena)
    requires Closed(a) && AllDefenders(a, Candidates(towerList))
    requires forall e :: e in ids ==> e in a.enemies
    ensures Closed(r) && r.towers.Keys == a.towers.Keys && r.enemies.Keys == a.enemies.Keys
    decreases |ids|
  {
    if ids == [] then a
    else
      var init := ids[..|ids| - 1];
      assert forall e :: e in init ==> e in ids;
      var a1 := NotifyNearby(a, init, spot, towerList);
      var e := ids[|ids| - 1];
      assert AllDefenders(a1, Candidates(towerList));
      if a1.enemies[e].body.active && DistSq(a1.enemies[e].pos, spot) < SensingRadius * SensingRadius
      then FindTarget(a1, e, towerList)
      else a1
  }

  /** One more enemy of the group: the walk over a prefix, then that enemy's check. */
  lemma NotifyNearbyStep(a: Arena, ids: seq<EnemyId>, i: nat, spot: Pos, towerList: seq<TowerId>)
    requires Closed(a) && AllDefenders(a, Candidates(towerList))
    requires forall e :: e in ids ==> e in a.enemies
    requires i < |ids|
    ensures forall e :: e in ids[..i] ==> e in a.enemies
    ensures forall e :: e in ids[..i + 1] ==> e in a.enemies
    ensures var a1 := NotifyNearby(a, ids[..i], spot, towerList);
      AllDefenders(a1, Candidates(towerList)) && ids[i] in a1.enemies &&
      NotifyNearby(a, ids[..i + 1], spot, towerList) ==
        if a1.enemies[ids[i]].body.active && DistSq(a1.enemies[ids[i]].pos, spot) < SensingRadius * SensingRadius
        then FindTarget(a1, ids[i], towerList)
        else a1
  {
    assert ids[..i + 1][..i] == ids[..i];
    assert forall e :: e in ids[..i + 1] ==> e in ids;
  }

  /** Waking the nearby enemies keeps the links two-way. */
  lemma {:induction false} NotifyNearbyKeepsLinked(a: Arena, ids: seq<EnemyId>, spot: Pos, towerList: seq<TowerId>)
    requires Closed(a) && Linked(a) && AllDefenders(a, Candidates(towerList))
    requires forall e :: e in ids ==> e in a.enemies
    ensures Linked(NotifyNearby(a, ids, spot, towerList))
    decreases |ids|
  {
    if ids != [] {
      var init := ids[..|ids| - 1];
      assert forall e :: e in init ==> e in ids;
      NotifyNearbyKeepsLinked(a, init, spot, towerList);
      var a1 := NotifyNearby(a, init, spot, towerList);
      assert AllDefenders(a1, Candidates(towerList));
      FindTargetKeepsLinked(a1, ids[|ids| - 1], towerList);
    }
  }
}
