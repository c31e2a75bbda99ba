/**
 * Where a placement puts towers (GameScene.placeTower, deploySingleTower and
 * deployMultipleTowers) and what the new towers do to the arena: each joins
 * the tower table under a fresh id, and then, tower by tower, the enemies
 * near it search again.
 */
module Placement {
  import opened Wrappers
  import opened Geometry
  import opened Units
  import opened Arenas
  import T = Targeting
  import K = Combat

  /** The distance between towers of one placement. */
  const Spacing := 60
  /** The margin the bounds check of `deployMultipleTowers` keeps from every edge. */
  const FieldMargin := 30

  /** `towerConfig.deployCount || 1`: an absent or zero count means one tower. */
  function DeployCount(c: TowerConfig): (r: int)
    ensures r == 1 <==> c.deployCount.None? || c.deployCount.value == 0 || c.deployCount.value == 1
    ensures r != 1 ==> c.deployCount == Some(r)
  {
    match c.deployCount
    case None => 1
    case Some(n) => if n == 0 then 1 else n
  }

  /** Position i of a placement of `count` towers around `center`: side by side 60 apart for two,
      a triangle for three, and for more the i-th point of a circle of radius 60, which
      `ringOffset(i, count)` gives (its trigonometry is not modelled). */
  function FormationSpot(center: Pos, count: int, i: nat, ringOffset: (nat, int) -> Pos): Pos
  {
    if count == 1 then center
    else if count == 2 then Pos(center.x + (if i == 0 then -Spacing / 2 else Spacing / 2), center.y)
    else if count == 3 then
      (if i == 0 then Pos(center.x, center.y - Spacing * 6 / 10)
       else if i == 1 then Pos(center.x - Spacing / 2, center.y + Spacing * 3 / 10)
       else Pos(center.x + Spacing / 2, center.y + Spacing * 3 / 10))
    else Pos(center.x + ringOffset(i, count).x, center.y + ringOffset(i, count).y)
  }

  /** The positions the loop of `deployMultipleTowers` computes, in order. */
  function Formation(center: Pos, count: int, ringOffset: (nat, int) -> Pos): (r: seq<Pos>)
    ensures |r| == if count < 0 then 0 else count
    ensures forall i :: 0 <= i < |r| ==> r[i] == FormationSpot(center, count, i, ringOffset)
  {
    seq(if count < 0 then 0 else count, i requires 0 <= i => FormationSpot(center, count, i, ringOffset))
  }

  /** The bounds check: at least 30 inside the game area on every side. */
  predicate InField(p: Pos, gameWidth: int, height: int)
  {
    !(p.x < FieldMargin || p.x > gameWidth - FieldMargin || p.y < FieldMargin || p.y > height - FieldMargin)
  }

  /** The positions that pass the bounds check, in order; the others are skipped. */
  function FieldSpots(ps: seq<Pos>, gameWidth: int, height: int): (r: seq<Pos>)
    ensures forall p :: p in r <==> p in ps && InField(p, gameWidth, height)
    ensures |r| <= |ps|
    decreases |ps|
  {
    if ps == [] then []
    else
      var last := ps[|ps| - 1];
      FieldSpots(ps[..|ps| - 1], gameWidth, height) + (if InField(last, gameWidth, height) then [last] else [])
  }

  /** `placeTower(x, y, type)`: a count of one goes to `deploySingleTower`, which has no bounds
      check; any other count goes through the formation and the bounds check. */
  function PlacedSpots(p: Pos, c: TowerConfig, gameWidth: int, height: int, ringOffset: (nat, int) -> Pos): (r: seq<Pos>)
    ensures DeployCount(c) == 1 ==> r == [p]
    ensures DeployCount(c) != 1 ==> forall q :: q in r ==> InField(q, gameWidth, height)
    ensures |r| <= if DeployCount(c) < 1 then 0 else DeployCount(c)
  {
    var n := DeployCount(c);
    if n == 1 then [p] else FieldSpots(Formation(p, n, ringOffset), gameWidth, height)
  }

  /** A formation of two or three towers keeps within 30 of the centre horizontally and 36
      vertically, so around a centre that far inside the field nothing is skipped. */
  lemma {:induction false} SmallFormationsFitInside(center: Pos, count: int, gameWidth: int, height: int, ringOffset: (nat, int) -> Pos)
    requires count == 2 || count == 3
    requires center.x - Spacing / 2 >= FieldMargin && center.x + Spacing / 2 <= gameWidth - FieldMargin
    requires center.y - Spacing * 6 / 10 >= FieldMargin && center.y + Spacing * 6 / 10 <= height - FieldMargin
    ensures FieldSpots(Formation(center, count, ringOffset), gameWidth, height) == Formation(center, count, ringOffset)
  {
    var ps := Formation(center, count, ringOffset);
    AllInFieldKept(ps, gameWidth, height);
  }

  /** When every position passes the bounds check, none is skipped. */
  lemma {:induction false} AllInFieldKept(ps: seq<Pos>, gameWidth: int, height: int)
    requires forall i :: 0 <= i < |ps| ==> InField(ps[i], gameWidth, height)
    ensures FieldSpots(ps, gameWidth, height) == ps
    decreases |ps|
  {
    if ps != [] {
      var init := ps[..|ps| - 1];
      assert forall i :: 0 <= i < |init| ==> init[i] == ps[i];
      AllInFieldKept(init, gameWidth, height);
      assert init + [ps[|ps| - 1]] == ps;
    }
  }

  /** Near the top edge the top tower of a triangle is skipped: only two of three towers are
      placed, although the whole cost is charged. */
  lemma TopEdgeTriangleLosesOne(ringOffset: (nat, int) -> Pos)
    ensures |FieldSpots(Formation(Pos(100, 40), 3, ringOffset), 600, 600)| == 2
  {
    var ps := Formation(Pos(100, 40), 3, ringOffset);
    assert ps[0] == Pos(100, 4) && ps[1] == Pos(70, 58) && ps[2] == Pos(130, 58);
    var p2, p1 := ps[..2], ps[..1];
    assert p2[..1] == p1 && p1[..0] == [];
    assert FieldSpots(p1, 600, 600) == [];
    assert FieldSpots(p2, 600, 600) == [ps[1]];
    assert ps[..|ps| - 1] == p2;
    assert FieldSpots(ps, 600, 600) == [ps[1], ps[2]];
  }

  /** A single tower is placed wherever the click lands inside the game area, even on its edge,
      where a tower of a formation would be skipped. */
  lemma SingleTowerSkipsBoundsCheck(c: TowerConfig, ringOffset: (nat, int) -> Pos)
    requires c.deployCount.None?
    ensures PlacedSpots(Pos(0, 0), c, 600, 600, ringOffset) == [Pos(0, 0)]
    ensures !InField(Pos(0, 0), 600, 600)
  {
  }

  /** The towers of a placement join the table in order under the ids first, first + 1, ... */
  function Joined(a: Arena, first: nat, spots: seq<Pos>, c: TowerConfig): (r: Arena)
    requires Closed(a) && forall k :: k in a.towers ==> k < first
    ensures Closed(r) && r.enemies == a.enemies && r.organ == a.organ
    ensures forall k :: k in r.towers ==> k < first + |spots|
    decreases |spots|
  {
    if spots == [] then a
    else
      var n := |spots| - 1;
      var a1 := Joined(a, first, spots[..n], c);
      K.JoinTower(a1, first + n, NewTower(spots[n], c))
  }

  /** After a placement the table holds the old towers, unchanged, and the new ones under the
      ids first, ..., first + |spots| - 1, the i-th a fresh tower at the i-th position. */
  lemma {:induction false} JoinedContents(a: Arena, first: nat, spots: seq<Pos>, c: TowerConfig)
    requires Closed(a) && forall k :: k in a.towers ==> k < first
    ensures var r := Joined(a, first, spots, c);
      (forall k :: k in r.towers <==> k in a.towers || first <= k < first + |spots|)
      && (forall k :: k in a.towers ==> r.towers[k] == a.towers[k])
      && (forall i :: 0 <= i < |spots| ==> r.towers[first + i] == NewTower(spots[i], c))
    decreases |spots|
  {
    if spots != [] {
      var n := |spots| - 1;
      JoinedContents(a, first, spots[..n], c);
      assert forall i :: 0 <= i < n ==> spots[..n][i] == spots[i];
    }
  }

  /** Joining keeps the links two-way and every slot cap: a new tower has no lock either way. */
  lemma {:induction false} JoinedKeepsInvariants(a: Arena, first: nat, spots: seq<Pos>, c: TowerConfig)
    requires Closed(a) && forall k :: k in a.towers ==> k < first
    ensures Linked(a) ==> Linked(Joined(a, first, spots, c))
    ensures SlotsRespected(a) ==> SlotsRespected(Joined(a, first, spots, c))
    decreases |spots|
  {
    if spots != [] {
      var n := |spots| - 1;
      JoinedKeepsInvariants(a, first, spots[..n], c);
      var a1 := Joined(a, first, spots[..n], c);
      assert first + n !in a1.towers;
      K.JoinTowerKeepsInvariants(a1, first + n, NewTower(spots[n], c));
    }
  }

  /** After the new towers are recorded, the enemies near each of them, tower by tower, search again. */
  function NotifyAll(a: Arena, group: seq<EnemyId>, spots: seq<Pos>, towerList: seq<TowerId>): (r: Arena)
    requires Closed(a) && T.AllDefenders(a, T.Candidates(towerList))
    requires forall e :: e in group ==> e in a.enemies
    ensures Closed(r) && r.towers.Keys == a.towers.Keys && r.enemies.Keys == a.enemies.Keys
    decreases |spots|
  {
    if spots == [] then a
    else
      var n := |spots| - 1;
      var a1 := NotifyAll(a, group, spots[..n], towerList);
      assert T.AllDefenders(a1, T.Candidates(towerList));
      T.NotifyNearby(a1, group, spots[n], towerList)
  }

  /** All those searches keep the links two-way. */
  lemma {:induction false} NotifyAllKeepsLinked(a: Arena, group: seq<EnemyId>, spots: seq<Pos>, towerList: seq<TowerId>)
    requires Closed(a) && Linked(a) && T.AllDefenders(a, T.Candidates(towerList))
    requires forall e :: e in group ==> e in a.enemies
    ensures Linked(NotifyAll(a, group, spots, towerList))
    decreases |spots|
  {
    if spots != [] {
      var n := |spots| - 1;
      NotifyAllKeepsLinked(a, group, spots[..n], towerList);
      var a1 := NotifyAll(a, group, spots[..n], towerList);
      assert T.AllDefenders(a1, T.Candidates(towerList));
      T.NotifyNearbyKeepsLinked(a1, group, spots[n], towerList);
    }
  }

  /** The ids the towers of a placement receive, in order. */
  function Ids(first: nat, n: nat): (r: seq<TowerId>)
    ensures |r| == n && forall i :: 0 <= i < n ==> r[i] == first + i
  {
    if n == 0 then [] else Ids(first, n - 1) + [first + n - 1]
  }

  /** The ids of a placement are exactly first, ..., first + n - 1. */
  lemma IdsMembers(first: nat, n: nat)
    ensures forall k :: k in Ids(first, n) <==> first <= k < first + n
  {
    var r := Ids(first, n);
    forall k | first <= k < first + n
      ensures k in r
    {
      assert r[k - first] == k;
    }
  }

  /** A whole placement: the towers join, the target list is rebuilt as `towerList`, and the
      enemies near each new tower search again. */
  function Deploy(a: Arena, first: nat, spots: seq<Pos>, c: TowerConfig, group: seq<EnemyId>, towerList: seq<TowerId>): (r: Arena)
    requires Closed(a) && forall k :: k in a.towers ==> k < first
    requires forall e :: e in group ==> e in a.enemies
    requires forall t :: t in towerList ==> t in a.towers || first <= t < first + |spots|
    ensures Closed(r) && r.enemies.Keys == a.enemies.Keys
    ensures forall k :: k in r.towers <==> k in a.towers || first <= k < first + |spots|
  {
    var a1 := Joined(a, first, spots, c);
    JoinedContents(a, first, spots, c);
    T.ListedTowersAreDefenders(a1, towerList);
    NotifyAll(a1, group, spots, towerList)
  }

  /** A placement keeps the links two-way. */
  lemma DeployKeepsLinked(a: Arena, first: nat, spots: seq<Pos>, c: TowerConfig, group: seq<EnemyId>, towerList: seq<TowerId>)
    requires Closed(a) && Linked(a) && forall k :: k in a.towers ==> k < first
    requires forall e :: e in group ==> e in a.enemies
    requires forall t :: t in towerList ==> t in a.towers || first <= t < first + |spots|
    ensures Linked(Deploy(a, first, spots, c, group, towerList))
  {
    var a1 := Joined(a, first, spots, c);
    JoinedContents(a, first, spots, c);
    JoinedKeepsInvariants(a, first, spots, c);
    T.ListedTowersAreDefenders(a1, towerList);
    NotifyAllKeepsLinked(a1, group, spots, towerList);
  }

  /** One more position of the formation: kept at the end if it passes the bounds check. */
  lemma FieldSpotsStep(ps: seq<Pos>, i: nat, gameWidth: int, height: int)
    requires i < |ps|
    ensures FieldSpots(ps[..i + 1], gameWidth, height)
      == FieldSpots(ps[..i], gameWidth, height) + (if InField(ps[i], gameWidth, height) then [ps[i]] else [])
  {
    assert ps[..i + 1][..i] == ps[..i];
  }

  /** One more tower joins after the others. */
  lemma JoinedStep(a: Arena, first: nat, spots: seq<Pos>, q: Pos, c: TowerConfig)
    requires Closed(a) && forall k :: k in a.towers ==> k < first
    ensures first + |spots| !in Joined(a, first, spots, c).towers
    ensures Joined(a, first, spots + [q], c) == K.JoinTower(Joined(a, first, spots, c), first + |spots|, NewTower(q, c))
  {
    var longer := spots + [q];
    assert longer[..|longer| - 1] == spots && longer[|longer| - 1] == q;
  }

  /** One more tower's neighbourhood searches after the others'. */
  lemma NotifyAllStep(a: Arena, group: seq<EnemyId>, spots: seq<Pos>, j: nat, towerList: seq<TowerId>)
    requires Closed(a) && T.AllDefenders(a, T.Candidates(towerList))
    requires forall e :: e in group ==> e in a.enemies
    requires j < |spots|
    ensures var a1 := NotifyAll(a, group, spots[..j], towerList);
      T.AllDefenders(a1, T.Candidates(towerList)) && (forall e :: e in group ==> e in a1.enemies) &&
      NotifyAll(a, group, spots[..j + 1], towerList) == T.NotifyNearby(a1, group, spots[j], towerList)
  {
    assert spots[..j + 1][..j] == spots[..j];
  }

  /** A placement of one tower: it joins, and the enemies near it search again. */
  lemma DeployOne(a: Arena, first: nat, p: Pos, c: TowerConfig, group: seq<EnemyId>, towerList: seq<TowerId>)
    requires Closed(a) && forall k :: k in a.towers ==> k < first
    requires forall e :: e in group ==> e in a.enemies
    requires forall t :: t in towerList ==> t in a.towers || t == first
    ensures var a1 := K.JoinTower(a, first, NewTower(p, c));
      T.AllDefenders(a1, T.Candidates(towerList)) &&
      Deploy(a, first, [p], c, group, towerList) == T.NotifyNearby(a1, group, p, towerList)
  {
    assert [p][..0] == [];
    var a1 := K.JoinTower(a, first, NewTower(p, c));
    assert Joined(a, first, [p], c) == a1;
    T.ListedTowersAreDefenders(a1, towerList);
    assert NotifyAll(a1, group, [p], towerList) == T.NotifyNearby(a1, group, p, towerList);
  }

  /** What a click in the scene leads to. */
  datatype Outcome =
    | OutsideField      // right of the game area: the selection is dropped
    | NothingSelected   // no tower type chosen (or the empty name)
    | UnknownTower      // a name with no configuration: the cost lookup throws
    | Unaffordable      // too few resources: the selection is dropped, nothing is built
    | Placed(config: TowerConfig)

  /** The decisions of `handlePlacement`, in its order. */
  function Decide(x: int, gameWidth: int, selection: Option<string>, catalogue: map<string, TowerConfig>, resources: int): (r: Outcome)
    ensures r == OutsideField <==> x > gameWidth
    ensures r.Placed? <==> x <= gameWidth && selection.Some? && selection.value != "" && selection.value in catalogue
                           && resources >= catalogue[selection.value].cost
    ensures r.Placed? ==> r.config == catalogue[selection.value] && resources >= r.config.cost
    ensures r == UnknownTower ==> selection.Some? && selection.value !in catalogue
    ensures r == NothingSelected <==> x <= gameWidth && (selection.None? || selection.value == "")
  {
    if x > gameWidth then OutsideField
    else if selection.None? || selection.value == "" then NothingSelected
    else if selection.value !in catalogue then UnknownTower
    else if resources >= catalogue[selection.value].cost then Placed(catalogue[selection.value])
    else Unaffordable
  }
}
