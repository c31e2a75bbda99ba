/**
 * The enemy supply of the game scene (src/game/scenes/GameScene.ts): the wave
 * timers and their time window, `spawnEnemy` on the arena value, and the
 * on-screen test of `hasVisibleEnemies` that gates tower fire.
 */
module Waves {
  import opened Wrappers
  import opened Geometry
  import opened Units
  import opened Arenas
  import T = Targeting
  import K = Combat

  /** One wave of a level: its window in seconds since the game started, the delay of its
      timer in milliseconds, and the kind of enemy it sends. */
  datatype Wave = Wave(startTime: int, endTime: int, interval: int, enemyType: string)

  /** The kind of enemy the scene's fixed two-second test timer sends, whatever the level says. */
  const TestEnemyType := "commonBacteria"
  const TestInterval := 2000
  /** Enemies enter 50 pixels left of the screen. */
  const SpawnX := -50
  /** How far off the screen an enemy still counts as visible. */
  const VisibleMargin := 50

  /** `(this.time.now - this.gameStartTime) / 1000`, a floating-point division in the source. */
  function ElapsedSeconds(now: int, gameStartTime: int): real
  {
    (now - gameStartTime) as real / 1000.0
  }

  /** The test in a wave timer's callback: elapsed seconds within [startTime, endTime]. */
  predicate InWindow(w: Wave, now: int, gameStartTime: int)
  {
    w.startTime as real <= ElapsedSeconds(now, gameStartTime) <= w.endTime as real
  }

  /** The window in whole milliseconds: both ends are included. */
  lemma InWindowInMilliseconds(w: Wave, now: int, gameStartTime: int)
    ensures InWindow(w, now, gameStartTime) <==> w.startTime * 1000 <= now - gameStartTime <= w.endTime * 1000
  {
    var d := now - gameStartTime;
    assert ElapsedSeconds(now, gameStartTime) * 1000.0 == d as real;
    assert (w.startTime * 1000) as real == w.startTime as real * 1000.0;
    assert (w.endTime * 1000) as real == w.endTime as real * 1000.0;
  }

  /** A wave spawns at exactly its start and end second, but not one millisecond after its end. */
  lemma WindowEnds(w: Wave, gameStartTime: int)
    requires w.startTime <= w.endTime
    ensures InWindow(w, gameStartTime + w.startTime * 1000, gameStartTime)
    ensures InWindow(w, gameStartTime + w.endTime * 1000, gameStartTime)
    ensures !InWindow(w, gameStartTime + w.endTime * 1000 + 1, gameStartTime)
  {
    InWindowInMilliseconds(w, gameStartTime + w.startTime * 1000, gameStartTime);
    InWindowInMilliseconds(w, gameStartTime + w.endTime * 1000, gameStartTime);
    InWindowInMilliseconds(w, gameStartTime + w.endTime * 1000 + 1, gameStartTime);
  }

  /** `spawnEnemy` on the arena: the new enemy joins the table under a fresh id and runs
      `findTarget` against the rebuilt target list. */
  function Spawned(a: Arena, id: EnemyId, en: Enemy, towerList: seq<TowerId>): (r: Arena)
    requires Closed(a) && id !in a.enemies && en.target == None && en.targetedBy == {}
    requires forall t :: t in towerList ==> t in a.towers
    ensures Closed(r) && r.towers.Keys == a.towers.Keys && r.enemies.Keys == a.enemies.Keys + {id}
    ensures forall x :: x in a.enemies ==> r.enemies[x].target == a.enemies[x].target
    ensures T.AllDefenders(K.JoinEnemy(a, id, en), T.Candidates(towerList))
    ensures r.enemies[id].target == T.Choice(K.JoinEnemy(a, id, en), id, towerList)
    ensures r.enemies[id].pos == en.pos && r.enemies[id].config == en.config
  {
    var a1 := K.JoinEnemy(a, id, en);
    T.ListedTowersAreDefenders(a1, towerList);
    T.FindTargetIsChoice(a1, id, towerList);
    T.FindTarget(a1, id, towerList)
  }

  /** Spawning keeps every lock two-way. */
  lemma SpawnedKeepsLinked(a: Arena, id: EnemyId, en: Enemy, towerList: seq<TowerId>)
    requires Closed(a) && id !in a.enemies && en.target == None && en.targetedBy == {}
    requires forall t :: t in towerList ==> t in a.towers
    requires Linked(a)
    ensures Linked(Spawned(a, id, en, towerList))
  {
    var a1 := K.JoinEnemy(a, id, en);
    K.JoinEnemyKeepsInvariants(a, id, en);
    T.ListedTowersAreDefenders(a1, towerList);
    T.FindTargetKeepsLinked(a1, id, towerList);
  }

  /** The test of `hasVisibleEnemies` for one enemy: active and strictly inside the screen
      widened by 50 on every side. */
  predicate OnScreen(en: Enemy, width: int, height: int)
  {
    en.body.active
    && -VisibleMargin < en.pos.x < width + VisibleMargin
    && -VisibleMargin < en.pos.y < height + VisibleMargin
  }

  /** A newly spawned enemy does not count as visible: it stands at x = -50 and the test is
      strict. */
  lemma SpawnIsNotOnScreen(en: Enemy, width: int, height: int)
    requires en.pos.x == SpawnX
    ensures !OnScreen(en, width, height)
  {
  }
}
