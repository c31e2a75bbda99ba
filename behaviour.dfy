/**
 * One call of `Enemy.update` (src/game/entities/Enemy.ts) on the arena value:
 * the two goal branches at the right edge of the game area, the target search
 * gate, the switch from 'moving' to 'attacking' within attack range, and
 * `attackTarget`. What the call does outside the arena (damage to the player,
 * the delayed goal callback, a projectile launch) is returned beside it, for
 * the scene to carry out. The scene's boundary line is an optional object no
 * shown file defines; it is a parameter here.
 */
module Behaviour {
  import opened Wrappers
  import opened Geometry
  import opened Entity
  import opened Units
  import opened Arenas
  import L = Links
  import T = Targeting
  import K = Combat

  /** The scene's `boundaryLine`, when present: where it stands and whether it counts as active. */
  datatype BoundaryLine = BoundaryLine(pos: Pos, active: bool)

  function BoundaryActive(b: Option<BoundaryLine>): bool
  {
    b.Some? && b.value.active
  }

  /** An enemy this close to the right edge of the game area has reached the goal. */
  const GoalMargin := 10
  /** The speed of an enemy's projectile. */
  const EnemyShotSpeed := 400

  /** The arguments `attackTarget` passes to `Projectile.fire`. */
  datatype Shot = Shot(aim: Pos, damage: int, speed: int, isEnemy: bool, range: int)

  /** What one `update` did: the arena afterwards, the damage dealt to the player through the
      scene's `damagePlayer`, whether the legacy goal path scheduled its delayed callback, and the
      projectile `attackTarget` launched. */
  datatype Step = Step(arena: Arena, harm: Option<int>, goal: bool, shot: Option<Shot>)

  predicate AtGoal(en: Enemy, gameWidth: int)
  {
    en.pos.x >= gameWidth - GoalMargin
  }

  /** `this.target.x, this.target.y` */
  function TargetPos(a: Arena, g: EnemyTarget): Pos
    requires g.AtTower? ==> g.tower in a.towers
  {
    match g
    case AtTower(t) => a.towers[t].pos
    case AtOrgan => a.organ.pos
    case AtBoundary(line) => line
  }

  /** Where `attackTarget` aims: a point on the boundary line at the edge of the game area, or
      the defender itself. */
  function AimOf(a: Arena, g: EnemyTarget, gameWidth: int): Pos
    requires g.AtTower? ==> g.tower in a.towers
  {
    if g.AtBoundary? then Pos(gameWidth - GoalMargin, g.line.y) else TargetPos(a, g)
  }

  /** The arena with enemy `e` replaced by a copy that differs only in its own state and timers. */
  function WithEnemy(a: Arena, e: EnemyId, en: Enemy): (r: Arena)
    requires Closed(a) && e in a.enemies
    requires en.target == a.enemies[e].target && en.targetedBy == a.enemies[e].targetedBy
    ensures r == a.(enemies := a.enemies[e := en]) && Closed(r)
  {
    ClosedFrame(a, a.(enemies := a.enemies[e := en]));
    a.(enemies := a.enemies[e := en])
  }

  /** Changing an enemy's state and timers leaves every lock where it was. */
  lemma WithEnemyKeepsLinked(a: Arena, e: EnemyId, en: Enemy)
    requires Closed(a) && e in a.enemies && Linked(a)
    requires en.target == a.enemies[e].target && en.targetedBy == a.enemies[e].targetedBy
    ensures Linked(WithEnemy(a, e, en))
  {
    var r := WithEnemy(a, e, en);
    TowerLocksFrame(a, r);
    AttackersFrame(a, r);
  }

  /** `attackTarget(time)`: with a target and time past nextAttack, the cooldown restarts; a shot
      is launched only when the target is also active, aimed as `AimOf` says, with the enemy's
      damage, speed 400, the enemy faction and the enemy's attack range. */
  function AttackTarget(a: Arena, e: EnemyId, time: int, gameWidth: int, boundaryActive: bool): (r: (Arena, Option<Shot>))
    requires Closed(a) && e in a.enemies
    ensures Closed(r.0) && r.0 == a.(enemies := a.enemies[e := K.AttackCooldown(a.enemies[e], time)])
    ensures var en := a.enemies[e];
      r.1.Some? <==> en.target.Some? && time > en.nextAttack && K.TargetActive(a, en.target.value, boundaryActive)
    ensures var en := a.enemies[e];
      r.1.Some? ==> r.1.value == Shot(AimOf(a, en.target.value, gameWidth), en.config.damage, EnemyShotSpeed, true, en.config.attackRange)
  {
    var en := a.enemies[e];
    var a1 := WithEnemy(a, e, K.AttackCooldown(en, time));
    if en.target.Some? && time > en.nextAttack && K.TargetActive(a, en.target.value, boundaryActive)
    then (a1, Some(Shot(AimOf(a, en.target.value, gameWidth), en.config.damage, EnemyShotSpeed, true, en.config.attackRange)))
    else (a1, None)
  }

  /** The two branches of `update` for an enemy at the goal. Already attacking there, it damages
      the player once its cooldown has passed. Still moving, it takes the boundary line as its
      target, turns to attacking, damages the player and restarts its cooldown; with no boundary
      line, the legacy `damagePlayer` turns it to attacking, damages the player and schedules the
      goal callback, but leaves nextAttack as it was. */
  function GoalStep(a: Arena, e: EnemyId, time: int, boundary: Option<BoundaryLine>): (r: Step)
    requires Closed(a) && e in a.enemies
    ensures Closed(r.arena) && r.shot == None
    ensures r.arena.towers == a.towers && r.arena.organ == a.organ && r.arena.enemies.Keys == a.enemies.Keys
    ensures var en := a.enemies[e];
      r.harm.Some? <==> en.mode == Moving || time > en.nextAttack
    ensures r.harm.Some? ==> r.harm == Some(a.enemies[e].config.damage)
    ensures r.goal <==> a.enemies[e].mode == Moving && boundary.None?
    ensures r.harm.Some? ==> r.arena.enemies[e].mode == Attacking
    ensures r.harm.Some? && !r.goal ==> r.arena.enemies[e].nextAttack == time + a.enemies[e].config.fireRate
    ensures r.goal ==> r.arena.enemies[e].nextAttack == a.enemies[e].nextAttack
    ensures r.arena.enemies[e].pos == a.enemies[e].pos && r.arena.enemies[e].body == a.enemies[e].body
    ensures r.arena.enemies[e].config == a.enemies[e].config
  {
    var en := a.enemies[e];
    if en.mode == Attacking then
      if time > en.nextAttack
      then Step(WithEnemy(a, e, en.(nextAttack := time + en.config.fireRate)), Some(en.config.damage), false, None)
      else Step(a, None, false, None)
    else match boundary
      case Some(line) =>
        L.BoundaryAssignKeepsClosed(a, e, line.pos);
        var a1 := L.BoundaryAssign(a, e, line.pos);
        Step(WithEnemy(a1, e, a1.enemies[e].(nextAttack := time + en.config.fireRate)), Some(en.config.damage), false, None)
      case None =>
        Step(WithEnemy(a, e, en.(mode := Attacking)), Some(en.config.damage), true, None)
  }

  /** The search gate: with no target or an inactive one, and time past nextSearch, `findTarget`
      runs and nextSearch moves 500 ms on. */
  function Search(a: Arena, e: EnemyId, time: int, boundaryActive: bool, towerList: seq<TowerId>): (r: Arena)
    requires Closed(a) && e in a.enemies && T.AllDefenders(a, T.Candidates(towerList))
    ensures Closed(r) && r.towers.Keys == a.towers.Keys && r.enemies.Keys == a.enemies.Keys
    ensures K.SearchDue(a, a.enemies[e], time, boundaryActive) ==>
      r == T.FindTarget(a, e, towerList).(enemies := T.FindTarget(a, e, towerList).enemies[e := T.FindTarget(a, e, towerList).enemies[e].(nextSearch := time + K.SearchInterval)])
    ensures !K.SearchDue(a, a.enemies[e], time, boundaryActive) ==> r == a
    ensures r.enemies[e].pos == a.enemies[e].pos && r.enemies[e].config == a.enemies[e].config
  {
    if K.SearchDue(a, a.enemies[e], time, boundaryActive) then
      var a1 := T.FindTarget(a, e, towerList);
      WithEnemy(a1, e, a1.enemies[e].(nextSearch := time + K.SearchInterval))
    else a
  }

  /** The rest of `update`, away from the goal: the search gate; then a moving enemy with a target
      turns to attacking once the target is within its attack range, and an attacking enemy runs
      `attackTarget`. Motion is left to the physics engine. */
  function AdvanceStep(a: Arena, e: EnemyId, time: int, gameWidth: int, boundaryActive: bool, towerList: seq<TowerId>): (r: Step)
    requires Closed(a) && e in a.enemies && T.AllDefenders(a, T.Candidates(towerList))
    ensures Closed(r.arena) && r.harm == None && !r.goal
    ensures r.arena.towers.Keys == a.towers.Keys && r.arena.enemies.Keys == a.enemies.Keys
    ensures var en := Search(a, e, time, boundaryActive, towerList).enemies[e];
      r.shot.Some? <==> (en.mode == Attacking && en.target.Some? && time > en.nextAttack
        && K.TargetActive(Search(a, e, time, boundaryActive, towerList), en.target.value, boundaryActive))
    ensures r.shot.Some? ==> (r.shot.value.isEnemy && r.shot.value.speed == EnemyShotSpeed
      && r.shot.value.damage == a.enemies[e].config.damage && r.shot.value.range == a.enemies[e].config.attackRange)
  {
    Engage(Search(a, e, time, boundaryActive, towerList), e, time, gameWidth, boundaryActive)
  }

  /** The state machine of `update` after the search gate: a moving enemy with a target turns to
      attacking once the target is within its attack range; an attacking enemy runs
      `attackTarget`. */
  function Engage(a1: Arena, e: EnemyId, time: int, gameWidth: int, boundaryActive: bool): (r: Step)
    requires Closed(a1) && e in a1.enemies
    ensures Closed(r.arena) && r.harm == None && !r.goal
    ensures r.arena.towers == a1.towers && r.arena.organ == a1.organ && r.arena.enemies.Keys == a1.enemies.Keys
  {
    var en := a1.enemies[e];
    if en.mode == Moving && en.target.Some? then
      if FartherThan(en.pos, TargetPos(a1, en.target.value), en.config.attackRange)
      then Step(a1, None, false, None)
      else Step(WithEnemy(a1, e, en.(mode := Attacking)), None, false, None)
    else if en.mode == Attacking then
      var s := AttackTarget(a1, e, time, gameWidth, boundaryActive);
      Step(s.0, None, false, s.1)
    else Step(a1, None, false, None)
  }

  /** `Enemy.update(time, delta)`: nothing for an inactive enemy, the goal branches at the right
      edge, and otherwise the search and state machine. */
  function EnemyStep(a: Arena, e: EnemyId, time: int, gameWidth: int, boundary: Option<BoundaryLine>, towerList: seq<TowerId>): (r: Step)
    requires Closed(a) && e in a.enemies && T.AllDefenders(a, T.Candidates(towerList))
    ensures Closed(r.arena) && r.arena.towers.Keys == a.towers.Keys && r.arena.enemies.Keys == a.enemies.Keys
    ensures !a.enemies[e].body.active ==> r == Step(a, None, false, None)
    ensures r.harm.Some? ==> AtGoal(a.enemies[e], gameWidth) && r.harm == Some(a.enemies[e].config.damage)
    ensures r.shot.Some? ==> !AtGoal(a.enemies[e], gameWidth)
    ensures r.goal ==> boundary.None? && a.enemies[e].mode == Moving && AtGoal(a.enemies[e], gameWidth)
  {
    var en := a.enemies[e];
    if !en.body.active then Step(a, None, false, None)
    else if AtGoal(en, gameWidth) then GoalStep(a, e, time, boundary)
    else AdvanceStep(a, e, time, gameWidth, BoundaryActive(boundary), towerList)
  }

  /** The legacy goal path never restarts the cooldown, so at any later update, which may be
      the second `update` of the same frame (t2 == t1), the enemy, now attacking at the goal
      with nextAttack unchanged, damages the player a second time (and again every fireRate
      until the goal callback destroys it). */
  lemma LegacyGoalHitsTwice(a: Arena, e: EnemyId, t1: int, t2: int, gameWidth: int, towerList: seq<TowerId>)
    requires Closed(a) && e in a.enemies && T.AllDefenders(a, T.Candidates(towerList))
    requires a.enemies[e].body.active && a.enemies[e].mode == Moving && AtGoal(a.enemies[e], gameWidth)
    requires t2 > a.enemies[e].nextAttack
    ensures var s1 := EnemyStep(a, e, t1, gameWidth, None, towerList);
      s1.goal && s1.harm == Some(a.enemies[e].config.damage)
      && T.AllDefenders(s1.arena, T.Candidates(towerList))
      && EnemyStep(s1.arena, e, t2, gameWidth, None, towerList).harm == Some(a.enemies[e].config.damage)
  {
    var s1 := EnemyStep(a, e, t1, gameWidth, None, towerList);
    assert s1 == GoalStep(a, e, t1, None);
    var b := s1.arena;
    assert b.enemies[e] == a.enemies[e].(mode := Attacking);
    assert T.AllDefenders(b, T.Candidates(towerList));
    assert EnemyStep(b, e, t2, gameWidth, None, towerList) == GoalStep(b, e, t2, None);
  }

  /** With a boundary line, damage to the player by one enemy at the goal is spaced by more than
      its fireRate. */
  lemma GoalHarmIsSpaced(a: Arena, e: EnemyId, t1: int, t2: int, gameWidth: int, line: BoundaryLine, towerList: seq<TowerId>)
    requires Closed(a) && e in a.enemies && T.AllDefenders(a, T.Candidates(towerList))
    requires EnemyStep(a, e, t1, gameWidth, Some(line), towerList).harm.Some?
    requires T.AllDefenders(EnemyStep(a, e, t1, gameWidth, Some(line), towerList).arena, T.Candidates(towerList))
    requires EnemyStep(EnemyStep(a, e, t1, gameWidth, Some(line), towerList).arena, e, t2, gameWidth, Some(line), towerList).harm.Some?
    ensures t2 > t1 + a.enemies[e].config.fireRate
  {
    var s1 := EnemyStep(a, e, t1, gameWidth, Some(line), towerList);
    assert s1 == GoalStep(a, e, t1, Some(line));
    var b := s1.arena;
    assert b.enemies[e].body.active && AtGoal(b.enemies[e], gameWidth);
    assert EnemyStep(b, e, t2, gameWidth, Some(line), towerList) == GoalStep(b, e, t2, Some(line));
  }

  /** Away from the goal, one `update` keeps every lock two-way. */
  lemma AdvanceStepKeepsLinked(a: Arena, e: EnemyId, time: int, gameWidth: int, boundaryActive: bool, towerList: seq<TowerId>)
    requires Closed(a) && e in a.enemies && T.AllDefenders(a, T.Candidates(towerList)) && Linked(a)
    ensures Linked(AdvanceStep(a, e, time, gameWidth, boundaryActive, towerList).arena)
  {
    var en := a.enemies[e];
    var a1 := Search(a, e, time, boundaryActive, towerList);
    if K.SearchDue(a, en, time, boundaryActive) {
      T.FindTargetKeepsLinked(a, e, towerList);
      var f := T.FindTarget(a, e, towerList);
      WithEnemyKeepsLinked(f, e, f.enemies[e].(nextSearch := time + K.SearchInterval));
    }
    var en1 := a1.enemies[e];
    if en1.mode == Moving && en1.target.Some? {
      if !FartherThan(en1.pos, TargetPos(a1, en1.target.value), en1.config.attackRange) {
        WithEnemyKeepsLinked(a1, e, en1.(mode := Attacking));
      }
    } else if en1.mode == Attacking {
      WithEnemyKeepsLinked(a1, e, K.AttackCooldown(en1, time));
    }
  }

  /** Away from the goal, or with no boundary line, one `update` keeps every lock two-way; only
      the boundary assignment breaks the pairing. */
  lemma EnemyStepKeepsLinked(a: Arena, e: EnemyId, time: int, gameWidth: int, boundary: Option<BoundaryLine>, towerList: seq<TowerId>)
    requires Closed(a) && e in a.enemies && T.AllDefenders(a, T.Candidates(towerList)) && Linked(a)
    requires boundary.None? || !AtGoal(a.enemies[e], gameWidth)
    ensures Linked(EnemyStep(a, e, time, gameWidth, boundary, towerList).arena)
  {
    var en := a.enemies[e];
    if !en.body.active {
    } else if AtGoal(en, gameWidth) {
      if en.mode == Attacking {
        if time > en.nextAttack {
          WithEnemyKeepsLinked(a, e, en.(nextAttack := time + en.config.fireRate));
        }
      } else {
        WithEnemyKeepsLinked(a, e, en.(mode := Attacking));
      }
    } else {
      AdvanceStepKeepsLinked(a, e, time, gameWidth, BoundaryActive(boundary), towerList);
    }
  }
}
