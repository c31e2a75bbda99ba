/**
 * The two kinds of combat unit as values: a tower (src/game/entities/Tower.ts)
 * and an enemy (src/game/entities/Enemy.ts). Cross-object references are held
 * as ids into the scene's tables, so a tower's `target` is an enemy id and an
 * enemy's `targetedBy` is a set of tower ids.
 */
module Units {
  import opened Wrappers
  import opened Geometry
  import opened Entity

  type TowerId = nat
  type EnemyId = nat

  /** The tower statistics read from the unit catalogue. */
  datatype TowerConfig = TowerConfig(
    hp: int,
    range: nat,
    fireRate: int,
    damage: int,
    projectileSpeed: int,
    attractionSlots: nat,
    cost: int,
    deployCount: Option<int>)

  datatype Tower = Tower(
    body: Vitals,
    pos: Pos,
    config: TowerConfig,
    target: Option<EnemyId>,
    nextFire: int,
    attackers: set<EnemyId>)

  /** `new Tower(scene, x, y, config)`: full health, no target, no attackers, nextFire 0. */
  function NewTower(pos: Pos, config: TowerConfig): (t: Tower)
    ensures t.body == Spawn(config.hp) && t.pos == pos && t.config == config
    ensures t.target == None && t.attackers == {} && t.nextFire == 0
  {
    Tower(Spawn(config.hp), pos, config, None, 0, {})
  }

  /** `Tower.isAttractionSlotsFull()` */
  predicate IsAttractionSlotsFull(t: Tower)
  {
    |t.attackers| >= t.config.attractionSlots
  }

  /** `Tower.addAttacker(enemy)`: a set insertion. */
  function AddAttacker(t: Tower, e: EnemyId): (r: Tower)
    ensures r.attackers == t.attackers + {e}
    ensures r == t.(attackers := r.attackers)
    ensures |r.attackers| <= |t.attackers| + 1
    ensures e in t.attackers ==> r == t
  {
    t.(attackers := t.attackers + {e})
  }

  /** `Tower.removeAttacker(enemy)`: a set deletion. */
  function RemoveAttacker(t: Tower, e: EnemyId): (r: Tower)
    ensures r.attackers == t.attackers - {e}
    ensures r == t.(attackers := r.attackers)
    ensures |r.attackers| <= |t.attackers|
    ensures e !in t.attackers ==> r == t
  {
    t.(attackers := t.attackers - {e})
  }

  /** The enemy statistics read from the unit catalogue. */
  datatype EnemyConfig = EnemyConfig(
    hp: int,
    speed: int,
    reward: int,
    damage: int,
    attackRange: nat,
    fireRate: int,
    targetedBySlots: nat)

  /** The `state` field of an enemy. */
  datatype Mode = Moving | Attacking

  /** What an enemy's `target` field can point at: a tower, the immune organ,
      or the scene's boundary line, which carries where it stands. */
  datatype EnemyTarget = AtTower(tower: TowerId) | AtOrgan | AtBoundary(line: Pos)

  datatype Enemy = Enemy(
    body: Vitals,
    pos: Pos,
    config: EnemyConfig,
    target: Option<EnemyTarget>,
    mode: Mode,
    nextAttack: int,
    nextSearch: int,
    targetedBy: set<TowerId>)

  /** `new Enemy(scene, x, y, config)`: full health, moving, nothing locked either way. */
  function NewEnemy(pos: Pos, config: EnemyConfig): (e: Enemy)
    ensures e.body == Spawn(config.hp) && e.pos == pos && e.config == config
    ensures e.target == None && e.targetedBy == {} && e.mode == Moving
    ensures e.nextAttack == 0 && e.nextSearch == 0
  {
    Enemy(Spawn(config.hp), pos, config, None, Moving, 0, 0, {})
  }

  /** `Enemy.canBeTargeted()`, which is also `Tower.canTarget(enemy)`. */
  predicate CanBeTargeted(e: Enemy)
  {
    |e.targetedBy| < e.config.targetedBySlots
  }

  /** `Enemy.addTargetedBy(tower)`: a set insertion. */
  function AddTargetedBy(e: Enemy, t: TowerId): (r: Enemy)
    ensures r.targetedBy == e.targetedBy + {t}
    ensures r == e.(targetedBy := r.targetedBy)
    ensures |r.targetedBy| <= |e.targetedBy| + 1
    ensures t in e.targetedBy ==> r == e
  {
    e.(targetedBy := e.targetedBy + {t})
  }

  /** `Enemy.removeTargetedBy(tower)`: a set deletion. */
  function RemoveTargetedBy(e: Enemy, t: TowerId): (r: Enemy)
    ensures r.targetedBy == e.targetedBy - {t}
    ensures r == e.(targetedBy := r.targetedBy)
    ensures |r.targetedBy| <= |e.targetedBy|
    ensures t !in e.targetedBy ==> r == e
  {
    e.(targetedBy := e.targetedBy - {t})
  }

  /** Adding a tower to a lockable enemy keeps it within its slot count; adding one it already has changes nothing. */
  lemma AddTargetedByWithinSlots(e: Enemy, t: TowerId)
    requires CanBeTargeted(e)
    ensures |AddTargetedBy(e, t).targetedBy| <= e.config.targetedBySlots
  {
  }

  /** Adding an attacker to a tower with a free slot keeps it within its slot count. */
  lemma AddAttackerWithinSlots(t: Tower, e: EnemyId)
    requires !IsAttractionSlotsFull(t)
    ensures |AddAttacker(t, e).attackers| <= t.config.attractionSlots
  {
  }
}
