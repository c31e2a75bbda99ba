/**
 * The immune organ (src/game/entities/ImmuneOrgan.ts): the player's base. It
 * levels up, generates resources on a one-second timer, and takes damage
 * without the dead-entity guard the other units have. It is never destroyed:
 * at zero hit points it becomes invisible and its physics body is disabled,
 * and nothing in the game enables that body again.
 */
module Organs {
  import opened Geometry
  import opened Entity
  import opened Units

  datatype OrganConfig = OrganConfig(
    initialLevel: int,
    maxLevel: int,
    upgradeCost: int,
    baseHp: int,
    hpPerLevel: int,
    baseResourceGen: int,
    resourceGenPerLevel: int,
    attractionSlots: nat)

  datatype Organ = Organ(
    active: bool,
    visible: bool,
    bodyEnabled: bool,
    hp: int,
    maxHp: int,
    pos: Pos,
    config: OrganConfig,
    level: int,
    attackers: set<EnemyId>,
    resourceGenTimer: int)

  /** The interval of the resource timer, in milliseconds. */
  const ResourceGenInterval := 1000

  /** `calculateMaxHp()`: a linear function of the level. */
  function MaxHpAt(c: OrganConfig, level: int): (r: int)
    ensures level == 1 ==> r == c.baseHp
    ensures c.hpPerLevel >= 0 && level >= 1 ==> r >= c.baseHp
  {
    c.baseHp + c.hpPerLevel * (level - 1)
  }

  /** `calculateResourceGen()`: a linear function of the level. */
  function ResourceGenAt(c: OrganConfig, level: int): (r: int)
    ensures level == 1 ==> r == c.baseResourceGen
    ensures c.resourceGenPerLevel >= 0 && level >= 1 ==> r >= c.baseResourceGen
  {
    c.baseResourceGen + c.resourceGenPerLevel * (level - 1)
  }

  /** Each level adds exactly hpPerLevel to maxHp and resourceGenPerLevel to the generation rate. */
  lemma {:induction false} LevelStep(c: OrganConfig, level: int)
    ensures MaxHpAt(c, level + 1) == MaxHpAt(c, level) + c.hpPerLevel
    ensures ResourceGenAt(c, level + 1) == ResourceGenAt(c, level) + c.resourceGenPerLevel
  {
    calc {
      MaxHpAt(c, level + 1);
      c.baseHp + c.hpPerLevel * level;
      c.baseHp + c.hpPerLevel * (level - 1) + c.hpPerLevel;
    }
    calc {
      ResourceGenAt(c, level + 1);
      c.baseResourceGen + c.resourceGenPerLevel * level;
      c.baseResourceGen + c.resourceGenPerLevel * (level - 1) + c.resourceGenPerLevel;
    }
  }

  /** The constructor: level from the configuration, hp == maxHp == calculateMaxHp(). */
  function NewOrgan(pos: Pos, c: OrganConfig): (o: Organ)
    ensures o.active && o.visible && o.bodyEnabled && o.level == c.initialLevel
    ensures o.hp == o.maxHp == MaxHpAt(c, c.initialLevel)
    ensures o.attackers == {} && o.resourceGenTimer == 0
  {
    var hp := MaxHpAt(c, c.initialLevel);
    Organ(true, true, true, hp, hp, pos, c, c.initialLevel, {}, 0)
  }

  /** `canUpgrade()` */
  predicate CanUpgrade(o: Organ)
  {
    o.level < o.config.maxLevel
  }

  /** `upgrade()`: the returned flag and the organ afterwards. */
  function Upgrade(o: Organ): (r: (bool, Organ))
    ensures r.0 <==> CanUpgrade(o)
    ensures !r.0 ==> r.1 == o
    ensures r.0 ==> r.1 == o.(level := o.level + 1, maxHp := MaxHpAt(o.config, o.level + 1), hp := MaxHpAt(o.config, o.level + 1))
  {
    if o.level >= o.config.maxLevel then (false, o)
    else
      var o1 := o.(level := o.level + 1);
      var o2 := o1.(maxHp := MaxHpAt(o1.config, o1.level));
      (true, o2.(hp := o2.maxHp))
  }

  /** However often `upgrade` is called, the level never passes maxLevel once it starts at or below it. */
  lemma UpgradeNeverPassesMax(o: Organ)
    requires o.level <= o.config.maxLevel
    ensures Upgrade(o).1.level <= o.config.maxLevel
    ensures Upgrade(o).1.config == o.config
  {
  }

  /** `isAttractionSlotsFull()` */
  predicate IsOrganSlotsFull(o: Organ)
  {
    |o.attackers| >= o.config.attractionSlots
  }

  /** `addAttacker(enemy)`: a set insertion. */
  function OrganAddAttacker(o: Organ, e: EnemyId): (r: Organ)
    ensures r.attackers == o.attackers + {e}
    ensures r == o.(attackers := r.attackers)
    ensures |r.attackers| <= |o.attackers| + 1
    ensures e in o.attackers ==> r == o
  {
    o.(attackers := o.attackers + {e})
  }

  /** `removeAttacker(enemy)`: a set deletion. */
  function OrganRemoveAttacker(o: Organ, e: EnemyId): (r: Organ)
    ensures r.attackers == o.attackers - {e}
    ensures r == o.(attackers := r.attackers)
    ensures |r.attackers| <= |o.attackers|
    ensures e !in o.attackers ==> r == o
  {
    o.(attackers := o.attackers - {e})
  }

  /** The hit-point part of `receiveDamage`: clamped at zero, and applied even to an organ
      already at zero; at zero the organ turns invisible and its body is disabled, but it stays
      active. */
  function DamageOrgan(o: Organ, damage: int): (r: Organ)
    ensures r.hp == Max(0, o.hp - damage) && r.hp >= 0
    ensures r.active == o.active && r.maxHp == o.maxHp && r.level == o.level && r.attackers == o.attackers
    ensures r.visible == (o.visible && r.hp > 0)
    ensures r.bodyEnabled == (o.bodyEnabled && r.hp > 0)
    ensures r.config == o.config && r.pos == o.pos && r.resourceGenTimer == o.resourceGenTimer
  {
    var o1 := o.(hp := Max(0, o.hp - damage));
    if o1.hp <= 0 then o1.(visible := false, bodyEnabled := false) else o1
  }

  /** Unlike the other units, the organ has no guard: a negative damage value raises hp by its
      size, past maxHp as soon as hp - damage exceeds it, and even on an organ already at zero. */
  lemma NegativeDamageHealsPastMax(o: Organ, d: int)
    requires o.hp >= 0 && d < 0
    ensures DamageOrgan(o, d).hp == o.hp - d > o.hp
    ensures o.hp - d > o.maxHp ==> DamageOrgan(o, d).hp > o.maxHp
  {
  }

  /** What an enemy projectile can touch: Arcade physics reports no overlap for a disabled
      body, and the scene's filter asks for an active organ. */
  predicate Reachable(o: Organ)
  {
    o.active && o.bodyEnabled
  }

  /** The fall is final for shots: whatever the organ goes through afterwards (direct hits,
      upgrades, resource ticks), its body stays disabled and no shot reaches it again, even
      once an upgrade has restored its hit points. */
  lemma {:induction false} FallIsFinal(o: Organ, steps: seq<OrganStep>)
    requires !o.bodyEnabled
    ensures !Reachable(Run(o, steps))
    ensures !Run(o, steps).bodyEnabled
    decreases |steps|
  {
    if steps != [] {
      FallIsFinal(Step(o, steps[0]), steps[1..]);
    }
  }

  /** The resource timer in `update`: whether a resource is generated now, and the new timer. */
  function ResourceTick(o: Organ, time: int): (r: (bool, Organ))
    ensures r.0 <==> o.active && o.visible && o.hp > 0 && time > o.resourceGenTimer
    ensures r.0 ==> r.1 == o.(resourceGenTimer := time + ResourceGenInterval)
    ensures !r.0 ==> r.1 == o
  {
    if !o.active || !o.visible then (false, o)
    else if o.hp <= 0 then (false, o)
    else if time > o.resourceGenTimer then (true, o.(resourceGenTimer := time + ResourceGenInterval))
    else (false, o)
  }

  /** Two resources are generated at least a full interval apart. */
  lemma ResourceTicksAreSpaced(o: Organ, t1: int, t2: int)
    requires ResourceTick(o, t1).0
    requires ResourceTick(ResourceTick(o, t1).1, t2).0
    ensures t2 > t1 + ResourceGenInterval
  {
  }

  /** One thing that can happen to the organ on its own: a direct `receiveDamage`, an
      `upgrade`, or an `update` at some time. */
  datatype OrganStep = Hit(damage: int) | LevelUp | Tick(time: int)

  function Step(o: Organ, s: OrganStep): (r: Organ)
    ensures r.bodyEnabled ==> o.bodyEnabled
  {
    match s
    case Hit(d) => DamageOrgan(o, d)
    case LevelUp => Upgrade(o).1
    case Tick(t) => ResourceTick(o, t).1
  }

  /** The organ after a run of steps, first to last. */
  function Run(o: Organ, steps: seq<OrganStep>): Organ
    decreases |steps|
  {
    if steps == [] then o else Run(Step(o, steps[0]), steps[1..])
  }
}
