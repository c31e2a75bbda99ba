/**
 * The hit-point bookkeeping every unit shares (src/game/entities/Entity.ts):
 * an entity is built with hp == maxHp, `receiveDamage` clamps hp at zero, and
 * the subclass's `onDestroy` runs on the call that takes hp to zero.
 */
module Entity {
  /** The part of a Phaser sprite the combat rules look at. `active` also
      stands for "still attached to its scene": Phaser's destroy() clears both. */
  datatype Vitals = Vitals(active: bool, hp: int, maxHp: int)

  function Max(a: int, b: int): int
  {
    if a < b then b else a
  }

  /** The constructor's hit points: hp and maxHp both take the configured value. */
  function Spawn(hp: int): (v: Vitals)
    ensures v.active && v.hp == hp && v.maxHp == hp
    ensures IsAlive(v) <==> hp > 0
  {
    Vitals(true, hp, hp)
  }

  /** `isAlive()` */
  predicate IsAlive(v: Vitals)
  {
    v.hp > 0
  }

  /** The early return at the top of `receiveDamage`. */
  predicate IgnoresDamage(v: Vitals)
  {
    !v.active || v.hp <= 0
  }

  /** `receiveDamage(damage)` as far as the hit points go. */
  function ReceiveDamage(v: Vitals, damage: int): (r: Vitals)
    ensures r.active == v.active && r.maxHp == v.maxHp
    ensures IgnoresDamage(v) ==> r == v
    ensures !IgnoresDamage(v) ==> r.hp >= 0 && r.hp <= Max(0, v.hp - damage) && r.hp >= v.hp - damage
    ensures !IgnoresDamage(v) && damage >= 0 ==> r.hp <= v.hp
  {
    if IgnoresDamage(v) then v else v.(hp := Max(0, v.hp - damage))
  }

  /** Whether this call runs `onDestroy`: it is not ignored and leaves hp at or below zero. */
  predicate Kills(v: Vitals, damage: int)
  {
    !IgnoresDamage(v) && ReceiveDamage(v, damage).hp <= 0
  }

  lemma HpIsClampedAtZero(v: Vitals, damage: int)
    requires !IgnoresDamage(v)
    ensures ReceiveDamage(v, damage).hp == Max(0, v.hp - damage)
    ensures ReceiveDamage(v, damage).hp >= 0
  {
  }

  /** onDestroy runs exactly when the hit takes a live, active entity to zero. */
  lemma KillsIffHpReachesZero(v: Vitals, damage: int)
    ensures Kills(v, damage) <==> v.active && IsAlive(v) && !IsAlive(ReceiveDamage(v, damage))
    ensures Kills(v, damage) ==> ReceiveDamage(v, damage).hp == 0
  {
  }

  /** The hits an entity takes in order. */
  function AfterHits(v: Vitals, hits: seq<int>): (r: Vitals)
    ensures r.active == v.active && r.maxHp == v.maxHp
    decreases |hits|
  {
    if hits == [] then v else AfterHits(ReceiveDamage(v, hits[0]), hits[1..])
  }

  /** How many of those hits run `onDestroy`. */
  function DeathCount(v: Vitals, hits: seq<int>): nat
    decreases |hits|
  {
    if hits == [] then 0
    else (if Kills(v, hits[0]) then 1 else 0) + DeathCount(ReceiveDamage(v, hits[0]), hits[1..])
  }

  /** However many hits arrive, onDestroy runs at most once, and never for an entity already dead or inactive. */
  lemma {:induction false} DiesAtMostOnce(v: Vitals, hits: seq<int>)
    ensures DeathCount(v, hits) <= 1
    ensures IgnoresDamage(v) ==> DeathCount(v, hits) == 0
    decreases |hits|
  {
    if hits != [] {
      var w := ReceiveDamage(v, hits[0]);
      DiesAtMostOnce(w, hits[1..]);
      if Kills(v, hits[0]) {
        assert IgnoresDamage(w);
      }
    }
  }

  /** With non-negative damage, hit points never go up and never go below zero. */
  lemma {:induction false} HitsNeverHeal(v: Vitals, hits: seq<int>)
    requires v.hp >= 0
    requires forall i :: 0 <= i < |hits| ==> hits[i] >= 0
    ensures 0 <= AfterHits(v, hits).hp <= v.hp
    decreases |hits|
  {
    if hits != [] {
      HitsNeverHeal(ReceiveDamage(v, hits[0]), hits[1..]);
    }
  }
}
