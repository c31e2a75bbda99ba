/**
 * A pooled projectile (src/game/entities/Projectile.ts). It is created
 * inactive, `fire` arms it, and `recycleProjectile` disarms it for reuse; on
 * every frame `update` recycles it once it leaves the screen margin or flies
 * past its range. Motion itself belongs to the physics engine: the velocity a
 * shot receives is a parameter here, and the position changes only through
 * `SetPosition`.
 */
module Projectiles {
  import opened Wrappers
  import opened Geometry

  /** The speed a projectile starts with, and the default of `fire`. */
  const DefaultSpeed := 1200
  /** How far outside the screen a projectile may fly before it is recycled. */
  const ScreenMargin := 50

  /** `maxRange := range > 0 ? range : 0`: a non-positive range means "no limit". */
  function RangeLimit(range: int): (r: nat)
    ensures r > 0 <==> range > 0
    ensures r > 0 ==> r == range
  {
    if range > 0 then range else 0
  }

  /** The bounds test of `update`: outside [-50, width+50] x [-50, height+50]. */
  predicate OutOfBounds(p: Pos, width: int, height: int)
  {
    p.y < -ScreenMargin || p.y > height + ScreenMargin || p.x < -ScreenMargin || p.x > width + ScreenMargin
  }

  /** The range test of `update`: a positive range, and farther than it from the firing point. */
  predicate BeyondRange(p: Pos, origin: Pos, maxRange: nat)
  {
    maxRange > 0 && FartherThan(p, origin, maxRange)
  }

  /** A projectile on the screen is never recycled for range when it was fired without one,
      which is how towers fire. */
  lemma UnlimitedShotStaysUntilOffScreen(p: Pos, origin: Pos, range: int, width: int, height: int)
    requires range <= 0 && !OutOfBounds(p, width, height)
    ensures !(OutOfBounds(p, width, height) || BeyondRange(p, origin, RangeLimit(range)))
  {
  }

  /** A shot with a positive range that flies along a horizontal line is recycled exactly when
      it is more than that range away from where it was fired. */
  lemma {:induction false} RangedShotAlongLine(x0: int, d: nat, y: int, range: int)
    requires range > 0
    ensures BeyondRange(Pos(x0 + d, y), Pos(x0, y), RangeLimit(range)) <==> d > range
    ensures BeyondRange(Pos(x0 - d, y), Pos(x0, y), RangeLimit(range)) <==> d > range
  {
    assert DistSq(Pos(x0 + d, y), Pos(x0, y)) == DistSq(Pos(d, y), Pos(0, y));
    assert DistSq(Pos(x0 - d, y), Pos(x0, y)) == DistSq(Pos(d, y), Pos(0, y));
    FartherOnLine(d, range, y);
  }

  class Projectile {
    var pos: Pos
    var velocity: Pos
    var active: bool
    var visible: bool
    var speed: int
    var damage: int
    /** Where the shot was aimed: the target's position or, against the boundary line, a point on it. */
    var target: Option<Pos>
    var isEnemyProjectile: bool
    var origin: Pos
    var maxRange: nat

    /** `new Projectile(scene, x, y)`: parked, inactive and invisible, until a `fire`. The
        firing point is only read after a `fire` has set it; it starts at the position. */
    constructor (p: Pos)
      ensures pos == p && velocity == Pos(0, 0) && origin == p
      ensures !active && !visible
      ensures speed == DefaultSpeed && damage == 0 && target == None
      ensures !isEnemyProjectile && maxRange == 0
    {
      pos := p;
      velocity := Pos(0, 0);
      active := false;
      visible := false;
      speed := DefaultSpeed;
      damage := 0;
      target := None;
      isEnemyProjectile := false;
      origin := p;
      maxRange := 0;
    }

    /** `getDamage()` */
    function GetDamage(): int
      reads this
    {
      damage
    }

    /** The state `recycleProjectile` leaves: parked, with no aim and no faction. */
    predicate Recycled()
      reads this
    {
      !active && !visible && velocity == Pos(0, 0) && target == None && !isEnemyProjectile
    }

    /** Whether `update` recycles the projectile where it is now. */
    predicate ShouldRecycle(width: int, height: int)
      reads this
    {
      OutOfBounds(pos, width, height) || BeyondRange(pos, origin, maxRange)
    }

    /** Phaser's setPosition, used by the pool and standing for the physics engine's motion. */
    method SetPosition(p: Pos)
      modifies this
      ensures pos == p
      ensures velocity == old(velocity) && active == old(active) && visible == old(visible)
      ensures speed == old(speed) && damage == old(damage) && target == old(target)
      ensures isEnemyProjectile == old(isEnemyProjectile) && origin == old(origin) && maxRange == old(maxRange)
    {
      pos := p;
    }

    /** `fire(target, damage, speed, isEnemyProjectile, range)`: records the shot, fires it from
        where the projectile stands, and arms it. `heading` is the velocity the physics engine's
        moveToObject gives it. */
    method Fire(aim: Pos, damage: int, speed: int, isEnemy: bool, range: int, heading: Pos)
      modifies this
      ensures target == Some(aim) && GetDamage() == damage && this.speed == speed
      ensures isEnemyProjectile == isEnemy && maxRange == RangeLimit(range)
      ensures pos == old(pos) && origin == old(pos)
      ensures active && visible && velocity == heading
    {
      target := Some(aim);
      this.damage := damage;
      this.speed := speed;
      isEnemyProjectile := isEnemy;
      origin := pos;
      maxRange := RangeLimit(range);
      active := true;
      visible := true;
      velocity := heading;
    }

    /** `recycleProjectile()`: parks the projectile. Damage, speed, the firing point and the range
        of the last shot are left in place. */
    method Recycle()
      modifies this
      ensures Recycled()
      ensures pos == old(pos) && speed == old(speed) && damage == old(damage)
      ensures origin == old(origin) && maxRange == old(maxRange)
    {
      active := false;
      visible := false;
      velocity := Pos(0, 0);
      target := None;
      isEnemyProjectile := false;
    }

    /** `update()`: an inactive projectile is left alone; an active one is recycled when it is
        off the screen or past its range, and otherwise keeps flying. */
    method Update(width: int, height: int)
      modifies this
      ensures old(active) && old(ShouldRecycle(width, height)) ==> Recycled()
      ensures !(old(active) && old(ShouldRecycle(width, height))) ==> unchanged(this)
      ensures pos == old(pos) && speed == old(speed) && damage == old(damage)
      ensures origin == old(origin) && maxRange == old(maxRange)
    {
      if !active {
        return;
      }
      if OutOfBounds(pos, width, height) {
        Recycle();
        return;
      }
      if maxRange > 0 {
        if FartherThan(pos, origin, maxRange) {
          Recycle();
        }
      }
    }
  }
}
