# Combat bookkeeping of an immune-system lane-defense game, in Dafny

This project models the part of a Phaser lane-defense game (white blood cells defend an
immune organ against bacteria and viruses) that keeps the books of combat:

- hit points and death of every unit;
- the locks between towers and enemies, which are two-way (a tower's `target` and the
  enemy's `targetedBy`; an enemy's `target` and the defender's `attackers`);
- the attraction slots that limit how many enemies may lock onto one tower;
- the death cascades that release those locks;
- nearest-target selection;
- the projectile pool and the hit handlers;
- damage to the player;
- the placement economy and the formation bounds check;
- the wave time window;
- level progression with its saved progress;
- the tutorial dialogue triggers.

## Layout

The modules follow the game's source files.

| Module | What it covers |
|---|---|
| `Wrappers` | the optional value |
| `Geometry` | integer positions and squared distances |
| `Entity` | `Entity.ts` |
| `Units` | the tower and enemy records of `Tower.ts` and `Enemy.ts` |
| `Organs` | `ImmuneOrgan.ts` |
| `Projectiles` | `Projectile.ts`, as a class |
| `Levels` | `LevelSelectionConfig.ts` |
| `Dialogue` | `DialogueConfig.ts` |
| `Scene` | `GameScene.ts`, as a class |

The scene's combat state is also a value, an `Arena`. It holds a table of towers and a
table of enemies, keyed by id, plus the organ. A reference from one object to another
(`target`, `targetedBy`, `attackers`) is held as an id or a set of ids. `Arenas` defines
two invariants on this value:

- `Closed`: every reference points into the tables;
- `Linked`: every lock is recorded on both sides.

Pure functions on the arena give the effect of each operation:

| Module | Operations |
|---|---|
| `Links` | `setTarget` / `clearTarget` |
| `Cascade` | the `onDestroy` cascades |
| `Targeting` | `findTarget`, `notifyNearbyEnemiesOfNewTower` |
| `Combat` | hits, contact locks, cooldowns |
| `Behaviour` | one `Enemy.update` |
| `Placement` | tower placement |
| `Waves` | spawning and the wave window |

Lemmas next to these functions prove what each one keeps or breaks.

The `Scene.GameScene` class holds the scene's fields and updates them in place. Each of
its methods is proved to leave the arena as the matching pure function says, and to
leave the other fields as stated.

The game does not keep every invariant. In three places the model follows the code as
written and states the break as a lemma:

- the boundary-line assignment in `Enemy.update` breaks `Linked`;
- the collision handler can overfill a tower's attraction slots;
- so can the organ fallback of `findTarget`.

## Model

| member | source | states |
|---|---|---|
| Entity.Spawn | src/game/entities/Entity.ts:12-27 | a new unit is active with hp == maxHp == the configured hp, and is alive exactly when that hp is positive |
| Entity.ReceiveDamage | src/game/entities/Entity.ts:33-46 | an inactive or dead unit ignores the hit; otherwise hp becomes max(0, hp − damage), never negative, and a non-negative hit never raises it; active and maxHp are untouched |
| Entity.HpIsClampedAtZero | src/game/entities/Entity.ts:40 | after a hit hp is exactly max(0, old hp − damage) and never negative |
| Entity.KillsIffHpReachesZero | src/game/entities/Entity.ts:35-45 | `onDestroy` runs exactly when the hit takes a live, active unit to zero, and hp is then 0 |
| Entity.AfterHits | src/game/entities/Entity.ts:33-46 | a run of hits in order never changes `active` or maxHp |
| Entity.DiesAtMostOnce | src/game/entities/Entity.ts:35-45 | however many hits arrive, `onDestroy` runs at most once, and never for a unit already dead or inactive |
| Entity.HitsNeverHeal | src/game/entities/Entity.ts:40 | with non-negative damage, hp never rises across a run of hits and never goes below zero |
| Units.NewTower | src/game/entities/Tower.ts:19-36 | a new tower has full health, the configured statistics, no target, no attackers and nextFire 0 |
| Units.AddAttacker | src/game/entities/Tower.ts:126-128 | the attacker set gains exactly that enemy, grows by at most one, and nothing else of the tower changes |
| Units.RemoveAttacker | src/game/entities/Tower.ts:133-135 | the attacker set loses exactly that enemy and nothing else of the tower changes |
| Units.AddAttackerWithinSlots | src/game/entities/Tower.ts:140-142 | adding an attacker to a tower whose slots are not full keeps it within its attraction slots |
| Units.NewEnemy | src/game/entities/Enemy.ts:30-87 | a new enemy has full health, state 'moving', no target, no locking towers, and both timers at 0 |
| Units.AddTargetedBy | src/game/entities/Enemy.ts:274-276 | the locking-tower set gains exactly that tower and nothing else of the enemy changes |
| Units.RemoveTargetedBy | src/game/entities/Enemy.ts:281-283 | the locking-tower set loses exactly that tower and nothing else of the enemy changes |
| Units.AddTargetedByWithinSlots | src/game/entities/Enemy.ts:288-290 | a lock onto an enemy that `canBeTargeted` keeps it within its targetedBy slots |
| Organs.MaxHpAt | src/game/entities/ImmuneOrgan.ts:52-54 | maxHp is baseHp at level 1 and never below it at higher levels while hpPerLevel is not negative |
| Organs.ResourceGenAt | src/game/entities/ImmuneOrgan.ts:59-61 | the generation rate is baseResourceGen at level 1 and never below it at higher levels while resourceGenPerLevel is not negative |
| Organs.LevelStep | src/game/entities/ImmuneOrgan.ts:52-61 | each level adds exactly hpPerLevel to maxHp and resourceGenPerLevel to the generation rate |
| Organs.NewOrgan | src/game/entities/ImmuneOrgan.ts:15-28 | a new organ starts at the configured level with hp == maxHp == the maxHp of that level, no attackers, and timer 0 |
| Organs.Upgrade | src/game/entities/ImmuneOrgan.ts:78-116 | the upgrade succeeds exactly when level < maxLevel; then the level rises by one and hp and maxHp are both reset to the new level's maxHp; otherwise nothing changes |
| Organs.UpgradeNeverPassesMax | src/game/entities/ImmuneOrgan.ts:79-83 | starting at or below maxLevel, an upgrade never takes the level past maxLevel |
| Organs.OrganAddAttacker | src/game/entities/ImmuneOrgan.ts:142-144 | `addAttacker` is a set insertion: the attackers become the old set plus the enemy, no other field changes, the set grows by at most one, and adding an enemy already present changes nothing |
| Organs.OrganRemoveAttacker | src/game/entities/ImmuneOrgan.ts:149-151 | `removeAttacker` is a set deletion: the attackers lose exactly that enemy, no other field changes, the set never grows, and removing an absent enemy changes nothing |
| Organs.DamageOrgan | src/game/entities/ImmuneOrgan.ts:163-210 | hp becomes max(0, hp − damage) with no dead-organ guard; at zero the organ turns invisible and its physics body is disabled, but it stays active; level, maxHp, attackers, configuration, position and resource timer are unchanged |
| Organs.NegativeDamageHealsPastMax | src/game/entities/ImmuneOrgan.ts:167 | for every organ and every negative damage d, hp rises to hp − d, which passes maxHp whenever hp − d > maxHp, also on an organ already at zero |
| Organs.FallIsFinal | src/game/entities/ImmuneOrgan.ts:184-189 | once its body is disabled, no run of direct hits, upgrades and resource ticks enables it again, so the organ is never reachable by a shot again, even after an upgrade restores its hit points (`upgrade`, lines 78-116, never touches the body) |
| Organs.ResourceTick | src/game/entities/ImmuneOrgan.ts:229-248 | a resource is generated exactly when the organ is active, visible, alive and time > resourceGenTimer; the timer then moves to time + 1000, otherwise nothing changes |
| Organs.ResourceTicksAreSpaced | src/game/entities/ImmuneOrgan.ts:244-247 | two generated resources are more than one interval (1000 ms) apart |
| Arenas.LinkedIsClosed | src/game/entities/Tower.ts:89-114 | an arena whose locks are all two-way has no dangling ids |
| Links.Relock | src/game/entities/Tower.ts:89-104 | an enemy's locking-tower set after a tower retargets: the tower joins the new target's set and leaves a different old target's set, and no other tower changes |
| Links.TowerSetTarget | src/game/entities/Tower.ts:89-104 | the tower's target becomes the enemy; the enemy's locking-tower set gains the tower, a different old target's loses it, and nothing else changes |
| Links.Unlock | src/game/entities/Tower.ts:109-114 | an enemy's locking-tower set after a tower clears its target: only that tower leaves, and only the set of its old target |
| Links.TowerClearTarget | src/game/entities/Tower.ts:109-114 | without a target nothing changes; otherwise the target is cleared and the old target's locking-tower set loses the tower |
| Links.Rejoin | src/game/entities/Enemy.ts:249-259 | a defender's attacker set after an enemy retargets: the enemy joins the new defender and leaves a different old one |
| Links.EnemySetTarget | src/game/entities/Enemy.ts:249-259 | the enemy targets the defender and turns 'moving'; it joins that defender's attackers and leaves a different old defender's |
| Links.Leave | src/game/entities/Enemy.ts:264-269 | a defender's attacker set after an enemy clears its target: only that enemy leaves, and only its old defender's set |
| Links.EnemyClearTarget | src/game/entities/Enemy.ts:264-269 | without a target nothing changes; otherwise the target is cleared and the old defender's attacker set loses the enemy |
| Links.BoundaryAssign | src/game/entities/Enemy.ts:466-471 | at the goal with a boundary line, the target is overwritten with the line and the state becomes 'attacking', with no call to the old defender |
| Links.TowerSetTargetKeepsClosed | src/game/entities/Tower.ts:89-104 | `setTarget` leaves no dangling id |
| Links.TowerClearTargetKeepsClosed | src/game/entities/Tower.ts:109-114 | `clearTarget` leaves no dangling id |
| Links.EnemySetTargetKeepsClosed | src/game/entities/Enemy.ts:249-259 | `setTarget` leaves no dangling id |
| Links.EnemyClearTargetKeepsClosed | src/game/entities/Enemy.ts:264-269 | `clearTarget` leaves no dangling id |
| Links.BoundaryAssignKeepsClosed | src/game/entities/Enemy.ts:466-471 | the boundary assignment leaves no dangling id |
| Links.TowerSetTargetKeepsLinked | src/game/entities/Tower.ts:89-104 | `Tower.setTarget` keeps both kinds of lock two-way: target ⇔ targetedBy, and target ⇔ attackers |
| Links.TowerClearTargetKeepsLinked | src/game/entities/Tower.ts:109-114 | `Tower.clearTarget` keeps every lock two-way, and afterwards no enemy lists the tower |
| Links.EnemySetTargetKeepsLinked | src/game/entities/Enemy.ts:249-259 | `Enemy.setTarget` keeps every lock two-way |
| Links.EnemySetTargetTowerSide | src/game/entities/Enemy.ts:249-259 | after `Enemy.setTarget`, an enemy targets a tower exactly when it is listed among that tower's attackers |
| Links.EnemySetTargetOrganSide | src/game/entities/Enemy.ts:249-259 | after `Enemy.setTarget`, an enemy targets the organ exactly when it is listed among the organ's attackers |
| Links.EnemyClearTargetKeepsLinked | src/game/entities/Enemy.ts:264-269 | `Enemy.clearTarget` keeps every lock two-way, and afterwards no defender lists the enemy |
| Links.BoundaryAssignBreaksLinked | src/game/entities/Enemy.ts:466-471 | the boundary assignment does break the pairing: an enemy that was attacking a tower stays among that tower's attackers while it targets the line |
| Links.GuardedTowerLockKeepsSlots | src/game/scenes/GameScene.ts:671-680 | a tower lock made after `canTarget` succeeds keeps every slot cap |
| Links.GuardedEnemyLockKeepsSlots | src/game/entities/Enemy.ts:306-319 | an enemy lock onto a defender whose slots are not full keeps every slot cap |
| Links.UnguardedEnemyLockCanOverfill | src/game/entities/Enemy.ts:249-259 | `Enemy.setTarget` itself checks no slots: for every tower whose attackers already fill its cap and do not include the enemy, the lock leaves it with cap + 1 attackers, past the cap |
| Links.UnguardedTowerLockCanOverfill | src/game/entities/Tower.ts:89-104 | `Tower.setTarget` itself checks no slots: for every enemy whose `targetedBy` already fills its cap and does not include the tower, the lock leaves it with cap + 1 lockers, past the cap |
| Cascade.ReleasedEnemies | src/game/entities/Tower.ts:194-198 | the enemies a walk over an attacker set calls `clearTarget` on are exactly its members that are still active |
| Cascade.ReleaseAttackers | src/game/entities/Tower.ts:194-198 | after the walk over an attacker set, every active member has no target, and each defender loses exactly the released enemies that were locked on it; inactive members keep their lock |
| Cascade.ReleasedFrom | src/game/entities/Tower.ts:194-198 | a defender loses exactly the released enemies that were locked on it |
| Cascade.ReleaseNoAttackers | src/game/entities/Tower.ts:194-198 | walking an empty set changes nothing |
| Cascade.ReleaseAttackersKeepsClosed | src/game/entities/Tower.ts:194-198 | the attacker walk leaves no dangling id |
| Cascade.ReleaseAttackersStep | src/game/entities/Tower.ts:194-198 | the walk in any order is `clearTarget` on each active member in turn |
| Cascade.ReleaseAttackersKeepsLinked | src/game/entities/Tower.ts:194-198 | the attacker walk keeps every lock two-way |
| Cascade.ReleasedTowers | src/game/entities/Enemy.ts:660-664 | the towers a walk over `targetedBy` calls `clearTarget` on are exactly its members that are still active |
| Cascade.ReleasedLockersOf | src/game/entities/Enemy.ts:660-664 | an enemy loses from its `targetedBy` exactly the released towers that were locked on it |
| Cascade.ReleaseLockers | src/game/entities/Enemy.ts:660-664 | after the walk over a `targetedBy` set, every active member has no target and each enemy loses exactly the released towers locked on it |
| Cascade.ReleaseNoLockers | src/game/entities/Enemy.ts:660-664 | walking an empty set changes nothing |
| Cascade.ReleaseLockersKeepsClosed | src/game/entities/Enemy.ts:660-664 | the tower walk leaves no dangling id |
| Cascade.ReleaseLockersStep | src/game/entities/Enemy.ts:660-664 | the walk in any order is `clearTarget` on each active member in turn |
| Cascade.ReleaseLockersKeepsLinked | src/game/entities/Enemy.ts:660-664 | the tower walk keeps every lock two-way |
| Cascade.DestroyTower | src/game/entities/Entity.ts:99-103 | Phaser's `destroy()` turns the tower inactive and changes nothing else |
| Cascade.DestroyTowerKeepsLinks | src/game/entities/Entity.ts:99-103 | destroying a sprite changes no lock |
| Cascade.TowerDeath | src/game/entities/Tower.ts:190-209 | a dying tower drops its own lock, its active attackers drop theirs, and it becomes inactive with its hit points as they were |
| Cascade.TowerDeathReleasesAll | src/game/entities/Tower.ts:190-209 | a tower's death keeps every lock two-way, leaves no active enemy locked on it, and no enemy lists it |
| Cascade.ReleaseFreesDefender | src/game/entities/Tower.ts:194-198 | in a linked arena, after the walk over a defender's attackers no active enemy is locked on it |
| Cascade.EnemyDeath | src/game/entities/Enemy.ts:656-674 | a dying enemy drops its own lock and every active tower locked on it drops that lock; the enemy stays active until its death animation ends |
| Cascade.EnemyDeathReleasesAll | src/game/entities/Enemy.ts:656-674 | an enemy's death keeps every lock two-way, leaves no active tower locked on it, and no defender lists it |
| Cascade.ReleaseFreesEnemy | src/game/entities/Enemy.ts:660-664 | in a linked arena, after the walk over an enemy's `targetedBy` no active tower is locked on it |
| Cascade.OrganFall | src/game/entities/ImmuneOrgan.ts:182-208 | when the organ reaches zero, every active attacker drops its lock on it |
| Cascade.OrganFallReleasesAll | src/game/entities/ImmuneOrgan.ts:202-207 | after the organ falls no active enemy is locked on it and every lock stays two-way |
| Targeting.Candidates | src/game/scenes/GameScene.ts:774-783 | the target list is the recorded towers in order followed by the organ |
| Targeting.Nearest | src/game/entities/Enemy.ts:303-316 | the search picks an open candidate no farther than any other open one and strictly nearer than every open one before it; nothing exactly when no candidate is open |
| Targeting.NearestIsUnique | src/game/entities/Enemy.ts:303-316 | that description determines the choice: any index meeting it is the one the search returns |
| Targeting.FindTarget | src/game/entities/Enemy.ts:295-328 | `findTarget` changes only the searching enemy's target and the matching attacker sets, and leaves no dangling id |
| Targeting.Choice | src/game/entities/Enemy.ts:306-327 | the lock is the nearest open candidate, else an active organ; nothing exactly when no candidate is open and the organ is inactive |
| Targeting.FindTargetIsChoice | src/game/entities/Enemy.ts:318-327 | `findTarget` is `setTarget` on its choice, and a no-op without one |
| Targeting.FindTargetKeepsLinked | src/game/entities/Enemy.ts:295-328 | `findTarget` keeps every lock two-way |
| Targeting.FindTargetOpenChoiceKeepsSlots | src/game/entities/Enemy.ts:307 | when some candidate is open, the lock taken keeps every slot cap |
| Targeting.FallbackIgnoresOrganSlots | src/game/entities/Enemy.ts:321-325 | when no candidate is open and the organ is active, a searching enemy locks onto the organ even if its attackers already fill its cap, leaving cap + 1 attackers |
| Targeting.FallenOrganIsStillChosen | src/game/entities/ImmuneOrgan.ts:182-189 | an organ at zero hit points stays active, so a searching enemy still locks onto it |
| Targeting.ListedTowersAreDefenders | src/game/scenes/GameScene.ts:774-776 | every tower drawn from the table, and the organ, is a valid candidate |
| Targeting.NotifyNearby | src/game/scenes/GameScene.ts:652-666 | in the group's order, each active enemy strictly closer than 200 to the new tower runs `findTarget`; no dangling id results |
| Targeting.NotifyNearbyKeepsLinked | src/game/scenes/GameScene.ts:652-666 | waking the nearby enemies keeps every lock two-way |
| Combat.DamageTower | src/game/entities/Entity.ts:33-46 | a hit on a tower sets its hp as `receiveDamage` does, and the tower ends inactive exactly when it was active and this hit kills it |
| Combat.DamageEnemy | src/game/entities/Entity.ts:33-46 | a hit on an enemy sets its hp as `receiveDamage` does, and a killing hit clears its target through `onDestroy` |
| Combat.DamageOrganArena | src/game/entities/ImmuneOrgan.ts:163-210 | a hit on the organ changes it as `Organs.DamageOrgan` says, without the dead-unit guard, and keeps it active; only its attackers change besides |
| Combat.DamageTowerKeepsLinked | src/game/entities/Tower.ts:190-209 | a hit on a tower, killing or not, keeps every lock two-way |
| Combat.DamageEnemyKeepsLinked | src/game/entities/Enemy.ts:656-674 | a hit on an enemy, killing or not, keeps every lock two-way |
| Combat.DamageOrganKeepsLinked | src/game/entities/ImmuneOrgan.ts:163-210 | a hit on the organ keeps every lock two-way |
| Combat.OrganShot | src/game/scenes/GameScene.ts:168-178 | an enemy shot touching the organ keeps every reference in the tables; it lands only on an active organ whose body is enabled |
| Combat.UnreachableOrganAbsorbsNoShots | src/game/entities/ImmuneOrgan.ts:184-189 | with the organ's body disabled, no run of enemy shots changes anything: enemies locked onto the organ stay locked and no organ event is sent again |
| Combat.FallIsFinalForShots | src/game/entities/ImmuneOrgan.ts:180-208 | the shot that takes a reachable organ to zero disables its body, and every later shot leaves the arena as that shot left it |
| Combat.DeadTowerIgnoresHits | src/game/entities/Entity.ts:35-37 | a tower already dead or inactive ignores a hit: nothing changes |
| Combat.DeadEnemyIgnoresHits | src/game/entities/Entity.ts:35-37 | an enemy already dead or inactive ignores a hit: nothing changes |
| Combat.DefeatReward | src/game/entities/Enemy.ts:668-670 | the 'enemyDefeated' reward is paid only while the enemy still has hp, and it is the configured reward |
| Combat.KillsPayNoReward | src/game/entities/Enemy.ts:668-670 | an enemy killed by damage pays no reward, because its hp is already 0 when `onDestroy` runs |
| Combat.RangeLock | src/game/scenes/GameScene.ts:671-680 | the tower locks the enemy exactly when both are active and the enemy's locking slots are not full; otherwise nothing changes |
| Combat.RangeLockKeepsInvariants | src/game/scenes/GameScene.ts:671-680 | the range handler keeps every lock two-way and every enemy within its slots |
| Combat.CollisionLock | src/game/scenes/GameScene.ts:638-647 | an active enemy touching an active tower locks onto it, with no slot check |
| Combat.CollisionLockOverfills | src/game/scenes/GameScene.ts:638-647 | the collision handler keeps every lock two-way, but a tower whose slots are full still gains the enemy as one more attacker |
| Combat.TowerTick | src/game/entities/Tower.ts:171-185 | a target that is inactive, dead or out of range is cleared; `fire()` is called exactly when enemies are visible, a target remains and time > nextFire, and then nextFire becomes time + fireRate |
| Combat.FireGuardFollowsValidityCheck | src/game/entities/Tower.ts:147-148 | when `update` calls `fire()`, the target guard at the top of `fire()` always passes |
| Combat.TowerShotsAreSpaced | src/game/entities/Tower.ts:181-184 | two shots by the same tower are more than fireRate milliseconds apart |
| Combat.NoShotAtTimeZero | src/game/entities/Tower.ts:20 | a tower with nextFire 0 never fires at time 0, because the gate is strict |
| Combat.AttackCooldown | src/game/entities/Enemy.ts:333-378 | with a target and time > nextAttack, nextAttack becomes time + fireRate, whether or not a projectile was launched; otherwise nothing changes |
| Combat.EnemyAttacksAreSpaced | src/game/entities/Enemy.ts:338-377 | two attacks by the same enemy are more than fireRate milliseconds apart |
| Combat.SearchesAreSpaced | src/game/entities/Enemy.ts:490-494 | two searches by the same enemy are more than 500 ms apart |
| Combat.JoinTower | src/game/scenes/GameScene.ts:544-546 | a new tower enters the table under an unused id and leaves no dangling id |
| Combat.JoinTowerKeepsInvariants | src/game/scenes/GameScene.ts:544-546 | a new tower keeps every lock two-way and every slot cap |
| Combat.JoinEnemy | src/game/scenes/GameScene.ts:289-292 | a new enemy enters the table under an unused id and leaves no dangling id |
| Combat.JoinEnemyKeepsInvariants | src/game/scenes/GameScene.ts:289-292 | a new enemy keeps every lock two-way and every slot cap |
| Projectiles.RangeLimit | src/game/entities/Projectile.ts:50 | the limit is positive exactly when the range is, and then equals it; otherwise it is 0, meaning no limit |
| Projectiles.UnlimitedShotStaysUntilOffScreen | src/game/entities/Projectile.ts:94-110 | a projectile fired without a range, as towers fire, is recycled only when it leaves the screen margin |
| Projectiles.RangedShotAlongLine | src/game/entities/Projectile.ts:101-109 | a ranged shot flying along a horizontal line is recycled exactly when it is more than its range from its firing point |
| Projectiles.Projectile.constructor | src/game/entities/Projectile.ts:16-29 | a new projectile is inactive and invisible, with speed 1200, damage 0 and no target |
| Projectiles.Projectile.Fire | src/game/entities/Projectile.ts:39-77 | `fire` records the target, damage, speed, side and range limit, sets the firing point to the current position, and activates the projectile |
| Projectiles.Projectile.Recycle | src/game/entities/Projectile.ts:116-123 | recycling deactivates and hides the projectile, stops it, and clears its target and side; damage, speed, firing point and range stay |
| Projectiles.Projectile.Update | src/game/entities/Projectile.ts:89-111 | an active projectile outside the screen margin or past its range is recycled; otherwise it is unchanged |
| Placement.DeployCount | src/game/scenes/GameScene.ts:530 | the count is 1 exactly when the configured count is absent, 0 or 1; any other count is taken as configured |
| Placement.Formation | src/game/scenes/GameScene.ts:562-594 | the loop computes one position per tower of the count, in order: the centre, a pair 60 apart, a triangle, or a ring |
| Placement.FieldSpots | src/game/scenes/GameScene.ts:596-600 | the positions kept are exactly those at least 30 inside every edge, in order; the others are skipped |
| Placement.PlacedSpots | src/game/scenes/GameScene.ts:525-539 | a count of one places a tower at the click position with no bounds check; any other count places only formation positions inside the bounds, never more than the count |
| Placement.SmallFormationsFitInside | src/game/scenes/GameScene.ts:569-588 | a pair or triangle stays within 30 horizontally and 36 vertically of its centre, so around a centre far enough inside nothing is skipped |
| Placement.AllInFieldKept | src/game/scenes/GameScene.ts:596-600 | when every position passes the bounds check, none is skipped |
| Placement.TopEdgeTriangleLosesOne | src/game/scenes/GameScene.ts:573-600 | near the top edge the top tower of a triangle is skipped: two of three towers are placed, although the full cost is charged |
| Placement.SingleTowerSkipsBoundsCheck | src/game/scenes/GameScene.ts:532-551 | a single tower is placed even on the field's edge, where a formation tower would be skipped |
| Placement.Joined | src/game/scenes/GameScene.ts:602-604 | the new towers join the table in order under consecutive fresh ids, with no dangling id and no other unit changed |
| Placement.JoinedContents | src/game/scenes/GameScene.ts:602-604 | after a placement the table holds the old towers unchanged and, under the i-th new id, a fresh tower at the i-th kept position |
| Placement.JoinedKeepsInvariants | src/game/scenes/GameScene.ts:602-604 | new towers keep every lock two-way and every slot cap |
| Placement.NotifyAll | src/game/scenes/GameScene.ts:612-615 | after the target list is rebuilt, the enemies near each new tower, tower by tower, search again; no dangling id results |
| Placement.NotifyAllKeepsLinked | src/game/scenes/GameScene.ts:612-615 | all those searches keep every lock two-way |
| Placement.Ids | src/game/scenes/GameScene.ts:602-604 | the towers of a placement receive the ids first, first + 1, … in order |
| Placement.Deploy | src/game/scenes/GameScene.ts:556-616 | a whole placement adds exactly the new ids to the tower table, changes no enemy id, and leaves no dangling id |
| Placement.DeployKeepsLinked | src/game/scenes/GameScene.ts:556-616 | a whole placement keeps every lock two-way |
| Placement.DeployOne | src/game/scenes/GameScene.ts:544-551 | a single placement is the tower joining, then the enemies near it searching again |
| Placement.Decide | src/game/scenes/GameScene.ts:493-520 | a click right of the game area only cancels; with no selection nothing happens; a tower is placed exactly when a known type is selected and resources cover its cost |
| Behaviour.WithEnemy | src/game/entities/Enemy.ts:431-622 | changing an enemy's own state and timers, with its locks as they were, leaves no dangling id |
| Behaviour.WithEnemyKeepsLinked | src/game/entities/Enemy.ts:431-622 | changing an enemy's own state and timers keeps every lock two-way |
| Behaviour.AttackTarget | src/game/entities/Enemy.ts:333-378 | with a target and time > nextAttack the cooldown restarts; a projectile is launched only when the target is also active, aimed at the target (at x = gameWidth − 10 on the line for the boundary), with the enemy's damage, speed 400, the enemy side and its attack range |
| Behaviour.GoalStep | src/game/entities/Enemy.ts:449-486 | already attacking at the goal, the enemy damages the player once time > nextAttack and restarts the cooldown; still moving with a boundary line, it targets the line, turns attacking, damages the player and restarts the cooldown; with no line it takes the legacy path: turns attacking, damages the player and reaches the goal |
| Behaviour.Search | src/game/entities/Enemy.ts:489-494 | with no target or an inactive one and time > nextSearch, `findTarget` runs and nextSearch becomes time + 500; otherwise nothing changes |
| Behaviour.Engage | src/game/entities/Enemy.ts:500-580 | a moving enemy with a target turns attacking once the target is within its attack range; an attacking enemy runs `attackTarget`; the locks do not change |
| Behaviour.AdvanceStep | src/game/entities/Enemy.ts:489-580 | away from the goal, the search gate and then the state machine; the player is never harmed here, and any shot is an enemy shot at speed 400 |
| Behaviour.EnemyStep | src/game/entities/Enemy.ts:431-622 | an inactive enemy does nothing; the player is harmed only at the goal, by the enemy's damage; a shot is fired only away from the goal |
| Behaviour.LegacyGoalHitsTwice | src/game/entities/Enemy.ts:383-423 | the legacy goal path does not restart the cooldown, so at any later update past the cooldown, even the second update of the same frame, the enemy, now attacking at the goal, damages the player a second time |
| Behaviour.GoalHarmIsSpaced | src/game/entities/Enemy.ts:449-480 | with a boundary line, two hits on the player by one enemy are more than its fireRate apart |
| Behaviour.AdvanceStepKeepsLinked | src/game/entities/Enemy.ts:489-580 | away from the goal, one `update` keeps every lock two-way |
| Behaviour.EnemyStepKeepsLinked | src/game/entities/Enemy.ts:431-622 | away from the goal, or with no boundary line, one `update` keeps every lock two-way |
| Waves.InWindowInMilliseconds | src/game/scenes/GameScene.ts:227-228 | a wave timer spawns exactly when the time since the start is between startTime and endTime seconds, both ends included |
| Waves.WindowEnds | src/game/scenes/GameScene.ts:227-228 | a wave spawns at exactly its start and end second, but not one millisecond after its end |
| Waves.Spawned | src/game/scenes/GameScene.ts:275-312 | the new enemy joins the table under a fresh id at its spawn position and locks what `findTarget` chooses from the rebuilt target list; no other enemy's target changes |
| Waves.SpawnedKeepsLinked | src/game/scenes/GameScene.ts:275-312 | spawning keeps every lock two-way |
| Waves.SpawnIsNotOnScreen | src/game/scenes/GameScene.ts:802-815 | an enemy at the spawn point x = −50 does not count as visible, because the test is strict (spawned at x = -50 (line 284)) |
| Scene.Heard | src/game/scenes/GameScene.ts:244-258 | the scene's own listeners: 'enemyDefeated' and 'resourceGenerated' credit the player and announce the new total, 'gameOver' pauses and asks for the game-over screen, and other events have no listener here |
| Scene.Without | src/game/entities/Entity.ts:109-127 | a destroyed member leaves its group and nothing else does |
| Scene.DefeatNews | src/game/entities/Enemy.ts:666-670 | `onDestroy` leads to 'enemyDefeated' and the new total exactly when the enemy still has hit points |
| Scene.FirstDeadIn | src/game/scenes/GameScene.ts:318 | the pool search finds the first inactive projectile, or nothing exactly when all are active |
| Scene.Harm | src/game/scenes/GameScene.ts:754-761 | health becomes max(0, health − damage); 'playerHealthChanged' is always emitted, and 'gameOver', answered by 'showGameOver', exactly when health reaches zero |
| Scene.GameOverRepeats | src/game/scenes/GameScene.ts:754-761 | once health is zero, every further hit announces the game's end again |
| Scene.GameScene.constructor | src/game/scenes/GameScene.ts:42-72 | the game area is three quarters of the screen width, the organ stands 180 left of its edge at mid-height, and no tower, enemy or projectile exists yet (fields as set up at lines 121-133) |
| Scene.GameScene.Emit | src/game/scenes/GameScene.ts:244-258 | an emitted event runs the scene's listeners as `Heard` describes |
| Scene.GameScene.TowerClearTarget | src/game/entities/Tower.ts:109-114 | the scene's state after `Tower.clearTarget` is what `Links.TowerClearTarget` gives |
| Scene.GameScene.EnemyClearTarget | src/game/entities/Enemy.ts:264-269 | the scene's state after `Enemy.clearTarget` is what `Links.EnemyClearTarget` gives |
| Scene.GameScene.EnemySetTarget | src/game/entities/Enemy.ts:249-259 | the scene's state after `Enemy.setTarget` is what `Links.EnemySetTarget` gives |
| Scene.GameScene.ReleaseAttackers | src/game/entities/Tower.ts:194-198 | the walk over an attacker set, one member at a time, ends in the state `Cascade.ReleaseAttackers` gives |
| Scene.GameScene.ReleaseLockers | src/game/entities/Enemy.ts:660-664 | the walk over a `targetedBy` set, one member at a time, ends in the state `Cascade.ReleaseLockers` gives |
| Scene.GameScene.TowerOnDestroy | src/game/entities/Tower.ts:190-209 | a dying tower ends in the state `Cascade.TowerDeath` gives and leaves the towers group |
| Scene.GameScene.EnemyUnlock | src/game/entities/Enemy.ts:657-664 | the lock part of `Enemy.onDestroy` ends in the state `Cascade.EnemyDeath` gives |
| Scene.GameScene.EnemyOnDestroy | src/game/entities/Enemy.ts:656-674 | a dying enemy ends in the state `Cascade.EnemyDeath` gives; the reward is paid and announced only while it still has hit points |
| Scene.GameScene.PayDefeat | src/game/entities/Enemy.ts:668-670 | the scene credits the 'enemyDefeated' reward only for an enemy that still has hit points |
| Scene.GameScene.EnemyDestroyEntity | src/game/entities/Entity.ts:109-127 | at the end of the death animation the enemy turns inactive and leaves the enemies group |
| Scene.GameScene.TowerReceiveDamage | src/game/entities/Entity.ts:33-46 | a hit on a tower ends in the state `Combat.DamageTower` gives; a killed tower leaves the towers group |
| Scene.GameScene.EnemyReceiveDamage | src/game/entities/Entity.ts:33-46 | a hit on an enemy ends in the state `Combat.DamageEnemy` gives and pays no reward, even on a kill |
| Scene.GameScene.OrganReceiveDamage | src/game/entities/ImmuneOrgan.ts:163-210 | a hit on the organ ends in the state `Combat.DamageOrganArena` gives; 'organDamaged' is always emitted and 'organDestroyed' at zero hit points |
| Scene.GameScene.FirstDead | src/game/scenes/GameScene.ts:318 | the loop finds the first inactive projectile of the pool |
| Scene.GameScene.GetProjectileFromPool | src/game/scenes/GameScene.ts:317-336 | the first inactive projectile is moved to the spot, activated, shown and stopped; when there is none, a new inactive one is built there and appended to the pool; no other projectile changes |
| Scene.GameScene.OnTowerShotHit | src/game/scenes/GameScene.ts:341-371 | a hit happens exactly when the shot is a tower's, both are active and the enemy is alive; then the enemy takes the shot's damage and the shot is recycled; otherwise nothing changes (registered at lines 140-151) |
| Scene.GameScene.OnEnemyShotHitTower | src/game/scenes/GameScene.ts:396-445 | a hit happens exactly when the shot is an enemy's and both are active; then the tower takes the damage, leaves the towers group exactly when the hit kills it, and the shot is recycled; otherwise nothing changes (registered at lines 154-165) |
| Scene.GameScene.OnEnemyShotHitOrgan | src/game/scenes/GameScene.ts:396-445 | a hit happens exactly when the shot is an enemy's and active and the organ is active with its body enabled; the arena then ends as `Combat.OrganShot` gives, the organ takes the damage, 'organDamaged' and, at zero hit points, 'organDestroyed' are emitted, and the shot is recycled; otherwise nothing changes (registered at lines 168-178) |
| Scene.GameScene.DamagePlayer | src/game/scenes/GameScene.ts:754-769 | health drops as `Harm` says, and the scene is paused exactly when health reaches zero; resources are untouched |
| Scene.GameScene.NearestTarget | src/game/entities/Enemy.ts:303-316 | the search loop over the target list ends with the index `Targeting.Nearest` describes |
| Scene.GameScene.FindTarget | src/game/entities/Enemy.ts:295-328 | the scene's state after `findTarget` is what `Targeting.FindTarget` gives |
| Scene.GameScene.NotifyNearby | src/game/scenes/GameScene.ts:652-666 | the walk over the enemies group ends in the state `Targeting.NotifyNearby` gives |
| Scene.GameScene.OnSelectTower | src/game/scenes/GameScene.ts:450-456 | the selected type is remembered as given |
| Scene.GameScene.UpdateAllTargets | src/game/scenes/GameScene.ts:774-776 | the target list becomes the towers group (the organ is appended when the list is read) |
| Scene.GameScene.AddTower | src/game/scenes/GameScene.ts:545-546 | a fresh tower with no lock either way joins the table under the next id and the end of the towers group |
| Scene.GameScene.NotifyEach | src/game/scenes/GameScene.ts:613-615 | the enemies near each new tower, tower by tower, search again, as `Placement.NotifyAll` says |
| Scene.GameScene.DeploySingleTower | src/game/scenes/GameScene.ts:544-551 | one tower at the click with no bounds check; the target list is rebuilt and the enemies near it search again, as `Placement.Deploy` says |
| Scene.GameScene.PlaceFormation | src/game/scenes/GameScene.ts:562-609 | the loop builds a tower at each formation position that passes the bounds check, in order, under consecutive ids |
| Scene.GameScene.DeployMultipleTowers | src/game/scenes/GameScene.ts:556-616 | the formation's kept towers join the group, the target list is rebuilt and the enemies near each search again, as `Placement.Deploy` says |
| Scene.GameScene.PlaceTower | src/game/scenes/GameScene.ts:525-539 | nothing for a type without configuration; a count of one deploys a single tower, any other count a formation |
| Scene.GameScene.BuyTowers | src/game/scenes/GameScene.ts:508-514 | the towers are placed, then the full cost is deducted, however many towers the bounds check let through, and the new total is announced |
| Scene.GameScene.HandlePlacement | src/game/scenes/GameScene.ts:493-520 | the outcome is `Placement.Decide`'s; the selection is dropped unless nothing was selected or the type is unknown; a refused purchase changes nothing else |
| Scene.GameScene.TowerSetTarget | src/game/entities/Tower.ts:89-104 | the scene's state after `Tower.setTarget` is what `Links.TowerSetTarget` gives |
| Scene.GameScene.OnEnemyInTowerRange | src/game/scenes/GameScene.ts:671-680 | the scene's state after the range handler is what `Combat.RangeLock` gives |
| Scene.GameScene.OnEnemyTowerCollision | src/game/scenes/GameScene.ts:638-647 | the scene's state after the collision handler is what `Combat.CollisionLock` gives |
| Scene.GameScene.OnUpgradeOrgan | src/game/scenes/GameScene.ts:685-693 | the upgrade happens exactly when resources cover its cost and the organ is below its maximum level; then the cost is deducted, the organ is upgraded and both are announced; otherwise nothing changes |
| Scene.GameScene.OrganUpdate | src/game/entities/ImmuneOrgan.ts:229-248 | when the resource timer ticks, the current generation rate is credited and announced and the timer restarts; otherwise nothing changes (the resource event handled at GameScene.ts lines 739-742) |
| Scene.GameScene.AddEnemy | src/game/scenes/GameScene.ts:289-292 | a fresh enemy with no lock either way joins the table under the next id and the end of the enemies group |
| Scene.GameScene.SpawnEnemy | src/game/scenes/GameScene.ts:275-312 | a type without configuration spawns nothing; otherwise an enemy at x = −50 joins and searches as `Waves.Spawned` says |
| Scene.GameScene.OnWaveTimer | src/game/scenes/GameScene.ts:224-235 | a wave's timer spawns exactly when the elapsed time is inside the wave's window and its enemy type is configured |
| Scene.GameScene.HasVisibleEnemies | src/game/scenes/GameScene.ts:802-815 | the result is true exactly when some enemy of the group is active and strictly inside the screen widened by 50 |
| Scene.GameScene.TowerFire | src/game/entities/Tower.ts:147-163 | nothing without an active, live target; otherwise a projectile comes from the pool, and a shot leaves only when the pool had an inactive one, aimed at the target with the tower's damage and speed |
| Scene.GameScene.TowerCheckTarget | src/game/entities/Tower.ts:175-178 | a target that is inactive, dead or out of range is dropped through `clearTarget` |
| Scene.GameScene.TowerUpdate | src/game/entities/Tower.ts:171-185 | the scene's state after `Tower.update` is what `Combat.TowerTick` gives; a shot leaves only when the pool had an inactive projectile, and then carries the target, damage, speed and origin; a draw from an exhausted pool appends one inactive projectile; every other projectile is untouched |
| Scene.GameScene.TowerFireAndRearm | src/game/entities/Tower.ts:181-184 | `fire()`, then nextFire becomes time + fireRate whether or not a shot left; the pool grows only by the one inactive projectile an exhausted pool builds, and every projectile not fired is untouched |
| Scene.GameScene.TowerRearm | src/game/entities/Tower.ts:183 | only the tower's nextFire changes, and the arena stays closed |
| Scene.GameScene.Launch | src/game/entities/Enemy.ts:349-360 | the enemy fires whatever the pool returns, a newly built projectile included, with the shot's aim, damage, speed, side and range; the pool is reused or grown by that one projectile, and every other projectile is untouched |
| Scene.GameScene.EnemyAttackTarget | src/game/entities/Enemy.ts:333-378 | the scene's state after `attackTarget` is what `Behaviour.AttackTarget` gives; a projectile is launched exactly when it says, carrying that shot from the enemy's position; no other projectile changes, and without a shot the pool is as it was |
| Scene.GameScene.EnemyAtGoal | src/game/entities/Enemy.ts:449-486 | the goal branches end in the state `Behaviour.GoalStep` gives, and the player is damaged exactly when it says |
| Scene.GameScene.EnemyHoldGoal | src/game/entities/Enemy.ts:449-463 | an enemy attacking at the goal damages the player exactly when its cooldown has passed |
| Scene.GameScene.EnemyReachGoal | src/game/entities/Enemy.ts:466-486 | a moving enemy reaching the goal damages the player at once, by the boundary path or the legacy one |
| Scene.GameScene.EnemySearch | src/game/entities/Enemy.ts:489-494 | the scene's state after the search gate is what `Behaviour.Search` gives |
| Scene.GameScene.EnemyAdvance | src/game/entities/Enemy.ts:489-580 | the scene's state after the search gate and the state machine is what `Behaviour.AdvanceStep` gives, with the launched projectile carrying its shot and every other projectile untouched |
| Scene.GameScene.EnemyEngage | src/game/entities/Enemy.ts:500-580 | the scene's state after the state machine is what `Behaviour.Engage` gives, with the launched projectile carrying its shot and every other projectile untouched |
| Scene.GameScene.EnemyUpdate | src/game/entities/Enemy.ts:431-622 | the scene's state after `Enemy.update` is what `Behaviour.EnemyStep` gives: the player's health and events follow its damage, the scene pauses when health reaches zero, the launched projectile carries its shot, and every other projectile is untouched |
| Scene.GameScene.EnemyGoalReached | src/game/entities/Enemy.ts:656-674 | 'enemyReachedGoal' is emitted with no listener, then `onDestroy` runs; the enemy still has hit points, so its reward is paid (the goal test at lines 402-408) |
| Levels.FindIndex | src/game/config/LevelSelectionConfig.ts:190 | the index found carries the id and no earlier level does; nothing is found exactly when no level has the id |
| Levels.Find | src/game/config/LevelSelectionConfig.ts:169-171 | `getLevel` returns a level with the id that no earlier level shares, and nothing exactly when no level has the id |
| Levels.Unlocked | src/game/config/LevelSelectionConfig.ts:176-178 | `getUnlockedLevels` holds exactly the unlocked levels and never more than the list |
| Levels.UnlockedKeepsOrder | src/game/config/LevelSelectionConfig.ts:176-178 | the filter keeps list order: the unlocked levels of a concatenation are those of the first part followed by those of the second |
| Levels.Complete | src/game/config/LevelSelectionConfig.ts:183-198 | an unknown or already-completed id changes nothing; otherwise the first level with it becomes completed with bestScore max(previous or 0, score), the next level, if any, becomes unlocked, and no other level changes; ids and names never change |
| Levels.FindIndexSameCards | src/game/config/LevelSelectionConfig.ts:184-190 | the lookup by id gives the same index in any list with the same ids |
| Levels.CompleteKeepsProgress | src/game/config/LevelSelectionConfig.ts:183-198 | completing a level never locks, uncompletes or lowers the best score of any level |
| Levels.CompleteTwice | src/game/config/LevelSelectionConfig.ts:185 | completing a level a second time, with any score, changes nothing |
| Levels.ResetAll | src/game/config/LevelSelectionConfig.ts:217-222 | after a reset only the first level is unlocked, none is completed and no best score remains; ids and names never change |
| Levels.UnlockedAfterReset | src/game/config/LevelSelectionConfig.ts:217-222 | after a reset exactly the first level is offered |
| Levels.Records | src/game/config/LevelSelectionConfig.ts:231-238 | the saved progress holds one record per level, in order, with its id, unlocked, completed and bestScore |
| Levels.Apply | src/game/config/LevelSelectionConfig.ts:253-258 | a saved record whose id no level has changes nothing; otherwise its unlocked, completed and bestScore overwrite those of the first level with its id, every other level stays as it was, and ids and names never change |
| Levels.Restore | src/game/config/LevelSelectionConfig.ts:252-259 | loading applies the saved records in order and never changes ids or names |
| Levels.LoadAfterSave | src/game/config/LevelSelectionConfig.ts:229-263 | loading the saved records onto a fresh copy of the same levels restores exactly the unlocked, completed and bestScore fields, so a rebuilt manager comes back as it was saved |
| Levels.LevelSelectionManager.constructor | src/game/config/LevelSelectionConfig.ts:147-150 | the manager keeps its own copy of the shipped levels, which it never writes, and starts from it with any saved progress loaded |
| Levels.LevelSelectionManager.LoadProgress | src/game/config/LevelSelectionConfig.ts:247-263 | the loop applies the saved records in order, as `Restore` says; with nothing saved nothing changes |
| Levels.LevelSelectionManager.SaveProgress | src/game/config/LevelSelectionConfig.ts:229-242 | the storage slot holds the records of the current levels |
| Levels.LevelSelectionManager.CompleteLevel | src/game/config/LevelSelectionConfig.ts:183-198 | the levels become what `Complete` gives, and the progress is saved exactly when the level was completed now |
| Levels.LevelSelectionManager.ResetProgress | src/game/config/LevelSelectionConfig.ts:217-224 | the loop leaves the levels as `ResetAll` says, then the progress is saved |
| Dialogue.ShouldTriggerRules | src/game/config/DialogueConfig.ts:154-192 | a passing trigger matches the event type (a first-deploy trigger on a deploy event), has not fired if once-only, meets its level or tower condition, needs a count of 1 to be a first deploy, is refused at count 1 when marked not-first-time, and its draw fell under its probability |
| Dialogue.CertainTriggerIgnoresDraw | src/game/config/DialogueConfig.ts:191 | with probability 1.0 the gate passes on every draw in [0, 1) |
| Dialogue.FirstPassing | src/game/config/DialogueConfig.ts:142-149 | the trigger found passes and every earlier one fails; nothing is found exactly when none passes |
| Dialogue.Pick | src/game/config/DialogueConfig.ts:202-204 | the chosen message index is the floor of draw × count, always inside the message list |
| Dialogue.OnceOnlyFiresOnce | src/game/config/DialogueConfig.ts:161-163 | a once-only trigger, once recorded, is never chosen again, whatever the event, counts or draws (the trigger recorded at line 199) |
| Dialogue.FirstNeutrophilIsIntroduced | src/game/config/DialogueConfig.ts:50-65 | with the shipped triggers, the first neutrophil deployment always says the neutrophil introduction (the deploy rules at lines 176-182) |
| Dialogue.LaterNeutrophilTip | src/game/config/DialogueConfig.ts:84-100 | with the shipped triggers, a later neutrophil deployment says a tip exactly when its draw is under 0.1, and otherwise nothing (the deploy rules and draw at lines 184-191) |
| Dialogue.WelcomeOnLevelOne | src/game/config/DialogueConfig.ts:35-48 | starting level 1 shows the welcome until it has been recorded; starting any other level shows nothing (the level test at lines 167-170) |
| Dialogue.RecordDeploymentCounts | src/game/config/DialogueConfig.ts:210-220 | a recorded deployment raises its own type's count by exactly one and leaves every other type's count alone |
| Dialogue.DialogueManager.constructor | src/game/config/DialogueConfig.ts:125-126 | a new manager has recorded no trigger and no deployment |
| Dialogue.DialogueManager.Reset | src/game/config/DialogueConfig.ts:131-134 | both the fired triggers and the deployment counts are emptied |
| Dialogue.DialogueManager.RecordDeployment | src/game/config/DialogueConfig.ts:210-213 | the type's count, 0 when unseen, goes up by one |
| Dialogue.DialogueManager.GetDeploymentCount | src/game/config/DialogueConfig.ts:218-220 | the count is 0 for a type never deployed, and the recorded count otherwise |
| Dialogue.DialogueManager.TriggerDialogue | src/game/config/DialogueConfig.ts:197-205 | the trigger is recorded as fired, and the message the draw picks is returned |
| Dialogue.DialogueManager.CheckTrigger | src/game/config/DialogueConfig.ts:142-149 | the message of the first configured trigger that passes is returned and that trigger recorded; when none passes nothing is returned and nothing is recorded |

## Left out

- **Physics motion.** Velocity smoothing, `moveToObject`, rotation and `Enemy.applyKnockback` are not modelled, because they belong to the physics engine and use floating point. Positions change only through the stated operations, and the velocity given to a projectile is a parameter.
- **Floating-point coordinates.** Coordinates are integers, and distances are compared as squares. Non-integer positions are not modelled.
- **Ring formation.** The circle of a formation of four or more towers uses trigonometry, so the `ringOffset` parameter stands in for it.
- **Projectile pool size.** The projectile group's `maxSize: 100` (GameScene.ts line 112) is not modelled, and the pool can grow without limit.
- **Presentation.** Animations, tweens, health bars, hit effects, sounds and the presentation scenes (menus, level selection screen, HUD) are left out, because they only draw.
- **Randomness.** Random draws are parameters: the spawn height of an enemy, each dialogue trigger's probability draw, and the draw that picks a message.
- Scene.GameScene.SpawnEnemy: the height `y` may be any integer. The range [100, height - 100] of the draw is not required.
- **Timers.** Phaser timers are not modelled. The wave timer callback is `Scene.GameScene.OnWaveTimer`, called with the current time. The 500 ms `delayedCall` after an enemy reaches the goal is the separate call `Scene.GameScene.EnemyGoalReached`. The initial spawns of `spawnInitialEnemies` are plain `SpawnEnemy` calls.
- **Frame loop.** The order in which `GameScene.update` visits the units in one frame is not modelled. Each unit's `update` is its own method. Both groups are created with `runChildUpdate: true` (GameScene.ts lines 98-106), so each unit's `update` also runs from its group every frame, a tower's with `enemiesVisible` left at its default `true` (Tower.ts line 171): that is one more `TowerUpdate(…, true, …)` per frame besides the one `GameScene.update` makes with the real flag, and `EnemyUpdate` likewise runs twice a frame. This rests on the group update of the Phaser framework, which is not part of this model.
- **Wave times.** These are whole seconds, and the clock is whole milliseconds.
- **Boundary line.** The scene's `boundaryLine` is an optional parameter, because no file of this model defines it. `isPositionWalkable` and the walkability steering are not part of this model.
- **Sneeze skill.** `onUseSneezeSkill` (GameScene.ts lines 698-726) is not modelled. It is a loop of `receiveDamage` over the active enemies of the group, together with a physics knockback (velocity x of -1500, the `isKnockback` flag) and a `findTarget` delayed by 400 ms; the skill button is outside the combat bookkeeping modelled here.
- **`onOrganDamaged`.** It does nothing in the game, so it has no member.
- **Simple accessors.** `LevelSelectionManager.getInstance`, `getAllLevels`, `getCurrentLevel` and `setCurrentLevel` only return or store a value and are not modelled. The singleton is one `LevelSelectionManager` object.
- **Browser storage.** This is the manager's `stored` field. A saved value that fails to parse as JSON is not modelled. A saved record that names no level is skipped, as the game skips it.
- **Level and dialogue data.** A level keeps only its id, name and progress fields, since the other display fields play no part in progression. Dialogue messages are stand-in strings, since only their number and order matter.
- **Dialogue context.** A dialogue context always has both a level id and a tower type. Event contexts that lack one of them are not modelled.
- **Enemy rewards.** The defeat reward is emitted only by `Enemy.onDestroy` with hit points above zero. So a kill by damage pays nothing, and `Combat.KillsPayNoReward` states this as written.
- **Shots from a fresh projectile.** A projectile created when the pool has no inactive one starts inactive, so `Tower.fire` drops that shot. `Scene.GameScene.TowerFire` states this as written.
