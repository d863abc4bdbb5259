/**
 * The weapons of IsometricGame/Classes/Weapons: WeaponBase's cooldown loop and level counter,
 * SimpleWeapon ("Magic Wand") with its level-up table, nearest-target search and shot
 * computation, MachineGunWand ("Holy Wand"), a SimpleWeapon with other starting numbers, and
 * OrbitingShield with its level-up and its ring of orbiting projectiles. The three classes are
 * one class here with a kind tag; the fields a kind does not use keep their starting values.
 *
 * The owner's combat modifiers are Player properties that are not part of this model; they
 * are the Owner parameter. The enemies are the Target parameter (identity and position).
 */
module Weapons {
  import opened Wrappers
  import opened Numerics
  import opened Engine

  datatype WeaponKind = MagicWand | HolyWand | Shield

  /** The owner's position and the modifiers the weapons read from it. */
  datatype Owner = Owner(position: Vec2, rangeModifier: real, damageModifier: real, projectileCount: int,
                         piercing: int, knockback: real, bulletSize: real)

  /** An enemy as TryAttack sees it. */
  datatype Target = Target(sprite: SpriteRef, position: Vec2)

  datatype Pattern = Single | Multishot

  /** The BulletOptions and pattern a wand passes to Bullet.CreateBullets. */
  datatype Shot = Shot(pattern: Pattern, direction: Vec2, damage: int, count: int, piercing: int,
                       knockback: real, speedScale: real, spreadArc: real, scale: real)

  /** One OrbitingProjectile as the shield creates it. */
  datatype Orbit = Orbit(sprite: SpriteRef, angle: real, damage: int, duration: real)

  /** What one attack attempt did: nothing, a wand shot, or a ring of projectiles. */
  datatype Attack = NoAttack | Fired(shot: Shot) | Launched(orbits: seq<Orbit>)

  const WandRange: real := 8.0
  const ShieldDuration: real := 3.0
  /** float.MaxValue, the starting best distance of the target search. */
  const FloatMax: real := 340282346638528859811704183484516925440.0
  /** MathHelper.TwoPi in single precision. */
  const TwoPi: real := 6.283185482025146484375

  /** The name a weapon is constructed with; only the Holy Wand's starts with "Holy". */
  function StartName(kind: WeaponKind): (name: string)
    ensures |name| >= 4 && (name[..4] == "Holy" <==> kind == HolyWand)
  {
    match kind
    case MagicWand => assert "Magic Wand"[..4][0] == 'M'; "Magic Wand"
    case HolyWand => "Holy Wand"
    case Shield => assert "Orbiting Shield"[..4][0] == 'O'; "Orbiting Shield"
  }

  /** The cooldown a weapon is constructed with: positive, so attacks are spaced in time. */
  function StartCooldown(kind: WeaponKind): (c: real)
    ensures c > 0.0 && (kind == HolyWand ==> c < 1.0)
  {
    match kind
    case MagicWand => 1.0
    case HolyWand => 0.1
    case Shield => 5.0
  }

  /** The damage a weapon is constructed with: every weapon starts at 1 or more. */
  function StartDamage(kind: WeaponKind): (d: int)
    ensures d >= 1
  {
    match kind
    case MagicWand => 2
    case HolyWand => 1
    case Shield => 3
  }

  // ---------------------------------------------------------------------------------------------
  // Level-up tables in closed form

  /** A wand's bonus projectiles at a level: one per even level reached. */
  function WandBonusAt(level: int): int {
    level / 2
  }

  /** A wand's damage at a level: 3 more per odd level reached after the first. */
  function WandDamageAt(kind: WeaponKind, level: int): int {
    StartDamage(kind) + 3 * ((level - 1) / 2)
  }

  /** A wand's cooldown at a level: 0.1 less per multiple of 3 reached, floored at 0.2. */
  function WandCooldownAt(kind: WeaponKind, level: int): real {
    if level / 3 == 0 then StartCooldown(kind) else Max(0.2, StartCooldown(kind) - 0.1 * (level / 3) as real)
  }

  /** One SimpleWeapon.LevelUp step of the tables, from level L to level L + 1. */
  lemma {:induction false} WandStep(kind: WeaponKind, level: int)
    requires level >= 1 && kind != Shield
    ensures WandBonusAt(level + 1) == WandBonusAt(level) + (if (level + 1) % 2 == 0 then 1 else 0)
    ensures WandDamageAt(kind, level + 1) == WandDamageAt(kind, level) + (if (level + 1) % 2 == 0 then 0 else 3)
    ensures WandCooldownAt(kind, level + 1) ==
      if (level + 1) % 3 == 0 then Max(0.2, WandCooldownAt(kind, level) - 0.1) else WandCooldownAt(kind, level)
  {
    var k := (level + 1) / 3;
    if (level + 1) % 3 == 0 {
      assert level / 3 == k - 1;
      assert k >= 1;
    } else {
      assert level / 3 == k;
    }
  }

  /** From level 3 on, a wand's cooldown is never below 0.2 and never above its start. */
  lemma WandCooldownBounds(kind: WeaponKind, level: int)
    requires level >= 3 && kind != Shield
    ensures 0.2 <= WandCooldownAt(kind, level) <= Max(0.2, StartCooldown(kind))
  {
  }

  // ---------------------------------------------------------------------------------------------
  // Nearest-target search

  /** An enemy the wand may aim at: not removed and strictly within range (and below float.MaxValue). */
  predicate Candidate(t: Target, removed: set<SpriteRef>, center: Vec2, rangeSq: real) {
    t.sprite !in removed && DistSq(center, t.position) < rangeSq && DistSq(center, t.position) < FloatMax
  }

  /** The search from index i on, with the best index and distance found so far. */
  function ScanNearest(ts: seq<Target>, removed: set<SpriteRef>, center: Vec2, rangeSq: real,
                       i: nat, best: Option<nat>, bestD: real): (r: Option<nat>)
    ensures r == best || (r.Some? && r.value < |ts|)
    decreases |ts| - i
  {
    if i >= |ts| then best
    else
      var d := DistSq(center, ts[i].position);
      if ts[i].sprite !in removed && d < rangeSq && d < bestD then ScanNearest(ts, removed, center, rangeSq, i + 1, Some(i), d)
      else ScanNearest(ts, removed, center, rangeSq, i + 1, best, bestD)
  }

  /** The enemy TryAttack aims at, as an index into the enemy list. */
  function Nearest(ts: seq<Target>, removed: set<SpriteRef>, center: Vec2, rangeSq: real): (r: Option<nat>)
    ensures r.Some? ==> r.value < |ts|
  {
    ScanNearest(ts, removed, center, rangeSq, 0, None, FloatMax)
  }

  /** What the search has established after looking at ts[..i]. */
  predicate ScanState(ts: seq<Target>, removed: set<SpriteRef>, center: Vec2, rangeSq: real,
                      i: nat, best: Option<nat>, bestD: real)
  {
    && i <= |ts|
    && (best.None? ==> bestD == FloatMax && forall j :: 0 <= j < i ==> !Candidate(ts[j], removed, center, rangeSq))
    && (best.Some? ==>
          && best.value < i && Candidate(ts[best.value], removed, center, rangeSq)
          && bestD == DistSq(center, ts[best.value].position)
          && (forall j :: 0 <= j < i && Candidate(ts[j], removed, center, rangeSq) ==>
                DistSq(center, ts[j].position) >= bestD)
          && (forall j :: 0 <= j < best.value && Candidate(ts[j], removed, center, rangeSq) ==>
                DistSq(center, ts[j].position) > bestD))
  }

  /** The index a complete search returns, stated outright. */
  predicate IsNearest(ts: seq<Target>, removed: set<SpriteRef>, center: Vec2, rangeSq: real, r: Option<nat>) {
    && (r.None? ==> forall j :: 0 <= j < |ts| ==> !Candidate(ts[j], removed, center, rangeSq))
    && (r.Some? ==>
          && r.value < |ts| && Candidate(ts[r.value], removed, center, rangeSq)
          && (forall j :: 0 <= j < |ts| && Candidate(ts[j], removed, center, rangeSq) ==>
                DistSq(center, ts[j].position) >= DistSq(center, ts[r.value].position))
          && (forall j :: 0 <= j < r.value && Candidate(ts[j], removed, center, rangeSq) ==>
                DistSq(center, ts[j].position) > DistSq(center, ts[r.value].position)))
  }

  lemma {:induction false} ScanCorrect(ts: seq<Target>, removed: set<SpriteRef>, center: Vec2, rangeSq: real,
                                       i: nat, best: Option<nat>, bestD: real)
    requires ScanState(ts, removed, center, rangeSq, i, best, bestD)
    ensures IsNearest(ts, removed, center, rangeSq, ScanNearest(ts, removed, center, rangeSq, i, best, bestD))
    decreases |ts| - i
  {
    if i < |ts| {
      var d := DistSq(center, ts[i].position);
      if ts[i].sprite !in removed && d < rangeSq && d < bestD {
        ScanCorrect(ts, removed, center, rangeSq, i + 1, Some(i), d);
      } else {
        ScanCorrect(ts, removed, center, rangeSq, i + 1, best, bestD);
      }
    }
  }

  /**
   * The search finds the nearest live enemy strictly within range, the first of equally near
   * ones, and finds none exactly when no live enemy is within range.
   */
  lemma NearestIsNearest(ts: seq<Target>, removed: set<SpriteRef>, center: Vec2, rangeSq: real)
    ensures IsNearest(ts, removed, center, rangeSq, Nearest(ts, removed, center, rangeSq))
  {
    ScanCorrect(ts, removed, center, rangeSq, 0, None, FloatMax);
  }

  /** The loop of SimpleWeapon.TryAttack: the running closest enemy and its squared distance. */
  method FindNearest(ts: seq<Target>, removed: set<SpriteRef>, center: Vec2, rangeSq: real) returns (closest: Option<nat>)
    ensures closest == Nearest(ts, removed, center, rangeSq)
  {
    closest := None;
    var closestDistSq := FloatMax;
    var i := 0;
    while i < |ts|
      invariant 0 <= i <= |ts|
      invariant ScanNearest(ts, removed, center, rangeSq, i, closest, closestDistSq) == Nearest(ts, removed, center, rangeSq)
    {
      if ts[i].sprite !in removed {
        var distSq := DistSq(center, ts[i].position);
        if distSq < rangeSq && distSq < closestDistSq {
          closestDistSq := distSq;
          closest := Some(i);
        }
      }
      i := i + 1;
    }
  }

  /** (range * RangeModifier) squared. */
  function RangeSq(owner: Owner): real {
    var r := WandRange * owner.rangeModifier;
    r * r
  }

  // ---------------------------------------------------------------------------------------------
  // Shots and orbits

  /**
   * SimpleWeapon.Fire's options: damage max(1, round(BaseDamage * DamageModifier)), count
   * ProjectileCount + bonus, "multishot" for more than one projectile.
   */
  function WandShot(baseDamage: int, bonus: int, owner: Owner, direction: Vec2): (s: Shot)
    ensures s.damage >= 1
    ensures s.damage == 1 || s.damage == RoundHalfEven(baseDamage as real * owner.damageModifier)
    ensures baseDamage as real * owner.damageModifier >= 0.5 ==>
      Abs(s.damage as real - baseDamage as real * owner.damageModifier) <= 0.5
    ensures s.count == owner.projectileCount + bonus
    ensures s.pattern == Multishot <==> s.count > 1
  {
    var rounded := RoundHalfEven(baseDamage as real * owner.damageModifier);
    var count := owner.projectileCount + bonus;
    Shot(if count > 1 then Multishot else Single, direction, if rounded < 1 then 1 else rounded, count,
         owner.piercing, owner.knockback, 12.0, 0.5, owner.bulletSize)
  }

  /**
   * The wand's aim from the owner to the enemy: the planar offset, normalised unless it is zero.
   * Vector2.Normalize is the parameter `normalize`.
   */
  function AimDirection(from: Vec2, to: Vec2, normalize: Vec2 -> Vec2): (d: Vec2)
    ensures from == to ==> d == Zero2
    ensures from != to ==> d == normalize(to.Minus(from))
  {
    var direction := to.Minus(from);
    if direction != Zero2 then normalize(direction) else direction
  }

  /** (int)(BaseDamage * DamageModifier): the float product truncated toward zero. */
  function ShieldDamage(baseDamage: int, owner: Owner): int {
    Truncate(baseDamage as real * owner.damageModifier)
  }

  /** The angle of projectile i of `count`: an even share of a full turn. */
  function OrbitAngle(count: int, i: int): real
    requires count > 0
  {
    (TwoPi / count as real) * i as real
  }

  /** The ring the shield launches: projectile i at OrbitAngle(count, i), new sprites in order. */
  function Ring(firstId: nat, count: int, damage: int, duration: real): (os: seq<Orbit>)
    ensures |os| == Max0(count)
  {
    seq(Max0(count), i requires 0 <= i < Max0(count) =>
      Orbit(SpriteRef(firstId + i, ProjectileKind), OrbitAngle(count, i), damage, duration))
  }

  /** The angles of a ring lie in [0, TwoPi) and are TwoPi / count apart. */
  lemma RingSpacing(count: int, i: int)
    requires 0 <= i < count
    ensures 0.0 <= OrbitAngle(count, i) < TwoPi
    ensures i + 1 < count ==> OrbitAngle(count, i + 1) - OrbitAngle(count, i) == TwoPi / count as real
  {
    var step := TwoPi / count as real;
    assert step > 0.0;
    assert step * count as real == TwoPi;
    assert step * i as real < step * count as real by {
      assert step * (count - i) as real > 0.0;
    }
  }

  /** The sprites a ring adds to AllSprites. */
  function RingSprites(os: seq<Orbit>): (s: seq<SpriteRef>)
    ensures |s| == |os|
  {
    seq(|os|, i requires 0 <= i < |os| => os[i].sprite)
  }

  /** The sprites an attack adds to AllSprites: the ring's projectiles, or none. */
  function AddedSprites(a: Attack): seq<SpriteRef> {
    if a.Launched? then RingSprites(a.orbits) else []
  }

  class Weapon {
    const kind: WeaponKind
    const name: string
    var level: int
    var baseCooldown: real
    var baseDamage: int
    var cooldownTimer: real
    /** SimpleWeapon._bonusProjectiles. */
    var bonusProjectiles: int
    /** OrbitingShield._bonusAmount and _activeDuration. */
    var bonusAmount: int
    var activeDuration: real

    /** The level-dependent numbers are the tables' values at the current level. */
    ghost predicate Valid()
      reads this`level, this`baseCooldown, this`baseDamage, this`bonusProjectiles, this`bonusAmount,
        this`activeDuration
    {
      && level >= 1
      && (kind != Shield ==>
            && bonusProjectiles == WandBonusAt(level) && baseDamage == WandDamageAt(kind, level)
            && baseCooldown == WandCooldownAt(kind, level)
            && bonusAmount == 0 && activeDuration == ShieldDuration)
      && (kind == Shield ==>
            && bonusAmount == level - 1 && activeDuration == ShieldDuration + 0.5 * (level - 1) as real
            && baseDamage == StartDamage(Shield) && baseCooldown == StartCooldown(Shield)
            && bonusProjectiles == 0)
    }

    /** A new weapon at level 1 with its kind's name, cooldown and damage, ready to fire. */
    constructor (kind: WeaponKind)
      ensures Valid() && this.kind == kind && name == StartName(kind) && level == 1
      ensures baseCooldown == StartCooldown(kind) && baseDamage == StartDamage(kind)
      ensures cooldownTimer == 0.0 && bonusProjectiles == 0 && bonusAmount == 0 && activeDuration == ShieldDuration
    {
      this.kind := kind;
      name := StartName(kind);
      level := 1;
      baseCooldown := StartCooldown(kind);
      baseDamage := StartDamage(kind);
      cooldownTimer := 0.0;
      bonusProjectiles, bonusAmount, activeDuration := 0, 0, ShieldDuration;
    }

    /**
     * LevelUp: the level rises by one. A wand then gains a projectile at an even level or 3
     * damage at an odd one, and at a multiple of 3 its cooldown drops by 0.1 but not below 0.2.
     * A shield gains one projectile and half a second of duration.
     */
    method LevelUp()
      requires Valid()
      modifies this`level, this`baseCooldown, this`baseDamage, this`bonusProjectiles, this`bonusAmount,
        this`activeDuration
      ensures Valid() && level == old(level) + 1
      ensures kind != Shield ==>
        && bonusProjectiles == old(bonusProjectiles) + (if level % 2 == 0 then 1 else 0)
        && baseDamage == old(baseDamage) + (if level % 2 == 0 then 0 else 3)
        && baseCooldown == (if level % 3 == 0 then Max(0.2, old(baseCooldown) - 0.1) else old(baseCooldown))
      ensures kind == Shield ==>
        && bonusAmount == old(bonusAmount) + 1 && activeDuration == old(activeDuration) + 0.5
        && baseDamage == old(baseDamage) && baseCooldown == old(baseCooldown)
    {
      level := level + 1;
      if kind == Shield {
        bonusAmount := bonusAmount + 1;
        activeDuration := activeDuration + 0.5;
      } else {
        WandStep(kind, level - 1);
        if level % 2 == 0 {
          bonusProjectiles := bonusProjectiles + 1;
        } else {
          baseDamage := baseDamage + 3;
        }
        if level % 3 == 0 {
          baseCooldown := baseCooldown - 0.1;
          if baseCooldown < 0.2 {
            baseCooldown := 0.2;
          }
        }
      }
    }

    /** What TryAttack does now, given the first free sprite identity. */
    function Planned(firstId: nat, owner: Owner, targets: seq<Target>, removed: set<SpriteRef>,
                     normalize: Vec2 -> Vec2): Attack
      reads this`baseDamage, this`bonusProjectiles, this`bonusAmount, this`activeDuration
    {
      if kind == Shield then ShieldPlan(firstId, owner) else WandPlan(owner, targets, removed, normalize)
    }

    /** The shield's ring: ProjectileCount + bonus projectiles with damage truncated to an int. */
    function ShieldPlan(firstId: nat, owner: Owner): Attack
      reads this`baseDamage, this`bonusAmount, this`activeDuration
    {
      Launched(Ring(firstId, owner.projectileCount + bonusAmount, ShieldDamage(baseDamage, owner), activeDuration))
    }

    /** The wand's shot at the nearest live enemy in range, or no attack. */
    function WandPlan(owner: Owner, targets: seq<Target>, removed: set<SpriteRef>, normalize: Vec2 -> Vec2): Attack
      reads this`baseDamage, this`bonusProjectiles
    {
      match Nearest(targets, removed, owner.position, RangeSq(owner))
      case None => NoAttack
      case Some(k) =>
        Fired(WandShot(baseDamage, bonusProjectiles, owner, AimDirection(owner.position, targets[k].position, normalize)))
    }

    /**
     * WeaponBase.Update: the cooldown timer runs down by dt; once it is at or below 0 an attack
     * is attempted, and only a successful one restarts the timer at BaseCooldown, so a failed
     * attempt is retried on the next update.
     */
    method Update(w: World, dt: real, owner: Owner, targets: seq<Target>, normalize: Vec2 -> Vec2) returns (attack: Attack)
      modifies this`cooldownTimer, w`allSprites, w`nextId
      ensures attack == if old(cooldownTimer) - dt <= 0.0 then Planned(old(w.nextId), owner, targets, w.removed, normalize)
                        else NoAttack
      ensures cooldownTimer == if attack != NoAttack then baseCooldown else old(cooldownTimer) - dt
      ensures w.allSprites == old(w.allSprites) + AddedSprites(attack)
      ensures w.nextId == old(w.nextId) + |AddedSprites(attack)|
    {
      cooldownTimer := cooldownTimer - dt;
      attack := NoAttack;
      if cooldownTimer <= 0.0 {
        attack := TryAttack(w, owner, targets, normalize);
        if attack != NoAttack {
          cooldownTimer := baseCooldown;
        }
      }
    }

    /**
     * TryAttack. A wand aims at the nearest live enemy within range and fires at it, or fails
     * when there is none. A shield launches its ring and always succeeds.
     */
    method TryAttack(w: World, owner: Owner, targets: seq<Target>, normalize: Vec2 -> Vec2) returns (attack: Attack)
      modifies w`allSprites, w`nextId
      ensures attack == Planned(old(w.nextId), owner, targets, w.removed, normalize)
      ensures w.allSprites == old(w.allSprites) + AddedSprites(attack)
      ensures w.nextId == old(w.nextId) + |AddedSprites(attack)|
    {
      if kind == Shield {
        attack := ShieldAttack(w, owner);
      } else {
        attack := WandAttack(w, owner, targets, normalize);
      }
    }

    /** OrbitingShield.TryAttack. */
    method ShieldAttack(w: World, owner: Owner) returns (attack: Attack)
      requires kind == Shield
      modifies w`allSprites, w`nextId
      ensures attack == ShieldPlan(old(w.nextId), owner)
      ensures w.allSprites == old(w.allSprites) + AddedSprites(attack)
      ensures w.nextId == old(w.nextId) + |AddedSprites(attack)|
    {
      var count := owner.projectileCount + bonusAmount;
      var damage := ShieldDamage(baseDamage, owner);
      var orbits := LaunchRing(w, count, damage, activeDuration);
      return Launched(orbits);
    }

    /** SimpleWeapon.TryAttack: aim at the nearest live enemy within range and fire. */
    method WandAttack(w: World, owner: Owner, targets: seq<Target>, normalize: Vec2 -> Vec2) returns (attack: Attack)
      requires kind != Shield
      ensures attack == WandPlan(owner, targets, w.removed, normalize)
    {
      var closest := FindNearest(targets, w.removed, owner.position, RangeSq(owner));
      if closest.Some? {
        var enemy := targets[closest.value].position;
        var direction := Vec2(enemy.x - owner.position.x, enemy.y - owner.position.y);
        if direction != Zero2 {
          direction := normalize(direction);
        }
        return Fired(WandShot(baseDamage, bonusProjectiles, owner, direction));
      }
      return NoAttack;
    }
  }

  /** The loop of OrbitingShield.TryAttack: projectile i at angle (TwoPi / count) * i. */
  method LaunchRing(w: World, count: int, damage: int, duration: real) returns (orbits: seq<Orbit>)
    modifies w`allSprites, w`nextId
    ensures orbits == Ring(old(w.nextId), count, damage, duration)
    ensures w.allSprites == old(w.allSprites) + RingSprites(orbits)
    ensures w.nextId == old(w.nextId) + |orbits|
  {
    ghost var ring := Ring(w.nextId, count, damage, duration);
    orbits := [];
    for i := 0 to Max0(count)
      invariant orbits == ring[..i]
      invariant w.allSprites == old(w.allSprites) + RingSprites(orbits)
      invariant w.nextId == old(w.nextId) + i
    {
      var angle := (TwoPi / count as real) * i as real;
      var projectile := w.NewSprite(ProjectileKind);
      w.allSprites := w.allSprites + [projectile];
      assert ring[i] == Orbit(projectile, angle, damage, duration);
      assert ring[..i + 1] == ring[..i] + [ring[i]];
      orbits := orbits + [Orbit(projectile, angle, damage, duration)];
    }
    assert ring[..Max0(count)] == ring;
  }
}
