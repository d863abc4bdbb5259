/**
 * IsometricGame/Classes/Weapons/Projectiles/OrbitingProjectile.cs: a projectile circling its
 * owner for a limited time, with a per-enemy table of the earliest time it may hit that enemy
 * again. MathF.Cos and MathF.Sin are the parameter `unit`, the unit vector at an angle.
 */
module Orbiting {
  import opened Numerics
  import opened Engine

  const HitInterval: real := 0.5
  const OrbitDistance: real := 3.0
  const OrbitSpeed: real := 3.0

  /**
   * CanHit on a cooldown table: an enemy without an entry, or whose entry is due (now at or
   * after it), may be hit and gets the entry now + 0.5; otherwise it may not and nothing changes.
   */
  function HitCheck(table: map<SpriteRef, real>, enemy: SpriteRef, now: real): (r: (bool, map<SpriteRef, real>))
    ensures r.0 <==> enemy !in table || now >= table[enemy]
    ensures r.0 ==> r.1 == table[enemy := now + HitInterval]
    ensures !r.0 ==> r.1 == table
  {
    if enemy in table && now < table[enemy] then (false, table)
    else (true, table[enemy := now + HitInterval])
  }

  /** After a hit, the same enemy cannot be hit again for 0.5 seconds, and can be after that. */
  lemma HitSpacing(table: map<SpriteRef, real>, enemy: SpriteRef, now: real, later: real)
    requires HitCheck(table, enemy, now).0
    ensures !HitCheck(HitCheck(table, enemy, now).1, enemy, later).0 <==> later < now + HitInterval
  {
  }

  /** A hit check on one enemy leaves every other enemy's entry alone. */
  lemma HitCheckLocal(table: map<SpriteRef, real>, enemy: SpriteRef, now: real, other: SpriteRef)
    requires other != enemy
    ensures other in HitCheck(table, enemy, now).1 <==> other in table
    ensures other in table ==> HitCheck(table, enemy, now).1[other] == table[other]
  {
  }

  /** The table after CleanupCooldowns: the entries of removed enemies are gone. */
  function WithoutRemoved(table: map<SpriteRef, real>, removed: set<SpriteRef>): (t: map<SpriteRef, real>)
    ensures forall e :: e in t <==> e in table && e !in removed
    ensures forall e :: e in t ==> t[e] == table[e]
  {
    map e | e in table && e !in removed :: table[e]
  }

  /**
   * Where Update places the projectile: 3 * RangeModifier from the owner along the unit vector
   * of its angle, at the owner's height.
   */
  function OrbitPosition(ownerPos: Vec3, u: Vec2, rangeModifier: real): (p: Vec3)
    ensures p.z == ownerPos.z
    ensures Vec2(p.x - ownerPos.x, p.y - ownerPos.y) == u.Times(OrbitDistance * rangeModifier)
  {
    var currentDistance := OrbitDistance * rangeModifier;
    Vec3(ownerPos.x + u.x * currentDistance, ownerPos.y + u.y * currentDistance, ownerPos.z)
  }

  /** With a unit direction, the projectile sits exactly 3 * RangeModifier from its owner in the plane. */
  lemma OrbitRadius(ownerPos: Vec3, u: Vec2, rangeModifier: real)
    requires u.LengthSq() == 1.0
    ensures var p := OrbitPosition(ownerPos, u, rangeModifier);
      Vec2(p.x - ownerPos.x, p.y - ownerPos.y).LengthSq() == (OrbitDistance * rangeModifier) * (OrbitDistance * rangeModifier)
  {
    var d := OrbitDistance * rangeModifier;
    var p := OrbitPosition(ownerPos, u, rangeModifier);
    calc {
      Vec2(p.x - ownerPos.x, p.y - ownerPos.y).LengthSq();
      (u.x * d) * (u.x * d) + (u.y * d) * (u.y * d);
      (u.x * u.x + u.y * u.y) * (d * d);
      d * d;
    }
  }

  class OrbitingProjectile {
    const self: SpriteRef
    /** The owning player's sprite, whose removal ends the orbit. */
    const owner: SpriteRef
    var angle: real
    var damage: int
    var duration: real
    var hitCooldowns: map<SpriteRef, real>
    var knockbackPower: real
    var position: Vec3

    /** A projectile at the owner's position with the given start angle, damage and lifetime. */
    constructor (self: SpriteRef, owner: SpriteRef, ownerPos: Vec3, startAngle: real, damage: int, duration: real)
      ensures this.self == self && this.owner == owner && position == ownerPos
      ensures angle == startAngle && this.damage == damage && this.duration == duration
      ensures hitCooldowns == map[] && knockbackPower == 1.0
    {
      this.self, this.owner, position := self, owner, ownerPos;
      angle, this.damage, this.duration := startAngle, damage, duration;
      hitCooldowns, knockbackPower := map[], 1.0;
    }

    /**
     * Update for `dt` seconds: the lifetime runs down; once it is at or below 0, or the owner is
     * removed, the projectile is killed where it is. Otherwise it turns by 3 * dt * the owner's
     * attack speed, sits 3 * RangeModifier from the owner at that angle, and forgets the hit
     * times of removed enemies.
     */
    method Update(w: World, dt: real, ownerPos: Vec3, rangeModifier: real, attackSpeedModifier: real,
                  unit: real -> Vec2)
      modifies this`duration, this`angle, this`position, this`hitCooldowns, w`removed
      ensures duration == old(duration) - dt
      ensures var expired := duration <= 0.0 || owner in old(w.removed);
        && w.removed == old(w.removed) + (if expired then {self} else {})
        && angle == (if expired then old(angle) else old(angle) + OrbitSpeed * dt * attackSpeedModifier)
        && position == (if expired then old(position) else OrbitPosition(ownerPos, unit(angle), rangeModifier))
        && hitCooldowns == (if expired then old(hitCooldowns) else WithoutRemoved(old(hitCooldowns), w.removed))
    {
      duration := duration - dt;
      if duration <= 0.0 || owner in w.removed {
        w.Kill(self);
        return;
      }
      angle := angle + OrbitSpeed * dt * attackSpeedModifier;
      position := OrbitPosition(ownerPos, unit(angle), rangeModifier);
      CleanupCooldowns(w.removed);
    }

    /** CanHit at `now` seconds of game time. */
    method CanHit(enemy: SpriteRef, now: real) returns (hit: bool)
      modifies this`hitCooldowns
      ensures (hit, hitCooldowns) == HitCheck(old(hitCooldowns), enemy, now)
    {
      if enemy in hitCooldowns {
        var nextHitTime := hitCooldowns[enemy];
        if now >= nextHitTime {
          hitCooldowns := hitCooldowns[enemy := now + HitInterval];
          return true;
        }
        return false;
      }
      hitCooldowns := hitCooldowns[enemy := now + HitInterval];
      return true;
    }

    /** CleanupCooldowns: collects the removed enemies in the table, then deletes their entries. */
    method CleanupCooldowns(removed: set<SpriteRef>)
      modifies this`hitCooldowns
      ensures hitCooldowns == WithoutRemoved(old(hitCooldowns), removed)
    {
      var toRemove: set<SpriteRef> := {};
      var pending := hitCooldowns.Keys;
      while pending != {}
        invariant pending <= hitCooldowns.Keys
        invariant toRemove == set e | e in hitCooldowns.Keys - pending && e in removed
        decreases pending
      {
        var e :| e in pending;
        if e in removed {
          toRemove := toRemove + {e};
        }
        pending := pending - {e};
      }
      hitCooldowns := hitCooldowns - toRemove;
    }
  }
}
