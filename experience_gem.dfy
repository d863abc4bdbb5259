/**
 * IsometricGame/Classes/ExperienceGem.cs: a gem dropped by an enemy. Once the player comes
 * within its magnet range the gem is magnetized for good, accelerates towards the player up to
 * a speed cap, and is collected when it is within 0.5 of the player. The player's position and
 * magnet range are parameters (Player.WorldPosition and Player.MagnetRange are not part of this
 * model), Vector2.Normalize is the parameter `normalize`, and the experience handed to
 * Player.AddExperience is returned.
 */
module Gems {
  import opened Numerics
  import opened Engine

  const Acceleration: real := 15.0
  const MaxSpeed: real := 600.0
  const ForcedSpeed: real := 100.0
  /** The pickup distance 0.5, squared. */
  const PickupRadiusSq: real := 0.25
  const PullFactor: real := 0.05

  /** The texture chosen by value: gem_50 from 20 up, gem_10 from 5 up, gem_1 below. */
  function TextureName(value: int): (name: string)
    ensures name == "gem_50" <==> value >= 20
    ensures name == "gem_10" <==> 5 <= value < 20
    ensures name == "gem_1" <==> value < 5
  {
    if value >= 20 then "gem_50" else if value >= 5 then "gem_10" else "gem_1"
  }

  /** The speed gained in one magnetized update of dt seconds. */
  function Gain(dt: real): (g: real)
    ensures dt >= 0.0 ==> g >= 0.0
  {
    Acceleration * dt * 60.0
  }

  /** The magnet speed after one magnetized update: 15 * dt * 60 faster, capped at 600. */
  function NextSpeed(speed: real, dt: real): (r: real)
    ensures r <= MaxSpeed
    ensures speed <= MaxSpeed && dt >= 0.0 ==> speed <= r
    ensures r == MaxSpeed || r == speed + Gain(dt)
  {
    Min(speed + Gain(dt), MaxSpeed)
  }

  /** The magnet speed after n magnetized updates of dt each. */
  function SpeedAfter(speed: real, dt: real, n: nat): real {
    if n == 0 then speed else NextSpeed(SpeedAfter(speed, dt, n - 1), dt)
  }

  /** The speed gained over n updates of dt each, before capping. */
  function TotalGain(dt: real, n: nat): real {
    if n == 0 then 0.0 else TotalGain(dt, n - 1) + Gain(dt)
  }

  /** The gain of n updates is n times the gain of one. */
  lemma {:induction false} TotalGainIsProduct(dt: real, n: nat)
    ensures TotalGain(dt, n) == (n as real) * Gain(dt)
  {
    if n > 0 {
      TotalGainIsProduct(dt, n - 1);
      OneMoreGain(n, Gain(dt));
    }
  }

  lemma OneMoreGain(n: nat, g: real)
    requires n > 0
    ensures (n as real) * g == ((n - 1) as real) * g + g
  {
  }

  /**
   * From a speed at or below the cap and with dt >= 0, n updates give the speed plus n times
   * the per-update gain, capped at 600.
   */
  lemma {:induction false} SpeedAfterClosedForm(speed: real, dt: real, n: nat)
    requires speed <= MaxSpeed && dt >= 0.0
    ensures SpeedAfter(speed, dt, n) == Min(speed + TotalGain(dt, n), MaxSpeed)
  {
    if n > 0 {
      SpeedAfterClosedForm(speed, dt, n - 1);
      CapThenAdd(speed + TotalGain(dt, n - 1), Gain(dt));
    }
  }

  /** Capping before or after adding a non-negative gain gives the same capped speed. */
  lemma CapThenAdd(a: real, gain: real)
    requires gain >= 0.0
    ensures Min(Min(a, MaxSpeed) + gain, MaxSpeed) == Min(a + gain, MaxSpeed)
  {
  }

  /** The direction of the pull: the normalized offset to the player, or zero when there is none. */
  function PullDirection(gemPos: Vec3, playerPos: Vec3, normalize: Vec2 -> Vec2): (d: Vec2)
    ensures gemPos.x == playerPos.x && gemPos.y == playerPos.y ==> d == Zero2
  {
    var direction := Vec2(playerPos.x - gemPos.x, playerPos.y - gemPos.y);
    if direction != Zero2 then normalize(direction) else direction
  }

  /** The gem moved along d by speed * dt * 0.05, keeping its height. */
  function Pulled(p: Vec3, d: Vec2, speed: real, dt: real): (q: Vec3)
    ensures q.z == p.z
    ensures d == Zero2 ==> q == p
  {
    Vec3(p.x + d.x * speed * dt * PullFactor, p.y + d.y * speed * dt * PullFactor, p.z)
  }

  /** Sprite.Update: the position moves by velocity * dt. */
  function Stepped(p: Vec3, v: Vec3, dt: real): Vec3 {
    Vec3(p.x + v.x * dt, p.y + v.y * dt, p.z + v.z * dt)
  }

  /** Vector2.DistanceSquared on the X and Y of two world positions. */
  function PlanarDistSq(a: Vec3, b: Vec3): real {
    DistSq(Vec2(a.x, a.y), Vec2(b.x, b.y))
  }

  class ExperienceGem {
    const self: SpriteRef
    const value: int
    const texture: string
    var position: Vec3
    var velocity: Vec3
    var magnetSpeed: real
    var isMagnetized: bool

    /** A new gem at rest: not magnetized, magnet speed 0, texture by value. */
    constructor (self: SpriteRef, worldPos: Vec3, value: int)
      ensures this.self == self && this.value == value && texture == TextureName(value)
      ensures position == worldPos && velocity == Vec3(0.0, 0.0, 0.0)
      ensures magnetSpeed == 0.0 && !isMagnetized
    {
      this.self, this.value, position := self, value, worldPos;
      texture := TextureName(value);
      velocity, magnetSpeed, isMagnetized := Vec3(0.0, 0.0, 0.0), 0.0, false;
    }

    /** ForceMagnetize: magnetized, with speed 100. */
    method ForceMagnetize()
      modifies this`isMagnetized, this`magnetSpeed
      ensures isMagnetized && magnetSpeed == ForcedSpeed
    {
      isMagnetized := true;
      magnetSpeed := ForcedSpeed;
    }

    /**
     * Update for `dt` seconds. After the base step, nothing more happens without a live player.
     * Otherwise a gem within the magnet range becomes magnetized and stays so; a magnetized gem
     * speeds up (capped at 600), moves towards the player, and when it was within 0.5 of the
     * player it hands over its value and is killed.
     */
    method Update(w: World, dt: real, playerPos: Vec3, magnetRange: real, normalize: Vec2 -> Vec2)
      returns (gained: int)
      modifies this`position, this`isMagnetized, this`magnetSpeed, w`removed
      ensures var stepped := Stepped(old(position), velocity, dt);
        var live := w.player.Some? && w.player.value !in old(w.removed);
        var distSq := PlanarDistSq(stepped, playerPos);
        var pulled := live && (distSq < magnetRange * magnetRange || old(isMagnetized));
        var picked := pulled && distSq < PickupRadiusSq;
        && isMagnetized == (old(isMagnetized) || pulled)
        && magnetSpeed == (if pulled then NextSpeed(old(magnetSpeed), dt) else old(magnetSpeed))
        && position == (if pulled then Pulled(stepped, PullDirection(stepped, playerPos, normalize), magnetSpeed, dt)
                        else stepped)
        && gained == (if picked then value else 0)
        && w.removed == old(w.removed) + (if picked then {self} else {})
    {
      position := Stepped(position, velocity, dt);
      gained := 0;
      if w.player.None? || w.player.value in w.removed {
        return;
      }
      var distToPlayerSq := PlanarDistSq(position, playerPos);
      var magnetRadiusSq := magnetRange * magnetRange;
      if distToPlayerSq < magnetRadiusSq || isMagnetized {
        isMagnetized := true;
        magnetSpeed := NextSpeed(magnetSpeed, dt);
        var direction := PullDirection(position, playerPos, normalize);
        position := Pulled(position, direction, magnetSpeed, dt);
        if distToPlayerSq < PickupRadiusSq {
          gained := value;
          w.Kill(self);
        }
      }
    }
  }
}
