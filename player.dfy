/**
 * The player of IsometricGame/Classes/Player.cs: life and the invincibility window, the facing
 * chosen from the movement keys, the movement direction built from the key flags, and the
 * fire gate. Constants.MaxLife is not part of this model and is a constructor parameter; so are
 * the two images the constructor looks up ("player_idle_south" and "player_idle_west").
 */
module Players {
  import opened Numerics
  import opened Engine

  /** The player has two textures, "south" and "west"; its facing is always one of them. */
  datatype PlayerFacing = FacingSouth | FacingWest

  const Speed: real := 4.0
  const ShotDelay: real := 0.25
  const InvincibilityDuration: real := 1000.0
  /** The single-precision 1 / MathF.Sqrt(2) that Vector2.Normalize multiplies a diagonal by. */
  const InvSqrt2: real := 0.707106769084930419921875

  /**
   * Animate's facing: the first held key in the order up, down, left, right decides (up and
   * left face west, down and right face south); with no key held the facing is kept.
   */
  function TargetFacing(up: bool, down: bool, left: bool, right: bool, current: PlayerFacing): (f: PlayerFacing)
    ensures !(up || down || left || right) ==> f == current
    ensures up ==> f == FacingWest
    ensures !up && down ==> f == FacingSouth
    ensures !up && !down && left ==> f == FacingWest
    ensures !up && !down && !left && right ==> f == FacingSouth
  {
    if up then FacingWest
    else if down then FacingSouth
    else if left then FacingWest
    else if right then FacingSouth
    else current
  }

  /** The component of the key direction along one axis: -1, 0 or +1. */
  function AxisSum(minus: bool, plus: bool): (a: real)
    ensures a == 0.0 <==> minus == plus
    ensures a == -1.0 <==> minus && !plus
    ensures a == 1.0 <==> plus && !minus
  {
    (if minus then -1.0 else 0.0) + (if plus then 1.0 else 0.0)
  }

  /**
   * Vector2.Normalize on a key direction: axis directions already have length 1, a diagonal has
   * each component scaled by InvSqrt2; the zero vector is left alone.
   */
  function Normalized(d: Vec2): (n: Vec2)
    ensures d.x == 0.0 || d.y == 0.0 ==> n == d
    ensures d.x != 0.0 && d.y != 0.0 ==> n == d.Times(InvSqrt2)
  {
    if d.x != 0.0 && d.y != 0.0 then d.Times(InvSqrt2) else d
  }

  /** Update's velocity: the normalised key direction times the speed. */
  function KeyVelocity(left: bool, right: bool, up: bool, down: bool): Vec2 {
    Normalized(Vec2(AxisSum(left, right), AxisSum(up, down))).Times(Speed)
  }

  /** The bullets one Update adds: one new player bullet when it fires, none otherwise. */
  function Shot(fired: bool, id: nat): seq<SpriteRef> {
    if fired then [SpriteRef(id, BulletKind)] else []
  }

  class Player {
    const self: SpriteRef
    /** The images stored under "south" and "west". */
    const southImage: string
    const westImage: string
    var life: int
    var position: Vec2
    var velocity: Vec2
    var facing: PlayerFacing
    var texture: string
    var movingLeft: bool
    var movingRight: bool
    var movingUp: bool
    var movingDown: bool
    var firing: bool
    /** Seconds of game time at the last shot. */
    var lastShot: real
    /** Milliseconds of game time at the last hit taken. */
    var lastHit: real
    var invincible: bool

    /** The image stored under a facing. */
    function TextureFor(f: PlayerFacing): (t: string) {
      if f == FacingWest then westImage else southImage
    }

    /** The texture always matches the facing. */
    ghost predicate Valid()
      reads this`texture, this`facing
    {
      texture == TextureFor(facing)
    }

    /** A new player: full life, facing south with the south texture, not invincible. */
    constructor (self: SpriteRef, position: Vec2, maxLife: int, southImage: string, westImage: string)
      ensures Valid() && texture == southImage
      ensures this.southImage == southImage && this.westImage == westImage
      ensures this.self == self && this.position == position && life == maxLife
      ensures facing == FacingSouth && !invincible && lastHit == 0.0 && lastShot == 0.0
      ensures velocity == Zero2 && !movingLeft && !movingRight && !movingUp && !movingDown && !firing
    {
      this.self := self;
      this.southImage, this.westImage := southImage, westImage;
      this.position := position;
      velocity := Zero2;
      facing := FacingSouth;
      texture := southImage;
      life := maxLife;
      lastShot, lastHit, invincible := 0.0, 0.0, false;
      movingLeft, movingRight, movingUp, movingDown, firing := false, false, false, false, false;
    }

    /** GetInput: the flags are the IsKeyDown answers for LEFT, RIGHT, UP, DOWN and FIRE. */
    method GetInput(left: bool, right: bool, up: bool, down: bool, fire: bool)
      modifies this`movingLeft, this`movingRight, this`movingUp, this`movingDown, this`firing
      ensures movingLeft == left && movingRight == right && movingUp == up && movingDown == down && firing == fire
    {
      movingLeft, movingRight, movingUp, movingDown, firing := left, right, up, down, fire;
    }

    /** Animate: turns to the facing the held keys choose and takes its texture. */
    method Animate()
      requires Valid()
      modifies this`facing, this`texture
      ensures Valid()
      ensures facing == TargetFacing(movingUp, movingDown, movingLeft, movingRight, old(facing))
    {
      var target := facing;
      if movingUp {
        target := FacingWest;
      } else if movingDown {
        target := FacingSouth;
      } else if movingLeft {
        target := FacingWest;
      } else if movingRight {
        target := FacingSouth;
      }
      facing := target;
      texture := TextureFor(facing);
    }

    /** The key direction, accumulated one flag at a time: opposite keys cancel. */
    method KeyDirection() returns (d: Vec2)
      ensures d == Vec2(AxisSum(movingLeft, movingRight), AxisSum(movingUp, movingDown))
    {
      d := Zero2;
      if movingUp {
        d := d.(y := d.y - 1.0);
      }
      if movingDown {
        d := d.(y := d.y + 1.0);
      }
      if movingLeft {
        d := d.(x := d.x - 1.0);
      }
      if movingRight {
        d := d.(x := d.x + 1.0);
      }
    }

    /**
     * Update at `nowS` seconds (so nowS * 1000 milliseconds) of game time: turn, set invincible
     * exactly while less than 1000 ms have passed since the last hit, move by the normalised key
     * direction times 4, and fire when the fire key is held and more than 0.25 s have passed
     * since the last shot. The source moves before it fires; the bullet's position is not part
     * of this model, and moving and firing change disjoint state, so the fire gate runs first.
     */
    method Update(w: World, nowS: real, dt: real) returns (fired: bool)
      requires Valid()
      modifies this`facing, this`texture, this`invincible, this`velocity, this`position, this`lastShot,
        w`playerBullets, w`allSprites, w`nextId
      ensures Valid()
      ensures facing == TargetFacing(movingUp, movingDown, movingLeft, movingRight, old(facing))
      ensures invincible <==> nowS * 1000.0 - lastHit < InvincibilityDuration
      ensures velocity == KeyVelocity(movingLeft, movingRight, movingUp, movingDown)
      ensures position == old(position).Plus(velocity.Times(dt))
      ensures fired <==> firing && nowS - old(lastShot) > ShotDelay
      ensures lastShot == if fired then nowS else old(lastShot)
      ensures w.playerBullets == old(w.playerBullets) + Shot(fired, old(w.nextId))
      ensures w.allSprites == old(w.allSprites) + Shot(fired, old(w.nextId))
      ensures w.nextId == old(w.nextId) + |Shot(fired, old(w.nextId))|
    {
      Animate();
      invincible := nowS * 1000.0 - lastHit < InvincibilityDuration;
      fired := FireWhenReady(w, nowS);
      Walk(dt);
    }

    /** The fire gate of Update: Fire runs when the fire key is held and the delay has passed. */
    method FireWhenReady(w: World, nowS: real) returns (fired: bool)
      modifies this`lastShot, w`playerBullets, w`allSprites, w`nextId
      ensures velocity == old(velocity) && position == old(position) && facing == old(facing)
      ensures fired <==> firing && nowS - old(lastShot) > ShotDelay
      ensures lastShot == if fired then nowS else old(lastShot)
      ensures w.playerBullets == old(w.playerBullets) + Shot(fired, old(w.nextId))
      ensures w.allSprites == old(w.allSprites) + Shot(fired, old(w.nextId))
      ensures w.nextId == old(w.nextId) + |Shot(fired, old(w.nextId))|
    {
      fired := false;
      if firing && nowS - lastShot > ShotDelay {
        var _ := Fire(w, nowS);
        fired := true;
      }
    }

    /** The movement part of Update: velocity from the keys, then Sprite.Update's step. */
    method Walk(dt: real)
      modifies this`velocity, this`position
      ensures velocity == KeyVelocity(movingLeft, movingRight, movingUp, movingDown)
      ensures position == old(position).Plus(velocity.Times(dt))
    {
      SteerByKeys();
      position := position.Plus(velocity.Times(dt));
    }

    method SteerByKeys()
      modifies this`velocity
      ensures velocity == KeyVelocity(movingLeft, movingRight, movingUp, movingDown)
    {
      var d := KeyDirection();
      velocity := Normalized(d).Times(Speed);
    }

    /**
     * Fire: records the shot time and adds one player bullet heading down-screen (0, 1) when
     * facing south and left (-1, 0) when facing west.
     */
    method Fire(w: World, nowS: real) returns (direction: Vec2)
      modifies this`lastShot, w`playerBullets, w`allSprites, w`nextId
      ensures velocity == old(velocity) && position == old(position) && facing == old(facing)
      ensures lastShot == nowS
      ensures direction == (if facing == FacingWest then Vec2(-1.0, 0.0) else Vec2(0.0, 1.0))
      ensures w.playerBullets == old(w.playerBullets) + [SpriteRef(old(w.nextId), BulletKind)]
      ensures w.allSprites == old(w.allSprites) + [SpriteRef(old(w.nextId), BulletKind)]
      ensures w.nextId == old(w.nextId) + 1
    {
      lastShot := nowS;
      direction := if facing == FacingWest then Vec2(-1.0, 0.0) else Vec2(0.0, 1.0);
      var bullet := w.NewSprite(BulletKind);
      w.playerBullets := w.playerBullets + [bullet];
      w.allSprites := w.allSprites + [bullet];
    }

    /**
     * TakeDamage: while invincible nothing changes; otherwise Life drops by exactly 1, the hit
     * time is recorded, the player becomes invincible, and at Life 0 or below it is removed.
     */
    method TakeDamage(w: World, nowMs: real)
      modifies this`life, this`lastHit, this`invincible, w`removed
      ensures old(invincible) ==> life == old(life) && lastHit == old(lastHit) && invincible && unchanged(w)
      ensures !old(invincible) ==> life == old(life) - 1 && lastHit == nowMs && invincible
      ensures !old(invincible) ==> w.removed == old(w.removed) + (if life <= 0 then {self} else {})
    {
      if !invincible {
        life := life - 1;
        lastHit := nowMs;
        invincible := true;
        if life <= 0 {
          w.Kill(self);
        }
      }
    }
  }

  /**
   * A normalised key direction has length 1 along an axis and, in single precision, just under 1
   * on a diagonal; the player's speed is therefore 4 in every direction up to rounding.
   */
  lemma KeyDirectionUnit(left: bool, right: bool, up: bool, down: bool)
    ensures var d := Vec2(AxisSum(left, right), AxisSum(up, down));
      d != Zero2 ==> 0.9999999 < Normalized(d).LengthSq() <= 1.0
  {
  }

  /** Once a movement key is held, the facing no longer depends on the previous one. */
  lemma FacingIgnoresCurrent(up: bool, down: bool, left: bool, right: bool, c: PlayerFacing, c': PlayerFacing)
    requires up || down || left || right
    ensures TargetFacing(up, down, left, right, c) == TargetFacing(up, down, left, right, c')
  {
  }
}
