/**
 * The enemies of IsometricGame/Classes/EnemyBase.cs, with the per-kind constants of Enemy1.cs,
 * Bat.cs and Golem.cs. An enemy's world position is its (x, y) in reals and its z level; the
 * steering direction, which the source builds from normalised vectors, is supplied by the
 * caller as a unit vector, and the loot rolls are parameters.
 */
module Enemies {
  import opened Wrappers
  import opened Numerics
  import opened Text
  import opened Engine

  datatype EnemyKind = Enemy1 | Bat | Golem

  /** The constants each kind's constructor sets over EnemyBase's defaults. */
  datatype Stats = Stats(life: int, weight: int, speed: real, knockbackResistance: real)

  /** EnemyBase's own values: Life 3, Weight 1, Speed 3, no knockback resistance. */
  const BaseStats := Stats(3, 1, 3.0, 0.0)

  function KindStats(kind: EnemyKind): (s: Stats)
    ensures 0.0 <= s.knockbackResistance < 1.0 && s.speed > 0.0 && s.life >= 1 && s.weight >= 1
  {
    match kind
    case Enemy1 => BaseStats.(life := 1, weight := 1, speed := 3.0)
    case Bat => BaseStats.(life := 1, weight := 1, speed := 4.0, knockbackResistance := 0.0)
    case Golem => BaseStats.(life := 15, weight := 25, speed := 1.5, knockbackResistance := 0.75)
  }

  /** The texture keys each kind's constructor passes to EnemyBase. */
  function KindSpriteKeys(kind: EnemyKind): seq<string> {
    match kind
    case Enemy1 => ["enemy1_idle_south", "enemy1_idle_west", "enemy1_idle_north", "enemy1_idle_east"]
    case Bat => ["bat_idle"]
    case Golem => ["golem_idle"]
  }

  /** The direction names under which the enemy's textures are stored. */
  datatype Facing = South | West | North | East | Default

  /** LoadSprites' classification of a key by the first direction word it contains. */
  function ClassifyKey(key: string): Facing {
    if Contains(key, "south") then South
    else if Contains(key, "west") then West
    else if Contains(key, "north") then North
    else if Contains(key, "east") then East
    else Default
  }

  /**
   * The dictionary LoadSprites builds from the keys that have a texture (a texture is named by
   * its key): each such key is stored under its direction, a later key replacing an earlier one.
   */
  function SpriteTable(keys: seq<string>, images: set<string>): map<Facing, string>
    decreases |keys|
  {
    if keys == [] then map[]
    else
      var t := SpriteTable(keys[..|keys| - 1], images);
      var key := keys[|keys| - 1];
      if key in images then t[ClassifyKey(key) := key] else t
  }

  /**
   * A direction is in the table exactly when some key with a texture is classified under it,
   * and the texture stored there is such a key.
   */
  lemma {:induction false} SpriteTableEntries(keys: seq<string>, images: set<string>, d: Facing)
    ensures d in SpriteTable(keys, images) <==>
      exists i :: 0 <= i < |keys| && keys[i] in images && ClassifyKey(keys[i]) == d
    ensures d in SpriteTable(keys, images) ==>
      var k := SpriteTable(keys, images)[d]; k in keys && k in images && ClassifyKey(k) == d
    decreases |keys|
  {
    if keys != [] {
      var init := keys[..|keys| - 1];
      SpriteTableEntries(init, images, d);
      if d in SpriteTable(init, images) {
        var i :| 0 <= i < |init| && init[i] in images && ClassifyKey(init[i]) == d;
        assert keys[i] == init[i];
      }
      if exists i :: 0 <= i < |keys| && keys[i] in images && ClassifyKey(keys[i]) == d {
        var i :| 0 <= i < |keys| && keys[i] in images && ClassifyKey(keys[i]) == d;
        if i < |init| {
          assert init[i] == keys[i];
        }
      }
    }
  }

  /**
   * The facing UpdateSpriteDirection chooses for a strong enough direction: along the
   * dominant axis, positive is south, otherwise west (x) or north (y).
   */
  function Face(d: Vec2): (f: Facing)
    ensures f != East && f != Default
    ensures f == South <==> (if Abs(d.x) > Abs(d.y) then d.x > 0.0 else d.y > 0.0)
    ensures f == West <==> Abs(d.x) > Abs(d.y) && d.x <= 0.0
    ensures f == North <==> Abs(d.x) <= Abs(d.y) && d.y <= 0.0
  {
    if Abs(d.x) > Abs(d.y) then (if d.x > 0.0 then South else West)
    else (if d.y > 0.0 then South else North)
  }

  /** The loot a killed enemy drops; HealthPotion is listed because the source has a branch for it. */
  datatype Loot = ChestDrop | MagnetDrop | HealthPotionDrop | NoLoot

  const ChestDropChance: real := 0.01

  /**
   * DropLoot for two random rolls in [0, 1): a chest below the chest chance, otherwise a magnet
   * below 0.01. The health-potion test (below 0.001) follows the magnet test on the same roll,
   * so it can never succeed.
   */
  function DropLoot(chestChance: real, roll1: real, roll2: real): (l: Loot)
    ensures l != HealthPotionDrop
    ensures l == ChestDrop <==> chestChance > 0.0 && roll1 < chestChance
    ensures l == MagnetDrop <==> !(chestChance > 0.0 && roll1 < chestChance) && roll2 < 0.01
  {
    if chestChance > 0.0 && roll1 < chestChance then ChestDrop
    else if roll2 < 0.01 then MagnetDrop
    else if roll2 < 0.001 then HealthPotionDrop
    else NoLoot
  }

  /** The experience gem a killed enemy leaves: its value is the enemy's Weight. */
  datatype GemDrop = GemDrop(sprite: SpriteRef, value: int, position: Vec2, level: int)

  /** The cell IsCollidingAt looks up: X and Y rounded half to even, Z kept. */
  function CellAt(p: Vec2, level: int): Cell {
    Cell(RoundHalfEven(p.x), RoundHalfEven(p.y), level)
  }

  /**
   * IsCollidingAt: the rounded cell of the position is a solid tile, so a colliding position
   * has a solid tile on its level no more than half a cell away along each axis.
   */
  predicate IsCollidingAt(p: Vec2, level: int, solid: map<Cell, SpriteRef>): (b: bool)
    ensures b ==> exists c :: (c in solid && c.z == level
                               && p.x - 0.5 <= c.x as real <= p.x + 0.5 && p.y - 0.5 <= c.y as real <= p.y + 0.5)
  {
    CellAt(p, level) in solid
  }

  /**
   * The position Update ends at: the whole step when its rounded cell is free, otherwise the
   * old position; there is no sliding along one axis.
   */
  function Step(p: Vec2, level: int, movement: Vec2, solid: map<Cell, SpriteRef>): (q: Vec2)
    ensures q == p || q == p.Plus(movement)
    ensures q == p.Plus(movement) <==> !IsCollidingAt(p.Plus(movement), level, solid) || movement == Zero2
    ensures !IsCollidingAt(p, level, solid) ==> !IsCollidingAt(q, level, solid)
  {
    var next := p.Plus(movement);
    if !IsCollidingAt(next, level, solid) then next else p
  }

  /** Knockback decay: Vector2.Lerp(k, 0, 5 dt). */
  const Friction: real := 5.0

  /** For 0 <= 5 dt <= 1 the decay never lengthens the knockback and keeps its direction. */
  lemma KnockbackDecays(k: Vec2, dt: real)
    requires 0.0 <= Friction * dt <= 1.0
    ensures Lerp(k, Zero2, Friction * dt) == k.Times(1.0 - Friction * dt)
    ensures Lerp(k, Zero2, Friction * dt).LengthSq() <= k.LengthSq()
  {
    var t := 1.0 - Friction * dt;
    var r := k.Times(t);
    assert r.LengthSq() == t * t * k.LengthSq() by {
      assert (k.x * t) * (k.x * t) == t * t * (k.x * k.x);
      assert (k.y * t) * (k.y * t) == t * t * (k.y * k.y);
    }
    assert t * t <= 1.0 by {
      ScaleAtMost(t, t, 1.0);
    }
    assert k.LengthSq() >= 0.0;
    ScaleAtMost(k.LengthSq(), t * t, 1.0);
  }

  lemma ScaleAtMost(a: real, b: real, c: real)
    requires 0.0 <= a && b <= c
    ensures a * b <= a * c
  {
  }

  const SeparationRadius: real := 0.8
  const HitFlashDuration: real := 100.0

  class Enemy {
    /** The enemy's identity in the global registries. */
    const self: SpriteRef
    const kind: EnemyKind
    var life: int
    var speed: real
    var weight: int
    var knockbackResistance: real
    var position: Vec2
    var level: int
    var velocity: Vec2
    var knockback: Vec2
    var sprites: map<Facing, string>
    var facing: Facing
    var texture: Option<string>
    var lastHit: real
    var isHit: bool

    /** The kind's constants, a speed and resistance in range, and a texture taken from the table. */
    ghost predicate Valid()
      reads this
    {
      && self.kind == EnemyKind
      && speed == KindStats(kind).speed && weight == KindStats(kind).weight
      && knockbackResistance == KindStats(kind).knockbackResistance
      && (texture.Some? ==> texture.value in sprites.Values)
    }

    /**
     * Enemy1/Bat/Golem constructors over EnemyBase's: the sprite table from the keys (each kind
     * passes KindSpriteKeys(kind)), facing south with that texture (or the default one), and
     * the kind's constants.
     */
    constructor (self: SpriteRef, kind: EnemyKind, position: Vec2, level: int, spriteKeys: seq<string>, images: set<string>)
      requires self.kind == EnemyKind
      ensures Valid()
      ensures this.self == self && this.kind == kind && this.position == position && this.level == level
      ensures life == KindStats(kind).life && velocity == Zero2 && knockback == Zero2 && !isHit
      ensures sprites == SpriteTable(spriteKeys, images) && facing == South
      ensures texture == (if South in sprites then Some(sprites[South])
                          else if Default in sprites then Some(sprites[Default]) else None)
    {
      this.self := self;
      this.kind := kind;
      this.position := position;
      this.level := level;
      velocity := Zero2;
      knockback := Zero2;
      lastHit := 0.0;
      isHit := false;
      facing := South;
      texture := None;
      var st := KindStats(kind);
      life, weight, speed, knockbackResistance := st.life, st.weight, st.speed, st.knockbackResistance;
      new;
      sprites := LoadSprites(spriteKeys, images);
      UpdateSpriteDirection(Zero2);
    }

    /** LoadSprites: one pass over the keys, storing each key with a texture under its direction. */
    static method LoadSprites(keys: seq<string>, images: set<string>) returns (dict: map<Facing, string>)
      ensures dict == SpriteTable(keys, images)
    {
      dict := map[];
      for i := 0 to |keys|
        invariant dict == SpriteTable(keys[..i], images)
      {
        assert keys[..i + 1][..i] == keys[..i];
        if keys[i] in images {
          dict := dict[ClassifyKey(keys[i]) := keys[i]];
        }
      }
      assert keys[..|keys|] == keys;
    }

    /**
     * UpdateSpriteDirection: with at least one texture, a direction of squared length above 0.1
     * turns the enemy when it has more than one texture; the texture becomes the one for the
     * facing, or the default one; without textures nothing changes.
     */
    method UpdateSpriteDirection(d: Vec2)
      modifies this`facing, this`texture
      ensures |old(sprites)| == 0 ==> facing == old(facing) && texture == old(texture)
      ensures |sprites| > 0 ==>
        facing == (if d.LengthSq() > 0.1 && |sprites| > 1 then Face(d) else old(facing))
      ensures |sprites| > 0 ==>
        texture == (if facing in sprites then Some(sprites[facing])
                    else if Default in sprites then Some(sprites[Default]) else old(texture))
      ensures old(texture).Some? && old(texture).value in sprites.Values ==> texture.Some? && texture.value in sprites.Values
      ensures texture != old(texture) ==> texture.Some? && texture.value in sprites.Values
    {
      if |sprites| > 0 {
        if d.LengthSq() > 0.1 && |sprites| > 1 {
          facing := Face(d);
        }
        if facing in sprites {
          texture := Some(sprites[facing]);
        } else if Default in sprites {
          texture := Some(sprites[Default]);
        }
      }
    }

    /** ApplyKnockback: the force scaled by 1 - KnockbackResistance is added to the knockback. */
    method ApplyKnockback(force: Vec2)
      modifies this`knockback
      ensures knockback == old(knockback).Plus(force.Times(1.0 - knockbackResistance))
    {
      knockback := knockback.Plus(force.Times(1.0 - knockbackResistance));
    }

    /**
     * Damage: records the hit, lowers Life by the amount, and when Life is at most 0 drops a
     * gem worth the enemy's Weight, possibly loot, and marks the enemy removed. The removal
     * flag is not consulted, so a further fatal hit drops another gem.
     */
    method Damage(w: World, now: real, amount: int, roll1: real, roll2: real) returns (gem: Option<GemDrop>, loot: Loot)
      modifies this`life, this`lastHit, this`isHit, w`allSprites, w`items, w`removed, w`nextId
      ensures life == old(life) - amount && lastHit == now && isHit
      ensures gem.Some? <==> life <= 0
      ensures life > 0 ==> loot == NoLoot && unchanged(w)
      ensures life <= 0 ==>
        && gem == Some(GemDrop(SpriteRef(old(w.nextId), GemKind), weight, position, level))
        && loot == DropLoot(ChestDropChance, roll1, roll2)
        && w.removed == old(w.removed) + {self}
        && (loot == NoLoot ==> w.allSprites == old(w.allSprites) + [gem.value.sprite]
                               && w.items == old(w.items) && w.nextId == old(w.nextId) + 1)
        && (loot != NoLoot ==> w.allSprites == old(w.allSprites) + [gem.value.sprite, SpriteRef(old(w.nextId) + 1, ItemKind)]
                               && w.items == old(w.items) + [SpriteRef(old(w.nextId) + 1, ItemKind)]
                               && w.nextId == old(w.nextId) + 2)
    {
      lastHit := now;
      isHit := true;
      life := life - amount;
      gem, loot := None, NoLoot;
      if life <= 0 {
        var g := w.NewSprite(GemKind);
        w.allSprites := w.allSprites + [g];
        gem := Some(GemDrop(g, weight, position, level));
        loot := DropLoot(ChestDropChance, roll1, roll2);
        if loot != NoLoot {
          var item := w.NewSprite(ItemKind);
          w.items := w.items + [item];
          w.allSprites := w.allSprites + [item];
        }
        w.Kill(self);
      }
    }

    /** Whether `other` pushes this enemy apart: another live enemy strictly within 0.8, not on top of it. */
    predicate Separates(other: Enemy, removed: set<SpriteRef>)
      reads this`position, other`position
    {
      other != this && other.self !in removed
      && 0.0 < DistSq(position, other.position) < SeparationRadius * SeparationRadius
    }

    /** The number of enemies of `others` that push this one apart. */
    function SeparationCount(others: seq<Enemy>, removed: set<SpriteRef>): (n: nat)
      reads this`position, others`position
      ensures n <= |others|
      decreases |others|
    {
      if others == [] then 0
      else
        var init := others[..|others| - 1];
        SeparationCount(init, removed) + (if Separates(others[|others| - 1], removed) then 1 else 0)
    }

    /** The separation loop of Move, which counts the neighbours whose pushes it averages. */
    method CountNeighbors(others: seq<Enemy>, removed: set<SpriteRef>) returns (neighbors: nat)
      ensures neighbors == SeparationCount(others, removed)
    {
      neighbors := 0;
      for i := 0 to |others|
        invariant neighbors == SeparationCount(others[..i], removed)
      {
        var other := others[i];
        assert others[..i + 1][..i] == others[..i];
        if other == this || other.self in removed {
          continue;
        }
        var distSq := DistSq(position, other.position);
        if distSq < SeparationRadius * SeparationRadius {
          var push := position.Minus(other.position);
          assert push.LengthSq() == distSq;
          if push.LengthSq() > 0.0 {
            neighbors := neighbors + 1;
          }
        }
      }
      assert others[..|others|] == others;
    }

    /**
     * Move: without a live player, or while the knockback's squared length exceeds 0.5, the
     * velocity is zero and nothing else happens. Otherwise the velocity is the steering
     * direction times Speed and the sprite turns toward it; `steering` is the normalised blend
     * of the direction to the player and the averaged separation pushes.
     */
    method Move(w: World, others: seq<Enemy>, steering: Vec2) returns (neighbors: nat)
      modifies this`velocity, this`facing, this`texture
      ensures var idle := w.player.None? || w.player.value in w.removed || knockback.LengthSq() > 0.5;
        && (idle ==> velocity == Zero2 && facing == old(facing) && texture == old(texture) && neighbors == 0)
        && (!idle ==> velocity == steering.Times(speed) && neighbors == SeparationCount(others, w.removed))
      ensures |sprites| > 0 && steering.LengthSq() > 0.1 && |sprites| > 1 && velocity != Zero2 ==> facing == Face(steering)
      ensures old(texture).Some? && old(texture).value in sprites.Values ==> texture.Some? && texture.value in sprites.Values
      ensures texture != old(texture) ==> texture.Some? && texture.value in sprites.Values
    {
      if w.player.None? || w.player.value in w.removed {
        velocity := Zero2;
        return 0;
      }
      if knockback.LengthSq() > 0.5 {
        velocity := Zero2;
        return 0;
      }
      neighbors := CountNeighbors(others, w.removed);
      velocity := steering.Times(speed);
      UpdateSpriteDirection(steering);
    }

    /**
     * Update: Move, then the knockback decays by Lerp toward zero with factor 5 dt, and the
     * enemy takes the whole step (velocity + knockback) dt if its rounded cell is not solid.
     * The hit flash ends once more than 100 ms have passed since the last hit.
     */
    method Update(w: World, now: real, dt: real, others: seq<Enemy>, steering: Vec2) returns (neighbors: nat)
      requires Valid()
      modifies this`velocity, this`facing, this`texture, this`knockback, this`position, this`isHit
      ensures Valid()
      ensures knockback == Lerp(old(knockback), Zero2, Friction * dt)
      ensures position == Step(old(position), level, velocity.Plus(knockback).Times(dt), w.solidTiles)
      ensures !IsCollidingAt(old(position), level, w.solidTiles) ==> !IsCollidingAt(position, level, w.solidTiles)
      ensures isHit == (old(isHit) && !(now - lastHit > HitFlashDuration))
      ensures var idle := w.player.None? || w.player.value in w.removed || old(knockback).LengthSq() > 0.5;
        && (idle ==> velocity == Zero2)
        && (!idle ==> velocity == steering.Times(speed) && neighbors == old(SeparationCount(others, w.removed)))
    {
      neighbors := Move(w, others, steering);
      Advance(w, dt);
      if isHit && now - lastHit > HitFlashDuration {
        isHit := false;
      }
    }

    /** The physical step of Update: knockback decay, then the all-or-nothing move. */
    method Advance(w: World, dt: real)
      modifies this`knockback, this`position
      ensures knockback == Lerp(old(knockback), Zero2, Friction * dt)
      ensures position == Step(old(position), level, velocity.Plus(knockback).Times(dt), w.solidTiles)
    {
      knockback := Lerp(knockback, Zero2, Friction * dt);
      var movement := velocity.Plus(knockback).Times(dt);
      var next := position.Plus(movement);
      if !IsCollidingAt(next, level, w.solidTiles) {
        position := next;
      }
    }
  }

  /** Knockback is additive: two pushes add up to the push of their sum. */
  lemma KnockbackAdditive(k: Vec2, f: Vec2, g: Vec2, resistance: real)
    ensures k.Plus(f.Times(1.0 - resistance)).Plus(g.Times(1.0 - resistance))
         == k.Plus(f.Plus(g).Times(1.0 - resistance))
  {
    var c := 1.0 - resistance;
    assert (f.x + g.x) * c == f.x * c + g.x * c;
    assert (f.y + g.y) * c == f.y * c + g.y * c;
    assert k.Plus(f.Times(c)).Plus(g.Times(c)) == Vec2(k.x + f.x * c + g.x * c, k.y + f.y * c + g.y * c);
    assert k.Plus(f.Plus(g).Times(c)) == Vec2(k.x + (f.x + g.x) * c, k.y + (f.y + g.y) * c);
  }

  /** A Golem feels a quarter of every push; Enemy1 and Bat feel all of it. */
  lemma KnockbackByKind(kind: EnemyKind, f: Vec2)
    ensures kind == Golem ==> f.Times(1.0 - KindStats(kind).knockbackResistance) == f.Times(0.25)
    ensures kind != Golem ==> f.Times(1.0 - KindStats(kind).knockbackResistance) == f
  {
  }
}
