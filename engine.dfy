/**
 * The global registries of GameEngine (IsometricGame/GameEngine.cs), passed explicitly.
 * A sprite object is identified by a SpriteRef: its identity (`id`) plus its runtime class
 * (`kind`), so that `sprite is EnemyBase` becomes `s.kind == EnemyKind`. The IsRemoved flags
 * of all sprites are the set `removed`.
 */
module Engine {
  import opened Wrappers

  /** A grid cell: the key type of the solid-tile registry. */
  datatype Cell = Cell(x: int, y: int, z: int)

  function Above(c: Cell): (a: Cell)
    ensures a.x == c.x && a.y == c.y && a.z == c.z + 1
  {
    c.(z := c.z + 1)
  }

  datatype SpriteKind = TileKind | PlayerKind | EnemyKind | BulletKind | GemKind | ItemKind | ProjectileKind

  datatype SpriteRef = SpriteRef(id: nat, kind: SpriteKind)

  /** List<T>.RemoveAll(pred) keeps, in order, the elements the predicate rejects. */
  function Filter<T(!new)>(s: seq<T>, keep: T -> bool): (r: seq<T>)
    ensures |r| <= |s|
  {
    if s == [] then [] else (if keep(s[0]) then [s[0]] else []) + Filter(s[1..], keep)
  }

  /** Filter keeps exactly the elements the predicate accepts. */
  lemma {:induction false} FilterMembers<T(!new)>(s: seq<T>, keep: T -> bool)
    ensures forall x :: x in Filter(s, keep) <==> x in s && keep(x)
  {
    if s != [] {
      FilterMembers(s[1..], keep);
      assert s == [s[0]] + s[1..];
    }
  }

  lemma {:induction false} FilterAppend<T(!new)>(a: seq<T>, b: seq<T>, keep: T -> bool)
    ensures Filter(a + b, keep) == Filter(a, keep) + Filter(b, keep)
  {
    if a == [] {
      assert a + b == b;
    } else {
      assert (a + b)[0] == a[0] && (a + b)[1..] == a[1..] + b;
      FilterAppend(a[1..], b, keep);
      assert Filter(a + b, keep) == (if keep(a[0]) then [a[0]] else []) + Filter(a[1..] + b, keep);
    }
  }

  class World {
    var allSprites: seq<SpriteRef>
    var allEnemies: seq<SpriteRef>
    var playerBullets: seq<SpriteRef>
    var enemyBullets: seq<SpriteRef>
    /** GameEngine.Items, which the enemies' loot drops are added to. */
    var items: seq<SpriteRef>
    var player: Option<SpriteRef>
    var solidTiles: map<Cell, SpriteRef>
    var removed: set<SpriteRef>
    /** The next identity handed to a newly created sprite. */
    var nextId: nat

    /** GameEngine.Initialize: every registry empty, no player. */
    constructor ()
      ensures allSprites == [] && allEnemies == [] && playerBullets == [] && enemyBullets == [] && items == []
      ensures player == None && solidTiles == map[] && removed == {} && nextId == 0
    {
      allSprites, allEnemies, playerBullets, enemyBullets, items := [], [], [], [], [];
      player, solidTiles, removed, nextId := None, map[], {}, 0;
    }

    /** Creates the identity of a new sprite of the given class. */
    method NewSprite(kind: SpriteKind) returns (s: SpriteRef)
      modifies this`nextId
      ensures s == SpriteRef(old(nextId), kind) && nextId == old(nextId) + 1
    {
      s := SpriteRef(nextId, kind);
      nextId := nextId + 1;
    }

    /** Sprite.Kill: sets the IsRemoved flag. */
    method Kill(s: SpriteRef)
      modifies this`removed
      ensures removed == old(removed) + {s}
    {
      removed := removed + {s};
    }
  }
}
