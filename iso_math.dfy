/**
 * The isometric projection of IsometricGame/IsoMath.cs. The tile size (Constants.IsoTileSize)
 * and the world size (Constants.WorldSize) are not part of this model, so they are parameters.
 */
module IsoMath {
  import opened Numerics

  /**
   * WorldToScreen: the diamond projection with half-tile scale factors. The origin stays put,
   * the world diagonal x == y lands on the screen's vertical axis, and with a positive tile
   * height the screen row is below the axis exactly when x + y is positive.
   */
  function WorldToScreen(p: Vec2, tile: Vec2): (r: Vec2)
    ensures p == Vec2(0.0, 0.0) ==> r == Vec2(0.0, 0.0)
    ensures p.x == p.y ==> r.x == 0.0
    ensures tile.y > 0.0 ==> (r.y > 0.0 <==> p.x + p.y > 0.0)
  {
    Vec2((p.x - p.y) * (tile.x / 2.0), (p.x + p.y) * (tile.y / 2.0))
  }

  /**
   * ScreenToWorld: the inverse diamond projection. The world point's x - y and x + y are the
   * screen coordinates measured in half tiles.
   */
  function ScreenToWorld(s: Vec2, tile: Vec2): (r: Vec2)
    requires tile.x != 0.0 && tile.y != 0.0
    ensures r.x - r.y == s.x / (tile.x / 2.0)
    ensures r.x + r.y == s.y / (tile.y / 2.0)
  {
    var u := s.x / (tile.x / 2.0);
    var v := s.y / (tile.y / 2.0);
    Vec2((u + v) / 2.0, (v - u) / 2.0)
  }

  /** Projecting to the screen and back gives the original world point. */
  lemma ScreenToWorldInvertsProjection(p: Vec2, tile: Vec2)
    requires tile.x != 0.0 && tile.y != 0.0
    ensures ScreenToWorld(WorldToScreen(p, tile), tile) == p
  {
    var s := WorldToScreen(p, tile);
    assert s.x / (tile.x / 2.0) == p.x - p.y;
    assert s.y / (tile.y / 2.0) == p.x + p.y;
  }

  /** Unprojecting a screen point and projecting it again gives the original screen point. */
  lemma WorldToScreenInvertsUnprojection(s: Vec2, tile: Vec2)
    requires tile.x != 0.0 && tile.y != 0.0
    ensures WorldToScreen(ScreenToWorld(s, tile), tile) == s
  {
    var u := s.x / (tile.x / 2.0);
    var v := s.y / (tile.y / 2.0);
    var w := ScreenToWorld(s, tile);
    assert w.x - w.y == u;
    assert w.x + w.y == v;
    assert u * (tile.x / 2.0) == s.x;
    assert v * (tile.y / 2.0) == s.y;
  }

  /** The projection is one-to-one for non-zero tile sizes. */
  lemma WorldToScreenInjective(p: Vec2, q: Vec2, tile: Vec2)
    requires tile.x != 0.0 && tile.y != 0.0
    requires WorldToScreen(p, tile) == WorldToScreen(q, tile)
    ensures p == q
  {
    ScreenToWorldInvertsProjection(p, tile);
    ScreenToWorldInvertsProjection(q, tile);
  }

  /**
   * GetDepth: 1 - (x + y) / (world.x + world.y), clamped to [0, 1]; points nearer the origin
   * are further back.
   */
  function GetDepth(p: Vec2, world: Vec2): (d: real)
    requires world.x + world.y != 0.0
    ensures 0.0 <= d <= 1.0
  {
    Clamp(1.0 - (p.x + p.y) / (world.x + world.y), 0.0, 1.0)
  }

  /** The depth depends on the point only through x + y. */
  lemma DepthDependsOnSum(p: Vec2, q: Vec2, world: Vec2)
    requires world.x + world.y != 0.0 && p.x + p.y == q.x + q.y
    ensures GetDepth(p, world) == GetDepth(q, world)
  {
  }

  /** For a positive world size, the depth does not increase as x + y grows. */
  lemma DepthNonIncreasing(p: Vec2, q: Vec2, world: Vec2)
    requires world.x + world.y > 0.0 && p.x + p.y <= q.x + q.y
    ensures GetDepth(q, world) <= GetDepth(p, world)
  {
    var t := world.x + world.y;
    assert (p.x + p.y) / t <= (q.x + q.y) / t by {
      assert (q.x + q.y) / t - (p.x + p.y) / t == ((q.x + q.y) - (p.x + p.y)) / t;
    }
  }

  /** The origin is drawn furthest back, and every point at or past the far corner in front. */
  lemma DepthEnds(p: Vec2, world: Vec2)
    requires world.x + world.y > 0.0
    ensures GetDepth(Zero2, world) == 1.0
    ensures p.x + p.y >= world.x + world.y ==> GetDepth(p, world) == 0.0
  {
    var t := world.x + world.y;
    if p.x + p.y >= t {
      assert (p.x + p.y) / t >= 1.0 by {
        assert t / t == 1.0;
        assert (p.x + p.y) / t - t / t == (p.x + p.y - t) / t;
      }
    }
  }
}
