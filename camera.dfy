/**
 * The 2D camera of IsometricGame/Camera.cs. Its Transform is a product of XNA translation and
 * scale matrices; those matrices only ever scale uniformly and translate in the plane, so a
 * matrix is modelled by its scale and its translation, under XNA's row-vector convention
 * (in `A * B`, A is applied first).
 */
module Camera {
  import opened Numerics

  /** p maps to p * scale + offset. */
  datatype Affine = Affine(scale: real, offset: Vec2)

  function Apply(m: Affine, p: Vec2): Vec2 {
    p.Times(m.scale).Plus(m.offset)
  }

  /** Matrix.CreateTranslation(tx, ty, 0). */
  function Translation(tx: real, ty: real): Affine {
    Affine(1.0, Vec2(tx, ty))
  }

  /** Matrix.CreateScale(z, z, 1). */
  function Scaling(z: real): Affine {
    Affine(z, Zero2)
  }

  /** The matrix product a * b. */
  function Compose(a: Affine, b: Affine): Affine {
    Affine(a.scale * b.scale, a.offset.Times(b.scale).Plus(b.offset))
  }

  /** Under the row-vector convention the product a * b applies a first, then b. */
  lemma ComposeApplies(a: Affine, b: Affine, p: Vec2)
    ensures Apply(Compose(a, b), p) == Apply(b, Apply(a, p))
  {
    assert p.x * (a.scale * b.scale) == (p.x * a.scale) * b.scale;
    assert p.y * (a.scale * b.scale) == (p.y * a.scale) * b.scale;
  }

  /** Matrix.Invert for an invertible (non-zero scale) matrix. */
  function Invert(m: Affine): Affine
    requires m.scale != 0.0
  {
    var k := 1.0 / m.scale;
    Affine(k, Vec2(-m.offset.x * k, -m.offset.y * k))
  }

  /** The inverse undoes the matrix, and the matrix undoes the inverse. */
  lemma InvertInverts(m: Affine, p: Vec2)
    requires m.scale != 0.0
    ensures Apply(Invert(m), Apply(m, p)) == p
    ensures Apply(m, Apply(Invert(m), p)) == p
  {
    var k := 1.0 / m.scale;
    assert m.scale * k == 1.0;
    assert (p.x * m.scale + m.offset.x) * k + -m.offset.x * k == p.x * (m.scale * k);
    assert (p.y * m.scale + m.offset.y) * k + -m.offset.y * k == p.y * (m.scale * k);
    assert (p.x * k + -m.offset.x * k) * m.scale == p.x * (k * m.scale) - m.offset.x * (k * m.scale);
    assert (p.y * k + -m.offset.y * k) * m.scale == p.y * (k * m.scale) - m.offset.y * (k * m.scale);
  }

  /** The halves of the viewport size, as UpdateMatrix computes them with integer division. */
  function ViewportCenter(viewportWidth: int, viewportHeight: int): Vec2 {
    Vec2(CsDiv(viewportWidth, 2) as real, CsDiv(viewportHeight, 2) as real)
  }

  /** UpdateMatrix's product Translation(-Position) * Scale(Zoom) * Translation(vw / 2, vh / 2). */
  function ViewTransform(position: Vec2, zoom: real, viewportWidth: int, viewportHeight: int): Affine {
    Compose(Compose(Translation(-position.x, -position.y), Scaling(zoom)),
            Translation(CsDiv(viewportWidth, 2) as real, CsDiv(viewportHeight, 2) as real))
  }

  /** The view matrix maps a world point p to (p - Position) * Zoom + (vw / 2, vh / 2). */
  lemma ViewTransformMaps(position: Vec2, zoom: real, viewportWidth: int, viewportHeight: int, p: Vec2)
    ensures Apply(ViewTransform(position, zoom, viewportWidth, viewportHeight), p)
         == p.Minus(position).Times(zoom).Plus(ViewportCenter(viewportWidth, viewportHeight))
  {
    var t1, s, t2 := Translation(-position.x, -position.y), Scaling(zoom),
                     Translation(CsDiv(viewportWidth, 2) as real, CsDiv(viewportHeight, 2) as real);
    ComposeApplies(Compose(t1, s), t2, p);
    ComposeApplies(t1, s, p);
  }

  /** A view matrix with zoom at least 0.1 has scale Zoom, hence an inverse. */
  lemma ViewTransformInvertible(position: Vec2, zoom: real, viewportWidth: int, viewportHeight: int)
    requires zoom >= MinZoom
    ensures ViewTransform(position, zoom, viewportWidth, viewportHeight).scale == zoom
    ensures ViewTransform(position, zoom, viewportWidth, viewportHeight).scale != 0.0
  {
  }

  const MinZoom: real := 0.1
  const FollowFactor: real := 0.1

  class Camera {
    var position: Vec2
    var zoom: real
    var transform: Affine
    const viewportWidth: int
    const viewportHeight: int

    /** Zoom never drops below 0.1, and Transform is always the view matrix of the fields. */
    ghost predicate Valid()
      reads this
    {
      && zoom >= MinZoom
      && transform == ViewTransform(position, zoom, viewportWidth, viewportHeight)
    }

    /** A new camera: zoom 1, at the origin. */
    constructor (viewportWidth: int, viewportHeight: int)
      ensures Valid()
      ensures this.viewportWidth == viewportWidth && this.viewportHeight == viewportHeight
      ensures zoom == 1.0 && position == Zero2
    {
      this.viewportWidth := viewportWidth;
      this.viewportHeight := viewportHeight;
      zoom := 1.0;
      position := Zero2;
      new;
      UpdateMatrix();
    }

    /** UpdateMatrix: recomputes Transform from Position, Zoom and the viewport. */
    method UpdateMatrix()
      modifies this`transform
      ensures transform == ViewTransform(position, zoom, viewportWidth, viewportHeight)
    {
      transform := ViewTransform(position, zoom, viewportWidth, viewportHeight);
    }

    /** SetZoom: the zoom is raised to at least 0.1; a zoom of at least 0.1 is stored exactly. */
    method SetZoom(z: real)
      requires Valid()
      modifies this`zoom, this`transform
      ensures Valid() && position == old(position)
      ensures zoom == Max(z, MinZoom)
      ensures z >= MinZoom ==> zoom == z
    {
      zoom := Max(z, MinZoom);
      UpdateMatrix();
    }

    /** Follow: Position moves 10% of the way toward the target. */
    method Follow(target: Vec2)
      requires Valid()
      modifies this`position, this`transform
      ensures Valid() && zoom == old(zoom)
      ensures position == Lerp(old(position), target, FollowFactor)
      ensures target.Minus(position) == target.Minus(old(position)).Times(0.9)
    {
      LerpShrinksGap(position, target, FollowFactor);
      position := Lerp(position, target, FollowFactor);
      UpdateMatrix();
    }

    /** GetViewMatrix: the view transform of the camera's current position and zoom. */
    function GetViewMatrix(): (m: Affine)
      reads this
      ensures Valid() ==> m == ViewTransform(position, zoom, viewportWidth, viewportHeight)
    {
      transform
    }

    /** ScreenToWorld: the world point whose view transform is the given screen point. */
    method ScreenToWorld(screen: Vec2) returns (world: Vec2)
      requires Valid()
      ensures Apply(transform, world) == screen
    {
      ViewTransformInvertible(position, zoom, viewportWidth, viewportHeight);
      world := Apply(Invert(transform), screen);
      InvertInverts(transform, screen);
    }
  }

  /** Un-projecting the image of a world point gives that point back. */
  lemma ScreenToWorldRoundTrip(position: Vec2, zoom: real, viewportWidth: int, viewportHeight: int, p: Vec2)
    requires zoom >= MinZoom
    ensures var m := ViewTransform(position, zoom, viewportWidth, viewportHeight);
      m.scale != 0.0 && Apply(Invert(m), Apply(m, p)) == p
  {
    ViewTransformInvertible(position, zoom, viewportWidth, viewportHeight);
    InvertInverts(ViewTransform(position, zoom, viewportWidth, viewportHeight), p);
  }
}
