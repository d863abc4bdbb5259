/**
 * The spatial hash of IsometricGame/Classes/Physics/SpatialGrid.cs: enemies are bucketed by the
 * grid square (floor(x / cellSize), floor(y / cellSize)) of their position, and a query reads
 * the 3x3 block of buckets around the query's square.
 */
module SpatialGrid {
  import opened Engine

  type Square = (int, int)

  /** GetCell: the square containing (x, y). */
  function GetCell(x: real, y: real, cellSize: int): (sq: Square)
    requires cellSize > 0
    ensures sq.0 as real * cellSize as real <= x < (sq.0 + 1) as real * cellSize as real
    ensures sq.1 as real * cellSize as real <= y < (sq.1 + 1) as real * cellSize as real
  {
    FloorScaled(x, cellSize as real);
    FloorScaled(y, cellSize as real);
    ((x / cellSize as real).Floor, (y / cellSize as real).Floor)
  }

  lemma FloorScaled(x: real, c: real)
    requires c > 0.0
    ensures (x / c).Floor as real * c <= x
    ensures x < ((x / c).Floor + 1) as real * c
  {
    var n := (x / c).Floor;
    var q := x / c;
    assert q * c == x;
    assert n as real <= q < n as real + 1.0;
    assert x - n as real * c == (q - n as real) * c;
    assert (n + 1) as real * c - x == (n as real + 1.0 - q) * c;
    PositiveProduct(n as real + 1.0 - q, c);
    assert (n + 1) as real == n as real + 1.0;
    assert (n + 1) as real * c == (n as real + 1.0) * c;
    assert x < (n + 1) as real * c;
    assert n == (x / c).Floor;
  }

  lemma QuotientAtMostOne(u: real, c: real)
    requires c > 0.0 && -c <= u <= c
    ensures -1.0 <= u / c <= 1.0
  {
    var q := u / c;
    assert q * c == u;
    assert (1.0 - q) * c == c - u;
    assert (1.0 + q) * c == c + u;
    ProductSign(1.0 - q, c);
    ProductSign(1.0 + q, c);
  }

  lemma ProductSign(x: real, c: real)
    requires c > 0.0 && x * c >= 0.0
    ensures x >= 0.0
  {
    if x < 0.0 {
      PositiveProduct(-x, c);
    }
  }

  lemma PositiveProduct(a: real, b: real)
    requires a > 0.0 && b > 0.0
    ensures a * b > 0.0
  {
  }

  /** Two points at most one cell size apart on an axis fall in the same or adjacent squares. */
  lemma {:induction false} NearbyFloors(a: real, b: real, cellSize: int)
    requires cellSize > 0 && -(cellSize as real) <= a - b <= cellSize as real
    ensures -1 <= (a / cellSize as real).Floor - (b / cellSize as real).Floor <= 1
  {
    var c := cellSize as real;
    var fa, fb := (a / c).Floor, (b / c).Floor;
    assert fa as real <= a / c < fa as real + 1.0;
    assert fb as real <= b / c < fb as real + 1.0;
    assert a / c - b / c == (a - b) / c;
    QuotientAtMostOne(a - b, c);
  }

  /** The bucket of a square; a missing key reads as empty. */
  function Bucket(buckets: map<Square, seq<SpriteRef>>, sq: Square): seq<SpriteRef> {
    if sq in buckets then buckets[sq] else []
  }

  /** The k-th square read by Retrieve: x offset outer, y offset inner, each from -1 to 1. */
  function NeighborSquare(center: Square, k: int): (sq: Square)
    requires 0 <= k < 9
    ensures -1 <= sq.0 - center.0 <= 1 && -1 <= sq.1 - center.1 <= 1
  {
    (center.0 + k / 3 - 1, center.1 + k % 3 - 1)
  }

  /** The concatenation of the first k buckets Retrieve reads. */
  function Gathered(buckets: map<Square, seq<SpriteRef>>, center: Square, k: int): seq<SpriteRef>
    requires 0 <= k <= 9
  {
    if k == 0 then [] else Gathered(buckets, center, k - 1) + Bucket(buckets, NeighborSquare(center, k - 1))
  }

  /** Every square of the 3x3 block is one of the nine Retrieve reads. */
  lemma NeighborSquareCovers(center: Square, sq: Square)
    requires -1 <= sq.0 - center.0 <= 1 && -1 <= sq.1 - center.1 <= 1
    ensures NeighborSquare(center, 3 * (sq.0 - center.0 + 1) + (sq.1 - center.1 + 1)) == sq
  {
  }

  lemma {:induction false} GatheredContains(buckets: map<Square, seq<SpriteRef>>, center: Square, j: int, k: int, e: SpriteRef)
    requires 0 <= j < k <= 9 && e in Bucket(buckets, NeighborSquare(center, j))
    ensures e in Gathered(buckets, center, k)
    decreases k
  {
    if j < k - 1 {
      GatheredContains(buckets, center, j, k - 1, e);
    }
  }

  lemma {:induction false} GatheredEmpty(buckets: map<Square, seq<SpriteRef>>, center: Square, k: int)
    requires 0 <= k <= 9
    requires forall sq :: sq in buckets ==> buckets[sq] == []
    ensures Gathered(buckets, center, k) == []
  {
    if k > 0 {
      GatheredEmpty(buckets, center, k - 1);
    }
  }

  class Grid {
    const cellSize: int
    var buckets: map<Square, seq<SpriteRef>>

    ghost predicate Valid()
      reads this
    {
      cellSize > 0
    }

    /** A new grid has no buckets. */
    constructor (cellSize: int)
      requires cellSize > 0
      ensures Valid() && this.cellSize == cellSize && buckets == map[]
    {
      this.cellSize := cellSize;
      buckets := map[];
    }

    /** Clear: every bucket is emptied, and every key is kept. */
    method Clear()
      modifies this
      ensures buckets.Keys == old(buckets).Keys
      ensures forall sq :: sq in buckets ==> buckets[sq] == []
    {
      var pending := buckets.Keys;
      while pending != {}
        invariant buckets.Keys == old(buckets).Keys && pending <= buckets.Keys
        invariant forall sq :: sq in buckets && sq !in pending ==> buckets[sq] == []
        decreases pending
      {
        var sq :| sq in pending;
        buckets := buckets[sq := []];
        pending := pending - {sq};
      }
    }

    /**
     * Register: the enemy is appended to the bucket of the square of its position, created if
     * missing; no other bucket changes.
     */
    method Register(enemy: SpriteRef, x: real, y: real)
      requires Valid()
      modifies this
      ensures buckets == old(buckets)[GetCell(x, y, cellSize) := Bucket(old(buckets), GetCell(x, y, cellSize)) + [enemy]]
    {
      var sq := GetCell(x, y, cellSize);
      if sq !in buckets {
        buckets := buckets[sq := []];
      }
      buckets := buckets[sq := buckets[sq] + [enemy]];
    }

    /** Retrieve: the nine buckets around the query's square, concatenated in loop order. */
    method Retrieve(x: real, y: real) returns (found: seq<SpriteRef>)
      requires Valid()
      ensures found == Gathered(buckets, GetCell(x, y, cellSize), 9)
    {
      found := [];
      var center := GetCell(x, y, cellSize);
      for dx := -1 to 2
        invariant found == Gathered(buckets, center, 3 * (dx + 1))
      {
        for dy := -1 to 2
          invariant found == Gathered(buckets, center, 3 * (dx + 1) + (dy + 1))
        {
          var sq := (center.0 + dx, center.1 + dy);
          assert sq == NeighborSquare(center, 3 * (dx + 1) + (dy + 1));
          if sq in buckets {
            found := found + buckets[sq];
          }
        }
      }
    }
  }

  /**
   * No false negatives: an enemy registered at (x, y) is returned by a query at (qx, qy) that
   * lies within one cell size of it on both axes.
   */
  lemma NoFalseNegatives(buckets: map<Square, seq<SpriteRef>>, cellSize: int, e: SpriteRef,
                         x: real, y: real, qx: real, qy: real)
    requires cellSize > 0 && e in Bucket(buckets, GetCell(x, y, cellSize))
    requires -(cellSize as real) <= x - qx <= cellSize as real && -(cellSize as real) <= y - qy <= cellSize as real
    ensures e in Gathered(buckets, GetCell(qx, qy, cellSize), 9)
  {
    var sq, center := GetCell(x, y, cellSize), GetCell(qx, qy, cellSize);
    NearbyFloors(x, qx, cellSize);
    NearbyFloors(y, qy, cellSize);
    NeighborSquareCovers(center, sq);
    GatheredContains(buckets, center, 3 * (sq.0 - center.0 + 1) + (sq.1 - center.1 + 1), 9, e);
  }

  /** After Clear every query returns nothing. */
  lemma RetrieveAfterClear(buckets: map<Square, seq<SpriteRef>>, center: Square)
    requires forall sq :: sq in buckets ==> buckets[sq] == []
    ensures Gathered(buckets, center, 9) == []
  {
    GatheredEmpty(buckets, center, 9);
  }

  /** A registered enemy is found from its own position and from any point one cell size away. */
  lemma RegisteredIsFound(buckets: map<Square, seq<SpriteRef>>, cellSize: int, e: SpriteRef,
                          x: real, y: real, qx: real, qy: real)
    requires cellSize > 0
    requires -(cellSize as real) <= x - qx <= cellSize as real && -(cellSize as real) <= y - qy <= cellSize as real
    ensures var sq := GetCell(x, y, cellSize);
      e in Gathered(buckets[sq := Bucket(buckets, sq) + [e]], GetCell(qx, qy, cellSize), 9)
  {
    var sq := GetCell(x, y, cellSize);
    var b' := buckets[sq := Bucket(buckets, sq) + [e]];
    assert e in Bucket(b', sq);
    NoFalseNegatives(b', cellSize, e, x, y, qx, qy);
  }
}
