/**
 * PathNode (IsometricGame/Pathfinding/PathNode.cs): a search-tree node with accumulated cost
 * G, heuristic H and F = G + H. The nodes live in an index arena (see Pathfinder), so the
 * Parent reference is the index of the parent node, -1 standing for null.
 */
module PathNodes {
  import opened Engine
  import opened Numerics

  const MoveStraightCost: int := 10
  const MoveDiagonalCost: int := 14

  datatype PathNode = PathNode(pos: Cell, parent: int, g: int, h: int) {
    /** F_Cost. */
    function F(): int {
      g + h
    }
  }

  function MinI(a: int, b: int): int { if a <= b then a else b }
  function MaxI(a: int, b: int): int { if a >= b then a else b }

  /**
   * CalculateHCost: octile distance on the absolute X and Y differences. The source truncates
   * the float differences with an (int) cast; node positions are whole cells, so that cast is
   * the identity here.
   */
  function HCost(pos: Cell, target: Cell): (h: int)
    ensures h >= 0
    ensures h >= 10 * MaxI(IntAbs(pos.x - target.x), IntAbs(pos.y - target.y))
    ensures h <= 14 * MaxI(IntAbs(pos.x - target.x), IntAbs(pos.y - target.y))
  {
    var dx := IntAbs(pos.x - target.x);
    var dy := IntAbs(pos.y - target.y);
    var lo := MinI(dx, dy);
    var hi := MaxI(dx, dy);
    lo * MoveDiagonalCost + (hi - lo) * MoveStraightCost
  }

  /** The octile distance rewritten: 4 per unit of dx + dy, plus 6 per unit of the larger one. */
  lemma HCostOctile(pos: Cell, target: Cell)
    ensures var dx, dy := IntAbs(pos.x - target.x), IntAbs(pos.y - target.y);
      HCost(pos, target) == 4 * (dx + dy) + 6 * MaxI(dx, dy)
  {
  }

  /** H is zero exactly when the X/Y cells coincide; the Z levels play no part. */
  lemma HCostZeroIff(pos: Cell, target: Cell)
    ensures HCost(pos, target) == 0 <==> pos.x == target.x && pos.y == target.y
  {
  }

  /** H does not depend on which of the two cells is the node and which the target. */
  lemma HCostSymmetric(a: Cell, b: Cell)
    ensures HCost(a, b) == HCost(b, a)
  {
    assert IntAbs(a.x - b.x) == IntAbs(b.x - a.x);
    assert IntAbs(a.y - b.y) == IntAbs(b.y - a.y);
  }
}
