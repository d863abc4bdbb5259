/**
 * Grid A* (IsometricGame/Pathfinding/Pathfinder.cs).
 *
 * The open list is a sequence of indices into an arena of PathNode records, the closed list a
 * set of cells. The grid is unbounded, so the source's loop stops only on success or when the
 * reachable region is used up; the model bounds the number of expansions by `fuel` and reports
 * OutOfFuel when that bound is reached first.
 */
module Pathfinder {
  import opened Engine
  import opened Numerics
  import opened PathNodes

  /** The eight same-level neighbours, in the order GetNeighbors lists them. */
  function Neighbors(c: Cell): (ns: seq<Cell>)
    ensures |ns| == 8
  {
    [ Cell(c.x + 1, c.y, c.z), Cell(c.x - 1, c.y, c.z), Cell(c.x, c.y + 1, c.z), Cell(c.x, c.y - 1, c.z),
      Cell(c.x + 1, c.y + 1, c.z), Cell(c.x - 1, c.y - 1, c.z), Cell(c.x - 1, c.y + 1, c.z), Cell(c.x + 1, c.y - 1, c.z) ]
  }

  /** b is one of the 8 cells around a at the same level. */
  predicate Adjacent(a: Cell, b: Cell) {
    a.z == b.z && a != b && -1 <= a.x - b.x <= 1 && -1 <= a.y - b.y <= 1
  }

  /** GetNeighbors yields exactly the adjacent cells. */
  lemma NeighborsExact(c: Cell, d: Cell)
    ensures d in Neighbors(c) <==> Adjacent(c, d)
  {
  }

  /** CalculateMovementCost: 14 when both X and Y change, 10 otherwise. */
  function StepCost(from: Cell, to: Cell): (cost: int)
    ensures cost == MoveDiagonalCost || cost == MoveStraightCost
    ensures cost == MoveDiagonalCost <==> from.x != to.x && from.y != to.y
  {
    if from.x != to.x && from.y != to.y then MoveDiagonalCost else MoveStraightCost
  }

  /** A neighbour is rejected when its cell or the cell above it is solid. */
  predicate Passable(solid: set<Cell>, c: Cell) {
    c !in solid && Above(c) !in solid
  }

  /**
   * w is a walk from `start`: every cell is adjacent to the one before it (the first to the
   * start) and passable.
   */
  predicate IsWalk(solid: set<Cell>, start: Cell, w: seq<Cell>) {
    && (|w| > 0 ==> Adjacent(start, w[0]))
    && (forall i :: 0 < i < |w| ==> Adjacent(w[i - 1], w[i]))
    && (forall i :: 0 <= i < |w| ==> Passable(solid, w[i]))
  }

  /** The 10/14 cost of walking w from start. */
  function WalkCost(start: Cell, w: seq<Cell>): (c: int)
    ensures c >= 10 * |w|
    decreases |w|
  {
    if w == [] then 0 else WalkCost(start, w[..|w| - 1]) + StepCost(Last(start, w[..|w| - 1]), w[|w| - 1])
  }

  /** The cell a walk ends on (the start for the empty walk). */
  function Last(start: Cell, w: seq<Cell>): Cell {
    if w == [] then start else w[|w| - 1]
  }

  /** A path as FindPath promises it: start-exclusive, target-inclusive, in traversal order. */
  predicate ValidPath(solid: set<Cell>, start: Cell, target: Cell, path: seq<Cell>) {
    && IsWalk(solid, start, path)
    && Last(start, path) == target
    && start !in path
  }

  /** No walk from start ends on target (and target is not start itself). */
  ghost predicate Unreachable(solid: set<Cell>, start: Cell, target: Cell) {
    && start != target
    && forall w :: IsWalk(solid, start, w) && |w| > 0 ==> w[|w| - 1] != target
  }

  // ---------------------------------------------------------------------------------------
  // The heuristic against the step costs
  // ---------------------------------------------------------------------------------------

  /** H changes by at most one step's cost between adjacent cells (H is consistent). */
  lemma HCostConsistent(a: Cell, b: Cell, target: Cell)
    requires Adjacent(a, b)
    ensures HCost(a, target) <= StepCost(a, b) + HCost(b, target)
    ensures HCost(b, target) <= StepCost(a, b) + HCost(a, target)
  {
    HCostStep(a, b, target);
    HCostStep(b, a, target);
    assert StepCost(a, b) == StepCost(b, a);
  }

  lemma HCostStep(a: Cell, b: Cell, target: Cell)
    requires -1 <= a.x - b.x <= 1 && -1 <= a.y - b.y <= 1
    ensures HCost(a, target) <= StepCost(a, b) + HCost(b, target)
  {
    var dx, dy := IntAbs(a.x - target.x), IntAbs(a.y - target.y);
    var ex, ey := IntAbs(b.x - target.x), IntAbs(b.y - target.y);
    var m, n := MaxI(dx, dy), MaxI(ex, ey);
    assert HCost(a, target) - HCost(b, target) == 4 * (dx - ex) + 4 * (dy - ey) + 6 * (m - n) by {
      HCostOctile(a, target);
      HCostOctile(b, target);
    }
    AbsStep(a.x - target.x, b.x - target.x);
    AbsStep(a.y - target.y, b.y - target.y);
    MaxStep(dx, dy, ex, ey);
  }

  /** Moving each of two values by at most one moves their maximum by at most one. */
  lemma MaxStep(dx: int, dy: int, ex: int, ey: int)
    requires -1 <= dx - ex <= 1 && -1 <= dy - ey <= 1
    ensures -1 <= MaxI(dx, dy) - MaxI(ex, ey) <= 1
  {
  }

  /** Moving one unit changes a distance by at most one unit. */
  lemma AbsStep(u: int, v: int)
    requires -1 <= u - v <= 1
    ensures -1 <= IntAbs(u) - IntAbs(v) <= 1
    ensures u == v ==> IntAbs(u) == IntAbs(v)
  {
  }

  /** H never exceeds the 10/14 cost of any 8-neighbour walk between the two cells. */
  lemma {:induction false} HCostAdmissible(solid: set<Cell>, start: Cell, w: seq<Cell>)
    requires IsWalk(solid, start, w)
    ensures HCost(start, Last(start, w)) <= WalkCost(start, w)
    decreases |w|
  {
    if w != [] {
      var w' := w[..|w| - 1];
      assert IsWalk(solid, start, w');
      HCostAdmissible(solid, start, w');
      var a, b := Last(start, w'), w[|w| - 1];
      assert Adjacent(a, b);
      // H(start, b) <= H(start, a) + step, via symmetry and consistency around `start`.
      HCostSymmetric(start, a);
      HCostSymmetric(start, b);
      HCostConsistent(a, b, start);
    }
  }

  // ---------------------------------------------------------------------------------------
  // Node selection
  // ---------------------------------------------------------------------------------------

  /** a is preferred over b: lower F, or equal F and lower H. */
  predicate Better(a: PathNode, b: PathNode) {
    a.F() < b.F() || (a.F() == b.F() && a.h < b.h)
  }

  predicate IndicesIn(open: seq<nat>, n: nat) {
    forall j :: 0 <= j < |open| ==> open[j] < n
  }

  /**
   * The linear scan of lines 27-35: the chosen open node has minimal F, ties go to lower H,
   * and full ties go to the earliest entry of the open list.
   */
  method SelectLowest(arena: seq<PathNode>, open: seq<nat>) returns (k: nat)
    requires |open| > 0 && IndicesIn(open, |arena|)
    ensures k < |open|
    ensures forall j :: 0 <= j < |open| ==> !Better(arena[open[j]], arena[open[k]])
    ensures forall j :: 0 <= j < k ==> Better(arena[open[k]], arena[open[j]])
  {
    k := 0;
    var i := 1;
    while i < |open|
      invariant 1 <= i <= |open| && k < i
      invariant forall j :: 0 <= j < i ==> !Better(arena[open[j]], arena[open[k]])
      invariant forall j :: 0 <= j < k ==> Better(arena[open[k]], arena[open[j]])
    {
      if Better(arena[open[i]], arena[open[k]]) {
        k := i;
      }
      i := i + 1;
    }
  }

  // ---------------------------------------------------------------------------------------
  // The search
  // ---------------------------------------------------------------------------------------

  /**
   * The search tree built so far: node 0 is the start; every other node is a passable cell
   * adjacent to its parent (an earlier node), was never the start, has G equal to its parent's
   * G plus the step cost, and H equal to the octile heuristic.
   */
  predicate ArenaOk(arena: seq<PathNode>, solid: set<Cell>, start: Cell, target: Cell) {
    && |arena| >= 1
    && arena[0] == PathNode(start, -1, 0, HCost(start, target))
    && Parented(arena)
    && forall i :: 0 < i < |arena| ==>
         && Adjacent(arena[arena[i].parent].pos, arena[i].pos)
         && Passable(solid, arena[i].pos)
         && arena[i].pos != start
         && arena[i].g == arena[arena[i].parent].g + StepCost(arena[arena[i].parent].pos, arena[i].pos)
         && arena[i].h == HCost(arena[i].pos, target)
  }

  /** Every node but the first has an earlier node as its parent. */
  predicate Parented(arena: seq<PathNode>) {
    forall i :: 0 < i < |arena| ==> 0 <= arena[i].parent < i
  }

  /** The cells of the open list's nodes. */
  function OpenCells(arena: seq<PathNode>, open: seq<nat>): set<Cell>
    requires IndicesIn(open, |arena|)
  {
    set j | 0 <= j < |open| :: arena[open[j]].pos
  }

  /** Every node is either still open or its cell is closed; no cell has two nodes. */
  predicate NodesAccounted(arena: seq<PathNode>, open: seq<nat>, closed: set<Cell>)
    requires IndicesIn(open, |arena|)
  {
    && (forall i :: 0 <= i < |arena| ==> arena[i].pos in closed || arena[i].pos in OpenCells(arena, open))
    && (forall i, j :: 0 <= i < j < |arena| ==> arena[i].pos != arena[j].pos)
  }

  /**
   * What the search keeps between steps: a well-formed tree, an open list of its indices, every
   * node open or closed, and a closed list holding only expanded cells and rejected
   * (impassable) ones.
   */
  ghost predicate Tree(arena: seq<PathNode>, open: seq<nat>, closed: set<Cell>, expanded: set<Cell>,
                       solid: set<Cell>, start: Cell, target: Cell)
  {
    && ArenaOk(arena, solid, start, target)
    && IndicesIn(open, |arena|)
    && NodesAccounted(arena, open, closed)
    && expanded <= closed
    && (forall d :: d in closed ==> d in expanded || !Passable(solid, d))
  }

  /** Every neighbour of an expanded cell (other than those in `except`) is closed or open. */
  ghost predicate Surrounded(arena: seq<PathNode>, open: seq<nat>, closed: set<Cell>, expanded: set<Cell>,
                             except: set<Cell>)
    requires IndicesIn(open, |arena|)
  {
    forall c, d :: c in expanded && c !in except && Adjacent(c, d) ==> d in closed || d in OpenCells(arena, open)
  }

  lemma OpenCellsAppend(arena: seq<PathNode>, open: seq<nat>, node: PathNode)
    requires IndicesIn(open, |arena|)
    ensures IndicesIn(open + [|arena|], |arena + [node]|)
    ensures OpenCells(arena + [node], open + [|arena|]) == OpenCells(arena, open) + {node.pos}
  {
    var a', o' := arena + [node], open + [|arena|];
    forall c | c in OpenCells(a', o') ensures c in OpenCells(arena, open) + {node.pos} {
      var j :| 0 <= j < |o'| && a'[o'[j]].pos == c;
      if j < |open| { assert arena[open[j]].pos == c; }
    }
    forall c | c in OpenCells(arena, open) + {node.pos} ensures c in OpenCells(a', o') {
      if c == node.pos {
        assert a'[o'[|open|]].pos == c;
      } else {
        var j :| 0 <= j < |open| && arena[open[j]].pos == c;
        assert a'[o'[j]].pos == c;
      }
    }
  }

  lemma OpenCellsRemove(arena: seq<PathNode>, open: seq<nat>, k: nat)
    requires IndicesIn(open, |arena|) && k < |open|
    ensures IndicesIn(open[..k] + open[k + 1..], |arena|)
    ensures OpenCells(arena, open) <= OpenCells(arena, open[..k] + open[k + 1..]) + {arena[open[k]].pos}
  {
    var o' := open[..k] + open[k + 1..];
    forall c | c in OpenCells(arena, open) ensures c in OpenCells(arena, o') + {arena[open[k]].pos} {
      var j :| 0 <= j < |open| && arena[open[j]].pos == c;
      if j < k {
        assert o'[j] == open[j];
      } else if j > k {
        assert o'[j - 1] == open[j];
      }
    }
  }

  /** openList.Any(n => n.Position == cell). */
  method OpenHas(arena: seq<PathNode>, open: seq<nat>, cell: Cell) returns (b: bool)
    requires IndicesIn(open, |arena|)
    ensures b <==> cell in OpenCells(arena, open)
  {
    var j := 0;
    while j < |open|
      invariant 0 <= j <= |open|
      invariant forall i :: 0 <= i < j ==> arena[open[i]].pos != cell
    {
      if arena[open[j]].pos == cell {
        return true;
      }
      j := j + 1;
    }
    return false;
  }

  /** The node lines 61-64 open for neighbour n of node ci. */
  function Child(arena: seq<PathNode>, ci: nat, n: Cell, target: Cell): PathNode
    requires ci < |arena|
  {
    PathNode(n, ci, arena[ci].g + StepCost(arena[ci].pos, n), HCost(n, target))
  }

  /** Closing the cell selected at open position k (lines 37-38) keeps the search state. */
  lemma CloseKeepsTree(arena: seq<PathNode>, open: seq<nat>, closed: set<Cell>, expanded: set<Cell>,
                       solid: set<Cell>, start: Cell, target: Cell, k: nat)
    requires Tree(arena, open, closed, expanded, solid, start, target) && k < |open|
    requires Surrounded(arena, open, closed, expanded, {})
    ensures var c := arena[open[k]].pos;
      && Tree(arena, open[..k] + open[k + 1..], closed + {c}, expanded + {c}, solid, start, target)
      && Surrounded(arena, open[..k] + open[k + 1..], closed + {c}, expanded + {c}, {c})
  {
    OpenCellsRemove(arena, open, k);
  }

  /** Rejecting an impassable neighbour into the closed list (line 55) keeps the search state. */
  lemma RejectKeepsTree(arena: seq<PathNode>, open: seq<nat>, closed: set<Cell>, expanded: set<Cell>,
                        solid: set<Cell>, start: Cell, target: Cell, n: Cell)
    requires Tree(arena, open, closed, expanded, solid, start, target) && !Passable(solid, n)
    ensures Tree(arena, open, closed + {n}, expanded, solid, start, target)
  {
  }

  /** Appending the child of node ci for an adjacent, passable, non-start cell keeps the tree well formed. */
  lemma ChildKeepsArena(arena: seq<PathNode>, solid: set<Cell>, start: Cell, target: Cell, ci: nat, n: Cell)
    requires ArenaOk(arena, solid, start, target) && ci < |arena|
    requires Adjacent(arena[ci].pos, n) && Passable(solid, n) && n != start
    ensures ArenaOk(arena + [Child(arena, ci, n, target)], solid, start, target)
  {
    var a' := arena + [Child(arena, ci, n, target)];
    forall i | 0 < i < |a'|
      ensures Adjacent(a'[a'[i].parent].pos, a'[i].pos)
      ensures Passable(solid, a'[i].pos) && a'[i].pos != start && a'[i].h == HCost(a'[i].pos, target)
      ensures a'[i].g == a'[a'[i].parent].g + StepCost(a'[a'[i].parent].pos, a'[i].pos)
    {
      if i < |arena| {
        assert a'[i] == arena[i] && a'[arena[i].parent] == arena[arena[i].parent];
      }
    }
  }

  /** Opening a passable neighbour that no node has yet (lines 59-64) keeps the search state. */
  lemma OpenKeepsTree(arena: seq<PathNode>, open: seq<nat>, closed: set<Cell>, expanded: set<Cell>,
                      solid: set<Cell>, start: Cell, target: Cell, ci: nat, n: Cell)
    requires Tree(arena, open, closed, expanded, solid, start, target)
    requires start in closed && ci < |arena|
    requires Adjacent(arena[ci].pos, n) && Passable(solid, n) && n !in closed && n !in OpenCells(arena, open)
    ensures var node := Child(arena, ci, n, target);
      && Tree(arena + [node], open + [|arena|], closed, expanded, solid, start, target)
      && OpenCells(arena + [node], open + [|arena|]) == OpenCells(arena, open) + {n}
  {
    var node := Child(arena, ci, n, target);
    var a', o' := arena + [node], open + [|arena|];
    OpenCellsAppend(arena, open, node);
    ChildKeepsArena(arena, solid, start, target, ci, n);
    forall i | 0 <= i < |arena| ensures arena[i].pos != n {
      assert arena[i].pos in closed || arena[i].pos in OpenCells(arena, open);
    }
    assert NodesAccounted(a', o', closed) by {
      forall i | 0 <= i < |a'| ensures a'[i].pos in closed || a'[i].pos in OpenCells(a', o') {
        if i < |arena| { assert a'[i] == arena[i]; }
      }
      forall i, j | 0 <= i < j < |a'| ensures a'[i].pos != a'[j].pos {
        assert a'[i] == arena[i];
        if j < |arena| { assert a'[j] == arena[j]; }
      }
    }
  }

  /**
   * One iteration of the foreach loop of lines 45-75, for neighbour n of the expanded node ci:
   * a closed cell is skipped; an impassable one is rejected into the closed list; a cell no
   * open node has is opened as a child of ci. When an open node already has the cell, the
   * source only updates the neighbour object GetNeighbors just created (its G is 0, so the
   * update never happens) and drops it, so the open node keeps its first parent and G.
   */
  method ConsiderNeighbor(arena: seq<PathNode>, open: seq<nat>, closed: set<Cell>, ghost expanded: set<Cell>,
                          ci: nat, n: Cell, solid: set<Cell>, start: Cell, target: Cell)
    returns (arena': seq<PathNode>, open': seq<nat>, closed': set<Cell>)
    requires Tree(arena, open, closed, expanded, solid, start, target)
    requires start in closed && ci < |arena| && Adjacent(arena[ci].pos, n)
    ensures Tree(arena', open', closed', expanded, solid, start, target)
    ensures closed <= closed' && ci < |arena'| && arena'[ci] == arena[ci]
    ensures OpenCells(arena, open) <= OpenCells(arena', open')
    ensures n in closed' || n in OpenCells(arena', open')
    ensures |arena| <= |arena'| && arena'[..|arena|] == arena && open <= open'
    ensures n in closed || n in OpenCells(arena, open) ==> arena' == arena && open' == open && closed' == closed
    ensures n !in closed && !Passable(solid, n) ==> arena' == arena && open' == open && closed' == closed + {n}
    ensures n !in closed && Passable(solid, n) && n !in OpenCells(arena, open) ==>
      arena' == arena + [Child(arena, ci, n, target)] && open' == open + [|arena|] && closed' == closed
  {
    arena', open', closed' := arena, open, closed;
    var cur := arena[ci];
    if n in closed {
      return;
    }
    if !Passable(solid, n) {
      RejectKeepsTree(arena, open, closed, expanded, solid, start, target, n);
      closed' := closed + {n};
      return;
    }
    var isOpen := OpenHas(arena, open, n);
    if !isOpen {
      OpenKeepsTree(arena, open, closed, expanded, solid, start, target, ci, n);
      arena', open' := arena + [Child(arena, ci, n, target)], open + [|arena|];
    } else {
      var scratch := PathNode(n, -1, 0, 0);
      var newG := cur.g + StepCost(cur.pos, n);
      if newG < scratch.g {
        scratch := scratch.(g := newG, parent := ci);
      }
    }
  }

  /**
   * The foreach loop of lines 45-75: every neighbour of the expanded node ci, in GetNeighbors
   * order, ends up closed or open.
   */
  method ExpandNeighbors(arena: seq<PathNode>, open: seq<nat>, closed: set<Cell>, ghost expanded: set<Cell>,
                         ci: nat, solid: set<Cell>, start: Cell, target: Cell)
    returns (arena': seq<PathNode>, open': seq<nat>, closed': set<Cell>)
    requires Tree(arena, open, closed, expanded, solid, start, target)
    requires start in closed && ci < |arena| && arena[ci].pos in expanded
    requires Surrounded(arena, open, closed, expanded, {arena[ci].pos})
    ensures Tree(arena', open', closed', expanded, solid, start, target) && start in closed'
    ensures Surrounded(arena', open', closed', expanded, {})
  {
    arena', open', closed' := arena, open, closed;
    var cur := arena[ci];
    var ns := Neighbors(cur.pos);
    var m := 0;
    while m < 8
      invariant 0 <= m <= 8
      invariant Tree(arena', open', closed', expanded, solid, start, target) && start in closed'
      invariant ci < |arena'| && arena'[ci] == cur
      invariant Surrounded(arena', open', closed', expanded, {cur.pos})
      invariant forall j :: 0 <= j < m ==> ns[j] in closed' || ns[j] in OpenCells(arena', open')
    {
      NeighborsExact(cur.pos, ns[m]);
      ghost var (arena0, open0, closed0) := (arena', open', closed');
      arena', open', closed' := ConsiderNeighbor(arena', open', closed', expanded, ci, ns[m], solid, start, target);
      SurroundedGrows(arena0, open0, closed0, arena', open', closed', expanded, {cur.pos});
      CoverageGrows(ns, m, closed0, OpenCells(arena0, open0), closed', OpenCells(arena', open'));
      m := m + 1;
    }
    NeighborsCovered(arena', open', closed', expanded, cur.pos);
  }

  /** The neighbours covered so far stay covered, and the one just considered is added. */
  lemma CoverageGrows(ns: seq<Cell>, m: nat, closed: set<Cell>, cells: set<Cell>, closed': set<Cell>, cells': set<Cell>)
    requires m < |ns| && closed <= closed' && cells <= cells'
    requires forall j :: 0 <= j < m ==> ns[j] in closed || ns[j] in cells
    requires ns[m] in closed' || ns[m] in cells'
    ensures forall j :: 0 <= j < m + 1 ==> ns[j] in closed' || ns[j] in cells'
  {
  }

  /** Growing the closed list and the open cells keeps every covered neighbour covered. */
  lemma SurroundedGrows(arena: seq<PathNode>, open: seq<nat>, closed: set<Cell>,
                        arena': seq<PathNode>, open': seq<nat>, closed': set<Cell>, expanded: set<Cell>, except: set<Cell>)
    requires IndicesIn(open, |arena|) && IndicesIn(open', |arena'|)
    requires closed <= closed' && OpenCells(arena, open) <= OpenCells(arena', open')
    requires Surrounded(arena, open, closed, expanded, except)
    ensures Surrounded(arena', open', closed', expanded, except)
  {
  }

  /** Once every neighbour of c is closed or open, c no longer needs to be excepted. */
  lemma NeighborsCovered(arena: seq<PathNode>, open: seq<nat>, closed: set<Cell>, expanded: set<Cell>, c: Cell)
    requires IndicesIn(open, |arena|)
    requires Surrounded(arena, open, closed, expanded, {c})
    requires forall j :: 0 <= j < 8 ==> Neighbors(c)[j] in closed || Neighbors(c)[j] in OpenCells(arena, open)
    ensures Surrounded(arena, open, closed, expanded, {})
  {
    forall c', d | c' in expanded && Adjacent(c', d) ensures d in closed || d in OpenCells(arena, open) {
      if c' == c {
        NeighborsExact(c, d);
        var j :| 0 <= j < 8 && Neighbors(c)[j] == d;
      }
    }
  }


  datatype Outcome = Reached(goal: nat) | Exhausted | BudgetSpent

  /**
   * The while loop of FindPath (lines 22-78) on snapped cells: returns the search tree and
   * either the index of the target's node, or Exhausted once the open list is empty.
   */
  method Search(start: Cell, target: Cell, solid: set<Cell>, fuel: nat)
    returns (outcome: Outcome, arena: seq<PathNode>)
    ensures ArenaOk(arena, solid, start, target)
    ensures forall i, j :: 0 <= i < j < |arena| ==> arena[i].pos != arena[j].pos
    ensures outcome.Reached? ==> outcome.goal < |arena| && arena[outcome.goal].pos == target
    ensures outcome.Exhausted? ==> Unreachable(solid, start, target)
    ensures start == target && fuel > 0 ==> outcome == Reached(0)
  {
    arena := [PathNode(start, -1, 0, HCost(start, target))];
    var open: seq<nat> := [0];
    var closed: set<Cell> := {};
    ghost var expanded: set<Cell> := {};
    var budget := fuel;
    assert OpenCells(arena, open) == {start} by {
      assert arena[open[0]].pos == start;
    }
    while |open| > 0
      invariant Tree(arena, open, closed, expanded, solid, start, target)
      invariant Surrounded(arena, open, closed, expanded, {})
      invariant target !in expanded
      invariant expanded == {} ==> open == [0] && budget == fuel
      invariant expanded != {} ==> start in expanded
      decreases budget
    {
      if budget == 0 {
        outcome := BudgetSpent;
        return;
      }
      budget := budget - 1;
      var k := SelectLowest(arena, open);
      var ci := open[k];
      var cur := arena[ci];
      CloseKeepsTree(arena, open, closed, expanded, solid, start, target, k);
      open := open[..k] + open[k + 1..];
      closed := closed + {cur.pos};
      expanded := expanded + {cur.pos};
      if cur.pos == target {
        outcome := Reached(ci);
        return;
      }
      arena, open, closed := ExpandNeighbors(arena, open, closed, expanded, ci, solid, start, target);
    }
    outcome := Exhausted;
    assert OpenCells(arena, open) == {};
    ExhaustedIsUnreachable(solid, start, target, closed, expanded);
  }

  /** When nothing is open, every walk from an expanded start stays among expanded cells. */
  lemma ExhaustedIsUnreachable(solid: set<Cell>, start: Cell, target: Cell, closed: set<Cell>, expanded: set<Cell>)
    requires start in expanded && target !in expanded && expanded <= closed
    requires forall d :: d in closed ==> d in expanded || !Passable(solid, d)
    requires forall c, d :: c in expanded && Adjacent(c, d) ==> d in closed
    ensures Unreachable(solid, start, target)
  {
    forall w | IsWalk(solid, start, w) && |w| > 0 ensures w[|w| - 1] != target {
      WalkStaysInside(solid, start, closed, expanded, w, |w| - 1);
    }
  }

  lemma {:induction false} WalkStaysInside(solid: set<Cell>, start: Cell, closed: set<Cell>, expanded: set<Cell>,
                                           w: seq<Cell>, i: nat)
    requires start in expanded
    requires forall d :: d in closed ==> d in expanded || !Passable(solid, d)
    requires forall c, d :: c in expanded && Adjacent(c, d) ==> d in closed
    requires IsWalk(solid, start, w) && i < |w|
    ensures w[i] in expanded
    decreases i
  {
    if i == 0 {
      assert Adjacent(start, w[0]);
    } else {
      WalkStaysInside(solid, start, closed, expanded, w, i - 1);
      assert Adjacent(w[i - 1], w[i]);
    }
  }

  // ---------------------------------------------------------------------------------------
  // Path reconstruction
  // ---------------------------------------------------------------------------------------

  function Reversed<T>(s: seq<T>): (r: seq<T>)
    ensures |r| == |s|
  {
    if s == [] then [] else Reversed(s[1..]) + [s[0]]
  }

  lemma {:induction false} ReversedSnoc<T>(s: seq<T>, x: T)
    ensures Reversed(s + [x]) == [x] + Reversed(s)
  {
    if s != [] {
      assert (s + [x])[1..] == s[1..] + [x];
      ReversedSnoc(s[1..], x);
    } else {
      assert s + [x] == [x];
    }
  }

  /** The cells from the start's child down to node k, following parent links. */
  function PathTo(arena: seq<PathNode>, k: nat): seq<Cell>
    requires k < |arena| && Parented(arena) && arena[0].parent < 0
    decreases k
  {
    if arena[k].parent < 0 then [] else PathTo(arena, arena[k].parent) + [arena[k].pos]
  }

  /** The tree path to any node is a walk from the start that ends on that node. */
  lemma {:induction false} PathToValid(arena: seq<PathNode>, solid: set<Cell>, start: Cell, target: Cell, k: nat)
    requires ArenaOk(arena, solid, start, target) && k < |arena|
    ensures IsWalk(solid, start, PathTo(arena, k))
    ensures Last(start, PathTo(arena, k)) == arena[k].pos
    ensures start !in PathTo(arena, k)
    decreases k
  {
    if k > 0 {
      var p := arena[k].parent;
      PathToValid(arena, solid, start, target, p);
      var prefix := PathTo(arena, p);
      var path := prefix + [arena[k].pos];
      assert path[..|path| - 1] == prefix;
      assert Adjacent(Last(start, prefix), arena[k].pos);
      forall i | 0 < i < |path| ensures Adjacent(path[i - 1], path[i]) {
        if i < |path| - 1 { assert path[i - 1] == prefix[i - 1] && path[i] == prefix[i]; }
      }
      forall i | 0 <= i < |path| ensures Passable(solid, path[i]) {
        if i < |prefix| { assert path[i] == prefix[i]; }
      }
    }
  }

  /**
   * ReconstructPath: follows parent links from node k, collecting cells, then reverses the
   * list; the start node (no parent) is not included.
   */
  method ReconstructPath(arena: seq<PathNode>, k: nat)
    returns (path: seq<Cell>)
    requires k < |arena| && Parented(arena) && arena[0].parent < 0
    ensures path == PathTo(arena, k)
  {
    var collected: seq<Cell> := [];
    var cur: nat := k;
    while arena[cur].parent >= 0
      invariant cur < |arena|
      invariant PathTo(arena, k) == PathTo(arena, cur) + Reversed(collected)
      decreases cur
    {
      assert PathTo(arena, cur) == PathTo(arena, arena[cur].parent) + [arena[cur].pos];
      ReversedSnoc(collected, arena[cur].pos);
      collected := collected + [arena[cur].pos];
      cur := arena[cur].parent;
    }
    path := Reversed(collected);
  }

  // ---------------------------------------------------------------------------------------
  // FindPath
  // ---------------------------------------------------------------------------------------

  datatype PathResult = Found(path: seq<Cell>) | NoPath | OutOfFuel

  /** Lines 15-16: X and Y are rounded (half to even), Z is kept. */
  function Snap(x: real, y: real, z: int): (c: Cell)
    ensures c.z == z
    ensures Abs(c.x as real - x) <= 0.5 && Abs(c.y as real - y) <= 0.5
  {
    Cell(RoundHalfEven(x), RoundHalfEven(y), z)
  }

  /**
   * FindPath from a world position to a world position at integer levels. A path found is
   * start-exclusive, ends on the snapped target, steps between adjacent passable cells, and is
   * empty exactly when start and target snap to the same cell; NoPath means the target cannot
   * be reached by any such walk.
   */
  method FindPath(sx: real, sy: real, sz: int, tx: real, ty: real, tz: int, solid: set<Cell>, fuel: nat)
    returns (r: PathResult)
    ensures r.Found? ==> ValidPath(solid, Snap(sx, sy, sz), Snap(tx, ty, tz), r.path)
    ensures r.Found? ==> (r.path == [] <==> Snap(sx, sy, sz) == Snap(tx, ty, tz))
    ensures r.NoPath? ==> Unreachable(solid, Snap(sx, sy, sz), Snap(tx, ty, tz))
    ensures Snap(sx, sy, sz) == Snap(tx, ty, tz) && fuel > 0 ==> r == Found([])
  {
    var start := Snap(sx, sy, sz);
    var target := Snap(tx, ty, tz);
    var outcome, arena := Search(start, target, solid, fuel);
    match outcome
    case Reached(goal) =>
      var path := ReconstructPath(arena, goal);
      PathToValid(arena, solid, start, target, goal);
      r := Found(path);
      if path == [] {
        assert Last(start, path) == start;
      }
    case Exhausted =>
      r := NoPath;
    case BudgetSpent =>
      r := OutOfFuel;
  }
}
