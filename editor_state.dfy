/**
 * The editing logic of IsometricGame/Classes/States/Editor/EditorState.cs: the tile palette and
 * its selection, the current Z level and mode, tile placement into the flattened Width x Height
 * layers of the edited map, and the map's triggers. The editor tells triggers apart by object
 * identity, so a trigger is a Dafny object here. The cursor and the sprite cache are not part of
 * this model: the positions the cursor would supply are parameters.
 */
module Editor {
  import opened Wrappers
  import opened Numerics
  import opened Text
  import opened MapData

  datatype EditorMode = Tiles | Triggers

  /** SwitchEditorMode's toggle. */
  function Switched(m: EditorMode): (r: EditorMode)
    ensures r != m
  {
    if m == Tiles then Triggers else Tiles
  }

  /** The size CreateNewMap gives a new map (its default arguments). */
  const DefaultMapSize: int := 30
  /** The tile the palette falls back to when the sample map supplies none. */
  const DefaultTile: TileMappingEntry := TileMappingEntry(1, "tile_grass1", false)
  const NewTriggerTarget: string := "changeme.json"
  /** SelectTriggerNear's pick radius 0.3, squared. */
  const PickRadiusSq: real := 0.09
  /** How close in Z a trigger must be to the click to be picked. */
  const PickZTolerance: real := 0.1

  // ---------------------------------------------------------------------------------------
  // Palette

  /** The palette index after SelectNextTileInPalette: one on, wrapping to 0 after the last. */
  function NextIndex(i: int, n: int): (r: int)
    requires 0 <= i < n
    ensures 0 <= r < n
    ensures r == if i == n - 1 then 0 else i + 1
  {
    (i + 1) % n
  }

  /** The palette index after SelectPreviousTileInPalette: one back, wrapping to the last. */
  function PrevIndex(i: int, n: int): (r: int)
    requires 0 <= i < n
    ensures 0 <= r < n
    ensures r == if i == 0 then n - 1 else i - 1
  {
    (i - 1 + n) % n
  }

  /** Previous undoes next and next undoes previous. */
  lemma NextPrevInverse(i: int, n: int)
    requires 0 <= i < n
    ensures PrevIndex(NextIndex(i, n), n) == i
    ensures NextIndex(PrevIndex(i, n), n) == i
  {
  }

  /** The index after k steps forward. */
  function NextIterated(i: int, n: int, k: nat): (r: int)
    requires 0 <= i < n
    ensures 0 <= r < n
  {
    if k == 0 then i else NextIndex(NextIterated(i, n, k - 1), n)
  }

  /** k steps forward land on (i + k) mod n; in particular n steps return to the start. */
  lemma {:induction false} CycleSteps(i: int, n: int, k: nat)
    requires 0 <= i < n
    ensures NextIterated(i, n, k) == (i + k) % n
    ensures k == n ==> NextIterated(i, n, k) == i
  {
    if k > 0 {
      CycleSteps(i, n, k - 1);
      ModStep(i + k - 1, n);
    }
    if k == n {
      assert (i + n) % n == i by { ModShift(i, n); }
    }
  }

  lemma ModStep(a: nat, n: int)
    requires n > 0
    ensures (a % n + 1) % n == (a + 1) % n
  {
    var q, r := a / n, a % n;
    if r + 1 < n {
      DivModUnique(a + 1, n, q, r + 1);
      DivModUnique(r + 1, n, 0, r + 1);
    } else {
      assert (q + 1) * n == q * n + n;
      DivModUnique(a + 1, n, q + 1, 0);
      DivModUnique(r + 1, n, 1, 0);
    }
  }

  lemma ModShift(i: int, n: int)
    requires 0 <= i < n
    ensures (i + n) % n == i
  {
    DivModUnique(i + n, n, 1, i);
  }

  /** Quotient and remainder are the only pair with a == q * n + r and 0 <= r < n. */
  lemma DivModUnique(a: int, n: int, q: int, r: int)
    requires n > 0 && 0 <= r < n && a == q * n + r
    ensures a / n == q && a % n == r
  {
    var q', r' := a / n, a % n;
    assert (q - q') * n == r' - r;
    if q - q' > 0 {
      MulAtLeast(q - q', n);
    } else if q - q' < 0 {
      assert (q' - q) * n == r - r';
      MulAtLeast(q' - q, n);
    }
  }

  lemma MulAtLeast(m: int, n: int)
    requires m >= 1 && n > 0
    ensures m * n >= n
  {
    assert m * n == (m - 1) * n + n;
    assert (m - 1) * n >= 0;
  }

  /** The index of the first palette entry with the id, or -1 (FindIndex / FirstOrDefault). */
  function IndexOfId(p: seq<TileMappingEntry>, id: int): (k: int)
    ensures -1 <= k < |p|
    ensures k >= 0 ==> p[k].id == id && forall j :: 0 <= j < k ==> p[j].id != id
    ensures k < 0 <==> forall j :: 0 <= j < |p| ==> p[j].id != id
    decreases |p|
  {
    if |p| == 0 then -1
    else if p[0].id == id then 0
    else
      var k := IndexOfId(p[1..], id);
      assert forall j :: 1 <= j < |p| ==> p[j] == p[1..][j - 1];
      if k < 0 then -1 else k + 1
  }

  /** Every palette entry has its own id. */
  predicate DistinctIds(p: seq<TileMappingEntry>) {
    forall i, j :: 0 <= i < j < |p| ==> p[i].id != p[j].id
  }

  /**
   * With distinct ids, looking up an entry's id finds that entry, so the selection moves through
   * the palette one entry at a time. With duplicate ids the lookup finds the first duplicate,
   * which is where the palette index then stays.
   */
  lemma IndexOfOwnId(p: seq<TileMappingEntry>, i: int)
    requires 0 <= i < |p|
    ensures IndexOfId(p, p[i].id) <= i
    ensures DistinctIds(p) ==> IndexOfId(p, p[i].id) == i
  {
  }

  // ---------------------------------------------------------------------------------------
  // Layers

  /** The layers are in strictly increasing Z order, so each Z level has at most one layer. */
  predicate ZSorted(ls: seq<MapLayer>) {
    forall i, j :: 0 <= i < j < |ls| ==> ls[i].zLevel < ls[j].zLevel
  }

  /** The index of the first layer at Z level z, or -1 (FirstOrDefault on ZLevel). */
  function LayerIndex(ls: seq<MapLayer>, z: int): (k: int)
    ensures -1 <= k < |ls|
    ensures k >= 0 ==> ls[k].zLevel == z && forall j :: 0 <= j < k ==> ls[j].zLevel != z
    ensures k < 0 <==> forall j :: 0 <= j < |ls| ==> ls[j].zLevel != z
    decreases |ls|
  {
    if |ls| == 0 then -1
    else if ls[0].zLevel == z then 0
    else
      var k := LayerIndex(ls[1..], z);
      assert forall j :: 1 <= j < |ls| ==> ls[j] == ls[1..][j - 1];
      if k < 0 then -1 else k + 1
  }

  /** Layer lookup depends only on the Z levels. */
  lemma {:induction false} SameZLevels(a: seq<MapLayer>, b: seq<MapLayer>, z: int)
    requires |a| == |b| && forall i :: 0 <= i < |a| ==> a[i].zLevel == b[i].zLevel
    ensures LayerIndex(a, z) == LayerIndex(b, z)
    decreases |a|
  {
    if |a| > 0 && a[0].zLevel != z {
      assert forall i :: 0 <= i < |a| - 1 ==> a[1..][i] == a[i + 1] && b[1..][i] == b[i + 1];
      SameZLevels(a[1..], b[1..], z);
    }
  }

  /** Layers.Add followed by Sort on ZLevel: the layer goes in before the first one above it. */
  function InsertByZ(ls: seq<MapLayer>, l: MapLayer): (r: seq<MapLayer>)
    ensures |r| == |ls| + 1
    ensures forall m :: m in r <==> m in ls || m == l
    decreases |ls|
  {
    if |ls| == 0 || l.zLevel < ls[0].zLevel then [l] + ls
    else [ls[0]] + InsertByZ(ls[1..], l)
  }

  /** The insertion adds exactly the one layer: the result is a permutation of ls plus l. */
  lemma {:induction false} InsertPermutes(ls: seq<MapLayer>, l: MapLayer)
    ensures multiset(InsertByZ(ls, l)) == multiset(ls) + multiset{l}
    decreases |ls|
  {
    if |ls| > 0 && l.zLevel >= ls[0].zLevel {
      InsertPermutes(ls[1..], l);
      assert ls == [ls[0]] + ls[1..];
    }
  }

  /** A layer below every layer of a sorted list can go in front of it. */
  lemma ConsSorted(h: MapLayer, ls: seq<MapLayer>)
    requires ZSorted(ls)
    requires forall m :: m in ls ==> h.zLevel < m.zLevel
    ensures ZSorted([h] + ls)
  {
    var r := [h] + ls;
    forall i, j | 0 <= i < j < |r|
      ensures r[i].zLevel < r[j].zLevel
    {
      assert r[j] == ls[j - 1];
      if i > 0 {
        assert r[i] == ls[i - 1];
      } else {
        assert ls[j - 1] in ls;
      }
    }
  }

  /** Inserting a layer at a Z level that had none keeps the layers in strictly increasing order. */
  lemma {:induction false} InsertKeepsSorted(ls: seq<MapLayer>, l: MapLayer)
    requires ZSorted(ls) && LayerIndex(ls, l.zLevel) < 0
    ensures ZSorted(InsertByZ(ls, l))
    decreases |ls|
  {
    if |ls| == 0 || l.zLevel < ls[0].zLevel {
      forall m | m in ls
        ensures l.zLevel < m.zLevel
      {
        var j :| 0 <= j < |ls| && ls[j] == m;
        assert j == 0 || ls[0].zLevel < ls[j].zLevel;
      }
      ConsSorted(l, ls);
    } else {
      var tail := ls[1..];
      assert ls == [ls[0]] + tail;
      assert ls[0].zLevel < l.zLevel by {
        assert ls[0].zLevel != l.zLevel;
      }
      assert ZSorted(tail) by {
        forall i, j | 0 <= i < j < |tail|
          ensures tail[i].zLevel < tail[j].zLevel
        {
          assert tail[i] == ls[i + 1] && tail[j] == ls[j + 1];
        }
      }
      assert LayerIndex(tail, l.zLevel) < 0 by {
        forall j | 0 <= j < |tail|
          ensures tail[j].zLevel != l.zLevel
        {
          assert tail[j] == ls[j + 1];
        }
      }
      InsertKeepsSorted(tail, l);
      var r' := InsertByZ(tail, l);
      forall m | m in r'
        ensures ls[0].zLevel < m.zLevel
      {
        if m in tail {
          var j :| 0 <= j < |tail| && tail[j] == m;
          assert m == ls[j + 1];
        }
      }
      ConsSorted(ls[0], r');
    }
  }

  /** After inserting a layer at a Z level that had none, lookup at that level finds it. */
  lemma InsertedFound(ls: seq<MapLayer>, l: MapLayer)
    requires LayerIndex(ls, l.zLevel) < 0
    ensures var r := InsertByZ(ls, l); var k := LayerIndex(r, l.zLevel); k >= 0 && r[k] == l
  {
    var r := InsertByZ(ls, l);
    assert l in r;
    var k := LayerIndex(r, l.zLevel);
    assert r[k] in ls || r[k] == l;
  }

  /** A zero-filled tile list of n cells (Enumerable.Repeat(0, n)). */
  function Zeros(n: nat): (d: seq<int>)
    ensures |d| == n && forall i :: 0 <= i < n ==> d[i] == 0
  {
    seq(n, i => 0)
  }

  /** The layer PlaceTile creates at Z level z: named after z, holding `size` empty cells. */
  function NewLayer(z: int, size: nat): (l: MapLayer)
    ensures l.zLevel == z && |l.name| > 9 && l.name[..9] == "Layer (Z="
    ensures l.data.Some? && |l.data.value| == size && forall i :: 0 <= i < size ==> l.data.value[i] == 0
  {
    MapLayer("Layer (Z=" + IntToString(z) + ")", z, Some(Zeros(size)))
  }

  /** A layer's tiles as PlaceTile uses them: kept when present with the right size, else zeros. */
  function Repaired(data: Option<seq<int>>, size: nat): (d: seq<int>)
    ensures |d| == size
    ensures data.Some? && |data.value| == size ==> d == data.value
    ensures !(data.Some? && |data.value| == size) ==> d == Zeros(size)
  {
    if data.Some? && |data.value| == size then data.value else Zeros(size)
  }

  /** The cell (x, y) lies on a w x h map. */
  predicate InCells(x: int, y: int, w: int, h: int) {
    0 <= x < w && 0 <= y < h
  }

  /** The position of cell (x, y) in a flattened layer: row y, column x. */
  function CellIndex(x: int, y: int, w: int): int {
    y * w + x
  }

  /** Every cell of the map has an index inside the w * h list. */
  lemma CellIndexBound(x: int, y: int, w: int, h: int)
    requires InCells(x, y, w, h)
    ensures 0 <= CellIndex(x, y, w) < w * h
  {
    assert y * w >= 0;
    assert w * h == (h - 1) * w + w;
    assert y * w <= (h - 1) * w by {
      assert (h - 1) * w - y * w == (h - 1 - y) * w;
    }
  }

  /** The index decodes back to the cell, as RebuildMapSprites reads it: x = i % w, y = i / w. */
  lemma CellRoundTrip(x: int, y: int, w: int)
    requires 0 <= x < w && 0 <= y
    ensures CellIndex(x, y, w) % w == x && CellIndex(x, y, w) / w == y
  {
    DivModUnique(CellIndex(x, y, w), w, y, x);
  }

  /** Different cells have different indices: a placement writes one cell only. */
  lemma CellIndexInjective(x: int, y: int, x': int, y': int, w: int)
    requires 0 <= x < w && 0 <= y && 0 <= x' < w && 0 <= y'
    requires (x, y) != (x', y')
    ensures CellIndex(x, y, w) != CellIndex(x', y', w)
  {
    CellRoundTrip(x, y, w);
    CellRoundTrip(x', y', w);
  }

  /** The layers with a layer at Z level z: unchanged when there is one, else with a new one. */
  function WithLayer(ls: seq<MapLayer>, z: int, size: nat): (r: seq<MapLayer>)
    ensures LayerIndex(r, z) >= 0
    ensures LayerIndex(ls, z) >= 0 ==> r == ls
    ensures LayerIndex(ls, z) < 0 ==> r == InsertByZ(ls, NewLayer(z, size)) && r[LayerIndex(r, z)] == NewLayer(z, size)
    ensures ZSorted(ls) ==> ZSorted(r)
  {
    if LayerIndex(ls, z) >= 0 then ls
    else
      InsertedFound(ls, NewLayer(z, size));
      if ZSorted(ls) then
        InsertKeepsSorted(ls, NewLayer(z, size));
        InsertByZ(ls, NewLayer(z, size))
      else
        InsertByZ(ls, NewLayer(z, size))
  }

  /**
   * The layers after PlaceTile of tile `id` at cell (x, y) on Z level z of a w x h map: erasing
   * (id 0) where there is no layer changes nothing; otherwise the layer at z (created zero-filled
   * if missing, its tiles reset to zeros if missing or of the wrong size) gets `id` at y * w + x.
   */
  function PlaceInLayers(ls: seq<MapLayer>, w: int, h: int, x: int, y: int, z: int, id: int): (r: seq<MapLayer>)
    requires InCells(x, y, w, h)
    ensures |r| == |ls| + (if LayerIndex(ls, z) < 0 && id != 0 then 1 else 0)
    ensures id != 0 || LayerIndex(ls, z) >= 0 ==> LayerIndex(r, z) >= 0
  {
    if LayerIndex(ls, z) < 0 && id == 0 then ls
    else
      CellIndexBound(x, y, w, h);
      var ls1 := WithLayer(ls, z, w * h);
      var k := LayerIndex(ls1, z);
      var d := Repaired(ls1[k].data, w * h);
      UpdateKeepsZ(ls1, k, Some(d[CellIndex(x, y, w) := id]), z);
      ls1[k := ls1[k].(data := Some(d[CellIndex(x, y, w) := id]))]
  }

  /** What cell j of the layer at z held before, as PlaceTile sees it (0 for a missing or bad list). */
  function OldCell(ls: seq<MapLayer>, z: int, size: int, j: int): int {
    var k := LayerIndex(ls, z);
    if k >= 0 && ls[k].data.Some? && |ls[k].data.value| == size && 0 <= j < size then ls[k].data.value[j] else 0
  }

  /** Updating one layer's tiles keeps every Z level where it was. */
  lemma UpdateKeepsZ(ls: seq<MapLayer>, k: int, d: Option<seq<int>>, z: int)
    requires 0 <= k < |ls|
    ensures LayerIndex(ls[k := ls[k].(data := d)], z) == LayerIndex(ls, z)
    ensures ZSorted(ls) ==> ZSorted(ls[k := ls[k].(data := d)])
  {
    SameZLevels(ls[k := ls[k].(data := d)], ls, z);
  }

  /** Placement keeps the layers in strictly increasing Z order. */
  lemma PlaceKeepsSorted(ls: seq<MapLayer>, w: int, h: int, x: int, y: int, z: int, id: int)
    requires ZSorted(ls) && InCells(x, y, w, h)
    ensures ZSorted(PlaceInLayers(ls, w, h, x, y, z, id))
  {
    if !(LayerIndex(ls, z) < 0 && id == 0) {
      CellIndexBound(x, y, w, h);
      var ls1 := WithLayer(ls, z, w * h);
      var k := LayerIndex(ls1, z);
      UpdateKeepsZ(ls1, k, Some(Repaired(ls1[k].data, w * h)[CellIndex(x, y, w) := id]), z);
    }
  }

  /**
   * Placement writes exactly one cell: the layer at z then exists (unless this was an erase on
   * a missing layer, which changes nothing), has w * h tiles, holds `id` at the cell's index,
   * and every other index holds what it held before. A created layer is named "Layer (Z=z)".
   */
  lemma PlaceWritesCell(ls: seq<MapLayer>, w: int, h: int, x: int, y: int, z: int, id: int)
    requires InCells(x, y, w, h)
    ensures LayerIndex(ls, z) < 0 && id == 0 ==> PlaceInLayers(ls, w, h, x, y, z, id) == ls
    ensures !(LayerIndex(ls, z) < 0 && id == 0) ==>
      var r := PlaceInLayers(ls, w, h, x, y, z, id);
      var k := LayerIndex(r, z);
      && 0 <= k && r[k].data.Some? && |r[k].data.value| == w * h
      && 0 <= CellIndex(x, y, w) < |r[k].data.value| && r[k].data.value[CellIndex(x, y, w)] == id
      && (forall j :: 0 <= j < w * h && j != CellIndex(x, y, w) ==> r[k].data.value[j] == OldCell(ls, z, w * h, j))
      && (LayerIndex(ls, z) < 0 ==> r[k].name == NewLayer(z, w * h).name && |r| == |ls| + 1)
  {
    if !(LayerIndex(ls, z) < 0 && id == 0) {
      CellIndexBound(x, y, w, h);
      var ls1 := WithLayer(ls, z, w * h);
      var k := LayerIndex(ls1, z);
      var d := Repaired(ls1[k].data, w * h);
      UpdateKeepsZ(ls1, k, Some(d[CellIndex(x, y, w) := id]), z);
      if LayerIndex(ls, z) >= 0 {
        assert ls1 == ls;
      }
    }
  }

  /** Placement leaves the layers at every other Z level exactly as they were. */
  lemma PlaceKeepsOtherLayers(ls: seq<MapLayer>, w: int, h: int, x: int, y: int, z: int, id: int, m: MapLayer)
    requires InCells(x, y, w, h)
    requires m.zLevel != z
    ensures m in PlaceInLayers(ls, w, h, x, y, z, id) <==> m in ls
  {
    if !(LayerIndex(ls, z) < 0 && id == 0) {
      CellIndexBound(x, y, w, h);
      var ls1 := WithLayer(ls, z, w * h);
      var k := LayerIndex(ls1, z);
      var r := PlaceInLayers(ls, w, h, x, y, z, id);
      assert m in ls1 <==> m in ls;
      assert forall i :: 0 <= i < |r| && i != k ==> r[i] == ls1[i];
      if m in r {
        var i :| 0 <= i < |r| && r[i] == m;
        assert r[i] == ls1[i];
      }
      if m in ls1 {
        var i :| 0 <= i < |ls1| && ls1[i] == m;
        assert r[i] == m;
      }
    }
  }

  /** Placing the same tile at the same cell again changes nothing. */
  lemma PlaceIdempotent(ls: seq<MapLayer>, w: int, h: int, x: int, y: int, z: int, id: int)
    requires InCells(x, y, w, h)
    ensures var r := PlaceInLayers(ls, w, h, x, y, z, id); PlaceInLayers(r, w, h, x, y, z, id) == r
  {
    var r := PlaceInLayers(ls, w, h, x, y, z, id);
    if !(LayerIndex(ls, z) < 0 && id == 0) {
      PlaceWritesCell(ls, w, h, x, y, z, id);
      CellIndexBound(x, y, w, h);
      var k := LayerIndex(r, z);
      var d := r[k].data.value;
      assert WithLayer(r, z, w * h) == r;
      assert Repaired(r[k].data, w * h) == d;
      assert d[CellIndex(x, y, w) := id] == d;
      assert r[k := r[k].(data := Some(d))] == r;
    }
  }

  /**
   * PlaceTile's edit of the layer list once the cell is known to be on the map: find the layer
   * at z (creating and inserting it unless erasing), repair its tiles, and write the cell when it
   * holds a different id.
   */
  method PlaceCell(layers: seq<MapLayer>, w: int, h: int, x: int, y: int, z: int, tileId: int)
    returns (ls: seq<MapLayer>)
    requires InCells(x, y, w, h)
    ensures ls == PlaceInLayers(layers, w, h, x, y, z, tileId)
  {
    CellIndexBound(x, y, w, h);
    var expectedSize := w * h;
    ls := layers;
    var k := LayerIndex(ls, z);
    if k < 0 {
      if tileId == 0 {
        return;
      }
      ls := InsertByZ(ls, NewLayer(z, expectedSize));
      k := LayerIndex(ls, z);
    }
    ghost var withLayer := ls;
    assert withLayer == WithLayer(layers, z, expectedSize);
    var data := ls[k].data;
    if data.None? || |data.value| != expectedSize {
      data := Some(Zeros(expectedSize));
      ls := ls[k := ls[k].(data := data)];
    }
    assert data.value == Repaired(withLayer[k].data, expectedSize);
    var index := CellIndex(x, y, w);
    if data.value[index] != tileId {
      ls := ls[k := ls[k].(data := Some(data.value[index := tileId]))];
    } else {
      assert data.value[index := tileId] == data.value;
    }
  }

  // ---------------------------------------------------------------------------------------
  // Triggers

  /** A trigger object of the edited map. */
  class Trigger {
    const data: MapTrigger

    constructor (data: MapTrigger)
      ensures this.data == data
    {
      this.data := data;
    }
  }

  /** The trigger AddTriggerAt creates when the map has n triggers: "Trigger_{n+1}" at pos. */
  function NewTrigger(n: nat, pos: Vec3): (t: MapTrigger)
    ensures IsPrefix("Trigger_", t.id) && t.position == pos
    ensures t.targetMap == NewTriggerTarget && t.targetPosition == Vec3(0.0, 0.0, 0.0)
    ensures t.radius == DefaultTriggerRadius
  {
    MapTrigger("Trigger_" + NatToString(n + 1), pos, NewTriggerTarget, Vec3(0.0, 0.0, 0.0), DefaultTriggerRadius)
  }

  /** The position of the trigger object in the list, or -1 (List.Remove's search). */
  function TriggerIndex(ts: seq<Trigger>, t: Trigger): (k: int)
    ensures -1 <= k < |ts|
    ensures k >= 0 ==> ts[k] == t && forall j :: 0 <= j < k ==> ts[j] != t
    ensures k < 0 <==> t !in ts
    decreases |ts|
  {
    if |ts| == 0 then -1
    else if ts[0] == t then 0
    else
      var k := TriggerIndex(ts[1..], t);
      assert forall j :: 1 <= j < |ts| ==> ts[j] == ts[1..][j - 1];
      if k < 0 then -1 else k + 1
  }

  /** A trigger close enough in Z to a click to be picked. */
  predicate OnLevel(t: Trigger, p: Vec3) {
    Abs(t.data.position.z - p.z) < PickZTolerance
  }

  /** The planar squared distance from a trigger to a click. */
  function PickDistSq(t: Trigger, p: Vec3): real {
    DistSq(Vec2(t.data.position.x, t.data.position.y), Vec2(p.x, p.y))
  }

  /**
   * SelectTriggerNear's choice among the first n triggers: the index of the one on the click's
   * level nearest to it within 0.3, the later one on a tie, or -1 when there is none.
   */
  function NearestIn(ts: seq<Trigger>, p: Vec3, n: nat): (k: int)
    requires n <= |ts|
    ensures -1 <= k < n
    ensures k >= 0 ==> OnLevel(ts[k], p) && PickDistSq(ts[k], p) <= PickRadiusSq
    ensures k >= 0 ==> forall j :: 0 <= j < k && OnLevel(ts[j], p) ==> PickDistSq(ts[k], p) <= PickDistSq(ts[j], p)
    ensures k >= 0 ==> forall j :: k < j < n && OnLevel(ts[j], p) ==> PickDistSq(ts[k], p) < PickDistSq(ts[j], p)
    ensures k < 0 ==> forall j :: 0 <= j < n && OnLevel(ts[j], p) ==> PickDistSq(ts[j], p) > PickRadiusSq
  {
    if n == 0 then -1
    else
      var k := NearestIn(ts, p, n - 1);
      var closest := if k < 0 then PickRadiusSq else PickDistSq(ts[k], p);
      if OnLevel(ts[n - 1], p) && PickDistSq(ts[n - 1], p) <= closest then n - 1 else k
  }

  /** SelectTriggerNear's scan: a running minimum of the squared distance, starting at 0.3 squared. */
  method NearestTrigger(ts: seq<Trigger>, clickPos: Vec3) returns (foundIndex: int)
    ensures foundIndex == NearestIn(ts, clickPos, |ts|)
  {
    foundIndex := -1;
    var closestDistSq := PickRadiusSq;
    for i := 0 to |ts|
      invariant foundIndex == NearestIn(ts, clickPos, i)
      invariant closestDistSq == if foundIndex < 0 then PickRadiusSq else PickDistSq(ts[foundIndex], clickPos)
    {
      var trigger := ts[i];
      if Abs(trigger.data.position.z - clickPos.z) < PickZTolerance {
        var distSq := PickDistSq(trigger, clickPos);
        if distSq <= closestDistSq {
          foundIndex, closestDistSq := i, distSq;
        }
      }
    }
  }

  // ---------------------------------------------------------------------------------------
  // The editor

  class EditorState {
    /** Constants.MaxZLevel, which is not part of this model. */
    const maxZLevel: int
    /** Whether there is a map being edited (_currentMapData is not null). */
    var hasMap: bool
    var width: int
    var height: int
    var tileMapping: seq<TileMappingEntry>
    var layers: seq<MapLayer>
    var triggers: seq<Trigger>
    var mapFileName: string
    var mode: EditorMode
    var currentZLevel: int
    var palette: seq<TileMappingEntry>
    var paletteIndex: int
    var selectedTileId: int
    var selectedTileInfo: Option<TileMappingEntry>
    var selectedTrigger: Option<Trigger>

    /**
     * The layers have one Z level each, in order; the palette index is in range; a trigger
     * object is listed once; the selected trigger is one of the map's; without a map there are
     * no layers and no triggers.
     */
    ghost predicate Valid()
      reads this
    {
      && ZSorted(layers)
      && 0 <= paletteIndex && (|palette| > 0 ==> paletteIndex < |palette|)
      && (forall i, j :: 0 <= i < j < |triggers| ==> triggers[i] != triggers[j])
      && (selectedTrigger.Some? ==> selectedTrigger.value in triggers)
      && (!hasMap ==> layers == [] && triggers == [])
    }

    /** A new editor: no map, empty palette, tile mode at Z level 0, editing "new_map.json". */
    constructor (maxZLevel: int)
      ensures Valid()
      ensures this.maxZLevel == maxZLevel && !hasMap && palette == [] && paletteIndex == 0
      ensures selectedTileId == 0 && selectedTileInfo == None && selectedTrigger == None
      ensures mode == Tiles && currentZLevel == 0 && mapFileName == "new_map.json"
    {
      this.maxZLevel := maxZLevel;
      hasMap, width, height, tileMapping, layers, triggers := false, 0, 0, [], [], [];
      mapFileName, mode, currentZLevel := "new_map.json", Tiles, 0;
      palette, paletteIndex, selectedTileId, selectedTileInfo, selectedTrigger := [], 0, 0, None, None;
    }

    /** SwitchEditorMode: Tiles and Triggers swap, and no trigger stays selected. */
    method SwitchEditorMode()
      requires Valid()
      modifies this`mode, this`selectedTrigger
      ensures Valid()
      ensures mode == Switched(old(mode)) && selectedTrigger == None
    {
      mode := if mode == Tiles then Triggers else Tiles;
      selectedTrigger := None;
    }

    /** SetCurrentZLevel: a level in 0..MaxZLevel becomes current and deselects; others are ignored. */
    method SetCurrentZLevel(z: int)
      requires Valid()
      modifies this`currentZLevel, this`selectedTrigger
      ensures Valid()
      ensures 0 <= z <= maxZLevel ==> currentZLevel == z && selectedTrigger == None
      ensures !(0 <= z <= maxZLevel) ==> currentZLevel == old(currentZLevel) && selectedTrigger == old(selectedTrigger)
    {
      if z >= 0 && z <= maxZLevel {
        currentZLevel := z;
        selectedTrigger := None;
      }
    }

    /**
     * InitializePalette with the sample map's tile mapping (None when the file is missing,
     * unreadable or has none): that mapping, or the single grass tile when it gives nothing,
     * with its first entry selected.
     */
    method InitializePalette(sampleMapping: Option<seq<TileMappingEntry>>)
      requires Valid()
      modifies this`palette, this`paletteIndex, this`selectedTileId
      ensures Valid()
      ensures palette == if sampleMapping.Some? && sampleMapping.value != [] then sampleMapping.value else [DefaultTile]
      ensures paletteIndex == 0 && selectedTileId == palette[0].id
    {
      palette := [];
      if sampleMapping.Some? {
        palette := palette + sampleMapping.value;
      }
      if |palette| == 0 {
        palette := palette + [DefaultTile];
      }
      paletteIndex := 0;
      selectedTileId := if |palette| > 0 then palette[0].id else 0;
    }

    /**
     * UpdateSelectedTileInfo: with an empty palette nothing is selected (id 0). Otherwise an id
     * missing from the palette is replaced by the first entry's, and the index and cached entry
     * become those of the first entry with the selected id.
     */
    method UpdateSelectedTileInfo()
      requires Valid()
      modifies this`selectedTileInfo, this`selectedTileId, this`paletteIndex
      ensures Valid()
      ensures |palette| == 0 ==> selectedTileInfo == None && selectedTileId == 0 && paletteIndex == old(paletteIndex)
      ensures |palette| > 0 ==>
        && selectedTileId == (if IndexOfId(palette, old(selectedTileId)) >= 0 then old(selectedTileId) else palette[0].id)
        && paletteIndex == IndexOfId(palette, selectedTileId)
        && selectedTileInfo == Some(palette[paletteIndex])
    {
      if |palette| == 0 {
        selectedTileInfo := None;
        selectedTileId := 0;
        return;
      }
      var found := IndexOfId(palette, selectedTileId);
      selectedTileInfo := if found >= 0 then Some(palette[found]) else None;
      if selectedTileInfo.None? {
        paletteIndex := 0;
        selectedTileId := palette[0].id;
        selectedTileInfo := Some(palette[0]);
      }
      paletteIndex := IndexOfId(palette, selectedTileId);
    }

    /** SelectNextTileInPalette: nothing on an empty palette, else the next entry (wrapping) is selected. */
    method SelectNextTileInPalette()
      requires Valid()
      modifies this`selectedTileInfo, this`selectedTileId, this`paletteIndex
      ensures Valid()
      ensures |palette| == 0 ==>
        selectedTileInfo == old(selectedTileInfo) && selectedTileId == old(selectedTileId) && paletteIndex == old(paletteIndex)
      ensures |palette| > 0 ==>
        && selectedTileId == palette[NextIndex(old(paletteIndex), |palette|)].id
        && paletteIndex == IndexOfId(palette, selectedTileId)
        && selectedTileInfo == Some(palette[paletteIndex])
    {
      if |palette| == 0 {
        return;
      }
      paletteIndex := (paletteIndex + 1) % |palette|;
      selectedTileId := palette[paletteIndex].id;
      UpdateSelectedTileInfo();
    }

    /** SelectPreviousTileInPalette: nothing on an empty palette, else the previous entry (wrapping). */
    method SelectPreviousTileInPalette()
      requires Valid()
      modifies this`selectedTileInfo, this`selectedTileId, this`paletteIndex
      ensures Valid()
      ensures |palette| == 0 ==>
        selectedTileInfo == old(selectedTileInfo) && selectedTileId == old(selectedTileId) && paletteIndex == old(paletteIndex)
      ensures |palette| > 0 ==>
        && selectedTileId == palette[PrevIndex(old(paletteIndex), |palette|)].id
        && paletteIndex == IndexOfId(palette, selectedTileId)
        && selectedTileInfo == Some(palette[paletteIndex])
    {
      if |palette| == 0 {
        return;
      }
      paletteIndex := (paletteIndex - 1 + |palette|) % |palette|;
      selectedTileId := palette[paletteIndex].id;
      UpdateSelectedTileInfo();
    }

    /**
     * CreateNewMap with its default size: a 30 x 30 map with the palette as its tile mapping,
     * one zero-filled ground layer at Z level 0, no triggers, and no trigger selected.
     */
    method CreateNewMap()
      requires Valid()
      modifies this`hasMap, this`width, this`height, this`tileMapping, this`layers, this`triggers, this`selectedTrigger
      ensures Valid()
      ensures hasMap && width == DefaultMapSize && height == DefaultMapSize && tileMapping == palette
      ensures layers == [MapLayer("Ground (Z=0)", 0, Some(Zeros(DefaultMapSize * DefaultMapSize)))]
      ensures triggers == [] && selectedTrigger == None
    {
      hasMap, width, height := true, DefaultMapSize, DefaultMapSize;
      tileMapping := palette;
      layers := [MapLayer("Ground (Z=0)", 0, Some(Zeros(width * height)))];
      triggers := [];
      selectedTrigger := None;
    }

    /** RequestNewMap: the file name takes the time stamp it is given, and a new map is created. */
    method RequestNewMap(stamp: string)
      requires Valid()
      modifies this`mapFileName, this`hasMap, this`width, this`height, this`tileMapping, this`layers
      modifies this`triggers, this`selectedTrigger
      ensures Valid()
      ensures mapFileName == "new_map_" + stamp + ".json"
      ensures hasMap && width == DefaultMapSize && height == DefaultMapSize && tileMapping == palette
      ensures layers == [MapLayer("Ground (Z=0)", 0, Some(Zeros(DefaultMapSize * DefaultMapSize)))]
      ensures triggers == [] && selectedTrigger == None
    {
      mapFileName := "new_map_" + stamp + ".json";
      CreateNewMap();
    }

    /** PlaceTile's guard: a map of positive width, and the position on it within 0..MaxZLevel. */
    predicate CanPlace(pos: Vec3)
      reads this
    {
      && hasMap && width > 0
      && 0.0 <= pos.x < width as real && 0.0 <= pos.y < height as real
      && 0.0 <= pos.z <= maxZLevel as real
    }

    /**
     * PlaceTile: outside the guard nothing changes; inside it the layers become those of
     * PlaceInLayers at the truncated cell. The layers stay in Z order.
     */
    method PlaceTile(pos: Vec3, tileId: int)
      requires Valid()
      modifies this`layers
      ensures Valid()
      ensures CanPlace(pos) ==> InCells(Truncate(pos.x), Truncate(pos.y), width, height)
      ensures layers == if CanPlace(pos)
        then PlaceInLayers(old(layers), width, height, Truncate(pos.x), Truncate(pos.y), Truncate(pos.z), tileId)
        else old(layers)
    {
      if !hasMap || width <= 0 {
        return;
      }
      if pos.x < 0.0 || pos.x >= width as real || pos.y < 0.0 || pos.y >= height as real
         || pos.z < 0.0 || pos.z > maxZLevel as real {
        return;
      }
      var x, y, z := Truncate(pos.x), Truncate(pos.y), Truncate(pos.z);
      assert InCells(x, y, width, height);
      PlaceKeepsSorted(layers, width, height, x, y, z, tileId);
      layers := PlaceCell(layers, width, height, x, y, z, tileId);
    }

    /** AddTriggerAt's guard: a map of positive width, and the position on it (Z is not checked). */
    predicate CanAddTrigger(pos: Vec3)
      reads this
    {
      hasMap && width > 0 && 0.0 <= pos.x < width as real && 0.0 <= pos.y < height as real
    }

    /**
     * AddTriggerAt: on the map a new trigger "Trigger_{n+1}" (n the number of triggers) is
     * appended and selected; elsewhere nothing changes.
     */
    method AddTriggerAt(pos: Vec3)
      requires Valid()
      modifies this`triggers, this`selectedTrigger
      ensures Valid()
      ensures CanAddTrigger(pos) ==>
        && |triggers| == |old(triggers)| + 1 && triggers[..|old(triggers)|] == old(triggers)
        && fresh(triggers[|old(triggers)|])
        && triggers[|old(triggers)|].data == NewTrigger(|old(triggers)|, pos)
        && selectedTrigger == Some(triggers[|old(triggers)|])
      ensures !CanAddTrigger(pos) ==> triggers == old(triggers) && selectedTrigger == old(selectedTrigger)
    {
      if !hasMap || width <= 0 {
        return;
      }
      if pos.x < 0.0 || pos.x >= width as real || pos.y < 0.0 || pos.y >= height as real {
        return;
      }
      var t := new Trigger(NewTrigger(|triggers|, pos));
      triggers := triggers + [t];
      selectedTrigger := Some(t);
    }

    /**
     * RemoveTrigger: the first occurrence of the trigger object leaves the list, and if it was
     * the selected one nothing stays selected; a trigger not on the map changes nothing. Since a
     * trigger is listed once, afterwards it is not on the map at all.
     */
    method RemoveTrigger(t: Trigger)
      requires Valid()
      modifies this`triggers, this`selectedTrigger
      ensures Valid()
      ensures var k := TriggerIndex(old(triggers), t);
        && triggers == (if k < 0 then old(triggers) else Without(old(triggers), k))
        && selectedTrigger == (if k >= 0 && old(selectedTrigger) == Some(t) then None else old(selectedTrigger))
      ensures t !in triggers
    {
      if !hasMap {
        return;
      }
      var k := TriggerIndex(triggers, t);
      if k >= 0 {
        RemoveOnce(triggers, k);
        triggers := Without(triggers, k);
        if selectedTrigger == Some(t) {
          selectedTrigger := None;
        }
      }
    }

    /** RemoveSelectedTrigger: the selected trigger, if any, is removed and deselected. */
    method RemoveSelectedTrigger()
      requires Valid()
      modifies this`triggers, this`selectedTrigger
      ensures Valid()
      ensures old(selectedTrigger).None? ==> triggers == old(triggers) && selectedTrigger == None
      ensures old(selectedTrigger).Some? ==>
        && |triggers| == |old(triggers)| - 1
        && old(selectedTrigger).value !in triggers
        && selectedTrigger == None
    {
      if selectedTrigger.Some? {
        RemoveTrigger(selectedTrigger.value);
      }
    }

    /**
     * SelectTriggerNear: the trigger on the click's level nearest to it within 0.3 becomes
     * selected (the last of equally near ones), or none when there is none; without a map
     * nothing changes.
     */
    method SelectTriggerNear(clickPos: Vec3)
      requires Valid()
      modifies this`selectedTrigger
      ensures Valid()
      ensures !hasMap ==> selectedTrigger == old(selectedTrigger)
      ensures hasMap ==> var k := NearestIn(triggers, clickPos, |triggers|);
        selectedTrigger == if k < 0 then None else Some(triggers[k])
    {
      if !hasMap {
        return;
      }
      var k := NearestTrigger(triggers, clickPos);
      selectedTrigger := if k < 0 then None else Some(triggers[k]);
    }
  }

  /** The list with the entry at k taken out (List.RemoveAt). */
  function Without(ts: seq<Trigger>, k: int): (r: seq<Trigger>)
    requires 0 <= k < |ts|
    ensures |r| == |ts| - 1
    ensures forall i :: 0 <= i < |r| ==> r[i] == if i < k then ts[i] else ts[i + 1]
  {
    ts[..k] + ts[k + 1..]
  }

  /** Removing the only occurrence of an object from a duplicate-free list leaves it out entirely. */
  lemma RemoveOnce(ts: seq<Trigger>, k: int)
    requires 0 <= k < |ts|
    requires forall i, j :: 0 <= i < j < |ts| ==> ts[i] != ts[j]
    ensures ts[k] !in Without(ts, k)
    ensures forall i, j :: 0 <= i < j < |Without(ts, k)| ==> Without(ts, k)[i] != Without(ts, k)[j]
    ensures forall u :: u in ts && u != ts[k] ==> u in Without(ts, k)
  {
    var r := Without(ts, k);
    forall u | u in ts && u != ts[k]
      ensures u in r
    {
      var i :| 0 <= i < |ts| && ts[i] == u;
      if i < k {
        assert r[i] == u;
      } else {
        assert r[i - 1] == u;
      }
    }
  }
}
