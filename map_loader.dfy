/**
 * The layer decoding of MapLoader.LoadMapDataFromFile (IsometricGame/Map/MapLoader.cs): every
 * non-zero tile id of every layer becomes a tile sprite at (i % Width, i / Width, ZLevel) when
 * the id is in the tile mapping and its asset has a texture, and the solid ones are recorded
 * by cell. Reading and deserialising the file is not modelled: the parsed MapData, or None when
 * the file is missing or unreadable, is an input, and so is the set of asset names that have a
 * texture. The i-th sprite created gets the identity firstId + i.
 */
module MapLoader {
  import opened Wrappers
  import opened Numerics
  import opened Text
  import opened Engine
  import opened MapData

  /** One decoded tile: its id, its asset, its cell, and whether it is solid. */
  datatype Tile = Tile(tileId: int, asset: string, cell: Cell, solid: bool)

  /** LoadedMapData: the tile sprites (with their tiles), the solid registry and the triggers. */
  datatype LoadedMapData = LoadedMapData(
    tiles: seq<Tile>,
    sprites: seq<SpriteRef>,
    solidTiles: map<Cell, SpriteRef>,
    triggers: seq<MapTrigger>,
    source: MapData)

  datatype LoadError =
    | Unreadable        // the file is missing, or its JSON does not deserialise to a MapData
    | DuplicateTileId   // ToDictionary raised ArgumentException
    | DivideByZero      // a non-zero tile id in a map of Width 0; the exception is not caught

  predicate DistinctIds(mapping: seq<TileMappingEntry>) {
    forall i, j :: 0 <= i < j < |mapping| ==> mapping[i].id != mapping[j].id
  }

  /** The tile lookup built from the mapping: the entry with that id, if any. */
  function Lookup(mapping: seq<TileMappingEntry>, id: int): (r: Option<TileMappingEntry>)
    ensures r.Some? ==> r.value in mapping && r.value.id == id
    ensures r.None? <==> forall e :: e in mapping ==> e.id != id
  {
    if mapping == [] then None
    else if mapping[0].id == id then Some(mapping[0])
    else Lookup(mapping[1..], id)
  }

  /**
   * The solidity rule: marked solid in the mapping, or above ground level, or a water tile at
   * ground level.
   */
  predicate IsSolidTile(entry: TileMappingEntry, z: int) {
    if entry.solid then true
    else if z > 0 then true
    else z == 0 && Contains(entry.assetName, "water_")
  }

  /** The tile (if any) that entry i of a layer at level z decodes to. */
  function TileAt(id: int, i: nat, z: int, width: int, mapping: seq<TileMappingEntry>, textures: set<string>): Option<Tile>
    requires id != 0 ==> width != 0
  {
    if id == 0 then None
    else
      var cell := Cell(CsMod(i, width), CsDiv(i, width), z);
      match Lookup(mapping, id)
      case None => None
      case Some(e) => if e.assetName in textures then Some(Tile(id, e.assetName, cell, IsSolidTile(e, z))) else None
  }

  /** The first n entries of a layer's data are all 0. */
  predicate ZeroUpTo(data: seq<int>, n: nat)
    requires n <= |data|
  {
    forall j :: 0 <= j < n ==> data[j] == 0
  }

  /** The tiles decoded from the first n entries of a layer's data. */
  function LayerTiles(data: seq<int>, z: int, width: int, mapping: seq<TileMappingEntry>, textures: set<string>, n: nat): seq<Tile>
    requires n <= |data| && (width == 0 ==> ZeroUpTo(data, n))
  {
    if n == 0 then []
    else
      LayerTiles(data, z, width, mapping, textures, n - 1) +
      OptionalTile(TileAt(data[n - 1], n - 1, z, width, mapping, textures))
  }

  /** No layer among the first n that has data holds a non-zero id. */
  predicate LayersAllZero(layers: seq<MapLayer>, n: nat)
    requires n <= |layers|
  {
    forall j :: 0 <= j < n && layers[j].data.Some? ==> ZeroUpTo(layers[j].data.value, |layers[j].data.value|)
  }

  /** The tiles decoded from the first n layers, in order; layers without data contribute none. */
  function MapTiles(layers: seq<MapLayer>, width: int, mapping: seq<TileMappingEntry>, textures: set<string>, n: nat): seq<Tile>
    requires n <= |layers| && (width == 0 ==> LayersAllZero(layers, n))
  {
    if n == 0 then []
    else
      MapTiles(layers, width, mapping, textures, n - 1) +
      (match layers[n - 1].data
       case None => []
       case Some(data) => LayerTiles(data, layers[n - 1].zLevel, width, mapping, textures, |data|))
  }

  /**
   * The solid registry after inserting the tiles in order: the i-th tile's sprite is
   * SpriteRef(firstId + i), and a later solid tile at a cell replaces an earlier one.
   */
  function SolidMap(tiles: seq<Tile>, firstId: nat): map<Cell, SpriteRef> {
    if tiles == [] then map[]
    else
      var prefix := tiles[..|tiles| - 1];
      var t := tiles[|tiles| - 1];
      if t.solid then SolidMap(prefix, firstId)[t.cell := SpriteRef(firstId + |prefix|, TileKind)]
      else SolidMap(prefix, firstId)
  }

  /** The sprites created for `count` tiles, numbered from firstId. */
  function TileSprites(firstId: nat, count: nat): (s: seq<SpriteRef>)
    ensures |s| == count
  {
    if count == 0 then [] else TileSprites(firstId, count - 1) + [SpriteRef(firstId + count - 1, TileKind)]
  }

  /** The sprites and the solid registry are the ones built from the tiles, in order. */
  predicate Built(tiles: seq<Tile>, sprites: seq<SpriteRef>, solid: map<Cell, SpriteRef>, firstId: nat) {
    sprites == TileSprites(firstId, |tiles|) && solid == SolidMap(tiles, firstId)
  }

  /** The k-th tile sprite has identity firstId + k. */
  lemma {:induction false} TileSpritesNumbered(firstId: nat, count: nat, k: nat)
    requires k < count
    ensures TileSprites(firstId, count)[k] == SpriteRef(firstId + k, TileKind)
  {
    if k < count - 1 {
      TileSpritesNumbered(firstId, count - 1, k);
    }
  }

  /** The whole map's tile list, when the map decodes without dividing by zero. */
  function DecodedTiles(m: MapData, textures: set<string>): seq<Tile>
    requires m.width == 0 && m.layers.Some? ==> LayersAllZero(m.layers.value, |m.layers.value|)
  {
    match m.layers
    case None => []
    case Some(layers) => MapTiles(layers, m.width, m.tileMapping.GetOr([]), textures, |layers|)
  }

  /** Decoding reaches a division by zero: Width is 0 and some layer has a non-zero id. */
  predicate DividesByZero(m: MapData) {
    m.width == 0 && m.layers.Some? && !LayersAllZero(m.layers.value, |m.layers.value|)
  }

  /** The parsed file decodes: it was read, its ids are distinct, and no division by zero occurs. */
  predicate Loads(md: Option<MapData>) {
    md.Some? && (md.value.tileMapping.Some? ==> DistinctIds(md.value.tileMapping.value)) && !DividesByZero(md.value)
  }

  /**
   * LoadMapDataFromFile after the file has been parsed: fails on an unreadable file, on
   * duplicate ids in the mapping, and by the uncaught division when a map of Width 0 has a
   * non-zero tile; otherwise returns the decoded tiles, their sprites, the solid registry built
   * from them, and the triggers (an empty list when the file has none).
   */
  method LoadMapData(md: Option<MapData>, textures: set<string>, firstId: nat)
    returns (r: Result<LoadedMapData, LoadError>)
    ensures md.None? ==> r == Failure(Unreadable)
    ensures md.Some? && md.value.tileMapping.Some? && !DistinctIds(md.value.tileMapping.value) ==> r == Failure(DuplicateTileId)
    ensures r.Failure? && r.error == DivideByZero <==>
      md.Some? && (md.value.tileMapping.Some? ==> DistinctIds(md.value.tileMapping.value)) && DividesByZero(md.value)
    ensures r.Success? <==> Loads(md)
    ensures r.Success? ==> (md.Some? && !DividesByZero(md.value) &&
      r.value == LoadedMapData(DecodedTiles(md.value, textures), TileSprites(firstId, |r.value.tiles|),
                               SolidMap(r.value.tiles, firstId), md.value.triggers.GetOr([]), md.value))
  {
    if md.None? {
      return Failure(Unreadable);
    }
    var m := md.value;
    var triggers := m.triggers.GetOr([]);
    var mapping: seq<TileMappingEntry> := [];
    if m.tileMapping.Some? {
      if !DistinctIds(m.tileMapping.value) {
        return Failure(DuplicateTileId);
      }
      mapping := m.tileMapping.value;
    }
    assert mapping == m.tileMapping.GetOr([]);
    var tiles: seq<Tile> := [];
    var sprites: seq<SpriteRef> := [];
    var solid: map<Cell, SpriteRef> := map[];
    if m.layers.Some? {
      var crashed;
      tiles, sprites, solid, crashed := DecodeLayers(m.layers.value, m.width, mapping, textures, firstId);
      if crashed {
        return Failure(DivideByZero);
      }
    }
    return Success(LoadedMapData(tiles, sprites, solid, triggers, m));
  }

  /**
   * The loop over the layers (lines 79-160): layers without data are skipped; the others are
   * decoded in order, until a division by zero.
   */
  method DecodeLayers(layers: seq<MapLayer>, width: int, mapping: seq<TileMappingEntry>, textures: set<string>, firstId: nat)
    returns (tiles: seq<Tile>, sprites: seq<SpriteRef>, solid: map<Cell, SpriteRef>, crashed: bool)
    ensures crashed <==> width == 0 && !LayersAllZero(layers, |layers|)
    ensures !crashed ==> tiles == MapTiles(layers, width, mapping, textures, |layers|)
    ensures Built(tiles, sprites, solid, firstId)
  {
    tiles, sprites, solid, crashed := [], [], map[], false;
    for li := 0 to |layers|
      invariant width == 0 ==> LayersAllZero(layers, li)
      invariant tiles == MapTiles(layers, width, mapping, textures, li)
      invariant Built(tiles, sprites, solid, firstId)
    {
      tiles, sprites, solid, crashed := NextLayer(layers, li, width, mapping, textures, firstId, tiles, sprites, solid);
      if crashed {
        return;
      }
    }
  }

  /** One iteration of the loop over the layers: skips a layer without data, decodes the others. */
  method NextLayer(layers: seq<MapLayer>, li: nat, width: int, mapping: seq<TileMappingEntry>, textures: set<string>,
                   firstId: nat, tiles: seq<Tile>, sprites: seq<SpriteRef>, solid: map<Cell, SpriteRef>)
    returns (tiles': seq<Tile>, sprites': seq<SpriteRef>, solid': map<Cell, SpriteRef>, crashed: bool)
    requires li < |layers| && (width == 0 ==> LayersAllZero(layers, li))
    requires tiles == MapTiles(layers, width, mapping, textures, li) && Built(tiles, sprites, solid, firstId)
    ensures crashed ==> width == 0 && !LayersAllZero(layers, |layers|)
    ensures !crashed ==> (width == 0 ==> LayersAllZero(layers, li + 1)) && tiles' == MapTiles(layers, width, mapping, textures, li + 1)
    ensures Built(tiles', sprites', solid', firstId)
  {
    var layer := layers[li];
    if layer.data.None? {
      MapTilesSkip(layers, width, mapping, textures, li);
      return tiles, sprites, solid, false;
    }
    var data := layer.data.value;
    tiles', sprites', solid', crashed := DecodeLayer(data, layer.zLevel, width, mapping, textures, firstId, tiles, sprites, solid);
    if crashed {
      NonZeroLayer(layers, li);
      return;
    }
    MapTilesStep(layers, width, mapping, textures, li);
  }

  /** A layer without data adds no tiles. */
  lemma MapTilesSkip(layers: seq<MapLayer>, width: int, mapping: seq<TileMappingEntry>, textures: set<string>, li: nat)
    requires li < |layers| && layers[li].data.None?
    requires width == 0 ==> LayersAllZero(layers, li)
    ensures width == 0 ==> LayersAllZero(layers, li + 1)
    ensures MapTiles(layers, width, mapping, textures, li + 1) == MapTiles(layers, width, mapping, textures, li)
  {
  }

  lemma AllZeroPrefix(layers: seq<MapLayer>, m: nat, n: nat)
    requires m <= n <= |layers| && LayersAllZero(layers, n)
    ensures LayersAllZero(layers, m)
  {
    forall j | 0 <= j < m && layers[j].data.Some?
      ensures ZeroUpTo(layers[j].data.value, |layers[j].data.value|)
    {
      assert 0 <= j < n && layers[j].data.Some?;
    }
  }

  /** A layer holding a non-zero id makes the layers not all zero. */
  lemma NonZeroLayer(layers: seq<MapLayer>, li: nat)
    requires li < |layers| && layers[li].data.Some?
    requires !ZeroUpTo(layers[li].data.value, |layers[li].data.value|)
    ensures !LayersAllZero(layers, |layers|)
  {
  }

  /** One more layer with data appends that layer's tiles. */
  lemma MapTilesStep(layers: seq<MapLayer>, width: int, mapping: seq<TileMappingEntry>, textures: set<string>, li: nat)
    requires li < |layers| && layers[li].data.Some?
    requires width == 0 ==> LayersAllZero(layers, li) && ZeroUpTo(layers[li].data.value, |layers[li].data.value|)
    ensures width == 0 ==> LayersAllZero(layers, li + 1)
    ensures MapTiles(layers, width, mapping, textures, li + 1)
         == MapTiles(layers, width, mapping, textures, li)
          + LayerTiles(layers[li].data.value, layers[li].zLevel, width, mapping, textures, |layers[li].data.value|)
  {
  }

  /**
   * The loop over one layer's data (lines 90-158): appends the layer's tiles and their sprites
   * and records the solid ones, or reports the division by zero at the first non-zero id of a
   * map of Width 0.
   */
  method DecodeLayer(data: seq<int>, z: int, width: int, mapping: seq<TileMappingEntry>, textures: set<string>,
                     firstId: nat, tiles: seq<Tile>, sprites: seq<SpriteRef>, solid: map<Cell, SpriteRef>)
    returns (tiles': seq<Tile>, sprites': seq<SpriteRef>, solid': map<Cell, SpriteRef>, crashed: bool)
    requires Built(tiles, sprites, solid, firstId)
    ensures crashed <==> width == 0 && !ZeroUpTo(data, |data|)
    ensures !crashed ==> tiles' == tiles + LayerTiles(data, z, width, mapping, textures, |data|)
    ensures Built(tiles', sprites', solid', firstId)
  {
    tiles', sprites', solid', crashed := tiles, sprites, solid, false;
    for i := 0 to |data|
      invariant width == 0 ==> ZeroUpTo(data, i)
      invariant tiles' == tiles + LayerTiles(data, z, width, mapping, textures, i)
      invariant Built(tiles', sprites', solid', firstId)
    {
      var id := data[i];
      if id == 0 {
        LayerTilesNext(data, z, width, mapping, textures, i);
        continue;
      }
      if width == 0 {
        crashed := true;
        return;
      }
      tiles', sprites', solid' := AddTile(id, i, z, width, mapping, textures, firstId, tiles', sprites', solid');
      LayerTilesNext(data, z, width, mapping, textures, i);
    }
  }

  /** One more entry of a layer's data appends the tile it decodes to, if any. */
  lemma LayerTilesNext(data: seq<int>, z: int, width: int, mapping: seq<TileMappingEntry>, textures: set<string>, i: nat)
    requires i < |data| && (width == 0 ==> ZeroUpTo(data, i) && data[i] == 0)
    ensures width == 0 ==> ZeroUpTo(data, i + 1)
    ensures LayerTiles(data, z, width, mapping, textures, i + 1)
         == LayerTiles(data, z, width, mapping, textures, i) + OptionalTile(TileAt(data[i], i, z, width, mapping, textures))
    ensures data[i] == 0 ==> LayerTiles(data, z, width, mapping, textures, i + 1) == LayerTiles(data, z, width, mapping, textures, i)
  {
  }

  function OptionalTile(t: Option<Tile>): seq<Tile> {
    match t
    case None => []
    case Some(tile) => [tile]
  }

  /**
   * The body of the loop over a layer's data for a non-zero id in a map of non-zero width
   * (lines 94-157): the tile is created when the mapping knows the id and its asset has a
   * texture, with the solidity the chain of tests decides, and registered when solid.
   */
  method AddTile(id: int, i: nat, z: int, width: int, mapping: seq<TileMappingEntry>, textures: set<string>,
                 firstId: nat, tiles: seq<Tile>, sprites: seq<SpriteRef>, solid: map<Cell, SpriteRef>)
    returns (tiles': seq<Tile>, sprites': seq<SpriteRef>, solid': map<Cell, SpriteRef>)
    requires id != 0 && width != 0 && Built(tiles, sprites, solid, firstId)
    ensures tiles' == tiles + OptionalTile(TileAt(id, i, z, width, mapping, textures))
    ensures Built(tiles', sprites', solid', firstId)
  {
    tiles', sprites', solid' := tiles, sprites, solid;
    var x := CsMod(i, width);
    var y := CsDiv(i, width);
    var entry := Lookup(mapping, id);
    if !(entry.Some? && entry.value.assetName in textures) {
      return;
    }
    var cell := Cell(x, y, z);
    var sprite := SpriteRef(firstId + |sprites|, TileKind);
    var isSolid := false;
    if entry.value.solid {
      isSolid := true;
    } else if z > 0 {
      isSolid := true;
    } else if z == 0 && Contains(entry.value.assetName, "water_") {
      isSolid := true;
    }
    var tile := Tile(id, entry.value.assetName, cell, isSolid);
    assert TileAt(id, i, z, width, mapping, textures) == Some(tile);
    AppendTile(tiles, tile, firstId);
    tiles' := tiles + [tile];
    sprites' := sprites + [sprite];
    if isSolid {
      solid' := solid[cell := sprite];
    }
  }

  /** Appending a tile adds the next sprite, and registers it when the tile is solid. */
  lemma AppendTile(tiles: seq<Tile>, tile: Tile, firstId: nat)
    ensures TileSprites(firstId, |tiles + [tile]|) == TileSprites(firstId, |tiles|) + [SpriteRef(firstId + |tiles|, TileKind)]
    ensures SolidMap(tiles + [tile], firstId)
         == if tile.solid then SolidMap(tiles, firstId)[tile.cell := SpriteRef(firstId + |tiles|, TileKind)]
            else SolidMap(tiles, firstId)
  {
    assert (tiles + [tile])[..|tiles|] == tiles;
  }

  lemma NonZeroDividesByZero(m: MapData, li: nat, i: nat)
    requires m.width == 0 && m.layers.Some? && li < |m.layers.value|
    requires m.layers.value[li].data.Some? && i < |m.layers.value[li].data.value|
    requires m.layers.value[li].data.value[i] != 0
    ensures DividesByZero(m)
  {
  }

  // ---------------------------------------------------------------------------------------
  // Properties of the decoding
  // ---------------------------------------------------------------------------------------

  /**
   * For a positive width, index i decodes to a column in [0, Width) and a non-negative row, and
   * i is recovered as row * Width + column.
   */
  lemma IndexDecodes(i: nat, width: int)
    requires width > 0
    ensures 0 <= CsMod(i, width) < width && 0 <= CsDiv(i, width)
    ensures CsDiv(i, width) * width + CsMod(i, width) == i
  {
    CsDivModAgree(i, width);
    var q := i / width;
    assert q * width + i % width == i;
    if q < 0 {
      MulAtLeast(-q, width);
    }
  }

  /** For a positive width, the index row * Width + column of a cell in range decodes back to the cell. */
  lemma CellEncodes(x: int, y: nat, width: int)
    requires 0 <= x < width
    ensures y * width + x >= 0
    ensures CsMod(y * width + x, width) == x && CsDiv(y * width + x, width) == y
  {
    var j := y * width + x;
    assert y * width >= 0;
    CsDivModAgree(j, width);
    DivModUnique(j, width, y, x);
  }

  lemma DivModUnique(j: int, width: int, q: int, r: int)
    requires width > 0 && 0 <= r < width && j == q * width + r
    ensures j / width == q && j % width == r
  {
    var q', r' := j / width, j % width;
    var d := q - q';
    assert d * width == r' - r by {
      assert q * width - q' * width == (q - q') * width;
    }
    if d > 0 {
      MulAtLeast(d, width);
    } else if d < 0 {
      MulAtLeast(-d, width);
    }
  }

  lemma MulAtLeast(d: int, w: int)
    requires d >= 1 && w > 0
    ensures d * w >= w
  {
    assert d * w == (d - 1) * w + w;
    assert (d - 1) * w >= 0;
  }

  /**
   * A decoded tile came from a non-zero id that the mapping knows and whose asset has a
   * texture; its solid flag follows the solidity rule; with a positive width its column is in
   * [0, Width) and its row is not negative.
   */
  predicate WellDecoded(t: Tile, width: int, mapping: seq<TileMappingEntry>, textures: set<string>) {
    && t.tileId != 0
    && Lookup(mapping, t.tileId).Some?
    && Lookup(mapping, t.tileId).value.assetName == t.asset
    && t.asset in textures
    && t.solid == IsSolidTile(Lookup(mapping, t.tileId).value, t.cell.z)
    && (width > 0 ==> 0 <= t.cell.x < width && 0 <= t.cell.y)
  }

  /** Tile t is what entry i of the layer's data decodes to: its id, at cell (i % Width, i / Width, z). */
  predicate DecodedAt(t: Tile, data: seq<int>, z: int, width: int, i: nat) {
    i < |data| && width != 0 && data[i] == t.tileId && t.cell == Cell(CsMod(i, width), CsDiv(i, width), z)
  }

  lemma {:induction false} LayerTilesWellDecoded(data: seq<int>, z: int, width: int, mapping: seq<TileMappingEntry>,
                                                 textures: set<string>, n: nat)
    requires n <= |data| && (width == 0 ==> ZeroUpTo(data, n))
    ensures forall t :: t in LayerTiles(data, z, width, mapping, textures, n) ==>
      WellDecoded(t, width, mapping, textures) && t.cell.z == z
    ensures forall t :: t in LayerTiles(data, z, width, mapping, textures, n) ==>
      exists i: nat :: i < n && DecodedAt(t, data, z, width, i)
    decreases n
  {
    if n > 0 {
      LayerTilesWellDecoded(data, z, width, mapping, textures, n - 1);
      var before := LayerTiles(data, z, width, mapping, textures, n - 1);
      var next := TileAt(data[n - 1], n - 1, z, width, mapping, textures);
      assert LayerTiles(data, z, width, mapping, textures, n) == before + OptionalTile(next);
      if next.Some? {
        if width > 0 {
          IndexDecodes(n - 1, width);
        }
        assert WellDecoded(next.value, width, mapping, textures);
        assert DecodedAt(next.value, data, z, width, n - 1);
      }
    }
  }

  /** The levels of the first n layers that have data. */
  function DataLevels(layers: seq<MapLayer>, n: nat): set<int>
    requires n <= |layers|
  {
    if n == 0 then {}
    else DataLevels(layers, n - 1) + (if layers[n - 1].data.Some? then {layers[n - 1].zLevel} else {})
  }

  /** Every tile of the map is well decoded and sits on the level of a layer that has data. */
  lemma {:induction false} MapTilesWellDecoded(layers: seq<MapLayer>, width: int, mapping: seq<TileMappingEntry>,
                                               textures: set<string>, n: nat, t: Tile)
    requires n <= |layers| && (width == 0 ==> LayersAllZero(layers, n))
    requires t in MapTiles(layers, width, mapping, textures, n)
    ensures WellDecoded(t, width, mapping, textures) && t.cell.z in DataLevels(layers, n)
    decreases n
  {
    assert n > 0;
    if width == 0 {
      AllZeroPrefix(layers, n - 1, n);
    }
    var before := MapTiles(layers, width, mapping, textures, n - 1);
    if layers[n - 1].data.Some? {
      var data := layers[n - 1].data.value;
      var z := layers[n - 1].zLevel;
      assert DataLevels(layers, n) == DataLevels(layers, n - 1) + {z};
      MapTilesStep(layers, width, mapping, textures, n - 1);
      if t in before {
        MapTilesWellDecoded(layers, width, mapping, textures, n - 1, t);
      } else {
        var added := LayerTiles(data, z, width, mapping, textures, |data|);
        assert t in added;
        LayerTilesWellDecoded(data, z, width, mapping, textures, |data|);
        assert t.cell.z == z;
      }
    } else {
      assert DataLevels(layers, n) == DataLevels(layers, n - 1);
      MapTilesSkip(layers, width, mapping, textures, n - 1);
      MapTilesWellDecoded(layers, width, mapping, textures, n - 1, t);
    }
  }

  /**
   * The index of the last solid tile on cell c, or -1 when no solid tile is on c: the reference
   * for which sprite the registry keeps.
   */
  function LastSolidAt(tiles: seq<Tile>, c: Cell): (k: int)
    ensures -1 <= k < |tiles|
    ensures k >= 0 ==> tiles[k].solid && tiles[k].cell == c
    ensures forall j :: k < j < |tiles| ==> !(tiles[j].solid && tiles[j].cell == c)
  {
    if tiles == [] then -1
    else if tiles[|tiles| - 1].solid && tiles[|tiles| - 1].cell == c then |tiles| - 1
    else LastSolidAt(tiles[..|tiles| - 1], c)
  }

  /**
   * The solid registry holds exactly the cells that have a solid tile, and each cell's sprite is
   * that of the LAST solid tile on the cell.
   */
  lemma {:induction false} SolidMapLastWriter(tiles: seq<Tile>, firstId: nat, c: Cell)
    ensures c in SolidMap(tiles, firstId) <==> LastSolidAt(tiles, c) >= 0
    ensures c in SolidMap(tiles, firstId) ==> SolidMap(tiles, firstId)[c] == SpriteRef(firstId + LastSolidAt(tiles, c), TileKind)
    decreases |tiles|
  {
    if tiles != [] {
      SolidMapLastWriter(tiles[..|tiles| - 1], firstId, c);
    }
  }

  /** Every solid tile's cell is in the registry. */
  lemma SolidTileRegistered(tiles: seq<Tile>, firstId: nat, k: nat)
    requires k < |tiles| && tiles[k].solid
    ensures tiles[k].cell in SolidMap(tiles, firstId)
  {
    SolidMapLastWriter(tiles, firstId, tiles[k].cell);
  }
}
