/**
 * The current-map bookkeeping of IsometricGame/Map/MapManager.cs. Loading a map unloads the
 * previous one, decodes the new one (MapLoader), appends its tile sprites to the global sprite
 * list and copies its solid tiles into the global solid registry; unloading takes them out
 * again. The global registries are the fields of an explicit World.
 */
module MapManager {
  import opened Wrappers
  import opened Engine
  import opened MapData
  import opened MapLoader

  /** List<T>.Remove(x): the first occurrence of x is taken out; a missing x leaves s as it is. */
  function RemoveFirst<T(==)>(s: seq<T>, x: T): (r: seq<T>)
    ensures multiset(r) == multiset(s) - multiset{x}
    ensures x !in s ==> r == s
  {
    if s == [] then []
    else
      assert s == [s[0]] + s[1..];
      if s[0] == x then s[1..] else [s[0]] + RemoveFirst(s[1..], x)
  }

  /** The removal loop: Remove(xs[i]) for i from the last index down to 0. */
  function RemoveEach<T(==)>(s: seq<T>, xs: seq<T>): seq<T> {
    if xs == [] then s else RemoveFirst(RemoveEach(s, xs[1..]), xs[0])
  }

  /** Removing the elements one at a time takes away exactly their multiset. */
  lemma {:induction false} RemoveEachMultiset<T>(s: seq<T>, xs: seq<T>)
    ensures multiset(RemoveEach(s, xs)) == multiset(s) - multiset(xs)
    decreases |xs|
  {
    if xs != [] {
      var rest := RemoveEach(s, xs[1..]);
      var a, b, c := multiset(s), multiset(xs[1..]), multiset{xs[0]};
      calc {
        multiset(RemoveEach(s, xs));
        multiset(rest) - c;
        { RemoveEachMultiset(s, xs[1..]); }
        a - b - c;
        { DiffDiff(a, b, c); }
        a - (b + c);
        { assert xs == [xs[0]] + xs[1..]; }
        a - multiset(xs);
      }
    }
  }

  lemma DiffDiff<T>(a: multiset<T>, b: multiset<T>, c: multiset<T>)
    ensures a - b - c == a - (b + c)
  {
    forall y
      ensures (a - b - c)[y] == (a - (b + c))[y]
    {
    }
  }

  /**
   * In a sprite list with no repeated entries, unloading keeps exactly the sprites that do not
   * belong to the map.
   */
  lemma RemoveEachExactly<T>(s: seq<T>, xs: seq<T>, y: T)
    requires forall i, j :: 0 <= i < j < |s| ==> s[i] != s[j]
    ensures y in RemoveEach(s, xs) <==> y in s && y !in xs
  {
    var r := RemoveEach(s, xs);
    RemoveEachMultiset(s, xs);
    DistinctCount(s, y);
    assert y in r <==> multiset(r)[y] > 0;
    assert y in s <==> multiset(s)[y] > 0;
    assert y in xs <==> multiset(xs)[y] > 0;
    assert multiset(r)[y] == if multiset(s)[y] > multiset(xs)[y] then multiset(s)[y] - multiset(xs)[y] else 0;
  }

  lemma {:induction false} DistinctCount<T>(s: seq<T>, y: T)
    requires forall i, j :: 0 <= i < j < |s| ==> s[i] != s[j]
    ensures multiset(s)[y] <= 1
    decreases |s|
  {
    if s != [] {
      DistinctCount(s[1..], y);
      assert s == [s[0]] + s[1..];
      assert s[0] !in s[1..];
    }
  }

  /** Unloading right after loading gives the sprite list back its former contents. */
  lemma LoadThenUnload<T>(s: seq<T>, xs: seq<T>)
    ensures multiset(RemoveEach(s + xs, xs)) == multiset(s)
  {
    RemoveEachMultiset(s + xs, xs);
  }

  /** How LoadMap ends: true, false, or the division by zero that the loader does not catch. */
  datatype LoadOutcome = Loaded | NotLoaded | Crashed

  class MapManager {
    var currentMapName: Option<string>
    var currentMapSprites: seq<SpriteRef>
    var currentLoaded: Option<LoadedMapData>

    /** A map name is set exactly when map data is held, and the sprite list is that map's. */
    ghost predicate Valid()
      reads this
    {
      && (currentMapName.Some? <==> currentLoaded.Some?)
      && currentMapSprites == (if currentLoaded.Some? then currentLoaded.value.sprites else [])
    }

    /** UnloadCurrentMap has something to undo: a map name and at least one map sprite. */
    predicate HasMap()
      reads this
    {
      currentMapName.Some? && currentMapSprites != []
    }

    /** No map: no name, no sprites, no data. */
    constructor ()
      ensures Valid() && currentMapName == None && currentMapSprites == [] && currentLoaded == None
    {
      currentMapName, currentMapSprites, currentLoaded := None, [], None;
    }

    /**
     * UnloadCurrentMap: nothing happens without a map name or without map sprites; otherwise the
     * map's sprites are removed from the global list (each Remove takes the first occurrence),
     * the local list and the global solid registry are cleared, and the name and data dropped.
     */
    method UnloadCurrentMap(w: World)
      requires Valid()
      modifies this, w`allSprites, w`solidTiles
      ensures Valid() && currentMapSprites == []
      ensures !old(HasMap()) ==>
        && currentMapName == old(currentMapName) && currentLoaded == old(currentLoaded)
        && w.allSprites == old(w.allSprites) && w.solidTiles == old(w.solidTiles)
      ensures old(HasMap()) ==>
        && currentMapName == None && currentLoaded == None
        && w.allSprites == RemoveEach(old(w.allSprites), old(currentMapSprites))
        && w.solidTiles == map[]
    {
      if currentMapName.None? || |currentMapSprites| == 0 {
        return;
      }
      RemoveSprites(w, currentMapSprites);
      currentMapSprites := [];
      w.solidTiles := map[];
      currentLoaded := None;
      currentMapName := None;
    }

    /**
     * LoadMap: unloads the current map, then decodes the file's parsed contents `md` with the
     * textures available. A failed decode drops the name and the data and returns false; the
     * division by zero escapes after the unload; a successful one records the map, appends its
     * sprites to the global list and writes its solid tiles into the global registry.
     */
    method LoadMap(w: World, fileName: string, md: Option<MapData>, textures: set<string>) returns (outcome: LoadOutcome)
      requires Valid()
      modifies this, w`allSprites, w`solidTiles, w`nextId
      ensures Valid()
      ensures outcome == Loaded <==> Loads(md)
      ensures outcome == Crashed <==>
        md.Some? && (md.value.tileMapping.Some? ==> DistinctIds(md.value.tileMapping.value)) && DividesByZero(md.value)
      ensures outcome != Loaded ==> w.nextId == old(w.nextId)
      ensures outcome == NotLoaded ==> currentMapName == None && currentLoaded == None
      ensures outcome == Loaded ==>
        && currentMapName == Some(fileName)
        && currentLoaded.Some?
        && currentLoaded.value.tiles == DecodedTiles(md.value, textures)
        && currentMapSprites == TileSprites(old(w.nextId), |currentLoaded.value.tiles|)
        && currentLoaded.value.solidTiles == SolidMap(currentLoaded.value.tiles, old(w.nextId))
        && currentLoaded.value.triggers == md.value.triggers.GetOr([])
        && w.solidTiles == (if old(HasMap()) then map[] else old(w.solidTiles)) + currentLoaded.value.solidTiles
        && w.allSprites == (if old(HasMap()) then RemoveEach(old(w.allSprites), old(currentMapSprites))
                            else old(w.allSprites)) + currentMapSprites
        && w.nextId == old(w.nextId) + |currentMapSprites|
    {
      UnloadCurrentMap(w);
      var r := LoadMapData(md, textures, w.nextId);
      assert currentMapSprites == [];
      match r {
        case Failure(e) =>
          if e == DivideByZero {
            return Crashed;
          }
          currentLoaded := None;
          currentMapName := None;
          return NotLoaded;
        case Success(loaded) =>
          currentLoaded := Some(loaded);
          currentMapName := Some(fileName);
          currentMapSprites := currentMapSprites + loaded.sprites;
          w.allSprites := w.allSprites + currentMapSprites;
          w.nextId := w.nextId + |loaded.sprites|;
          CopySolidTiles(w, loaded.solidTiles);
          return Loaded;
      }
    }

    /** GetCurrentMapData: the loaded map's data, None when no map is loaded. */
    function GetCurrentMapData(): (d: Option<LoadedMapData>)
      reads this
      requires Valid()
      ensures d.Some? <==> currentMapName.Some?
      ensures d.Some? ==> d.value.sprites == currentMapSprites
    {
      currentLoaded
    }

    /** GetCurrentTriggers: the loaded map's triggers, or an empty list without a map. */
    function GetCurrentTriggers(): (ts: seq<MapTrigger>)
      reads this
      ensures currentLoaded.None? ==> ts == []
      ensures currentLoaded.Some? ==> ts == currentLoaded.value.triggers
    {
      if currentLoaded.Some? then currentLoaded.value.triggers else []
    }
  }

  /** The backward loop of lines 70-81: Remove(mine[i]) for i from the last index down to 0. */
  method RemoveSprites(w: World, mine: seq<SpriteRef>)
    modifies w`allSprites
    ensures w.allSprites == RemoveEach(old(w.allSprites), mine)
  {
    var i := |mine|;
    while i > 0
      invariant 0 <= i <= |mine|
      invariant w.allSprites == RemoveEach(old(w.allSprites), mine[i..])
    {
      RemoveEachStep(old(w.allSprites), mine, i - 1);
      w.allSprites := RemoveFirst(w.allSprites, mine[i - 1]);
      i := i - 1;
    }
    assert mine[0..] == mine;
  }

  lemma RemoveEachStep<T>(s: seq<T>, xs: seq<T>, i: nat)
    requires i < |xs|
    ensures RemoveEach(s, xs[i..]) == RemoveFirst(RemoveEach(s, xs[i + 1..]), xs[i])
  {
    assert xs[i..][1..] == xs[i + 1..];
  }

  /** The loop of lines 49-52: each entry of `solid` is written into the global registry. */
  method CopySolidTiles(w: World, solid: map<Cell, SpriteRef>)
    modifies w`solidTiles
    ensures w.solidTiles == old(w.solidTiles) + solid
  {
    var pending := solid.Keys;
    while pending != {}
      invariant pending <= solid.Keys
      invariant w.solidTiles.Keys == old(w.solidTiles).Keys + (solid.Keys - pending)
      invariant forall c :: c in w.solidTiles ==>
        w.solidTiles[c] == if c in solid && c !in pending then solid[c] else old(w.solidTiles)[c]
      decreases pending
    {
      var c :| c in pending;
      w.solidTiles := w.solidTiles[c := solid[c]];
      pending := pending - {c};
    }
    assert w.solidTiles == old(w.solidTiles) + solid;
  }
}
