/**
 * The map file records of IsometricGame/Map/MapData.cs, as plain values. A JSON list that may
 * be missing is an Option; a missing string (TargetMap) reads as the empty string, which the
 * game treats the same way.
 */
module MapData {
  import opened Wrappers
  import opened Numerics

  datatype TileMappingEntry = TileMappingEntry(id: int, assetName: string, solid: bool)

  datatype MapLayer = MapLayer(name: string, zLevel: int, data: Option<seq<int>>)

  /** The default activation radius of a trigger. */
  const DefaultTriggerRadius: real := 0.5

  datatype MapTrigger = MapTrigger(id: string, position: Vec3, targetMap: string, targetPosition: Vec3, radius: real)

  datatype MapData = MapData(
    width: int,
    height: int,
    tileMapping: Option<seq<TileMappingEntry>>,
    layers: Option<seq<MapLayer>>,
    triggers: Option<seq<MapTrigger>>)
}
