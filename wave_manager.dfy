/**
 * The wave schedule of IsometricGame/Classes/WaveManager.cs: a game clock, a spawn timer, and a
 * fixed table of waves, each a time interval with a spawn interval and a list of enemy classes.
 * GameEngine.Random is replaced by two parameters of Update: `pick`, the drawn list index, and
 * `offset`, the drawn displacement from the player (angle and distance already applied).
 */
module Waves {
  import opened Wrappers
  import opened Numerics
  import opened Engine
  import E = Enemies

  /** One row of the wave table: active while startTime <= Timer < endTime. */
  datatype WaveDef = WaveDef(startTime: real, endTime: real, spawnRate: real, enemyTypes: seq<E.EnemyKind>)

  /** InitializeWaves. */
  const Schedule: seq<WaveDef> := [
    WaveDef(0.0, 30.0, 1.0, [E.Enemy1]),
    WaveDef(30.0, 60.0, 0.8, [E.Enemy1, E.Bat]),
    WaveDef(60.0, 120.0, 0.5, [E.Enemy1, E.Bat, E.Enemy1, E.Golem]),
    WaveDef(120.0, 180.0, 0.2, [E.Bat, E.Bat, E.Golem]),
    WaveDef(180.0, 9999.0, 0.05, [E.Enemy1, E.Bat, E.Golem, E.Golem])
  ]

  predicate InWave(wave: WaveDef, t: real) {
    t >= wave.startTime && t < wave.endTime
  }

  /** The index of the first wave whose interval holds t. */
  function FirstMatching(waves: seq<WaveDef>, t: real): (r: Option<nat>)
    ensures r.Some? ==> r.value < |waves| && InWave(waves[r.value], t)
    ensures r.Some? ==> forall j :: 0 <= j < r.value ==> !InWave(waves[j], t)
    ensures r.None? ==> forall j :: 0 <= j < |waves| ==> !InWave(waves[j], t)
  {
    if waves == [] then None
    else if InWave(waves[0], t) then Some(0)
    else match FirstMatching(waves[1..], t)
      case None => None
      case Some(k) => Some(k + 1)
  }

  /** The wave Update uses at time t: the first that holds t, else the last one, else none. */
  function CurrentWave(waves: seq<WaveDef>, t: real): (w: Option<WaveDef>)
    ensures w.None? <==> waves == []
    ensures w.Some? ==> w.value in waves
  {
    match FirstMatching(waves, t)
    case Some(i) => Some(waves[i])
    case None => if |waves| > 0 then Some(waves[|waves| - 1]) else None
  }

  /**
   * The cell SpawnRandomEnemy tries: the player's position plus the drawn offset, X and Y
   * rounded half to even, Z set to 0.
   */
  function SpawnCell(playerPos: Vec3, offset: Vec2): Cell {
    Cell(RoundHalfEven(playerPos.x + offset.x), RoundHalfEven(playerPos.y + offset.y), 0)
  }

  /**
   * What SpawnRandomEnemy produces: nothing from an empty class list or on a solid cell,
   * otherwise the drawn class at the spawn cell.
   */
  function SpawnOutcome(types: seq<E.EnemyKind>, playerPos: Vec3, pick: nat, offset: Vec2,
                        solid: map<Cell, SpriteRef>): (r: Option<(E.EnemyKind, Cell)>)
    ensures r.None? <==> types == [] || SpawnCell(playerPos, offset) in solid
    ensures r.Some? ==> r.value.0 in types && r.value.1 == SpawnCell(playerPos, offset)
    ensures r.Some? ==> r.value.1.z == 0 && r.value.1 !in solid
  {
    if types == [] then None
    else
      var c := SpawnCell(playerPos, offset);
      if c in solid then None else Some((types[pick % |types|], c))
  }

  /** The enemy sprites one spawn adds to AllEnemies and AllSprites. */
  function Added(spawned: Option<(E.EnemyKind, Cell)>, id: nat): seq<SpriteRef> {
    if spawned.Some? then [SpriteRef(id, EnemyKind)] else []
  }

  class WaveManager {
    var timer: real
    var spawnTimer: real
    const waves: seq<WaveDef>

    /** A new manager: both timers at 0 and the fixed schedule. */
    constructor ()
      ensures timer == 0.0 && spawnTimer == 0.0 && waves == Schedule
    {
      timer, spawnTimer := 0.0, 0.0;
      waves := Schedule;
    }

    /**
     * Update for `dt` seconds: the clock advances and the spawn timer runs down by dt. When the
     * spawn timer has run out (<= 0) and there is a wave, the timer restarts at the wave's spawn
     * interval and one enemy of the wave is attempted; otherwise nothing else changes.
     */
    method Update(w: World, dt: real, playerPos: Vec3, pick: nat, offset: Vec2)
      returns (spawned: Option<(E.EnemyKind, Cell)>)
      modifies this`timer, this`spawnTimer, w`allEnemies, w`allSprites, w`nextId
      ensures timer == old(timer) + dt
      ensures var wave := CurrentWave(waves, timer);
        spawnTimer == if old(spawnTimer) - dt <= 0.0 && wave.Some? then wave.value.spawnRate
                      else old(spawnTimer) - dt
      ensures var wave := CurrentWave(waves, timer);
        spawned == if old(spawnTimer) - dt <= 0.0 && wave.Some?
                   then SpawnOutcome(wave.value.enemyTypes, playerPos, pick, offset, w.solidTiles)
                   else None
      ensures w.allEnemies == old(w.allEnemies) + Added(spawned, old(w.nextId))
      ensures w.allSprites == old(w.allSprites) + Added(spawned, old(w.nextId))
      ensures w.nextId == old(w.nextId) + |Added(spawned, old(w.nextId))|
    {
      timer := timer + dt;
      spawnTimer := spawnTimer - dt;
      var current := SelectWave();
      spawned := None;
      if current.None? {
        return;
      }
      if spawnTimer <= 0.0 {
        spawnTimer := current.value.spawnRate;
        spawned := SpawnRandomEnemy(w, current.value.enemyTypes, playerPos, pick, offset);
      }
    }

    /** The wave search of Update: the first wave holding the clock, else the last wave. */
    method SelectWave() returns (current: Option<WaveDef>)
      ensures current == CurrentWave(waves, timer)
    {
      current := None;
      var i := 0;
      while i < |waves|
        invariant 0 <= i <= |waves|
        invariant forall j :: 0 <= j < i ==> !InWave(waves[j], timer)
      {
        if timer >= waves[i].startTime && timer < waves[i].endTime {
          current := Some(waves[i]);
          break;
        }
        i := i + 1;
      }
      if current.None? && |waves| > 0 {
        current := Some(waves[|waves| - 1]);
      }
    }
  }

  /**
   * SpawnRandomEnemy: an empty list spawns nothing; otherwise the drawn class is created at the
   * spawn cell unless that cell is solid, and added to AllEnemies and AllSprites.
   */
  method SpawnRandomEnemy(w: World, types: seq<E.EnemyKind>, playerPos: Vec3, pick: nat, offset: Vec2)
    returns (spawned: Option<(E.EnemyKind, Cell)>)
    modifies w`allEnemies, w`allSprites, w`nextId
    ensures spawned == SpawnOutcome(types, playerPos, pick, offset, w.solidTiles)
    ensures w.allEnemies == old(w.allEnemies) + Added(spawned, old(w.nextId))
    ensures w.allSprites == old(w.allSprites) + Added(spawned, old(w.nextId))
    ensures w.nextId == old(w.nextId) + |Added(spawned, old(w.nextId))|
  {
    if |types| == 0 {
      return None;
    }
    var typeToSpawn := types[pick % |types|];
    var spawnPos := SpawnCell(playerPos, offset);
    if spawnPos !in w.solidTiles {
      var enemy := w.NewSprite(EnemyKind);
      w.allEnemies := w.allEnemies + [enemy];
      w.allSprites := w.allSprites + [enemy];
      return Some((typeToSpawn, spawnPos));
    }
    return None;
  }

  /** Each wave's interval is non-empty and ends where the next one starts. */
  predicate Contiguous(waves: seq<WaveDef>) {
    && (forall i :: 0 <= i < |waves| ==> waves[i].startTime < waves[i].endTime)
    && (forall i :: 0 <= i < |waves| - 1 ==> waves[i].endTime == waves[i + 1].startTime)
  }

  /**
   * The table covers [0, 9999) without gaps or overlaps, in order, with strictly decreasing
   * positive spawn intervals, and every wave has at least one enemy class.
   */
  lemma ScheduleShape()
    ensures Contiguous(Schedule)
    ensures Schedule[0].startTime == 0.0 && Schedule[|Schedule| - 1].endTime == 9999.0
    ensures forall i :: 0 <= i < |Schedule| - 1 ==> Schedule[i].spawnRate > Schedule[i + 1].spawnRate
    ensures forall i :: 0 <= i < |Schedule| ==> Schedule[i].spawnRate > 0.0
    ensures forall i :: 0 <= i < |Schedule| ==> Schedule[i].enemyTypes != []
  {
  }

  /** In a contiguous table an earlier wave ends no later than a later one starts. */
  lemma {:induction false} EndsBeforeStart(waves: seq<WaveDef>, j: nat, i: nat)
    requires Contiguous(waves) && j < i < |waves|
    ensures waves[j].endTime <= waves[i].startTime
    decreases i - j
  {
    if j + 1 < i {
      EndsBeforeStart(waves, j + 1, i);
      assert waves[j + 1].startTime < waves[j + 1].endTime;
    }
  }

  /** In a contiguous table, the wave whose interval holds t is the one Update picks. */
  lemma WaveAt(waves: seq<WaveDef>, t: real, i: nat)
    requires Contiguous(waves) && i < |waves| && InWave(waves[i], t)
    ensures CurrentWave(waves, t) == Some(waves[i])
  {
    var r := FirstMatching(waves, t);
    if r.value < i {
      EndsBeforeStart(waves, r.value, i);
    }
  }

  /**
   * Outside a contiguous table's span (before the first start or from the last end on), Update
   * falls back to the last wave.
   */
  lemma WaveOutside(waves: seq<WaveDef>, t: real)
    requires Contiguous(waves) && waves != []
    requires t < waves[0].startTime || t >= waves[|waves| - 1].endTime
    ensures CurrentWave(waves, t) == Some(waves[|waves| - 1])
  {
    forall j | 0 <= j < |waves|
      ensures !InWave(waves[j], t)
    {
      if 0 < j {
        EndsBeforeStart(waves, 0, j);
      }
      if j < |waves| - 1 {
        EndsBeforeStart(waves, j, |waves| - 1);
      }
    }
  }

  /** With the fixed schedule, a due spawn on a free cell always creates an enemy. */
  lemma ScheduleAlwaysSpawns(t: real, playerPos: Vec3, pick: nat, offset: Vec2, solid: map<Cell, SpriteRef>)
    requires SpawnCell(playerPos, offset) !in solid
    ensures CurrentWave(Schedule, t).Some?
    ensures SpawnOutcome(CurrentWave(Schedule, t).value.enemyTypes, playerPos, pick, offset, solid).Some?
  {
    ScheduleShape();
  }
}
