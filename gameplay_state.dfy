/**
 * The simulation part of IsometricGame/Classes/States/GameplayState.cs: the fade-out / map swap /
 * fade-in state machine of map transitions, trigger activation, the sweep that takes removed
 * sprites out of the global lists, the clearing of enemies and bullets before a swap, and the
 * acceptance rule for enemy spawn positions. The random spawn draws, the parsed contents of the
 * target map file and the elapsed time are parameters.
 */
module Gameplay {
  import opened Wrappers
  import opened Numerics
  import opened Engine
  import opened MapData
  import MM = MapManager
  import MapLoader
  import opened Players

  datatype TransitionState = Idle | FadingOut | FadingIn

  /** The screens GameplayState hands over to through NextState. */
  datatype ScreenName = Menu | Pause | GameOver

  const FadeSpeed: real := 1.5
  /** How close in Z the player must be to a trigger, in levels. */
  const TriggerZTolerance: real := 0.1
  /** A spawn must be farther than this from the player. */
  const SpawnClearance: real := 5.0
  const SpawnAttempts: nat := 50

  // ---------------------------------------------------------------------------------------------
  // Trigger activation

  /**
   * A trigger fires for a player at `p` when it names a target map, the player is within its
   * radius on the XY plane, and the player's Z is within 0.1 of the trigger's.
   */
  predicate Activates(t: MapTrigger, p: Vec3) {
    && t.targetMap != ""
    && DistSq(Vec2(p.x, p.y), Vec2(t.position.x, t.position.y)) <= t.radius * t.radius
    && Abs(p.z - t.position.z) < TriggerZTolerance
  }

  /** The index of the first trigger that fires, if any. */
  function FirstActive(ts: seq<MapTrigger>, p: Vec3): (r: Option<nat>)
    ensures r.Some? ==> r.value < |ts| && Activates(ts[r.value], p)
    ensures r.Some? ==> forall j :: 0 <= j < r.value ==> !Activates(ts[j], p)
    ensures r.None? ==> forall j :: 0 <= j < |ts| ==> !Activates(ts[j], p)
  {
    if ts == [] then None
    else if Activates(ts[0], p) then Some(0)
    else match FirstActive(ts[1..], p)
      case None => None
      case Some(k) => Some(k + 1)
  }

  /** The trigger loop of CheckForMapTransition: the index of the first trigger that fires. */
  method FindActiveTrigger(triggers: seq<MapTrigger>, p: Vec3) returns (found: Option<nat>)
    ensures found == FirstActive(triggers, p)
  {
    var i := 0;
    while i < |triggers|
      invariant 0 <= i <= |triggers|
      invariant forall j :: 0 <= j < i ==> !Activates(triggers[j], p)
    {
      var fires := TriggerFires(triggers[i], p);
      if fires {
        return Some(i);
      }
      i := i + 1;
    }
    return None;
  }

  /** The test in the trigger loop's body. */
  method TriggerFires(trigger: MapTrigger, p: Vec3) returns (fires: bool)
    ensures fires == Activates(trigger, p)
  {
    fires := false;
    if trigger.targetMap != "" {
      var distanceSq := DistSq(Vec2(p.x, p.y), Vec2(trigger.position.x, trigger.position.y));
      var radiusSq := trigger.radius * trigger.radius;
      if distanceSq <= radiusSq && Abs(p.z - trigger.position.z) < TriggerZTolerance {
        fires := true;
      }
    }
  }

  // ---------------------------------------------------------------------------------------------
  // Sprite sweeps

  /** `sprite is EnemyBase || sprite is Bullet`. */
  predicate IsDynamic(s: SpriteRef) {
    s.kind == EnemyKind || s.kind == BulletKind
  }

  predicate IsStatic(s: SpriteRef) {
    !IsDynamic(s)
  }

  predicate NotEnemy(s: SpriteRef) {
    s.kind != EnemyKind
  }

  /** The enemies and bullets of a sprite list. */
  ghost function DynamicIn(s: seq<SpriteRef>): set<SpriteRef> {
    set x | x in s && IsDynamic(x)
  }

  /**
   * RemoveAll(s => s.IsRemoved && s != spare): keeps, in order, exactly the sprites that are not
   * removed or are the spared one.
   */
  function Sweep(s: seq<SpriteRef>, removed: set<SpriteRef>, spare: Option<SpriteRef>): (r: seq<SpriteRef>)
    ensures |r| <= |s|
    ensures forall x :: x in r <==> x in s && (x !in removed || spare == Some(x))
  {
    FilterMembers(s, x => x !in removed || spare == Some(x));
    Filter(s, x => x !in removed || spare == Some(x))
  }

  /** Taking one more element at the front of a suffix. */
  lemma FilterStep(all: seq<SpriteRef>, i: nat)
    requires i < |all|
    ensures Filter(all[i..], IsStatic) == (if IsStatic(all[i]) then [all[i]] else []) + Filter(all[i + 1..], IsStatic)
  {
    assert all[i..][1..] == all[i + 1..];
  }

  lemma DynamicStep(all: seq<SpriteRef>, i: nat)
    requires i < |all|
    ensures DynamicIn(all[i..]) == DynamicIn(all[i + 1..]) + (if IsDynamic(all[i]) then {all[i]} else {})
  {
    assert all[i..] == [all[i]] + all[i + 1..];
  }

  /** The identities of `count` sprites of one kind created in a row from firstId. */
  function NewRefs(firstId: nat, count: nat, kind: SpriteKind): (s: seq<SpriteRef>)
    ensures |s| == count
  {
    if count == 0 then [] else NewRefs(firstId, count - 1, kind) + [SpriteRef(firstId + count - 1, kind)]
  }

  /** The k-th new sprite gets identity firstId + k. */
  lemma {:induction false} NewRefsIds(firstId: nat, count: nat, kind: SpriteKind)
    ensures forall k :: 0 <= k < count ==> NewRefs(firstId, count, kind)[k] == SpriteRef(firstId + k, kind)
  {
    if count > 0 {
      NewRefsIds(firstId, count - 1, kind);
    }
  }

  // ---------------------------------------------------------------------------------------------
  // Spawn acceptance

  /**
   * A drawn cell (x, y) at level 0 is accepted when there is no player or it is farther than 5
   * from the player (Vector2.Distance > 5, compared here as the squared distance > 25), and
   * neither the cell nor the cell above it is solid.
   */
  predicate SpawnAccepted(c: (int, int), playerPos: Option<Vec2>, solid: map<Cell, SpriteRef>): (b: bool)
    ensures b && playerPos.Some? ==> Vec2(c.0 as real, c.1 as real) != playerPos.value
    ensures b ==> Cell(c.0, c.1, 0) !in solid && Cell(c.0, c.1, 1) !in solid
  {
    && (playerPos.None? || DistSq(Vec2(c.0 as real, c.1 as real), playerPos.value) > SpawnClearance * SpawnClearance)
    && Cell(c.0, c.1, 0) !in solid
    && Cell(c.0, c.1, 1) !in solid
  }

  /** The index of the first accepted draw among one enemy's attempts. */
  function FirstAccepted(tries: seq<(int, int)>, playerPos: Option<Vec2>, solid: map<Cell, SpriteRef>): (r: Option<nat>)
    ensures r.Some? ==> r.value < |tries| && SpawnAccepted(tries[r.value], playerPos, solid)
    ensures r.Some? ==> forall j :: 0 <= j < r.value ==> !SpawnAccepted(tries[j], playerPos, solid)
    ensures r.None? ==> forall j :: 0 <= j < |tries| ==> !SpawnAccepted(tries[j], playerPos, solid)
  {
    if tries == [] then None
    else if SpawnAccepted(tries[0], playerPos, solid) then Some(0)
    else match FirstAccepted(tries[1..], playerPos, solid)
      case None => None
      case Some(k) => Some(k + 1)
  }

  /** The cell one enemy ends up at, if any of its attempts is accepted. */
  function Chosen(tries: seq<(int, int)>, playerPos: Option<Vec2>, solid: map<Cell, SpriteRef>): seq<(int, int)> {
    match FirstAccepted(tries, playerPos, solid)
    case None => []
    case Some(k) => [tries[k]]
  }

  /** The cells enemies are spawned at, one draw list per enemy, in order. */
  function Spawns(draws: seq<seq<(int, int)>>, playerPos: Option<Vec2>, solid: map<Cell, SpriteRef>): (r: seq<(int, int)>)
    ensures |r| <= |draws|
  {
    if draws == [] then []
    else Spawns(draws[..|draws| - 1], playerPos, solid) + Chosen(draws[|draws| - 1], playerPos, solid)
  }

  /** Every enemy is placed on a cell that passed the acceptance test. */
  lemma {:induction false} SpawnsAccepted(draws: seq<seq<(int, int)>>, playerPos: Option<Vec2>, solid: map<Cell, SpriteRef>)
    ensures forall c :: c in Spawns(draws, playerPos, solid) ==> SpawnAccepted(c, playerPos, solid)
  {
    if draws != [] {
      SpawnsAccepted(draws[..|draws| - 1], playerPos, solid);
    }
  }

  /** The inner attempt loop: the first accepted draw, or none after 50 attempts. */
  method FindSpawn(tries: seq<(int, int)>, playerPos: Option<Vec2>, solid: map<Cell, SpriteRef>) returns (pos: seq<(int, int)>)
    requires |tries| == SpawnAttempts
    ensures pos == Chosen(tries, playerPos, solid)
  {
    var attempts := 0;
    var found := false;
    pos := [];
    while attempts < SpawnAttempts && !found
      invariant 0 <= attempts <= SpawnAttempts
      invariant !found ==> pos == [] && forall j :: 0 <= j < attempts ==> !SpawnAccepted(tries[j], playerPos, solid)
      invariant found ==> 1 <= attempts && pos == [tries[attempts - 1]] && SpawnAccepted(tries[attempts - 1], playerPos, solid)
      invariant found ==> forall j :: 0 <= j < attempts - 1 ==> !SpawnAccepted(tries[j], playerPos, solid)
    {
      if SpawnAccepted(tries[attempts], playerPos, solid) {
        found := true;
        pos := [tries[attempts]];
      }
      attempts := attempts + 1;
    }
  }

  /** The fade alpha after one FadingIn step: down by fadeSpeed * dt, clamped at 0. */
  function FadedIn(alpha: real, dt: real): real {
    if alpha - FadeSpeed * dt <= 0.0 then 0.0 else alpha - FadeSpeed * dt
  }

  class GameplayState {
    const mapManager: MM.MapManager
    var transitionState: TransitionState
    /** 0 is transparent, 1 is an opaque black screen. */
    var fadeAlpha: real
    var isTransitioning: bool
    var pendingTrigger: Option<MapTrigger>
    var isDone: bool
    var nextState: Option<ScreenName>

    /**
     * The transition flags agree: the game logic is blocked exactly while a fade runs, a trigger
     * is pending exactly while fading out, and the fade is clear whenever no transition runs.
     */
    ghost predicate Valid()
      reads this, mapManager
    {
      && mapManager.Valid()
      && (isTransitioning <==> transitionState != Idle)
      && (pendingTrigger.Some? <==> transitionState == FadingOut)
      && 0.0 <= fadeAlpha <= 1.0
      && (transitionState == Idle ==> fadeAlpha == 0.0)
    }

    /** The constructor and Start: a fresh map manager, no transition, clear screen. */
    constructor ()
      ensures Valid() && fresh(mapManager)
      ensures transitionState == Idle && fadeAlpha == 0.0 && !isTransitioning && pendingTrigger == None
      ensures !isDone && nextState == None
      ensures mapManager.currentMapName == None
    {
      mapManager := new MM.MapManager();
      transitionState, fadeAlpha, isTransitioning, pendingTrigger := Idle, 0.0, false, None;
      isDone, nextState := false, None;
    }

    /**
     * InitiateMapTransition: ignored while a transition runs; otherwise it blocks the game
     * logic, keeps the trigger and starts fading out from max(0, alpha), which is always 0 here.
     */
    method InitiateMapTransition(trigger: MapTrigger)
      requires Valid()
      modifies this
      ensures Valid()
      ensures old(isTransitioning) ==>
        && transitionState == old(transitionState) && fadeAlpha == old(fadeAlpha)
        && pendingTrigger == old(pendingTrigger) && isTransitioning
      ensures !old(isTransitioning) ==>
        && isTransitioning && pendingTrigger == Some(trigger) && transitionState == FadingOut
        && fadeAlpha == Max(0.0, old(fadeAlpha)) == 0.0
      ensures isDone == old(isDone) && nextState == old(nextState)
    {
      if isTransitioning {
        return;
      }
      isTransitioning := true;
      pendingTrigger := Some(trigger);
      transitionState := FadingOut;
      fadeAlpha := Max(0.0, fadeAlpha);
    }

    /**
     * CheckForMapTransition for the player at `playerPos` (None when there is no player or it
     * is removed): nothing happens during a transition or without a player; otherwise the first
     * trigger of the current map that fires starts a transition and the later ones are ignored.
     */
    method CheckForMapTransition(playerPos: Option<Vec3>)
      requires Valid()
      modifies this
      ensures Valid()
      ensures old(isTransitioning) || playerPos.None? ||
              FirstActive(mapManager.GetCurrentTriggers(), playerPos.value).None? ==>
        && transitionState == old(transitionState) && fadeAlpha == old(fadeAlpha)
        && pendingTrigger == old(pendingTrigger) && isTransitioning == old(isTransitioning)
      ensures !old(isTransitioning) && playerPos.Some? ==>
        var ts := mapManager.GetCurrentTriggers();
        FirstActive(ts, playerPos.value).Some? ==>
          && isTransitioning && transitionState == FadingOut && fadeAlpha == 0.0
          && pendingTrigger == Some(ts[FirstActive(ts, playerPos.value).value])
      ensures isDone == old(isDone) && nextState == old(nextState)
    {
      if isTransitioning || playerPos.None? {
        return;
      }
      var p := playerPos.value;
      var triggers := mapManager.GetCurrentTriggers();
      if |triggers| == 0 {
        return;
      }
      var found := FindActiveTrigger(triggers, p);
      if found.Some? {
        InitiateMapTransition(triggers[found.value]);
      }
    }

    /**
     * UpdateTransition for `dt` seconds. Idle: nothing. FadingIn: alpha falls by 1.5 * dt and,
     * on reaching 0, the transition ends. FadingOut: alpha rises by 1.5 * dt; on reaching 1 it
     * is clamped and the map is swapped (SwapMap). `md` is the parsed content of the pending
     * trigger's target map file; `crashed` reports the division by zero that escapes the loader.
     */
    method UpdateTransition(w: World, p: Player, dt: real, md: Option<MapData>, textures: set<string>,
                            level: int, draws: seq<seq<(int, int)>>)
      returns (crashed: bool)
      requires Valid() && dt >= 0.0
      requires w.player.Some? ==> w.player.value == p.self && p.self.kind == PlayerKind
      requires |draws| == Max0(level * 3)
      requires forall i :: 0 <= i < |draws| ==> |draws[i]| == SpawnAttempts
      modifies this, mapManager, w`allSprites, w`solidTiles, w`nextId, w`allEnemies, w`playerBullets,
        w`enemyBullets, w`removed, p`position, p`velocity
      ensures Valid()
      ensures old(transitionState) == Idle ==> !crashed && transitionState == Idle && fadeAlpha == 0.0
      ensures old(transitionState) == FadingIn ==>
        && !crashed
        && fadeAlpha == FadedIn(old(fadeAlpha), dt)
        && (transitionState == Idle <==> fadeAlpha == 0.0)
        && (transitionState != Idle ==> transitionState == FadingIn)
      ensures old(transitionState) == FadingOut && old(fadeAlpha) + FadeSpeed * dt < 1.0 ==>
        && !crashed && transitionState == FadingOut && fadeAlpha == old(fadeAlpha) + FadeSpeed * dt
        && pendingTrigger == old(pendingTrigger)
      ensures old(transitionState) == FadingOut && old(fadeAlpha) + FadeSpeed * dt >= 1.0 ==>
        && (crashed <==> md.Some? && (md.value.tileMapping.Some? ==> MapLoader.DistinctIds(md.value.tileMapping.value))
                         && MapLoader.DividesByZero(md.value))
        && (!crashed && MapLoader.Loads(md) ==>
              transitionState == FadingIn && fadeAlpha == 1.0 && pendingTrigger == None
              && mapManager.currentMapName == Some(old(pendingTrigger).value.targetMap))
        && (!crashed && !MapLoader.Loads(md) ==>
              transitionState == Idle && fadeAlpha == 0.0 && isDone && nextState == Some(Menu))
      ensures old(transitionState) != FadingOut ==> unchanged(w) && unchanged(p) && unchanged(mapManager)
      ensures !(old(transitionState) == FadingOut && old(fadeAlpha) + FadeSpeed * dt >= 1.0 && !MapLoader.Loads(md)) ==>
        isDone == old(isDone) && nextState == old(nextState)
    {
      crashed := false;
      if transitionState == FadingOut {
        fadeAlpha := fadeAlpha + FadeSpeed * dt;
        if fadeAlpha >= 1.0 {
          fadeAlpha := 1.0;
          crashed := SwapMap(w, p, md, textures, level, draws);
        }
      } else if transitionState == FadingIn {
        fadeAlpha := fadeAlpha - FadeSpeed * dt;
        if fadeAlpha <= 0.0 {
          fadeAlpha := 0.0;
          transitionState := Idle;
          isTransitioning := false;
        }
      }
    }

    /**
     * The map swap at full black: enemies and bullets are cleared and the target map loaded. On
     * success a live player is moved to the trigger's target position (X and Y; the player is
     * two-dimensional) and stopped, put back into the sprite list if missing, enemies are spawned
     * and the fade-in starts. On failure the game goes to the menu and the fade is reset.
     */
    method SwapMap(w: World, p: Player, md: Option<MapData>, textures: set<string>,
                   level: int, draws: seq<seq<(int, int)>>)
      returns (crashed: bool)
      requires Valid() && transitionState == FadingOut && fadeAlpha == 1.0
      requires w.player.Some? ==> w.player.value == p.self && p.self.kind == PlayerKind
      requires |draws| == Max0(level * 3)
      requires forall i :: 0 <= i < |draws| ==> |draws[i]| == SpawnAttempts
      modifies this, mapManager, w`allSprites, w`solidTiles, w`nextId, w`allEnemies, w`playerBullets,
        w`enemyBullets, w`removed, p`position, p`velocity
      ensures Valid()
      ensures crashed <==> md.Some? && (md.value.tileMapping.Some? ==> MapLoader.DistinctIds(md.value.tileMapping.value))
                           && MapLoader.DividesByZero(md.value)
      ensures crashed ==> transitionState == FadingOut && pendingTrigger == old(pendingTrigger)
      ensures !crashed && MapLoader.Loads(md) ==>
        && transitionState == FadingIn && fadeAlpha == 1.0 && pendingTrigger == None
        && mapManager.currentMapName == Some(old(pendingTrigger).value.targetMap)
        && (old(w.player).Some? && old(w.player).value !in old(w.removed) ==>
              p.position == Vec2(old(pendingTrigger).value.targetPosition.x, old(pendingTrigger).value.targetPosition.y)
              && p.velocity == Zero2 && p.self in w.allSprites)
      ensures !crashed && !MapLoader.Loads(md) ==>
        transitionState == Idle && fadeAlpha == 0.0 && isDone && nextState == Some(Menu)
      ensures !(!crashed && !MapLoader.Loads(md)) ==> isDone == old(isDone) && nextState == old(nextState)
    {
      var trigger := pendingTrigger.value;
      ghost var live := w.player.Some? && w.player.value !in w.removed;
      ClearDynamicEntities(w);
      assert live <==> w.player.Some? && w.player.value !in w.removed by {
        assert w.player.Some? ==> !IsDynamic(w.player.value);
      }
      var outcome := mapManager.LoadMap(w, trigger.targetMap, md, textures);
      if outcome == MM.Crashed {
        return true;
      }
      if outcome == MM.NotLoaded {
        ReturnToMenu();
        return false;
      }
      EnterMap(w, p, trigger.targetPosition, level, draws);
      return false;
    }

    /**
     * The successful end of the swap: the live player is placed at `target`, enemies are spawned
     * and the fade-in starts.
     */
    method EnterMap(w: World, p: Player, target: Vec3, level: int, draws: seq<seq<(int, int)>>)
      requires Valid() && transitionState == FadingOut
      requires w.player.Some? ==> w.player.value == p.self && p.self.kind == PlayerKind
      requires |draws| == Max0(level * 3)
      requires forall i :: 0 <= i < |draws| ==> |draws[i]| == SpawnAttempts
      modifies this`pendingTrigger, this`transitionState, w`allSprites, w`allEnemies, w`nextId,
        p`position, p`velocity
      ensures Valid() && transitionState == FadingIn && pendingTrigger == None
      ensures w.player.Some? && w.player.value !in w.removed ==>
        p.position == Vec2(target.x, target.y) && p.velocity == Zero2 && p.self in w.allSprites
    {
      PlacePlayer(w, p, target);
      ghost var live := w.player.Some? && w.player.value !in w.removed;
      ghost var kept := w.allSprites;
      assert live ==> p.self in kept && NotEnemy(p.self);
      var _ := SpawnEnemies(w, p, level, draws);
      FilterMembers(kept, NotEnemy);
      assert live ==> p.self in w.allSprites;
      pendingTrigger := None;
      transitionState := FadingIn;
    }

    /** A failed load: the game goes to the menu and the transition is reset. */
    method ReturnToMenu()
      requires mapManager.Valid()
      modifies this`isDone, this`nextState, this`transitionState, this`isTransitioning,
        this`pendingTrigger, this`fadeAlpha
      ensures Valid()
      ensures transitionState == Idle && fadeAlpha == 0.0 && isDone && nextState == Some(Menu)
    {
      isDone := true;
      nextState := Some(Menu);
      transitionState := Idle;
      isTransitioning := false;
      pendingTrigger := None;
      fadeAlpha := 0.0;
    }

    /**
     * SpawnEnemies: the enemies left are taken out of both lists, then for each of level * 3
     * enemies up to 50 random cells are drawn and the first accepted one gets a new Enemy1.
     */
    method SpawnEnemies(w: World, p: Player, level: int, draws: seq<seq<(int, int)>>) returns (spawned: seq<(int, int)>)
      requires |draws| == Max0(level * 3)
      requires forall i :: 0 <= i < |draws| ==> |draws[i]| == SpawnAttempts
      modifies w`allEnemies, w`allSprites, w`nextId
      ensures var playerPos := if w.player.Some? then Some(p.position) else None;
        spawned == Spawns(draws, playerPos, w.solidTiles)
      ensures w.allEnemies == NewRefs(old(w.nextId), |spawned|, EnemyKind)
      ensures w.allSprites == Filter(old(w.allSprites), NotEnemy) + w.allEnemies
      ensures w.nextId == old(w.nextId) + |spawned|
    {
      w.allEnemies := [];
      w.allSprites := Filter(w.allSprites, NotEnemy);
      var playerPos := if w.player.Some? then Some(p.position) else None;
      spawned := SpawnAll(w, draws, playerPos);
    }
  }

  /** The spawn loop of SpawnEnemies, one pass per enemy to place. */
  method SpawnAll(w: World, draws: seq<seq<(int, int)>>, playerPos: Option<Vec2>) returns (spawned: seq<(int, int)>)
    requires w.allEnemies == []
    requires forall i :: 0 <= i < |draws| ==> |draws[i]| == SpawnAttempts
    modifies w`allEnemies, w`allSprites, w`nextId
    ensures spawned == Spawns(draws, playerPos, w.solidTiles)
    ensures w.allEnemies == NewRefs(old(w.nextId), |spawned|, EnemyKind)
    ensures w.allSprites == old(w.allSprites) + w.allEnemies
    ensures w.nextId == old(w.nextId) + |spawned|
  {
    ghost var base := w.allSprites;
    ghost var firstId := w.nextId;
    var solid := w.solidTiles;
    spawned := [];
    for i := 0 to |draws|
      invariant spawned == Spawns(draws[..i], playerPos, solid)
      invariant w.allEnemies == NewRefs(firstId, |spawned|, EnemyKind)
      invariant w.allSprites == base + w.allEnemies
      invariant w.nextId == firstId + |spawned|
    {
      spawned := SpawnOne(w, draws, i, playerPos, solid, spawned, firstId, base);
    }
    assert draws[..|draws|] == draws;
  }

  lemma SpawnsNext(draws: seq<seq<(int, int)>>, i: nat, playerPos: Option<Vec2>, solid: map<Cell, SpriteRef>)
    requires i < |draws|
    ensures Spawns(draws[..i + 1], playerPos, solid) == Spawns(draws[..i], playerPos, solid) + Chosen(draws[i], playerPos, solid)
  {
    assert draws[..i + 1][..i] == draws[..i];
  }

  lemma NewRefsNext(firstId: nat, n: nat, kind: SpriteKind)
    ensures NewRefs(firstId, n + 1, kind) == NewRefs(firstId, n, kind) + [SpriteRef(firstId + n, kind)]
  {
  }

  /**
   * A live player is moved to the X and Y of `target` (the player is two-dimensional), stopped,
   * and put back into the sprite list if missing; without a live player nothing changes.
   */
  method PlacePlayer(w: World, p: Player, target: Vec3)
    requires w.player.Some? ==> w.player.value == p.self
    modifies w`allSprites, p`position, p`velocity
    ensures w.player.Some? && w.player.value !in w.removed ==>
      p.position == Vec2(target.x, target.y) && p.velocity == Zero2 && p.self in w.allSprites
      && w.allSprites == old(w.allSprites) + (if p.self in old(w.allSprites) then [] else [p.self])
    ensures !(w.player.Some? && w.player.value !in w.removed) ==>
      p.position == old(p.position) && p.velocity == old(p.velocity) && w.allSprites == old(w.allSprites)
  {
    if w.player.Some? && w.player.value !in w.removed {
      p.position := Vec2(target.x, target.y);
      p.velocity := Zero2;
      if w.player.value !in w.allSprites {
        w.allSprites := w.allSprites + [w.player.value];
      }
    }
  }

  /**
   * One pass of SpawnEnemies' loop, for enemy i: find a cell among its draws and, if one is
   * found, spawn there.
   */
  method SpawnOne(w: World, draws: seq<seq<(int, int)>>, i: nat, playerPos: Option<Vec2>,
                  solid: map<Cell, SpriteRef>, spawned: seq<(int, int)>,
                  ghost firstId: nat, ghost base: seq<SpriteRef>)
    returns (spawned': seq<(int, int)>)
    requires i < |draws| && |draws[i]| == SpawnAttempts
    requires spawned == Spawns(draws[..i], playerPos, solid)
    requires w.allEnemies == NewRefs(firstId, |spawned|, EnemyKind) && w.allSprites == base + w.allEnemies
    requires w.nextId == firstId + |spawned|
    modifies w`allEnemies, w`allSprites, w`nextId
    ensures spawned' == Spawns(draws[..i + 1], playerPos, solid)
    ensures w.allEnemies == NewRefs(firstId, |spawned'|, EnemyKind) && w.allSprites == base + w.allEnemies
    ensures w.nextId == firstId + |spawned'|
  {
    var pos := FindSpawn(draws[i], playerPos, solid);
    SpawnsNext(draws, i, playerPos, solid);
    spawned' := spawned + pos;
    if pos != [] {
      NewRefsNext(firstId, |spawned|, EnemyKind);
      SpawnEnemy(w);
    }
  }

  /** SpawnEnemy(typeof(Enemy1), pos): a new enemy added to AllEnemies and AllSprites. */
  method SpawnEnemy(w: World)
    modifies w`allEnemies, w`allSprites, w`nextId
    ensures w.allEnemies == old(w.allEnemies) + [SpriteRef(old(w.nextId), EnemyKind)]
    ensures w.allSprites == old(w.allSprites) + [SpriteRef(old(w.nextId), EnemyKind)]
    ensures w.nextId == old(w.nextId) + 1
  {
    var enemy := w.NewSprite(EnemyKind);
    w.allEnemies := w.allEnemies + [enemy];
    w.allSprites := w.allSprites + [enemy];
  }

  /**
   * ClearDynamicEntities: walking AllSprites backwards, every enemy and bullet is killed and
   * removed; then the enemy list and both bullet lists are emptied.
   */
  method ClearDynamicEntities(w: World)
    modifies w`allSprites, w`allEnemies, w`playerBullets, w`enemyBullets, w`removed
    ensures w.allSprites == Filter(old(w.allSprites), IsStatic)
    ensures w.removed == old(w.removed) + DynamicIn(old(w.allSprites))
    ensures w.allEnemies == [] && w.playerBullets == [] && w.enemyBullets == []
  {
    ghost var all := w.allSprites;
    var i := |w.allSprites|;
    while i > 0
      invariant 0 <= i <= |all|
      invariant w.allSprites == all[..i] + Filter(all[i..], IsStatic)
      invariant w.removed == old(w.removed) + DynamicIn(all[i..])
    {
      i := i - 1;
      RemoveIfDynamic(w, i, all, old(w.removed));
    }
    assert all[0..] == all;
    w.allEnemies := [];
    w.playerBullets := [];
    w.enemyBullets := [];
  }

  /** The body of ClearDynamicEntities' loop at index i: an enemy or bullet there is killed and removed. */
  method RemoveIfDynamic(w: World, i: nat, ghost all: seq<SpriteRef>, ghost removed0: set<SpriteRef>)
    requires i < |all|
    requires w.allSprites == all[..i + 1] + Filter(all[i + 1..], IsStatic)
    requires w.removed == removed0 + DynamicIn(all[i + 1..])
    modifies w`allSprites, w`removed
    ensures w.allSprites == all[..i] + Filter(all[i..], IsStatic)
    ensures w.removed == removed0 + DynamicIn(all[i..])
  {
    DynamicStep(all, i);
    RemoveAtStep(all, i, w.allSprites);
    var sprite := w.allSprites[i];
    if IsDynamic(sprite) {
      w.Kill(sprite);
      w.allSprites := w.allSprites[..i] + w.allSprites[i + 1..];
    }
  }

  /** One step of the backward removal loop, on the list as it stands at index i. */
  lemma RemoveAtStep(all: seq<SpriteRef>, i: nat, cur: seq<SpriteRef>)
    requires i < |all| && cur == all[..i + 1] + Filter(all[i + 1..], IsStatic)
    ensures i < |cur| && cur[i] == all[i]
    ensures IsDynamic(all[i]) ==> cur[..i] + cur[i + 1..] == all[..i] + Filter(all[i..], IsStatic)
    ensures !IsDynamic(all[i]) ==> cur == all[..i] + Filter(all[i..], IsStatic)
  {
    FilterStep(all, i);
    var rest := Filter(all[i + 1..], IsStatic);
    assert cur[..i] == all[..i];
    assert cur[i + 1..] == rest;
    assert all[..i + 1] == all[..i] + [all[i]];
  }

  /**
   * CleanupSprites: removed sprites leave AllSprites except the player, removed entries leave the
   * enemy and bullet lists, and a removed player is dropped from the Player reference (but stays
   * in AllSprites).
   */
  method CleanupSprites(w: World)
    modifies w`allSprites, w`allEnemies, w`playerBullets, w`enemyBullets, w`player
    ensures w.allSprites == Sweep(old(w.allSprites), w.removed, old(w.player))
    ensures w.allEnemies == Sweep(old(w.allEnemies), w.removed, None)
    ensures w.playerBullets == Sweep(old(w.playerBullets), w.removed, None)
    ensures w.enemyBullets == Sweep(old(w.enemyBullets), w.removed, None)
    ensures w.player == if old(w.player).Some? && old(w.player).value in w.removed then None else old(w.player)
  {
    w.allSprites := Sweep(w.allSprites, w.removed, w.player);
    w.allEnemies := Sweep(w.allEnemies, w.removed, None);
    w.playerBullets := Sweep(w.playerBullets, w.removed, None);
    w.enemyBullets := Sweep(w.enemyBullets, w.removed, None);
    if w.player.Some? && w.player.value in w.removed {
      w.player := None;
    }
  }

  /** After the sweep no removed sprite is left in any list, except the player in AllSprites. */
  lemma SweepLeavesNoRemoved(s: seq<SpriteRef>, removed: set<SpriteRef>, player: Option<SpriteRef>, x: SpriteRef)
    requires x in Sweep(s, removed, player) && x in removed
    ensures player == Some(x)
  {
  }
}
