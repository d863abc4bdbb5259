/**
 * IsometricGame/InputManager.cs: keyboard and mouse snapshots of this frame and the previous
 * one, the table from action names to keys, edge detection ("pressed this frame"), and the
 * mapping of the mouse from the window into the game's internal resolution. Keyboard.GetState
 * and Mouse.GetState are the parameters of Update; a keyboard snapshot is the set of keys down.
 */
module Input {
  import opened Numerics

  datatype Key =
    | W | Up | S | Down | A | Left | D | Right | Space | Enter | Escape
    | OemPlus | Add | OemMinus | Subtract | PageDown | E | PageUp | Q
    | LeftControl | RightControl | L | N | Tab | Delete
    | D0 | D1 | D2 | D3 | D4 | D5 | D6 | D7 | D8 | D9
    | NumPad0 | NumPad1 | NumPad2 | NumPad3 | NumPad4 | NumPad5 | NumPad6 | NumPad7 | NumPad8 | NumPad9

  /** A mouse snapshot; a button is true while pressed. */
  datatype MouseState = MouseState(x: int, y: int, leftButton: bool, rightButton: bool, scrollWheelValue: int)

  datatype Rectangle = Rectangle(x: int, y: int, width: int, height: int)
  datatype Point = Point(x: int, y: int)

  /** The action table: each action name and the keys that trigger it, in order. */
  const Controls: map<string, seq<Key>> := map[
    "UP" := [W, Up], "DOWN" := [S, Down], "LEFT" := [A, Left], "RIGHT" := [D, Right],
    "FIRE" := [Space], "START" := [Enter, Space], "ESC" := [Escape],
    "ZOOM_IN" := [OemPlus, Add], "ZOOM_OUT" := [OemMinus, Subtract],
    "NEXT_TILE" := [PageDown, E], "PREV_TILE" := [PageUp, Q],
    "SAVE_MODIFIER" := [LeftControl, RightControl], "SAVE_ACTION" := [S],
    "LOAD_MODIFIER" := [LeftControl, RightControl], "LOAD_ACTION" := [L],
    "NEW_MODIFIER" := [LeftControl, RightControl], "NEW_ACTION" := [N],
    "SWITCH_MODE" := [Tab], "DELETE_TRIGGER" := [Delete],
    "D0" := [D0, NumPad0], "D1" := [D1, NumPad1], "D2" := [D2, NumPad2], "D3" := [D3, NumPad3],
    "D4" := [D4, NumPad4], "D5" := [D5, NumPad5], "D6" := [D6, NumPad6], "D7" := [D7, NumPad7],
    "D8" := [D8, NumPad8], "D9" := [D9, NumPad9]
  ]

  /** Some key of a known action is down. */
  predicate ActionDown(current: set<Key>, action: string) {
    action in Controls && exists i :: 0 <= i < |Controls[action]| && Controls[action][i] in current
  }

  /** Some key of a known action is down now and was up in the previous snapshot. */
  predicate ActionPressed(current: set<Key>, previous: set<Key>, action: string) {
    action in Controls &&
      exists i :: 0 <= i < |Controls[action]| && Controls[action][i] in current && Controls[action][i] !in previous
  }

  /** An action pressed this frame is down this frame. */
  lemma PressedIsDown(current: set<Key>, previous: set<Key>, action: string)
    requires ActionPressed(current, previous, action)
    ensures ActionDown(current, action)
  {
    var i :| 0 <= i < |Controls[action]| && Controls[action][i] in current && Controls[action][i] !in previous;
  }

  /** With the same snapshot twice (keys held or untouched), no action is pressed. */
  lemma HeldIsNotPressed(keys: set<Key>, action: string)
    ensures !ActionPressed(keys, keys, action)
  {
  }

  /**
   * The mouse in internal coordinates: with a non-empty render rectangle and internal size, the
   * offset into the rectangle clamped to it and scaled to the internal size; otherwise the raw
   * position.
   */
  function InternalPosition(dest: Rectangle, res: Point, mouse: MouseState): (p: Vec2)
    ensures dest.width > 0 && dest.height > 0 && res.x > 0 && res.y > 0 ==>
      0.0 <= p.x <= res.x as real && 0.0 <= p.y <= res.y as real
    ensures !(dest.width > 0 && dest.height > 0 && res.x > 0 && res.y > 0) ==>
      p == Vec2(mouse.x as real, mouse.y as real)
  {
    if dest.width > 0 && dest.height > 0 && res.x > 0 && res.y > 0 then
      var inRenderX := Clamp((mouse.x - dest.x) as real, 0.0, dest.width as real);
      var inRenderY := Clamp((mouse.y - dest.y) as real, 0.0, dest.height as real);
      Vec2(Scale(inRenderX, dest.width as real, res.x as real), Scale(inRenderY, dest.height as real, res.y as real))
    else
      Vec2(mouse.x as real, mouse.y as real)
  }

  /** (v / size) * target: a point of [0, size] taken to [0, target]. */
  function Scale(v: real, size: real, target: real): (r: real)
    requires size > 0.0
    ensures 0.0 <= v <= size && target >= 0.0 ==> 0.0 <= r <= target
  {
    var ratio := v / size;
    if 0.0 <= v <= size && target >= 0.0 then
      assert ratio * size == v;
      assert 0.0 <= ratio <= 1.0;
      FractionBound(ratio, target);
      ratio * target
    else
      ratio * target
  }

  lemma FractionBound(ratio: real, target: real)
    requires 0.0 <= ratio <= 1.0 && target >= 0.0
    ensures 0.0 <= ratio * target <= target
  {
    assert (1.0 - ratio) * target >= 0.0;
  }

  /** The corners of the render rectangle map to the corners of the internal resolution. */
  lemma CornersMap(dest: Rectangle, res: Point)
    requires dest.width > 0 && dest.height > 0 && res.x > 0 && res.y > 0
    ensures InternalPosition(dest, res, MouseState(dest.x, dest.y, false, false, 0)) == Vec2(0.0, 0.0)
    ensures InternalPosition(dest, res, MouseState(dest.x + dest.width, dest.y + dest.height, false, false, 0))
      == Vec2(res.x as real, res.y as real)
  {
    var w, h := dest.width as real, dest.height as real;
    assert Scale(0.0, w, res.x as real) == 0.0 && Scale(0.0, h, res.y as real) == 0.0;
    assert w / w == 1.0 && h / h == 1.0;
    assert Scale(w, w, res.x as real) == res.x as real;
    assert Scale(h, h, res.y as real) == res.y as real;
  }

  /** The scroll deltas Update reports for successive wheel values, starting from `start`. */
  function ScrollDeltas(start: int, values: seq<int>): seq<int>
    decreases |values|
  {
    if values == [] then [] else [values[0] - start] + ScrollDeltas(values[0], values[1..])
  }

  function Sum(s: seq<int>): int
    decreases |s|
  {
    if s == [] then 0 else s[0] + Sum(s[1..])
  }

  /** The deltas over a run of frames add up to the wheel's total movement. */
  lemma {:induction false} ScrollDeltasTelescope(start: int, values: seq<int>)
    requires values != []
    ensures Sum(ScrollDeltas(start, values)) == values[|values| - 1] - start
    decreases |values|
  {
    if |values| > 1 {
      ScrollDeltasTelescope(values[0], values[1..]);
    }
  }

  class InputManager {
    var currentKeys: set<Key>
    var previousKeys: set<Key>
    var currentMouse: MouseState
    var previousMouse: MouseState
    var renderDestination: Rectangle
    var internalResolution: Point
    var previousScrollWheelValue: int
    var internalMousePosition: Vec2
    var scrollWheelDelta: int

    /** Every snapshot and field at its default: no keys, mouse at 0 with buttons released. */
    constructor ()
      ensures currentKeys == {} && previousKeys == {}
      ensures currentMouse == MouseState(0, 0, false, false, 0) && previousMouse == currentMouse
      ensures renderDestination == Rectangle(0, 0, 0, 0) && internalResolution == Point(0, 0)
      ensures previousScrollWheelValue == 0 && scrollWheelDelta == 0 && internalMousePosition == Vec2(0.0, 0.0)
    {
      currentKeys, previousKeys := {}, {};
      currentMouse := MouseState(0, 0, false, false, 0);
      previousMouse := currentMouse;
      renderDestination, internalResolution := Rectangle(0, 0, 0, 0), Point(0, 0);
      previousScrollWheelValue, scrollWheelDelta, internalMousePosition := 0, 0, Vec2(0.0, 0.0);
    }

    method SetScreenConversion(dest: Rectangle, res: Point)
      modifies this`renderDestination, this`internalResolution
      ensures renderDestination == dest && internalResolution == res
    {
      renderDestination, internalResolution := dest, res;
    }

    /**
     * Update: this frame's snapshots become the previous ones, the new snapshots are taken,
     * the scroll delta is the wheel value minus the one seen last, and the mouse position is
     * mapped into internal coordinates.
     */
    method Update(keys: set<Key>, mouse: MouseState)
      modifies this`currentKeys, this`previousKeys, this`currentMouse, this`previousMouse
      modifies this`previousScrollWheelValue, this`internalMousePosition, this`scrollWheelDelta
      ensures previousKeys == old(currentKeys) && previousMouse == old(currentMouse)
      ensures currentKeys == keys && currentMouse == mouse
      ensures scrollWheelDelta == mouse.scrollWheelValue - old(previousScrollWheelValue)
      ensures previousScrollWheelValue == mouse.scrollWheelValue
      ensures internalMousePosition == InternalPosition(renderDestination, internalResolution, mouse)
    {
      previousKeys := currentKeys;
      previousMouse := currentMouse;
      currentKeys := keys;
      currentMouse := mouse;
      scrollWheelDelta := currentMouse.scrollWheelValue - previousScrollWheelValue;
      previousScrollWheelValue := currentMouse.scrollWheelValue;
      internalMousePosition := InternalPosition(renderDestination, internalResolution, currentMouse);
    }

    /** IsKeyDown: false for an unknown action, else whether some key of the action is down. */
    method IsKeyDown(action: string) returns (down: bool)
      ensures down == ActionDown(currentKeys, action)
    {
      if action !in Controls {
        return false;
      }
      var keys := Controls[action];
      for i := 0 to |keys|
        invariant forall j :: 0 <= j < i ==> keys[j] !in currentKeys
      {
        if keys[i] in currentKeys {
          return true;
        }
      }
      return false;
    }

    /** IsKeyPressed: false for an unknown action, else whether some key went down this frame. */
    method IsKeyPressed(action: string) returns (pressed: bool)
      ensures pressed == ActionPressed(currentKeys, previousKeys, action)
    {
      if action !in Controls {
        return false;
      }
      var keys := Controls[action];
      for i := 0 to |keys|
        invariant forall j :: 0 <= j < i ==> keys[j] !in currentKeys || keys[j] in previousKeys
      {
        if keys[i] in currentKeys && keys[i] !in previousKeys {
          return true;
        }
      }
      return false;
    }

    method IsLeftMouseButtonDown() returns (down: bool)
      ensures down == currentMouse.leftButton
    {
      return currentMouse.leftButton;
    }

    method IsRightMouseButtonDown() returns (down: bool)
      ensures down == currentMouse.rightButton
    {
      return currentMouse.rightButton;
    }

    /** Pressed this frame: pressed now and released in the previous snapshot, so also down. */
    method IsLeftMouseButtonPressed() returns (pressed: bool)
      ensures pressed ==> currentMouse.leftButton
      ensures pressed <==> currentMouse.leftButton && !previousMouse.leftButton
    {
      return currentMouse.leftButton && !previousMouse.leftButton;
    }

    /** Pressed this frame: pressed now and released in the previous snapshot, so also down. */
    method IsRightMouseButtonPressed() returns (pressed: bool)
      ensures pressed ==> currentMouse.rightButton
      ensures pressed <==> currentMouse.rightButton && !previousMouse.rightButton
    {
      return currentMouse.rightButton && !previousMouse.rightButton;
    }
  }
}
