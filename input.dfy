/**
 * The input state machine of engine/input/input_manager.h and .cpp: the
 * key-state table, the mouse fields and the event x key table of ordered
 * callback lists. A callback is an opaque identity; calling it is
 * recorded as an `Invocation` in the order the manager makes the calls.
 */
module Input {
  import opened Wrappers

  /** GLFW action and button codes. */
  const GLFW_RELEASE: int := 0
  const GLFW_PRESS: int := 1
  const GLFW_REPEAT: int := 2
  const GLFW_MOUSE_BUTTON_RIGHT: int := 1

  /** The size of `m_keyStates`. */
  const KeyCount: int := 1024

  datatype InputEvent = KeyPressed | KeyReleased | MouseButtonPressed | MouseButtonReleased | MouseMoved | MouseScrolled

  /** The identity of a registered `InputCallback`. */
  type Callback = nat

  /** `InputEventData`, the argument every callback receives. */
  datatype InputEventData = InputEventData(key: int, xpos: real, ypos: real, xoffset: real, yoffset: real, rightMousePressed: bool)

  /** One call of a callback with its argument. */
  datatype Invocation = Invocation(callback: Callback, data: InputEventData)

  /** `callbacks_`: event -> key -> callbacks in registration order. */
  type Table = map<InputEvent, map<int, seq<Callback>>>

  /** The list registered under (event, key); an absent entry reads as empty. */
  function Lookup(t: Table, event: InputEvent, key: int): seq<Callback>
  {
    if event in t && key in t[event] then t[event][key] else []
  }

  /** `callbacks_[event][key]`: the entry, created empty when absent. */
  function Entry(t: Table, event: InputEvent, key: int): (r: seq<Callback>)
    ensures r == Lookup(t, event, key)
  {
    var inner := if event in t then t[event] else map[];
    if key in inner then inner[key] else []
  }

  /** `callbacks_[event][key] = list`. */
  function Store(t: Table, event: InputEvent, key: int, list: seq<Callback>): (r: Table)
    ensures Lookup(r, event, key) == list
    ensures forall e: InputEvent, k: int | e != event || k != key :: Lookup(r, e, k) == Lookup(t, e, k)
  {
    var inner := if event in t then t[event] else map[];
    t[event := inner[key := list]]
  }

  /** The registration table after `RegisterCallback`. */
  function Registered(t: Table, event: InputEvent, key: int, cb: Callback): (r: Table)
    ensures Lookup(r, event, key) == Lookup(t, event, key) + [cb]
    ensures forall e: InputEvent, k: int | e != event || k != key :: Lookup(r, e, k) == Lookup(t, e, k)
  {
    Store(t, event, key, Entry(t, event, key) + [cb])
  }

  /** The entries of a list for which `keep` holds, in their original order. */
  function Filter(list: seq<Callback>, keep: Callback -> bool): (r: seq<Callback>)
    ensures |r| <= |list|
    ensures forall x | x in r :: x in list && keep(x)
  {
    if list == [] then []
    else Filter(list[..|list| - 1], keep) + (if keep(list[|list| - 1]) then [list[|list| - 1]] else [])
  }

  lemma {:induction false} FilterAppend(a: seq<Callback>, b: seq<Callback>, keep: Callback -> bool)
    ensures Filter(a + b, keep) == Filter(a, keep) + Filter(b, keep)
    decreases |b|
  {
    if b == [] {
      assert a + b == a;
    } else {
      assert (a + b)[..|a + b| - 1] == a + b[..|b| - 1];
      FilterAppend(a, b[..|b| - 1], keep);
    }
  }

  /** Filtering keeps every entry it keeps as often as it occurs. */
  lemma {:induction false} FilterCounts(list: seq<Callback>, keep: Callback -> bool, x: Callback)
    ensures keep(x) ==> multiset(Filter(list, keep))[x] == multiset(list)[x]
    ensures !keep(x) ==> x !in Filter(list, keep)
    decreases |list|
  {
    if list != [] {
      var init := list[..|list| - 1];
      FilterCounts(init, keep, x);
      assert list == init + [list[|list| - 1]];
    }
  }

  /** A predicate that keeps nothing leaves nothing. */
  lemma {:induction false} FilterNone(list: seq<Callback>, keep: Callback -> bool)
    requires forall x: Callback :: !keep(x)
    ensures Filter(list, keep) == []
    decreases |list|
  {
    if list != [] {
      FilterNone(list[..|list| - 1], keep);
    }
  }

  /**
   * Removal by identity: every entry equal to `cb` goes, the others stay,
   * in their original order.
   */
  function Without(list: seq<Callback>, cb: Callback): (r: seq<Callback>)
    ensures cb !in r
    ensures forall x: Callback | x != cb :: multiset(r)[x] == multiset(list)[x]
  {
    var r := Filter(list, (x: Callback) => x != cb);
    forall x: Callback | x != cb ensures multiset(r)[x] == multiset(list)[x] {
      FilterCounts(list, (x: Callback) => x != cb, x);
    }
    FilterCounts(list, (x: Callback) => x != cb, cb);
    r
  }

  /** Removal keeps order: removing from a concatenation removes from each part. */
  lemma WithoutKeepsOrder(a: seq<Callback>, b: seq<Callback>, cb: Callback)
    ensures Without(a + b, cb) == Without(a, cb) + Without(b, cb)
  {
    FilterAppend(a, b, (x: Callback) => x != cb);
  }

  /** Unregistration as evidently intended: entries are removed by identity (see README, Findings). */
  function Unregistered(t: Table, event: InputEvent, key: int, cb: Callback): (r: Table)
    ensures Lookup(r, event, key) == Without(Lookup(t, event, key), cb)
    ensures forall e: InputEvent, k: int | e != event || k != key :: Lookup(r, e, k) == Lookup(t, e, k)
  {
    Store(t, event, key, Without(Entry(t, event, key), cb))
  }

  /**
   * `InputCallback::target<void(const InputEventData&)>()`. A
   * `std::function` stores a callable object, never a value of function
   * type, so this query always yields no target.
   */
  function FunctionTypeTarget(cb: Callback): Option<Callback>
  {
    None
  }

  /**
   * `UnregisterCallback` as written: an entry is removed when its
   * function-type target equals that of the given callback.
   */
  function UnregisteredAsWritten(t: Table, event: InputEvent, key: int, cb: Callback): (r: Table)
    ensures Lookup(r, event, key) == Filter(Lookup(t, event, key), (x: Callback) => FunctionTypeTarget(x) != FunctionTypeTarget(cb))
    ensures forall e: InputEvent, k: int | e != event || k != key :: Lookup(r, e, k) == Lookup(t, e, k)
  {
    Store(t, event, key, Filter(Entry(t, event, key), (x: Callback) => FunctionTypeTarget(x) != FunctionTypeTarget(cb)))
  }

  /** As written, unregistering any callback empties the whole (event, key) list. */
  lemma UnregisterAsWrittenDropsAll(t: Table, event: InputEvent, key: int, cb: Callback)
    ensures Lookup(UnregisteredAsWritten(t, event, key, cb), event, key) == []
  {
    FilterNone(Lookup(t, event, key), (x: Callback) => FunctionTypeTarget(x) != FunctionTypeTarget(cb));
  }

  /**
   * The input that shows it: with callbacks 1 and 2 registered under
   * (KeyPressed, 256), unregistering 1 as written leaves [], where removal
   * by identity leaves [2].
   */
  lemma UnregisterAsWrittenCounterexample()
    ensures var t0 := Registered(Registered(map[], KeyPressed, 256, 1), KeyPressed, 256, 2);
      Lookup(UnregisteredAsWritten(t0, KeyPressed, 256, 1), KeyPressed, 256) == [] &&
      Lookup(Unregistered(t0, KeyPressed, 256, 1), KeyPressed, 256) == [2]
  {
    var t0 := Registered(Registered(map[], KeyPressed, 256, 1), KeyPressed, 256, 2);
    assert Lookup(t0, KeyPressed, 256) == [1, 2];
    UnregisterAsWrittenDropsAll(t0, KeyPressed, 256, 1);
    var keep := (x: Callback) => x != 1;
    assert Filter([1, 2], keep) == [2] by {
      assert [1, 2][..1] == [1];
      assert [1][..0] == [];
    }
  }

  /** The calls made when `list` is dispatched with `data`: each callback once, in order. */
  function Calls(list: seq<Callback>, data: InputEventData): (r: seq<Invocation>)
  {
    seq(|list|, i requires 0 <= i < |list| => Invocation(list[i], data))
  }

  /** The dispatch loop `for (const auto& callback : list) callback(data);`. */
  method Dispatch(list: seq<Callback>, data: InputEventData) returns (invoked: seq<Invocation>)
    ensures |invoked| == |list|
    ensures forall i | 0 <= i < |list| :: invoked[i] == Invocation(list[i], data)
  {
    invoked := [];
    for i := 0 to |list|
      invariant |invoked| == i
      invariant forall j | 0 <= j < i :: invoked[j] == Invocation(list[j], data)
    {
      invoked := invoked + [Invocation(list[i], data)];
    }
  }

  /** Whether a GLFW key action counts as "pressed". */
  predicate IsPressAction(action: int)
  {
    action == GLFW_PRESS || action == GLFW_REPEAT
  }

  /** `Engine::Input::InputManager`. */
  class InputManager {
    const keyStates: array<bool>
    var rightMousePressed: bool
    var lastMouseX: real
    var lastMouseY: real
    var firstMouse: bool
    var callbacks: Table

    ghost predicate Valid()
      reads this
    {
      keyStates.Length == KeyCount
    }

    /** The initial state: every key up, right button up, mouse at (0, 0), first-mouse set, no callbacks. */
    constructor ()
      ensures Valid() && fresh(keyStates)
      ensures forall k | 0 <= k < keyStates.Length :: !keyStates[k]
      ensures !rightMousePressed && lastMouseX == 0.0 && lastMouseY == 0.0 && firstMouse
      ensures callbacks == map[]
    {
      keyStates := new bool[KeyCount](_ => false);
      rightMousePressed := false;
      lastMouseX, lastMouseY := 0.0, 0.0;
      firstMouse := true;
      callbacks := map[];
    }

    /** `RegisterCallback`: append to the end of the (event, key) list. */
    method RegisterCallback(event: InputEvent, key: int, cb: Callback)
      modifies this
      ensures callbacks == Registered(old(callbacks), event, key, cb)
      ensures rightMousePressed == old(rightMousePressed) && firstMouse == old(firstMouse)
      ensures lastMouseX == old(lastMouseX) && lastMouseY == old(lastMouseY)
    {
      var list := Entry(callbacks, event, key);
      callbacks := Store(callbacks, event, key, list + [cb]);
    }

    /**
     * `UnregisterCallback` as written: it keeps the entries whose
     * function-type target differs from that of `cb`, which empties the
     * (event, key) list (see README, Findings).
     */
    method UnregisterCallback(event: InputEvent, key: int, cb: Callback)
      modifies this
      ensures callbacks == UnregisteredAsWritten(old(callbacks), event, key, cb)
      ensures Lookup(callbacks, event, key) == []
      ensures rightMousePressed == old(rightMousePressed) && firstMouse == old(firstMouse)
      ensures lastMouseX == old(lastMouseX) && lastMouseY == old(lastMouseY)
    {
      var list := Entry(callbacks, event, key);
      callbacks := Store(callbacks, event, key, Filter(list, (x: Callback) => FunctionTypeTarget(x) != FunctionTypeTarget(cb)));
      UnregisterAsWrittenDropsAll(old(callbacks), event, key, cb);
    }

    /** `IsKeyPressed`: false outside [0, 1024), the stored state inside. */
    function IsKeyPressed(key: int): (pressed: bool)
      requires Valid()
      reads this, keyStates
      ensures pressed <==> 0 <= key < KeyCount && keyStates[key]
    {
      if 0 <= key < KeyCount then keyStates[key] else false
    }

    function IsRightMouseButtonPressed(): (pressed: bool)
      reads this
      ensures pressed == rightMousePressed
    {
      rightMousePressed
    }

    function GetMouseX(): (x: real)
      reads this
      ensures x == lastMouseX
    {
      lastMouseX
    }

    function GetMouseY(): (y: real)
      reads this
      ensures y == lastMouseY
    {
      lastMouseY
    }

    /** `GetMouseDelta`: despite its name, the last absolute position. */
    method GetMouseDelta() returns (xoffset: real, yoffset: real)
      ensures xoffset == lastMouseX && yoffset == lastMouseY
    {
      xoffset := lastMouseX;
      yoffset := lastMouseY;
    }

    /**
     * `processKeyEvent`: an in-range key becomes pressed exactly on PRESS
     * or REPEAT; no other key changes. The (KeyPressed or KeyReleased, key)
     * callbacks run once each, in registration order.
     */
    method ProcessKeyEvent(key: int, action: int) returns (invoked: seq<Invocation>)
      requires Valid()
      modifies keyStates
      ensures 0 <= key < KeyCount ==> keyStates[key] == IsPressAction(action)
      ensures forall k | 0 <= k < KeyCount && k != key :: keyStates[k] == old(keyStates[k])
      ensures invoked == Calls(Lookup(callbacks, if IsPressAction(action) then KeyPressed else KeyReleased, key),
                               InputEventData(key, 0.0, 0.0, 0.0, 0.0, rightMousePressed))
    {
      if 0 <= key < KeyCount {
        keyStates[key] := IsPressAction(action);
      }
      var event := if IsPressAction(action) then KeyPressed else KeyReleased;
      var data := InputEventData(key, 0.0, 0.0, 0.0, 0.0, rightMousePressed);
      invoked := [];
      if event in callbacks && key in callbacks[event] {
        invoked := Dispatch(callbacks[event][key], data);
      }
    }

    /**
     * `processMouseButtonEvent`: the right button sets the right-button
     * flag to "action is PRESS" and, on PRESS, sets first-mouse; other
     * buttons change nothing. Then the button's callbacks run.
     */
    method ProcessMouseButtonEvent(button: int, action: int) returns (invoked: seq<Invocation>)
      modifies this
      ensures button == GLFW_MOUSE_BUTTON_RIGHT ==> rightMousePressed == (action == GLFW_PRESS)
      ensures button != GLFW_MOUSE_BUTTON_RIGHT ==> rightMousePressed == old(rightMousePressed)
      ensures firstMouse == if button == GLFW_MOUSE_BUTTON_RIGHT && action == GLFW_PRESS then true else old(firstMouse)
      ensures lastMouseX == old(lastMouseX) && lastMouseY == old(lastMouseY) && callbacks == old(callbacks)
      ensures invoked == Calls(Lookup(callbacks, if action == GLFW_PRESS then MouseButtonPressed else MouseButtonReleased, button),
                               InputEventData(button, 0.0, 0.0, 0.0, 0.0, rightMousePressed))
    {
      if button == GLFW_MOUSE_BUTTON_RIGHT {
        rightMousePressed := action == GLFW_PRESS;
        if action == GLFW_PRESS {
          firstMouse := true;
        }
      }
      var event := if action == GLFW_PRESS then MouseButtonPressed else MouseButtonReleased;
      var data := InputEventData(button, 0.0, 0.0, 0.0, 0.0, rightMousePressed);
      invoked := [];
      if event in callbacks && button in callbacks[event] {
        invoked := Dispatch(callbacks[event][button], data);
      }
    }

    /** `processMousePositionEvent`: store the position, then run the (MouseMoved, 0) callbacks. */
    method ProcessMousePositionEvent(xpos: real, ypos: real) returns (invoked: seq<Invocation>)
      modifies this
      ensures lastMouseX == xpos && lastMouseY == ypos
      ensures rightMousePressed == old(rightMousePressed) && firstMouse == old(firstMouse) && callbacks == old(callbacks)
      ensures invoked == Calls(Lookup(callbacks, MouseMoved, 0), InputEventData(0, xpos, ypos, 0.0, 0.0, rightMousePressed))
    {
      lastMouseX := xpos;
      lastMouseY := ypos;
      var data := InputEventData(0, xpos, ypos, 0.0, 0.0, rightMousePressed);
      invoked := [];
      if MouseMoved in callbacks && 0 in callbacks[MouseMoved] {
        invoked := Dispatch(callbacks[MouseMoved][0], data);
      }
    }

    /** `processMouseScrollEvent`: no state changes; the (MouseScrolled, 0) callbacks run. */
    method ProcessMouseScrollEvent(xoffset: real, yoffset: real) returns (invoked: seq<Invocation>)
      ensures invoked == Calls(Lookup(callbacks, MouseScrolled, 0), InputEventData(0, 0.0, 0.0, xoffset, yoffset, rightMousePressed))
    {
      var data := InputEventData(0, 0.0, 0.0, xoffset, yoffset, rightMousePressed);
      invoked := [];
      if MouseScrolled in callbacks && 0 in callbacks[MouseScrolled] {
        invoked := Dispatch(callbacks[MouseScrolled][0], data);
      }
    }
  }

  /** Registering then dispatching: the new callback is called last, after the earlier ones. */
  lemma RegisteredIsCalledLast(t: Table, event: InputEvent, key: int, cb: Callback, data: InputEventData)
    ensures Calls(Lookup(Registered(t, event, key, cb), event, key), data)
         == Calls(Lookup(t, event, key), data) + [Invocation(cb, data)]
  {
  }

  /** After unregistering (by identity) a callback is never called for that (event, key). */
  lemma UnregisteredIsNotCalled(t: Table, event: InputEvent, key: int, cb: Callback, data: InputEventData)
    ensures Invocation(cb, data) !in Calls(Lookup(Unregistered(t, event, key, cb), event, key), data)
  {
  }
}
