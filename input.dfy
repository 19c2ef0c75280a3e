/**
 * The keyboard, mouse and window state that the GLFW callbacks fill in and the
 * engine polls once per frame (src/Input.h). The engine uses one instance.
 */
module InputSystem {

  /** Sizes of the fixed key and mouse-button tables. */
  const KeyCount: nat := 1024
  const ButtonCount: nat := 8

  /** The GLFW action codes the callbacks distinguish; any other code (repeat) is ignored. */
  const Release: int := 0
  const Press: int := 1

  /** An `int` stored into a `std::size_t` is taken modulo 2^64. */
  const SizeModulus: int := 0x1_0000_0000_0000_0000

  /** A snapshot of everything an `Input` holds: the four tables, the cursor and scroll state, the resize state. */
  datatype InputState = InputState(
    keys: seq<bool>, prevKeys: seq<bool>, buttons: seq<bool>, prevButtons: seq<bool>,
    moved: bool, x: real, y: real, dx: real, dy: real,
    resize: bool, width: nat, height: nat)

  /** The state `Update` leaves: both flags lowered, the current tables copied into the previous ones. */
  function Latched(s: InputState): InputState
  {
    s.(prevKeys := s.keys, prevButtons := s.buttons, moved := false, resize := false)
  }

  class Input {
    // current and previous-frame tables: fixed-size, allocated once
    const keys: array<bool>
    const prevKeys: array<bool>
    const mouseButtons: array<bool>
    const prevMouseButtons: array<bool>

    var hasMouseMoved: bool
    var xPos: real
    var yPos: real
    var xOffset: real
    var yOffset: real

    var shouldResize: bool
    var width: nat
    var height: nat

    /** The four tables have their fixed sizes and the current and previous tables are distinct. */
    ghost predicate Valid()
    {
      && keys.Length == KeyCount && prevKeys.Length == KeyCount && keys != prevKeys
      && mouseButtons.Length == ButtonCount && prevMouseButtons.Length == ButtonCount
      && mouseButtons != prevMouseButtons
    }

    function State(): InputState
      reads this, keys, prevKeys, mouseButtons, prevMouseButtons
    {
      InputState(keys[..], prevKeys[..], mouseButtons[..], prevMouseButtons[..],
                 hasMouseMoved, xPos, yPos, xOffset, yOffset, shouldResize, width, height)
    }

    /**
     * Every key and button starts released. The source fills only the key tables;
     * the button tables and the scalar fields start at zero because the only
     * instance has static storage duration.
     */
    constructor ()
      ensures Valid()
      ensures fresh(keys) && fresh(prevKeys) && fresh(mouseButtons) && fresh(prevMouseButtons)
      ensures forall k :: 0 <= k < KeyCount ==> !keys[k] && !prevKeys[k]
      ensures forall b :: 0 <= b < ButtonCount ==> !mouseButtons[b] && !prevMouseButtons[b]
      ensures !hasMouseMoved && !shouldResize && width == 0 && height == 0
      ensures xPos == 0.0 && yPos == 0.0 && xOffset == 0.0 && yOffset == 0.0
    {
      keys := new bool[KeyCount](_ => false);
      prevKeys := new bool[KeyCount](_ => false);
      mouseButtons := new bool[ButtonCount](_ => false);
      prevMouseButtons := new bool[ButtonCount](_ => false);
      hasMouseMoved, shouldResize := false, false;
      xPos, yPos, xOffset, yOffset := 0.0, 0.0, 0.0, 0.0;
      width, height := 0, 0;
    }

    /** Was the key only tapped: down now and up at the last Update? */
    predicate IsKeyPressed(key: nat)
      reads keys, prevKeys
      requires Valid() && key < KeyCount
    {
      keys[key] && !prevKeys[key]
    }

    /** Is the key down? Reads only the current table. */
    predicate IsKeyHeld(key: nat)
      reads keys
      requires Valid() && key < KeyCount
    {
      keys[key]
    }

    predicate IsMousePressed(button: nat)
      reads mouseButtons, prevMouseButtons
      requires Valid() && button < ButtonCount
    {
      mouseButtons[button] && !prevMouseButtons[button]
    }

    /** Is the button down? Reads only the current table. */
    predicate IsMouseHeld(button: nat)
      reads mouseButtons
      requires Valid() && button < ButtonCount
    {
      mouseButtons[button]
    }

    /**
     * The per-frame latch: clears the moved and resize flags and copies the
     * current tables into the previous ones, so nothing reads as pressed until
     * the next callback changes a key or button.
     */
    method Update()
      requires Valid()
      modifies this, prevKeys, prevMouseButtons
      ensures !hasMouseMoved && !shouldResize
      ensures prevKeys[..] == keys[..] && prevMouseButtons[..] == mouseButtons[..]
      ensures keys[..] == old(keys[..]) && mouseButtons[..] == old(mouseButtons[..])
      ensures xPos == old(xPos) && yPos == old(yPos) && xOffset == old(xOffset) && yOffset == old(yOffset)
      ensures width == old(width) && height == old(height)
      ensures forall k :: 0 <= k < KeyCount ==> IsKeyPressed(k) == false
      ensures forall b :: 0 <= b < ButtonCount ==> IsMousePressed(b) == false
      ensures State() == Latched(old(State()))
    {
      hasMouseMoved := false;
      shouldResize := false;
      forall k | 0 <= k < KeyCount {
        prevKeys[k] := keys[k];
      }
      forall b | 0 <= b < ButtonCount {
        prevMouseButtons[b] := mouseButtons[b];
      }
    }

    /** Key callback: keys outside 0..1023 and actions other than press and release change nothing. */
    method KeyPressed(key: int, scancode: int, action: int, mode: int)
      requires Valid()
      modifies keys
      ensures keys[..] ==
        if 0 <= key < KeyCount && action == Press then old(keys[..])[key := true]
        else if 0 <= key < KeyCount && action == Release then old(keys[..])[key := false]
        else old(keys[..])
      ensures forall k :: 0 <= k < KeyCount && k != key ==> keys[k] == old(keys[k])
    {
      if 0 <= key < KeyCount {
        if action == Press {
          keys[key] := true;
        } else if action == Release {
          keys[key] := false;
        }
      }
    }

    /** Mouse-button callback, with the same rules over buttons 0..7. */
    method MousePressed(button: int, action: int, mods: int)
      requires Valid()
      modifies mouseButtons
      ensures mouseButtons[..] ==
        if 0 <= button < ButtonCount && action == Press then old(mouseButtons[..])[button := true]
        else if 0 <= button < ButtonCount && action == Release then old(mouseButtons[..])[button := false]
        else old(mouseButtons[..])
      ensures forall b :: 0 <= b < ButtonCount && b != button ==> mouseButtons[b] == old(mouseButtons[b])
    {
      if 0 <= button < ButtonCount {
        if action == Press {
          mouseButtons[button] := true;
        } else if action == Release {
          mouseButtons[button] := false;
        }
      }
    }

    /** Cursor callback: raises the moved flag and stores the position. */
    method MouseMoved(x: real, y: real)
      modifies this
      ensures hasMouseMoved && xPos == x && yPos == y
      ensures xOffset == old(xOffset) && yOffset == old(yOffset)
      ensures shouldResize == old(shouldResize) && width == old(width) && height == old(height)
    {
      hasMouseMoved := true;
      xPos := x;
      yPos := y;
    }

    /** Scroll callback: stores the offsets and nothing else. */
    method MouseScroll(dx: real, dy: real)
      modifies this
      ensures xOffset == dx && yOffset == dy
      ensures hasMouseMoved == old(hasMouseMoved) && xPos == old(xPos) && yPos == old(yPos)
      ensures shouldResize == old(shouldResize) && width == old(width) && height == old(height)
    {
      xOffset := dx;
      yOffset := dy;
    }

    /** Character callback: the source's handler is empty. */
    method TextInput(codepoint: nat)
    {
    }

    /**
     * Window-size callback: raises the resize flag and stores the size, each
     * `int` converted to `std::size_t`. The flag stays up until the next Update.
     */
    method WindowResized(w: int, h: int)
      modifies this
      ensures shouldResize
      ensures width == w % SizeModulus && height == h % SizeModulus
      ensures 0 <= w < SizeModulus ==> width == w
      ensures 0 <= h < SizeModulus ==> height == h
      ensures hasMouseMoved == old(hasMouseMoved) && xPos == old(xPos) && yPos == old(yPos)
      ensures xOffset == old(xOffset) && yOffset == old(yOffset)
    {
      shouldResize := true;
      width := w % SizeModulus;
      height := h % SizeModulus;
    }
  }
}
