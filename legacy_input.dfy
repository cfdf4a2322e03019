// The input state of the earlier GLFW-based front end: the same per-frame and held sets, fed by
// GLFW's key, mouse-button and cursor-position callbacks, with the cursor delta accumulated from
// absolute positions.

module LegacyInput {
  /** GLFW key and mouse-button codes and action values (GLFW_RELEASE, GLFW_PRESS; GLFW_REPEAT is 2). */
  type Code = int

  const RELEASE: int := 0
  const PRESS: int := 1
  const REPEAT: int := 2

  /** GLFW numbers the letter keys by their upper-case ASCII code: GLFW_KEY_A is 65. */
  const KEY_A: Code := 65

  /** MouseVec2 on unbounded integers. */
  datatype Vec2 = Vec2(x: int, y: int)

  const ZERO: Vec2 := Vec2(0, 0)

  /** The fields of Input::Data as one value. */
  datatype State = State(
    keysPressed: set<Code>, keysHeld: set<Code>, keysReleased: set<Code>,
    buttonsPressed: set<Code>, buttonsHeld: set<Code>, buttonsReleased: set<Code>,
    mousePosition: Vec2, mouseDelta: Vec2, mouseCaptured: bool)

  const INITIAL: State := State({}, {}, {}, {}, {}, {}, ZERO, ZERO, false)

  /** `flush`: drops this frame's events and the accumulated delta. */
  function Flushed(s: State): State
  {
    s.(keysPressed := {}, keysReleased := {}, buttonsPressed := {}, buttonsReleased := {}, mouseDelta := ZERO)
  }

  /** `clear`: a flush that also forgets what is held. */
  function Cleared(s: State): State
  {
    Flushed(s).(keysHeld := {}, buttonsHeld := {})
  }

  /** `key_callback` (window, scancode and modifiers are unused). */
  function OnKey(s: State, key: Code, action: int): State
  {
    if action == PRESS then s.(keysPressed := s.keysPressed + {key}, keysHeld := s.keysHeld + {key})
    else if action == RELEASE then s.(keysReleased := s.keysReleased + {key}, keysHeld := s.keysHeld - {key})
    else s
  }

  /** `mouse_button_callback`. */
  function OnButton(s: State, button: Code, action: int): State
  {
    if action == PRESS then s.(buttonsPressed := s.buttonsPressed + {button}, buttonsHeld := s.buttonsHeld + {button})
    else if action == RELEASE then s.(buttonsReleased := s.buttonsReleased + {button}, buttonsHeld := s.buttonsHeld - {button})
    else s
  }

  /** `mouse_position_callback`, on the already truncated cursor position. */
  function OnPosition(s: State, p: Vec2): State
  {
    s.(mouseDelta := Vec2(s.mouseDelta.x + (p.x - s.mousePosition.x), s.mouseDelta.y + (p.y - s.mousePosition.y)),
       mousePosition := p)
  }

  /** The singleton input record. */
  class Data {
    var keysPressed: set<Code>
    var keysHeld: set<Code>
    var keysReleased: set<Code>
    var buttonsPressed: set<Code>
    var buttonsHeld: set<Code>
    var buttonsReleased: set<Code>
    var mousePosition: Vec2
    var mouseDelta: Vec2
    var mouseCaptured: bool

    function Current(): State
      reads this
    {
      State(keysPressed, keysHeld, keysReleased, buttonsPressed, buttonsHeld, buttonsReleased,
            mousePosition, mouseDelta, mouseCaptured)
    }

    constructor ()
      ensures Current() == INITIAL
    {
      keysPressed, keysHeld, keysReleased := {}, {}, {};
      buttonsPressed, buttonsHeld, buttonsReleased := {}, {}, {};
      mousePosition, mouseDelta, mouseCaptured := ZERO, ZERO, false;
    }

    /** Mouse::set_mode without the cursor-mode call into GLFW. */
    method SetMode(captured: bool)
      modifies this
      ensures Current() == old(Current()).(mouseCaptured := captured)
    {
      mouseCaptured := captured;
    }

    method Flush()
      modifies this
      ensures Current() == Flushed(old(Current()))
    {
      keysPressed := {};
      keysReleased := {};
      buttonsPressed := {};
      buttonsReleased := {};
      mouseDelta := ZERO;
    }

    method Clear()
      modifies this
      ensures Current() == Cleared(old(Current()))
    {
      Flush();
      keysHeld := {};
      buttonsHeld := {};
    }

    method KeyCallback(key: Code, action: int)
      modifies this
      ensures Current() == OnKey(old(Current()), key, action)
    {
      if action == PRESS {
        keysPressed := keysPressed + {key};
        keysHeld := keysHeld + {key};
      } else if action == RELEASE {
        keysReleased := keysReleased + {key};
        keysHeld := keysHeld - {key};
      }
    }

    method MouseButtonCallback(button: Code, action: int)
      modifies this
      ensures Current() == OnButton(old(Current()), button, action)
    {
      if action == PRESS {
        buttonsPressed := buttonsPressed + {button};
        buttonsHeld := buttonsHeld + {button};
      } else if action == RELEASE {
        buttonsReleased := buttonsReleased + {button};
        buttonsHeld := buttonsHeld - {button};
      }
    }

    method MousePositionCallback(p: Vec2)
      modifies this
      ensures Current() == OnPosition(old(Current()), p)
    {
      mouseDelta := Vec2(mouseDelta.x + (p.x - mousePosition.x), mouseDelta.y + (p.y - mousePosition.y));
      mousePosition := p;
    }
  }

  // Queries (Keys:: and Mouse::). The character forms look up the upper-cased character code.

  /** Keys::pressed: a press since the last flush or clear. */
  function KeyIsPressed(s: State, code: Code): (r: bool)
    ensures r <==> code in s.keysPressed
  {
    code in s.keysPressed
  }

  /** Keys::held: pressed and not released since. */
  function KeyIsHeld(s: State, code: Code): (r: bool)
    ensures r <==> code in s.keysHeld
  {
    code in s.keysHeld
  }

  function KeyIsReleased(s: State, code: Code): (r: bool)
    ensures r <==> code in s.keysReleased
  {
    code in s.keysReleased
  }

  function ButtonIsPressed(s: State, b: Code): (r: bool)
    ensures r <==> b in s.buttonsPressed
  {
    b in s.buttonsPressed
  }

  function ButtonIsHeld(s: State, b: Code): (r: bool)
    ensures r <==> b in s.buttonsHeld
  {
    b in s.buttonsHeld
  }

  function ButtonIsReleased(s: State, b: Code): (r: bool)
    ensures r <==> b in s.buttonsReleased
  {
    b in s.buttonsReleased
  }

  /** std::toupper in the "C" locale. */
  function ToUpper(c: char): char
  {
    if 'a' <= c <= 'z' then (c as int - 32) as char else c
  }

  function KeyIsPressedChar(s: State, c: char): (r: bool)
    ensures 'a' <= c <= 'z' ==> (r <==> KeyIsPressed(s, c as int - 32))
    ensures !('a' <= c <= 'z') ==> (r <==> KeyIsPressed(s, c as int))
  {
    KeyIsPressed(s, ToUpper(c) as int)
  }

  function KeyIsHeldChar(s: State, c: char): (r: bool)
    ensures 'a' <= c <= 'z' ==> (r <==> KeyIsHeld(s, c as int - 32))
    ensures !('a' <= c <= 'z') ==> (r <==> KeyIsHeld(s, c as int))
  {
    KeyIsHeld(s, ToUpper(c) as int)
  }

  function KeyIsReleasedChar(s: State, c: char): (r: bool)
    ensures 'a' <= c <= 'z' ==> (r <==> KeyIsReleased(s, c as int - 32))
    ensures !('a' <= c <= 'z') ==> (r <==> KeyIsReleased(s, c as int))
  {
    KeyIsReleased(s, ToUpper(c) as int)
  }

  /** A letter, in either case, asks about its own GLFW key. */
  lemma CharQueriesNameLetterKeys(s: State, c: char)
    requires 'a' <= c <= 'z' || 'A' <= c <= 'Z'
    ensures var k := KEY_A + (if c <= 'Z' then c as int - 'A' as int else c as int - 'a' as int);
      KeyIsPressedChar(s, c) == KeyIsPressed(s, k) && KeyIsHeldChar(s, c) == KeyIsHeld(s, k) &&
      KeyIsReleasedChar(s, c) == KeyIsReleased(s, k)
  {
  }

  // Single-callback properties.

  /** An action other than press or release (a key repeat, say) changes nothing. */
  lemma OtherActionsIgnored(s: State, code: Code, action: int)
    requires action != PRESS && action != RELEASE
    ensures OnKey(s, code, action) == s && OnButton(s, code, action) == s
  {
  }

  /** A press makes the code pressed and held, a release makes it released and not held, and no other code changes. */
  lemma KeyPressAndRelease(s: State, k: Code)
    ensures var r := OnKey(s, k, PRESS);
      KeyIsPressed(r, k) && KeyIsHeld(r, k) && r == s.(keysPressed := r.keysPressed, keysHeld := r.keysHeld) &&
      r.keysPressed - {k} == s.keysPressed - {k} && r.keysHeld - {k} == s.keysHeld - {k}
    ensures var r := OnKey(s, k, RELEASE);
      KeyIsReleased(r, k) && !KeyIsHeld(r, k) && r == s.(keysReleased := r.keysReleased, keysHeld := r.keysHeld) &&
      r.keysReleased - {k} == s.keysReleased - {k} && r.keysHeld - {k} == s.keysHeld - {k}
    ensures OnButton(s, k, PRESS).buttonsHeld == s.buttonsHeld + {k} && OnButton(s, k, RELEASE).buttonsHeld == s.buttonsHeld - {k}
  {
  }

  /** Flush keeps what is held and the position; clear then keeps only the position and capture flag. */
  lemma FlushAndClear(s: State)
    ensures Flushed(s).keysHeld == s.keysHeld && Flushed(s).buttonsHeld == s.buttonsHeld
    ensures Flushed(s).mousePosition == s.mousePosition && Flushed(s).mouseDelta == ZERO
    ensures Cleared(s) == INITIAL.(mousePosition := s.mousePosition, mouseCaptured := s.mouseCaptured)
    ensures Cleared(Flushed(s)) == Cleared(s) && Flushed(Cleared(s)) == Cleared(s)
  {
  }

  /** The cursor positions reported in order. */
  function Track(s: State, ps: seq<Vec2>): State
    decreases |ps|
  {
    if ps == [] then s else OnPosition(Track(s, ps[..|ps| - 1]), ps[|ps| - 1])
  }

  /**
   * The delta telescopes: after a run of position reports the position is the last one reported
   * and the delta has grown by the distance from the starting position to it.
   */
  lemma {:induction false} DeltaTelescopes(s: State, ps: seq<Vec2>)
    requires ps != []
    ensures Track(s, ps).mousePosition == ps[|ps| - 1]
    ensures Track(s, ps).mouseDelta.x == s.mouseDelta.x + (ps[|ps| - 1].x - s.mousePosition.x)
    ensures Track(s, ps).mouseDelta.y == s.mouseDelta.y + (ps[|ps| - 1].y - s.mousePosition.y)
    decreases |ps|
  {
    if |ps| > 1 {
      DeltaTelescopes(s, ps[..|ps| - 1]);
    }
  }

  /** In particular, after a flush the delta is the distance moved since the flush. */
  lemma DeltaSinceFlush(s: State, ps: seq<Vec2>)
    requires ps != []
    ensures var r := Track(Flushed(s), ps);
      r.mouseDelta == Vec2(ps[|ps| - 1].x - s.mousePosition.x, ps[|ps| - 1].y - s.mousePosition.y)
  {
    DeltaTelescopes(Flushed(s), ps);
  }
}
