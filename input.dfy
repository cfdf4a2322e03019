// The window-event input state: per-frame key and mouse-button events, the keys and buttons held
// down, and the raw mouse movement, kept in one process-wide record that the event loop feeds
// and the rest of the program queries.

module Input {
  /** sf::Keyboard::Scan, sf::Keyboard::Key and sf::Mouse::Button, by enumerator value. */
  type Scan = int
  type Key = int
  type Button = int

  /** sf::Vector2i on unbounded integers. */
  datatype Vec2 = Vec2(x: int, y: int)
  {
    function Plus(o: Vec2): Vec2
    {
      Vec2(x + o.x, y + o.y)
    }
  }

  const ZERO: Vec2 := Vec2(0, 0)

  /**
   * The events the handler tells apart. Every other event (the non-raw mouse move among them,
   * in the default build) is Other and changes nothing.
   */
  datatype Event =
    | FocusLost
    | KeyPressed(scancode: Scan)
    | KeyReleased(scancode: Scan)
    | MouseButtonPressed(button: Button)
    | MouseButtonReleased(button: Button)
    | MouseMovedRaw(delta: Vec2)
    | Other

  /** The fields of Input::Data as one value. */
  datatype State = State(
    keysPressed: set<Scan>, keysHeld: set<Scan>, keysReleased: set<Scan>,
    buttonsPressed: set<Button>, buttonsHeld: set<Button>, buttonsReleased: set<Button>,
    mousePosition: Vec2, mouseDelta: Vec2, mouseCaptured: bool)

  /** The function-static instance: zero-initialised, so empty sets, zero vectors, not captured. */
  const INITIAL: State := State({}, {}, {}, {}, {}, {}, ZERO, ZERO, false)

  /** `flush`: drops this frame's events and the accumulated delta. */
  function Flushed(s: State): State
  {
    s.(keysPressed := {}, keysReleased := {}, buttonsPressed := {}, buttonsReleased := {}, mouseDelta := ZERO)
  }

  /**
   * `handle_event` on a present event; `captureKeyboard` and `captureMouse` are what the UI layer
   * reports (WantCaptureKeyboard and WantCaptureMouse, both false without it).
   */
  function Handle(s: State, e: Event, captureKeyboard: bool, captureMouse: bool): State
  {
    match e
    case FocusLost => Flushed(s).(keysHeld := {}, buttonsHeld := {})
    case KeyPressed(c) =>
      if captureKeyboard then s else s.(keysPressed := s.keysPressed + {c}, keysHeld := s.keysHeld + {c})
    case KeyReleased(c) =>
      if captureKeyboard then s else s.(keysReleased := s.keysReleased + {c}, keysHeld := s.keysHeld - {c})
    case MouseButtonPressed(b) =>
      if captureMouse then s else s.(buttonsPressed := s.buttonsPressed + {b}, buttonsHeld := s.buttonsHeld + {b})
    case MouseButtonReleased(b) =>
      if captureMouse then s else s.(buttonsReleased := s.buttonsReleased + {b}, buttonsHeld := s.buttonsHeld - {b})
    case MouseMovedRaw(d) =>
      if captureMouse then s else s.(mousePosition := s.mousePosition.Plus(d), mouseDelta := s.mouseDelta.Plus(d))
    case Other => s
  }

  /** The singleton input record. */
  class Data {
    var keysPressed: set<Scan>
    var keysHeld: set<Scan>
    var keysReleased: set<Scan>
    var buttonsPressed: set<Button>
    var buttonsHeld: set<Button>
    var buttonsReleased: set<Button>
    var mousePosition: Vec2
    var mouseDelta: Vec2
    var mouseCaptured: bool

    function Current(): State
      reads this
    {
      State(keysPressed, keysHeld, keysReleased, buttonsPressed, buttonsHeld, buttonsReleased,
            mousePosition, mouseDelta, mouseCaptured)
    }

    constructor ()
      ensures Current() == INITIAL
    {
      keysPressed, keysHeld, keysReleased := {}, {}, {};
      buttonsPressed, buttonsHeld, buttonsReleased := {}, {}, {};
      mousePosition, mouseDelta, mouseCaptured := ZERO, ZERO, false;
    }

    method Flush()
      modifies this
      ensures Current() == Flushed(old(Current()))
    {
      keysPressed := {};
      keysReleased := {};
      buttonsPressed := {};
      buttonsReleased := {};
      mouseDelta := ZERO;
    }

    method HandleEvent(e: Event, captureKeyboard: bool, captureMouse: bool)
      modifies this
      ensures Current() == Handle(old(Current()), e, captureKeyboard, captureMouse)
    {
      match e {
        case FocusLost =>
          Flush();
          keysHeld := {};
          buttonsHeld := {};
        case KeyPressed(c) =>
          if captureKeyboard { return; }
          keysPressed := keysPressed + {c};
          keysHeld := keysHeld + {c};
        case KeyReleased(c) =>
          if captureKeyboard { return; }
          keysReleased := keysReleased + {c};
          keysHeld := keysHeld - {c};
        case MouseButtonPressed(b) =>
          if captureMouse { return; }
          buttonsPressed := buttonsPressed + {b};
          buttonsHeld := buttonsHeld + {b};
        case MouseButtonReleased(b) =>
          if captureMouse { return; }
          buttonsReleased := buttonsReleased + {b};
          buttonsHeld := buttonsHeld - {b};
        case MouseMovedRaw(d) =>
          if captureMouse { return; }
          mousePosition := mousePosition.Plus(d);
          mouseDelta := mouseDelta.Plus(d);
        case Other =>
      }
    }

    method RegisterCapture(captured: bool)
      modifies this
      ensures Current() == old(Current()).(mouseCaptured := captured)
    {
      mouseCaptured := captured;
    }
  }

  // Queries (Keys:: and Mouse::), on the state they read.

  /** Keys::pressed on a scancode: pressed since the last flush (PressedIffUnflushedPress). */
  function KeyIsPressed(s: State, code: Scan): (r: bool)
    ensures r <==> code in s.keysPressed
  {
    code in s.keysPressed
  }

  /** Keys::held on a scancode: down now (HeldIffLastPress). */
  function KeyIsHeld(s: State, code: Scan): (r: bool)
    ensures r <==> code in s.keysHeld
  {
    code in s.keysHeld
  }

  /** Keys::released on a scancode: released since the last flush. */
  function KeyIsReleased(s: State, code: Scan): (r: bool)
    ensures r <==> code in s.keysReleased
  {
    code in s.keysReleased
  }

  function ButtonIsPressed(s: State, b: Button): (r: bool)
    ensures r <==> b in s.buttonsPressed
  {
    b in s.buttonsPressed
  }

  function ButtonIsHeld(s: State, b: Button): (r: bool)
    ensures r <==> b in s.buttonsHeld
  {
    b in s.buttonsHeld
  }

  function ButtonIsReleased(s: State, b: Button): (r: bool)
    ensures r <==> b in s.buttonsReleased
  {
    b in s.buttonsReleased
  }

  // Logical keys: sf::Keyboard::delocalize, which maps a key to the scancode that produces it
  // on the current layout, is a parameter.

  function KeyIsPressedLogical(s: State, code: Key, delocalize: Key -> Scan): (r: bool)
    ensures r <==> delocalize(code) in s.keysPressed
  {
    KeyIsPressed(s, delocalize(code))
  }

  function KeyIsHeldLogical(s: State, code: Key, delocalize: Key -> Scan): (r: bool)
    ensures r <==> delocalize(code) in s.keysHeld
  {
    KeyIsHeld(s, delocalize(code))
  }

  function KeyIsReleasedLogical(s: State, code: Key, delocalize: Key -> Scan): (r: bool)
    ensures r <==> delocalize(code) in s.keysReleased
  {
    KeyIsReleased(s, delocalize(code))
  }

  // Character queries. sf::Keyboard::Key numbers the letters A = 0 to Z = 25 and the digits
  // Num0 = 26 to Num9 = 35; Unknown is -1.

  const KEY_UNKNOWN: Key := -1
  const KEY_A: Key := 0
  const KEY_Z: Key := 25
  const KEY_NUM0: Key := 26

  /** std::tolower in the "C" locale. */
  function ToLower(c: char): char
  {
    if 'A' <= c <= 'Z' then (c as int + 32) as char else c
  }

  predicate IsLetter(c: char) { 'a' <= c <= 'z' || 'A' <= c <= 'Z' }

  /** The key a character query looks up as written: the lower-cased character code itself. */
  function CharKeyAsWritten(c: char): Key
  {
    ToLower(c) as int
  }

  /** The as-written lookup never reaches a letter key: every letter lands above Z. */
  lemma CharKeyAsWrittenMissesLetters(c: char)
    requires IsLetter(c)
    ensures !(KEY_A <= CharKeyAsWritten(c) <= KEY_Z)
    ensures CharKeyAsWritten('w') == 119
  {
  }

  /** The key a character names: its letter or digit key, otherwise Unknown. */
  function CharKey(c: char): (k: Key)
    ensures IsLetter(c) ==> KEY_A <= k <= KEY_Z && k - KEY_A == ToLower(c) as int - 'a' as int
    ensures '0' <= c <= '9' ==> k == KEY_NUM0 + (c as int - '0' as int)
    ensures !IsLetter(c) && !('0' <= c <= '9') ==> k == KEY_UNKNOWN
  {
    var l := ToLower(c);
    if 'a' <= l <= 'z' then KEY_A + (l as int - 'a' as int)
    else if '0' <= l <= '9' then KEY_NUM0 + (l as int - '0' as int)
    else KEY_UNKNOWN
  }

  /** Distinct letters, ignoring case, name distinct keys. */
  lemma CharKeyLettersDistinct(c: char, d: char)
    requires IsLetter(c) && IsLetter(d) && ToLower(c) != ToLower(d)
    ensures CharKey(c) != CharKey(d)
  {
  }

  // The character queries as written: the lower-cased character code cast to a key, so a letter
  // asks about a key number past Z.

  function KeyIsPressedChar(s: State, c: char, delocalize: Key -> Scan): (r: bool)
    ensures r <==> KeyIsPressedLogical(s, ToLower(c) as int, delocalize)
  {
    KeyIsPressedLogical(s, CharKeyAsWritten(c), delocalize)
  }

  function KeyIsHeldChar(s: State, c: char, delocalize: Key -> Scan): (r: bool)
    ensures r <==> KeyIsHeldLogical(s, ToLower(c) as int, delocalize)
  {
    KeyIsHeldLogical(s, CharKeyAsWritten(c), delocalize)
  }

  function KeyIsReleasedChar(s: State, c: char, delocalize: Key -> Scan): (r: bool)
    ensures r <==> KeyIsReleasedLogical(s, ToLower(c) as int, delocalize)
  {
    KeyIsReleasedLogical(s, CharKeyAsWritten(c), delocalize)
  }

  // The character queries as intended: through CharKey, so a letter asks about its own letter key.

  function KeyIsPressedCharIntended(s: State, c: char, delocalize: Key -> Scan): (r: bool)
    ensures IsLetter(c) ==> (r <==> KeyIsPressedLogical(s, KEY_A + (ToLower(c) as int - 'a' as int), delocalize))
  {
    KeyIsPressedLogical(s, CharKey(c), delocalize)
  }

  function KeyIsHeldCharIntended(s: State, c: char, delocalize: Key -> Scan): (r: bool)
    ensures IsLetter(c) ==> (r <==> KeyIsHeldLogical(s, KEY_A + (ToLower(c) as int - 'a' as int), delocalize))
  {
    KeyIsHeldLogical(s, CharKey(c), delocalize)
  }

  function KeyIsReleasedCharIntended(s: State, c: char, delocalize: Key -> Scan): (r: bool)
    ensures IsLetter(c) ==> (r <==> KeyIsReleasedLogical(s, KEY_A + (ToLower(c) as int - 'a' as int), delocalize))
  {
    KeyIsReleasedLogical(s, CharKey(c), delocalize)
  }

  /** The intended character queries ignore case. */
  lemma CharQueriesIgnoreCase(s: State, c: char, delocalize: Key -> Scan)
    ensures KeyIsPressedCharIntended(s, c, delocalize) == KeyIsPressedCharIntended(s, ToLower(c), delocalize)
    ensures KeyIsHeldCharIntended(s, c, delocalize) == KeyIsHeldCharIntended(s, ToLower(c), delocalize)
    ensures KeyIsReleasedCharIntended(s, c, delocalize) == KeyIsReleasedCharIntended(s, ToLower(c), delocalize)
  {
  }

  // Single-event properties.

  /** Flushing keeps what is held, the position and the capture flag, and is idempotent. */
  lemma FlushKeepsHeld(s: State)
    ensures Flushed(s).keysHeld == s.keysHeld && Flushed(s).buttonsHeld == s.buttonsHeld
    ensures Flushed(s).mousePosition == s.mousePosition && Flushed(s).mouseCaptured == s.mouseCaptured
    ensures Flushed(s).keysPressed == Flushed(s).keysReleased == {}
    ensures Flushed(s).buttonsPressed == Flushed(s).buttonsReleased == {}
    ensures Flushed(s).mouseDelta == ZERO
    ensures Flushed(Flushed(s)) == Flushed(s)
  {
  }

  /** Losing focus forgets every key and button and the delta, but not the position. */
  lemma FocusLostForgetsAll(s: State, kbd: bool, mouse: bool)
    ensures var r := Handle(s, FocusLost, kbd, mouse);
      r.keysPressed == r.keysHeld == r.keysReleased == {} &&
      r.buttonsPressed == r.buttonsHeld == r.buttonsReleased == {} &&
      r.mouseDelta == ZERO && r.mousePosition == s.mousePosition && r.mouseCaptured == s.mouseCaptured
  {
  }

  /** What a key or button event does when the UI does not capture it. */
  lemma PressAndRelease(s: State, c: Scan, b: Button)
    ensures var r := Handle(s, KeyPressed(c), false, false);
      KeyIsPressed(r, c) && KeyIsHeld(r, c) && r == s.(keysPressed := r.keysPressed, keysHeld := r.keysHeld) &&
      r.keysPressed - {c} == s.keysPressed - {c} && r.keysHeld - {c} == s.keysHeld - {c}
    ensures var r := Handle(s, KeyReleased(c), false, false);
      KeyIsReleased(r, c) && !KeyIsHeld(r, c) && r == s.(keysReleased := r.keysReleased, keysHeld := r.keysHeld) &&
      r.keysReleased - {c} == s.keysReleased - {c} && r.keysHeld - {c} == s.keysHeld - {c}
    ensures var r := Handle(s, MouseButtonPressed(b), false, false);
      ButtonIsPressed(r, b) && ButtonIsHeld(r, b) && r == s.(buttonsPressed := r.buttonsPressed, buttonsHeld := r.buttonsHeld) &&
      r.buttonsPressed - {b} == s.buttonsPressed - {b} && r.buttonsHeld - {b} == s.buttonsHeld - {b}
    ensures var r := Handle(s, MouseButtonReleased(b), false, false);
      ButtonIsReleased(r, b) && !ButtonIsHeld(r, b) && r == s.(buttonsReleased := r.buttonsReleased, buttonsHeld := r.buttonsHeld) &&
      r.buttonsReleased - {b} == s.buttonsReleased - {b} && r.buttonsHeld - {b} == s.buttonsHeld - {b}
  {
  }

  /** Keyboard events the UI captures, and mouse events it captures, change nothing. */
  lemma CapturedIgnored(s: State, e: Event, kbd: bool, mouse: bool)
    requires ((e.KeyPressed? || e.KeyReleased?) && kbd) || (!(e.FocusLost? || e.KeyPressed? || e.KeyReleased?) && mouse)
    ensures Handle(s, e, kbd, mouse) == s
  {
  }

  // Runs of events, as the event loop delivers them between frames.

  /** One event with the UI capture flags at the time it is handled. */
  datatype Delivery = Delivery(event: Event, captureKeyboard: bool, captureMouse: bool)

  function Run(s: State, ds: seq<Delivery>): State
    decreases |ds|
  {
    if ds == [] then s
    else
      var d := ds[|ds| - 1];
      Handle(Run(s, ds[..|ds| - 1]), d.event, d.captureKeyboard, d.captureMouse)
  }

  predicate PressesAt(ds: seq<Delivery>, i: int, k: Scan)
    requires 0 <= i < |ds|
  {
    ds[i].event == KeyPressed(k) && !ds[i].captureKeyboard
  }

  predicate FocusLostAt(ds: seq<Delivery>, i: int)
    requires 0 <= i < |ds|
  {
    ds[i].event.FocusLost?
  }

  /** Events that end a hold of k: its uncaptured release, or the window losing focus. */
  predicate EndsHoldAt(ds: seq<Delivery>, i: int, k: Scan)
    requires 0 <= i < |ds|
  {
    FocusLostAt(ds, i) || (ds[i].event == KeyReleased(k) && !ds[i].captureKeyboard)
  }

  /**
   * k is held after a run iff some uncaptured press of k is followed by neither a release of k nor
   * a focus loss, or k was held before and nothing in the run ended the hold.
   */
  predicate HeldAfter(s: State, ds: seq<Delivery>, k: Scan)
  {
    (exists i :: 0 <= i < |ds| && PressesAt(ds, i, k) && forall j :: i < j < |ds| ==> !EndsHoldAt(ds, j, k))
    || (k in s.keysHeld && forall j :: 0 <= j < |ds| ==> !EndsHoldAt(ds, j, k))
  }

  /** k was pressed during a run iff some uncaptured press of k is not followed by a focus loss, or it counted as pressed before and focus was never lost. */
  predicate PressedDuring(s: State, ds: seq<Delivery>, k: Scan)
  {
    (exists i :: 0 <= i < |ds| && PressesAt(ds, i, k) && forall j :: i < j < |ds| ==> !FocusLostAt(ds, j))
    || (k in s.keysPressed && forall j :: 0 <= j < |ds| ==> !FocusLostAt(ds, j))
  }

  lemma {:induction false} HeldIffLastPress(s: State, ds: seq<Delivery>, k: Scan)
    ensures k in Run(s, ds).keysHeld <==> HeldAfter(s, ds, k)
    decreases |ds|
  {
    if ds != [] {
      var n := |ds| - 1;
      var p := ds[..n];
      HeldIffLastPress(s, p, k);
      assert forall j :: 0 <= j < n ==> (EndsHoldAt(p, j, k) <==> EndsHoldAt(ds, j, k)) && (PressesAt(p, j, k) <==> PressesAt(ds, j, k));
      if PressesAt(ds, n, k) {
        assert HeldAfter(s, ds, k);
      } else if EndsHoldAt(ds, n, k) {
        assert !HeldAfter(s, ds, k);
      } else {
        assert k in Run(s, ds).keysHeld <==> k in Run(s, p).keysHeld;
        if HeldAfter(s, p, k) {
          if i :| 0 <= i < n && PressesAt(p, i, k) && forall j :: i < j < n ==> !EndsHoldAt(p, j, k) {
            assert PressesAt(ds, i, k) && forall j :: i < j < |ds| ==> !EndsHoldAt(ds, j, k);
          }
        }
        if HeldAfter(s, ds, k) {
          if i :| 0 <= i < |ds| && PressesAt(ds, i, k) && forall j :: i < j < |ds| ==> !EndsHoldAt(ds, j, k) {
            assert i < n;
            assert PressesAt(p, i, k) && forall j :: i < j < n ==> !EndsHoldAt(p, j, k);
          }
        }
      }
    }
  }

  lemma {:induction false} PressedIffUnflushedPress(s: State, ds: seq<Delivery>, k: Scan)
    ensures k in Run(s, ds).keysPressed <==> PressedDuring(s, ds, k)
    decreases |ds|
  {
    if ds != [] {
      var n := |ds| - 1;
      var p := ds[..n];
      PressedIffUnflushedPress(s, p, k);
      assert forall j :: 0 <= j < n ==> (FocusLostAt(p, j) <==> FocusLostAt(ds, j)) && (PressesAt(p, j, k) <==> PressesAt(ds, j, k));
      if PressesAt(ds, n, k) {
        assert PressedDuring(s, ds, k);
      } else if FocusLostAt(ds, n) {
        assert !PressedDuring(s, ds, k);
      } else {
        assert k in Run(s, ds).keysPressed <==> k in Run(s, p).keysPressed;
        if PressedDuring(s, p, k) {
          if i :| 0 <= i < n && PressesAt(p, i, k) && forall j :: i < j < n ==> !FocusLostAt(p, j) {
            assert PressesAt(ds, i, k) && forall j :: i < j < |ds| ==> !FocusLostAt(ds, j);
          }
        }
        if PressedDuring(s, ds, k) {
          if i :| 0 <= i < |ds| && PressesAt(ds, i, k) && forall j :: i < j < |ds| ==> !FocusLostAt(ds, j) {
            assert i < n;
            assert PressesAt(p, i, k) && forall j :: i < j < n ==> !FocusLostAt(p, j);
          }
        }
      }
    }
  }

  /** The sum of the raw mouse movements the UI did not capture. */
  function RawMotion(ds: seq<Delivery>): Vec2
    decreases |ds|
  {
    if ds == [] then ZERO
    else
      var d := ds[|ds| - 1];
      var m := RawMotion(ds[..|ds| - 1]);
      if d.event.MouseMovedRaw? && !d.captureMouse then m.Plus(d.event.delta) else m
  }

  /** The position moves by exactly the uncaptured raw motion: nothing else, focus loss included, moves it. */
  lemma {:induction false} PositionFollowsRawMotion(s: State, ds: seq<Delivery>)
    ensures Run(s, ds).mousePosition == s.mousePosition.Plus(RawMotion(ds))
    decreases |ds|
  {
    if ds != [] {
      PositionFollowsRawMotion(s, ds[..|ds| - 1]);
    }
  }

  /** Without a focus loss, the delta after a run is the delta before plus the uncaptured raw motion. */
  lemma {:induction false} DeltaFollowsRawMotion(s: State, ds: seq<Delivery>)
    requires forall j :: 0 <= j < |ds| ==> !FocusLostAt(ds, j)
    ensures Run(s, ds).mouseDelta == s.mouseDelta.Plus(RawMotion(ds))
    decreases |ds|
  {
    if ds != [] {
      var p := ds[..|ds| - 1];
      assert forall j :: 0 <= j < |p| ==> !FocusLostAt(p, j) by {
        forall j | 0 <= j < |p| ensures !FocusLostAt(p, j) {
          assert !FocusLostAt(ds, j);
        }
      }
      DeltaFollowsRawMotion(s, p);
      assert !FocusLostAt(ds, |ds| - 1);
    }
  }
}
