/** The screen multiplexer (src/screen_multiplexer.rs): the window is split at
    a fixed pixel offset into a left and a right draw area, and every window
    event is handed to exactly one of them, the one holding focus. */
module Multiplexer {
  import opened Wrappers

  newtype u32 = x: int | 0 <= x < 0x1_0000_0000
  const U32Max: u32 := 0xFFFF_FFFF

  /** `PhysicalPosition<f64>`: window coordinates of the cursor. */
  datatype Position = Position(x: real, y: real)
  /** `PhysicalPosition<u32>`. */
  datatype PixelPosition = PixelPosition(x: u32, y: u32)
  /** `PhysicalSize<u32>`. */
  datatype PixelSize = PixelSize(width: u32, height: u32)

  datatype DrawArea = DrawArea(position: PixelPosition, size: PixelSize)

  /** winit's modifier-key bit set; the multiplexer only stores and returns it. */
  datatype ModifiersState = ModifiersState(bits: bv32)
  const NoModifiers := ModifiersState(0)

  datatype MouseButton = Left | Right | Middle | OtherButton(code: int)
  datatype ElementState = Pressed | Released

  /** The window events the multiplexer tells apart; every other kind is `Other`. */
  datatype WindowEvent =
    | CursorMoved(position: Position)
    | ModifiersChanged(modifiers: ModifiersState)
    | Resized(size: PixelSize)
    | MouseInput(button: MouseButton, state: ElementState)
    | Other(kind: nat)

  /** Per-partition input state: the last cursor position delivered to it. */
  datatype Side = Side(cursorPosition: Position)

  /** `Side::default()`: the sentinel (-1, -1) meaning "no cursor yet". */
  const DefaultSide := Side(Position(-1.0, -1.0))

  /** The multiplexer's fields as one value. */
  datatype MuxState = MuxState(
    modifiers: ModifiersState,
    windowSize: PixelSize,
    leftFocus: bool,
    mouseClicked: bool,
    partition: u32,
    left: Side,
    right: Side)

  /** `f64 as u32`: truncation toward zero, saturating at 0 and at u32::MAX. */
  function CastToU32(x: real): (r: u32)
    ensures x <= 0.0 ==> r == 0
    ensures 0.0 <= x < U32Max as real ==> r as real <= x < r as real + 1.0
    ensures x >= U32Max as real ==> r == U32Max
  {
    if x <= 0.0 then 0 else if x >= U32Max as real then U32Max else x.Floor as u32
  }

  /** `DrawArea::inside`: containment with BOTH far edges inclusive. The u32
      sum position + size must not overflow (a panic in debug builds). */
  predicate Inside(area: DrawArea, p: PixelPosition)
    requires area.position.x as int + area.size.width as int <= U32Max as int
    requires area.position.y as int + area.size.height as int <= U32Max as int
  {
    && p.x >= area.position.x
    && p.y >= area.position.y
    && p.x <= area.position.x + area.size.width
    && p.y <= area.position.y + area.size.height
  }

  /** The left area: from the origin, `partition` pixels wide, full height. */
  function LeftArea(partition: u32, windowSize: PixelSize): DrawArea {
    DrawArea(PixelPosition(0, 0), PixelSize(partition, windowSize.height))
  }

  /** Where the right area starts: (partition, 0). */
  function RightOrigin(partition: u32): PixelPosition {
    PixelPosition(partition, 0)
  }

  /** `areas()`. The u32 subtraction width - partition underflows when the
      partition lies beyond the window (a panic in debug builds), hence the
      precondition. The two areas sit side by side, their widths add up to the
      window's width and both span its full height. */
  function AreasOf(partition: u32, windowSize: PixelSize): (r: (DrawArea, DrawArea))
    requires partition <= windowSize.width
    ensures r.0.position == PixelPosition(0, 0) && r.1.position.y == 0
    ensures r.1.position.x == r.0.size.width == partition
    ensures r.0.size.width as int + r.1.size.width as int == windowSize.width as int
    ensures r.0.size.height == r.1.size.height == windowSize.height
  {
    (LeftArea(partition, windowSize),
     DrawArea(RightOrigin(partition), PixelSize(windowSize.width - partition, windowSize.height)))
  }

  /** The state `new(partition, initial_size)` builds. */
  function InitialState(partition: u32, size: PixelSize): MuxState {
    MuxState(NoModifiers, size, true, false, partition, DefaultSide, DefaultSide)
  }

  /** A cursor move the guard lets through: some coordinate strictly positive. */
  predicate IsRealMove(ev: WindowEvent) {
    ev.CursorMoved? && (ev.position.x > 0.0 || ev.position.y > 0.0)
  }

  /** Focus re-evaluation: is the truncated cursor inside the left area? */
  predicate InLeftArea(s: MuxState, p: Position) {
    Inside(LeftArea(s.partition, s.windowSize), PixelPosition(CastToU32(p.x), CastToU32(p.y)))
  }

  /** The state update `event()` performs before routing. */
  function Step(s: MuxState, ev: WindowEvent): MuxState {
    match ev
    case CursorMoved(p) =>
      if p.x > 0.0 || p.y > 0.0 then
        var focus := if s.mouseClicked then s.leftFocus else InLeftArea(s, p);
        var origin := RightOrigin(s.partition);
        if focus then s.(leftFocus := focus, left := Side(p))
        else s.(leftFocus := focus,
                right := Side(Position(p.x - origin.x as real, p.y - origin.y as real)))
      else s
    case ModifiersChanged(m) => s.(modifiers := m)
    case Resized(size) => s.(windowSize := size)
    case MouseInput(Left, Pressed) => s.(mouseClicked := true)
    case MouseInput(Left, Released) => s.(mouseClicked := false)
    case _ => s
  }

  /** Routing after the update: the event, unchanged, goes to exactly one side,
      the left one exactly when the left side holds focus. */
  function Route(s: MuxState, ev: WindowEvent): (r: (Option<WindowEvent>, Option<WindowEvent>))
    ensures r.0.Some? != r.1.Some?
    ensures r.0.Some? <==> s.leftFocus
    ensures r.0.Some? ==> r.0.value == ev
    ensures r.1.Some? ==> r.1.value == ev
  {
    if s.leftFocus then (Some(ev), None) else (None, Some(ev))
  }

  class ScreenMultiplexer {
    var modifiers: ModifiersState
    var windowSize: PixelSize
    var leftFocus: bool
    var mouseClicked: bool
    var partition: u32
    var left: Side
    var right: Side

    ghost function State(): MuxState
      reads this
    {
      MuxState(modifiers, windowSize, leftFocus, mouseClicked, partition, left, right)
    }

    /** `new(partition, initial_size)`: left focus, no drag, no cursor on either side. */
    constructor (partition: u32, initialSize: PixelSize)
      ensures leftFocus && !mouseClicked
      ensures this.partition == partition && windowSize == initialSize
      ensures modifiers == NoModifiers
      ensures left.cursorPosition == right.cursorPosition == Position(-1.0, -1.0)
      ensures State() == InitialState(partition, initialSize)
    {
      this.partition := partition;
      modifiers := NoModifiers;
      windowSize := initialSize;
      leftFocus := true;
      mouseClicked := false;
      left := DefaultSide;
      right := DefaultSide;
    }

    /** `areas()`, recomputed from the current window size. */
    function Areas(): (r: (DrawArea, DrawArea))
      reads this
      requires partition <= windowSize.width
      ensures r.0.size.width as int + r.1.size.width as int == windowSize.width as int
      ensures r.0.size.height == r.1.size.height == windowSize.height
      ensures r == AreasOf(partition, windowSize)
    {
      AreasOf(partition, windowSize)
    }

    /** `cursors()`: the last cursor of each side, the right one relative to
        the right area's origin. */
    function Cursors(): (r: (Position, Position))
      reads this
      ensures r == (State().left.cursorPosition, State().right.cursorPosition)
    {
      (left.cursorPosition, right.cursorPosition)
    }

    /** `modifiers()`: the modifier state last reported. */
    function Modifiers(): (m: ModifiersState)
      reads this
      ensures m == State().modifiers
    {
      modifiers
    }

    /** `event()`: update the state, then hand the event to the focused side. */
    method Event(ev: WindowEvent) returns (toLeft: Option<WindowEvent>, toRight: Option<WindowEvent>)
      modifies this
      ensures State() == Step(old(State()), ev)
      ensures (toLeft, toRight) == Route(State(), ev)
      ensures toLeft.Some? != toRight.Some?
      ensures toLeft == (if leftFocus then Some(ev) else None)
      ensures toRight == (if leftFocus then None else Some(ev))
    {
      match ev {
        case CursorMoved(position) =>
          var x, y := position.x, position.y;
          if x > 0.0 || y > 0.0 {
            // Only the left area and the right area's origin are read here.
            var leftArea, rightOrigin := LeftArea(partition, windowSize), RightOrigin(partition);
            if !mouseClicked {
              leftFocus := Inside(leftArea, PixelPosition(CastToU32(x), CastToU32(y)));
            }
            if leftFocus {
              left := left.(cursorPosition := position);
            } else {
              right := right.(cursorPosition := position);
              right := right.(cursorPosition := right.cursorPosition.(x := right.cursorPosition.x - rightOrigin.x as real));
              right := right.(cursorPosition := right.cursorPosition.(y := right.cursorPosition.y - rightOrigin.y as real));
            }
          }
        case ModifiersChanged(newModifiers) =>
          modifiers := newModifiers;
        case Resized(newSize) =>
          windowSize := newSize;
        case MouseInput(Left, state) =>
          match state {
            case Pressed => mouseClicked := true;
            case Released => mouseClicked := false;
          }
        case _ =>
      }
      if leftFocus {
        toLeft, toRight := Some(ev), None;
      } else {
        toLeft, toRight := None, Some(ev);
      }
    }
  }
}
