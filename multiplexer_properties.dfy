/** What the multiplexer's event handling promises, one event at a time and
    over whole sequences of events. */
module MultiplexerProperties {
  import opened Wrappers
  import opened Multiplexer

  /** A move to a point with no positive coordinate, such as (0, 0), is ignored:
      no field changes. */
  lemma NonPositiveMoveIgnored(s: MuxState, p: Position)
    requires p.x <= 0.0 && p.y <= 0.0
    ensures Step(s, CursorMoved(p)) == s
  {
  }

  /** The left button sets the drag lock on press and clears it on release;
      other buttons leave it as it was. Nothing else changes. */
  lemma MouseInputDragLock(s: MuxState, button: MouseButton, state: ElementState)
    ensures var t := Step(s, MouseInput(button, state));
      && t.mouseClicked == (if button == Left then state == Pressed else s.mouseClicked)
      && t == s.(mouseClicked := t.mouseClicked)
  {
  }

  /** While the drag lock holds, no cursor move changes focus. */
  lemma DragFreezesFocus(s: MuxState, p: Position)
    requires s.mouseClicked
    ensures Step(s, CursorMoved(p)).leftFocus == s.leftFocus
    ensures Step(s, CursorMoved(p)).mouseClicked
  {
  }

  /** Without the drag lock, a real move sets focus to "the truncated cursor
      lies in the left area". */
  lemma MoveRecomputesFocus(s: MuxState, p: Position)
    requires !s.mouseClicked && (p.x > 0.0 || p.y > 0.0)
    ensures Step(s, CursorMoved(p)).leftFocus == InLeftArea(s, p)
  {
  }

  /** For coordinates within u32 range, "in the left area" means x < partition + 1
      and y < height + 1: both far edges belong to the left side, so the pixel
      column x == partition, which the right area also covers, counts as left. */
  lemma InLeftAreaBounds(s: MuxState, p: Position)
    requires p.x < U32Max as real && p.y < U32Max as real
    ensures InLeftArea(s, p) <==>
      p.x < s.partition as real + 1.0 && p.y < s.windowSize.height as real + 1.0
  {
  }

  /** After a real move the focused side's cursor takes the new position: the
      raw one on the left, one translated by (-partition, 0) on the right. The
      other side's cursor, the modifiers, the window size and the drag lock are
      untouched. */
  lemma MoveUpdatesFocusedCursor(s: MuxState, p: Position)
    requires p.x > 0.0 || p.y > 0.0
    ensures var t := Step(s, CursorMoved(p));
      && t.modifiers == s.modifiers && t.windowSize == s.windowSize
      && t.mouseClicked == s.mouseClicked && t.partition == s.partition
      && (t.leftFocus ==> t.left.cursorPosition == p && t.right == s.right)
      && (!t.leftFocus ==>
            t.right.cursorPosition == Position(p.x - s.partition as real, p.y) && t.left == s.left)
  {
  }

  /** A resize only records the new size, and the next `areas()` splits that size. */
  lemma ResizeOnlySetsSize(s: MuxState, size: PixelSize)
    ensures Step(s, Resized(size)) == s.(windowSize := size)
    ensures s.partition <= size.width ==>
      var areas := AreasOf(s.partition, Step(s, Resized(size)).windowSize);
      && areas.0.size.width as int + areas.1.size.width as int == size.width as int
      && areas.0.size.height == areas.1.size.height == size.height
  {
  }

  /** A modifier change only records the new modifiers. */
  lemma ModifiersOnlySetsModifiers(s: MuxState, m: ModifiersState)
    ensures Step(s, ModifiersChanged(m)) == s.(modifiers := m)
  {
  }

  /** Every event goes, unchanged, to exactly one side: the left one exactly
      when the left side holds focus after the update. */
  lemma EventRoutedOnce(s: MuxState, ev: WindowEvent)
    ensures var t := Step(s, ev); var r := Route(t, ev);
      && (r.0 == Some(ev) && r.1 == None) != (r.0 == None && r.1 == Some(ev))
      && (r.0 == Some(ev) <==> t.leftFocus)
  {
  }

  /** The state after a sequence of events. */
  function Run(s: MuxState, evs: seq<WindowEvent>): MuxState
    decreases |evs|
  {
    if evs == [] then s else Step(Run(s, evs[..|evs| - 1]), evs[|evs| - 1])
  }

  /** The index of the most recent cursor move the (0, 0) guard lets through. */
  function LastRealMove(evs: seq<WindowEvent>): (r: Option<nat>)
    ensures r.Some? ==> r.value < |evs| && IsRealMove(evs[r.value])
    ensures r.Some? ==> forall j :: r.value < j < |evs| ==> !IsRealMove(evs[j])
    ensures r.None? ==> forall j :: 0 <= j < |evs| ==> !IsRealMove(evs[j])
    decreases |evs|
  {
    if evs == [] then None
    else if IsRealMove(evs[|evs| - 1]) then Some(|evs| - 1)
    else LastRealMove(evs[..|evs| - 1])
  }

  lemma {:induction false} RunKeepsPartition(s: MuxState, evs: seq<WindowEvent>)
    ensures Run(s, evs).partition == s.partition
    decreases |evs|
  {
    if evs != [] {
      RunKeepsPartition(s, evs[..|evs| - 1]);
    }
  }

  /** Drag lock over a sequence: once the left button is down, focus stays put
      until a left-button release arrives, wherever the cursor goes. */
  lemma {:induction false} DragLockHoldsUntilRelease(s: MuxState, evs: seq<WindowEvent>)
    requires s.mouseClicked
    requires forall j :: 0 <= j < |evs| ==> evs[j] != MouseInput(Left, Released)
    ensures Run(s, evs).mouseClicked
    ensures Run(s, evs).leftFocus == s.leftFocus
    decreases |evs|
  {
    if evs != [] {
      DragLockHoldsUntilRelease(s, evs[..|evs| - 1]);
    }
  }

  /** With the button released throughout, focus is "left" exactly when the
      most recent real move fell inside the left area as it was at that
      moment; with no real move, focus is what it was. */
  lemma {:induction false} FocusFollowsLastMove(s: MuxState, evs: seq<WindowEvent>)
    requires !s.mouseClicked
    requires forall j :: 0 <= j < |evs| ==> evs[j] != MouseInput(Left, Pressed)
    ensures !Run(s, evs).mouseClicked
    ensures Run(s, evs).leftFocus == match LastRealMove(evs)
      case None => s.leftFocus
      case Some(k) => InLeftArea(Run(s, evs[..k]), evs[k].position)
    decreases |evs|
  {
    if evs != [] {
      var n := |evs| - 1;
      var prefix := evs[..n];
      FocusFollowsLastMove(s, prefix);
      if !IsRealMove(evs[n]) {
        assert LastRealMove(evs) == LastRealMove(prefix);
        match LastRealMove(prefix)
        case None =>
        case Some(k) =>
          assert prefix[..k] == evs[..k];
      }
    }
  }

  /** The scenario of an 800x600 window split at 500: the areas, then a move
      to (100, 100) focusing the left side, then a move to (600, 300)
      focusing the right side with local cursor (100, 300). */
  lemma EndToEndScenario()
    ensures var s0 := InitialState(500, PixelSize(800, 600));
      && AreasOf(500, s0.windowSize)
         == (DrawArea(PixelPosition(0, 0), PixelSize(500, 600)),
             DrawArea(PixelPosition(500, 0), PixelSize(300, 600)))
      && var s1 := Step(s0, CursorMoved(Position(100.0, 100.0)));
      && s1.leftFocus && s1.left.cursorPosition == Position(100.0, 100.0)
      && var s2 := Step(s1, CursorMoved(Position(600.0, 300.0)));
      && !s2.leftFocus && s2.right.cursorPosition == Position(100.0, 300.0)
      && s2.left.cursorPosition == Position(100.0, 100.0)
  {
  }
}
