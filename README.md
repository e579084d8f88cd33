# Split-viewport input routing and grid geometry, in Dafny

This project models the two parts of the `wgpu_bug_minimal` 3D viewport that
have exact, checkable behaviour:

- **The screen multiplexer** (`src/screen_multiplexer.rs`). The window is split
  at a fixed pixel offset (`partition`) into a left and a right `DrawArea`.
  Every window event updates the multiplexer's state and is then handed, unchanged,
  to exactly one side: the side holding focus. A cursor move re-evaluates
  focus by testing the truncated cursor against the left area, with both far
  edges inclusive. The move is ignored when neither coordinate is positive. Focus is
  frozen while the left mouse button is held (the drag lock). The focused
  side records the cursor, translated into area-local coordinates on the right.
  Module `Multiplexer` holds the data types, the pure functions `AreasOf`,
  `Inside`, `CastToU32`, `Step` (the state update) and `Route` (the hand-out),
  and the class `ScreenMultiplexer`, whose fields are the struct's fields and
  whose `Event` method updates them in place. `Event` is proved against `Step` and `Route`.
  Module `MultiplexerProperties` proves what one event does and what a whole
  sequence of events does (`Run`).
- **The grid generator** (`src/shapes.rs`). `Shapes.Grid` is the loop that
  pushes four vertices per line index `i` in `-size..=size`. It is proved
  equal to the specification `GridSpec`, and the lemmas state the vertex count,
  flatness, the per-block colours and coordinates, and the symmetry of every
  segment. `Shapes.RainbowCube` is the constant cube data, with its index bounds.
  The vertex record of `src/vertex.rs` is the datatype `VertexFormat.Vertex`.

Numbers: `u32` is the newtype `Multiplexer.u32`. The f32 and f64 values are
reals. The cast `f64 as u32` is `CastToU32`: it truncates toward zero and
saturates at 0 and at `u32::MAX`.
`Inside` (`DrawArea::inside`), `LeftArea`, `RightOrigin`, `InLeftArea`,
`IsRealMove`, `Step`, `InitialState`, `Run`, `LineColor`, `GridBlock`,
`GridLines` and `GridSpec` are definitions without contracts of their own.
The lemmas below state what they mean.

## Model

| member | source | states |
|---|---|---|
| `Multiplexer.CastToU32` | src/screen_multiplexer.rs:77 | `x as u32`: 0 for x <= 0; u32::MAX from u32::MAX on; otherwise the integer r with r <= x < r + 1 |
| `Multiplexer.AreasOf` | src/screen_multiplexer.rs:38-52 | given partition <= width: left area at the origin, right area starting at x = partition, y = 0; the widths add up to the window width and both heights equal the window height |
| `Multiplexer.Route` | src/screen_multiplexer.rs:105-109 | exactly one side gets `Some`; it holds the event itself; it is the left side exactly when the left side holds focus |
| `Multiplexer.ScreenMultiplexer.constructor` | src/screen_multiplexer.rs:25-35 | a new multiplexer has left focus, no drag, the given partition and size, empty modifiers, and both cursors at the `Side::default` sentinel (-1, -1) |
| `Multiplexer.ScreenMultiplexer.Areas` | src/screen_multiplexer.rs:38-52 | the areas of the current window size; widths sum to the window width, heights equal the window height |
| `Multiplexer.ScreenMultiplexer.Cursors` | src/screen_multiplexer.rs:55-57 | the last cursor stored for the left side and for the right side |
| `Multiplexer.ScreenMultiplexer.Modifiers` | src/screen_multiplexer.rs:61-63 | the modifiers last reported |
| `Multiplexer.ScreenMultiplexer.Event` | src/screen_multiplexer.rs:66-110 | the new state is `Step` of the old one; exactly one of the two results is `Some(ev)`, the left one exactly when focus is left after the update |
| `MultiplexerProperties.NonPositiveMoveIgnored` | src/screen_multiplexer.rs:73 | a cursor move with x <= 0 and y <= 0 changes no field |
| `MultiplexerProperties.MouseInputDragLock` | src/screen_multiplexer.rs:94-101 | left press sets the drag lock, left release clears it, other buttons keep it; no other field changes |
| `MultiplexerProperties.DragFreezesFocus` | src/screen_multiplexer.rs:75-78 | while the drag lock holds, a cursor move keeps focus and the lock |
| `MultiplexerProperties.MoveRecomputesFocus` | src/screen_multiplexer.rs:74-78 | without the lock, a real move sets focus to "truncated cursor inside the left area" |
| `MultiplexerProperties.InLeftAreaBounds` | src/screen_multiplexer.rs:114-119 | for coordinates below u32::MAX, inside the left area iff x < partition + 1 and y < height + 1: the far edges are inclusive, so x == partition counts as left |
| `MultiplexerProperties.MoveUpdatesFocusedCursor` | src/screen_multiplexer.rs:79-85 | after a real move the focused side's cursor is the raw position (left) or the position minus (partition, 0) (right); the other side's cursor, modifiers, size, lock and partition are unchanged |
| `MultiplexerProperties.ResizeOnlySetsSize` | src/screen_multiplexer.rs:91-93 | a resize changes only the window size, and the next areas split the new width and span the new height |
| `MultiplexerProperties.ModifiersOnlySetsModifiers` | src/screen_multiplexer.rs:88-90 | a modifier change changes only the modifiers |
| `MultiplexerProperties.EventRoutedOnce` | src/screen_multiplexer.rs:105-109 | after any event's update, the event goes to exactly one side, the left one iff focus is left |
| `MultiplexerProperties.LastRealMove` | src/screen_multiplexer.rs:73 | the index of the last cursor move in a sequence that passes the (0, 0) guard, or none if no move passes it |
| `MultiplexerProperties.RunKeepsPartition` | src/screen_multiplexer.rs:66-103 | no sequence of events changes the partition |
| `MultiplexerProperties.DragLockHoldsUntilRelease` | src/screen_multiplexer.rs:75-78 | from a pressed state, any event sequence without a left release keeps the lock and leaves focus unchanged |
| `MultiplexerProperties.FocusFollowsLastMove` | src/screen_multiplexer.rs:73-78 | from a released state, with no left press in the sequence, focus is left iff the last real move fell in the left area as it was then; with no real move focus is unchanged |
| `MultiplexerProperties.EndToEndScenario` | src/screen_multiplexer.rs:38-85 | 800x600 split at 500: areas (0,0)/(500,600) and (500,0)/(300,600); a move to (100,100) focuses left with cursor (100,100); a move to (600,300) focuses right with local cursor (100,300) |
| `Shapes.Grid` | src/shapes.rs:24-42 | the loop's result equals `GridSpec(size, scale)`, the blocks for -size..=size in order |
| `Shapes.GridLinesLength` | src/shapes.rs:29-40 | the lines for lo..=hi hold 4 vertices per index, none when hi < lo |
| `Shapes.GridLinesAt` | src/shapes.rs:29-40 | vertex j is vertex j % 4 of the block for index lo + j / 4 |
| `Shapes.GridVertexCount` | src/shapes.rs:27-41 | `grid(size, scale)` has 4*(2*size+1) vertices for size >= 0 and none for size < 0 |
| `Shapes.GridIsFlat` | src/shapes.rs:36-39 | every grid vertex has y = 0 |
| `Shapes.GridBlockShape` | src/shapes.rs:28-39 | block k is (-L,0,c), (L,0,c), (c,0,-L), (c,0,L) for L = size*scale, c = (k-size)*scale, all light gray iff abs(k-size) % 10 == 0, else dark gray |
| `Shapes.GridSegmentsSymmetric` | src/shapes.rs:36-39 | each line-list segment has one colour, lies at y = 0 and its endpoints differ only in the sign of x (even segments) or z (odd segments) |
| `Shapes.RainbowCube` | src/shapes.rs:4-22 | 8 vertices at the corners of [-1,1]^3 and 36 indices, each below 8 |

## Left out

- `src/camera.rs`: floating-point trigonometry and perspective and look-at matrices from a linear-algebra library whose code is not part of this model.
- `src/primitive_renderer.rs`: pipeline, buffer and bind-group creation and render-pass commands over the GPU API. Its only logic is a length assertion on the matrix and storing the vertex count.
- `src/main.rs`: the windowing event loop, swapchain rebuild, staging-belt recall and thread pool (I/O and asynchronous plumbing).
- `src/vertex.rs`: its byte layout (`Pod`, `Zeroable`, `repr(C)`) is not modelled; only the record is.
- Floating-point rounding: f32 and f64 values are reals. The model does not capture NaN, infinities, the rounding of `size as f32 * scale` and `i as f32 * scale`, or the rounding of the f64 subtraction of the right area's origin.
- `ModifiersState` is an opaque bit set that is only stored and returned.
- Event fields the multiplexer never reads (device ids, the deprecated modifiers of a cursor move) are not part of the event datatype.
- Multiplexer.ScreenMultiplexer.Event: `event()` calls `areas()`, whose `width - partition` underflows when the window is narrower than the partition. In a debug build that panics; in a release build the wrapped width is never read by `event()`. The model computes only the left area and the right area's origin, so it follows the release-build behaviour and does not model the panic.
- Multiplexer.AreasOf: requires partition <= width, since the subtraction underflows otherwise (a panic in debug builds, a wrapped width in release builds).
- MultiplexerProperties.InLeftAreaBounds: characterises focus only for coordinates below u32::MAX. Above that, the cast saturates and `CastToU32` alone describes the result.
- Shapes.Grid: requires size != i32::MIN, where `-size` overflows the i32 range.
