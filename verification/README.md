# Movable and resizable panels: a Dafny model of the geometry core

This project models the integer geometry at the heart of a desktop canvas
editor. The editor shows panels ("forms") on a scrollable container. The
user can drag a panel to move it, or drag one of its edges or corners to
resize it. The model covers three parts:

- **The panel drag/resize engine** (`CustomForm`, `customform.dfy`).
  - A hit test sorts a panel-local pointer position into one of nine drag
    modes, using an 8 pixel grab margin. Corners win over edges.
  - Each drag mode maps to a hover cursor.
  - A press/move/release state machine drives the drag. `Move` translates
    the panel and clamps it inside its parent. The resize modes shift the
    edges they own, normalise the rectangle and floor its size at 260×160.
- **The main window's bookkeeping** (`MainWindow`, `mainwindow.dfy`).
  - The window keeps a list of guarded form pointers. It drops the nulled
    ones and grows the container's minimum size so that every form plus a
    40 pixel margin fits. The minimum size never shrinks.
  - It places new forms, and removes the entries of a closed form.
- **The canvas surface** (`FormCanvas`, `formcanvas.dfy`). It stores guide
  lines and asks for a repaint only when they change. It paints a
  background grid every 20 pixels.

Supporting modules:

- `Geometry` (`geometry.dfy`): points, lines and rectangles with Qt's
  conventions. A rectangle is stored by its inclusive edges, so
  `right = x + width - 1`.
- `Seqs` (`seqs.dfy`): an `Option` type and one order-preserving `Filter`.
  Filter serves both for erasing null entries and for `removeAll`.

Everything is a pure function or a method over immutable values.

- An event handler takes the panel state and returns the new state plus
  the `moved` notification it emits, if any.
- The parent widget's rectangle is a parameter.
- `QRect::normalized` is a parameter of type `Geometry.Normalizer`. The
  library code is not part of this model. The only thing assumed about it
  is that its result has non-negative width and height. Every property
  below holds for every such normaliser.

A pointer that Qt's guarded pointer has nulled (its form was destroyed) is
the `None` entry of the window's list. Each list entry holds the form's
identity and its current geometry. `OnFormMoved` refreshes that geometry
from the rectangle the `moved` signal carries. That rectangle is the
form's `geometry()` at emission, so the container computation reads the
same numbers as the source, which reads each form's geometry directly.

Points of the code's behaviour that the model keeps as written:

- In the code, a `Move` drag ignores the normalised and floored rectangle it
  computes. `move(p)` keeps the widget's current size. Only the resize modes
  install the floored rectangle.
- The resize modes are not clamped to the parent.
- The main window's container is a plain widget. It is not the canvas that
  draws the grid and the guide lines.

## Model

| member | source | states |
|---|---|---|
| CustomForm.HitTest | customform.cpp:191-208 | Never returns `None`. The mode owns exactly the edges the point is within the 8 px margin of, with left winning over right and top over bottom. It is `Move` exactly when 8 ≤ x ≤ width−8 and 8 ≤ y ≤ height−8. |
| CustomForm.HitTestCorners | customform.cpp:198-205 | On a panel at least 15 px each way, each corner band yields its corner mode and never a single-edge mode. Example: x<8 and y<8 gives `ResizeTopLeft`. |
| CustomForm.EdgesDetermineMode | customform.h:32-36 | The nine modes other than `None` are told apart by the edges they own. `Move` owns none and each resize mode owns its own edge or edges. |
| CustomForm.CursorFor | customform.cpp:210-229 | Cursor by owned edges: F-diagonal for top-left and bottom-right, B-diagonal for top-right and bottom-left, horizontal for left/right only, vertical for top/bottom only, unset (Move, None) when no edge is owned. |
| CustomForm.ResizeEdges | customform.cpp:123-131 | Before normalisation a resize mode shifts each edge it owns by the delta's x (left/right) or y (top/bottom). Every other edge stays where it was. `Move` and `None` leave the anchor unchanged. |
| CustomForm.FloorSize | customform.cpp:135-137 | The result keeps the top-left corner. A width below 260 becomes exactly 260 and a height below 160 becomes exactly 160, each independently of the other. A dimension already at its minimum is unchanged. |
| CustomForm.ResizeGeometry | customform.cpp:123-139 | A resize drag's geometry keeps the normalised rectangle's top-left corner. Its width is the normalised width, or exactly 260 if that is smaller. Its height is the normalised height, or exactly 160 if that is smaller. It is the normalised rectangle itself when that already meets the minimum. |
| CustomForm.Clamp | customform.cpp:117-118 | `max(lo, min(v, hi))`: stays at or above `lo` and, when the range is non-empty, at or below `hi`. It is `v` inside the range and `lo` when the range is empty. |
| CustomForm.MoveTopLeft | customform.cpp:111-119 | With no parent, the anchor's corner plus the delta. Inside a parent, each axis is clamped on its own, against the range from the parent's left (top) edge to the last position where the panel still fits. A coordinate inside that range is kept. One past the far end becomes that last position. One before the near edge, or any coordinate when the panel does not fit, becomes the parent's left (top) edge. As a consequence, a delta that already keeps the panel inside is not altered. |
| CustomForm.NewPanel | customform.h:49-51 | A new panel is not dragging (`None`) and has no cursor set. |
| CustomForm.OnPress | customform.cpp:90-97 | A left press sets the mode to the hit test at the press point and records the global pointer and the geometry as anchors. Other buttons change nothing. No signal is emitted. |
| CustomForm.OnMove | customform.cpp:99-143 | Hovering (mode `None`) keeps the geometry, sets the cursor for the hover mode and emits nothing. A drag keeps mode, anchors and cursor and emits `moved` with the new geometry. `Move` keeps the panel's size. A resize leaves it at least 260×160. |
| CustomForm.OnRelease | customform.cpp:145-151 | A left release returns to `None`, unsets the cursor and emits `moved` with the unchanged geometry. Other buttons change nothing. |
| CustomForm.RunPreservesValid | customform.cpp:90-151 | After any sequence of presses, moves and releases, a panel that starts at least 260×160 is still at least that size. During a `Move` drag it keeps its size at the press. |
| CustomForm.MoveFollowsTotalDelta | customform.cpp:101-139 | During a drag, a move sets the geometry to `DragGeometry` of the press geometry and the total delta since the press, whatever happened in between. |
| CustomForm.MovesKeepDrag | customform.cpp:99-143 | Any number of drag moves keeps the drag going. The mode, the press pointer and the press geometry stay unchanged, and the panel stays valid. |
| CustomForm.IntermediateMovesForgotten | customform.cpp:101-109 | After any number of drag moves, the next move puts the panel exactly where that move alone would have put it straight from the press. |
| CustomForm.MoveStaysInsideParent | customform.cpp:111-120 | A `Move` drag inside a parent at least as large as the panel keeps the panel wholly inside the parent, for any delta. |
| CustomForm.HoverKeepsGeometry | customform.cpp:104-107 | Any number of moves while not dragging never changes the geometry and never starts a drag. |
| MainWindow.InitialWindow | mainwindow.cpp:16-18 | The window starts with no forms and a container minimum size of 1400×900. |
| MainWindow.EraseNulls | mainwindow.cpp:80-83 | The erase loop keeps exactly the non-null entries, in their order. |
| MainWindow.MaxEdges | mainwindow.cpp:78-90 | The running maxima start at 0 and bound every form's right and bottom edge. Each is 0 or attained by some form. |
| MainWindow.MaybeExpandContainer | mainwindow.cpp:76-99 | No null entries remain and the live entries stay in order. The minimum size never decreases and is at least 40 each way. It covers every live form's right/bottom edge plus 40. Each dimension is the old value, or 40, or some form's edge plus 40. `setMinimumSize` is called exactly when the size changes. With no live form, a minimum size of at least 40 stays as it is. |
| MainWindow.AddComponent | mainwindow.cpp:37-48 | With n entries in the list, the new form is placed at (40+20n, 40+20n) with size 420×280. It is appended after the compacted old entries. The container is extended for the list with the new entry appended: it never shrinks, it covers every live form, each dimension is the old one or the margin or some form's edge plus 40, and `resized` holds exactly when the size changed. |
| MainWindow.AddWideComponent | mainwindow.cpp:50-61 | The new form is always placed at (60, 360) with size 720×300. It is appended after the compacted old entries. The container is extended for the list with the new entry appended, with the same exact size and `resized` facts as `MaybeExpandContainer`. |
| MainWindow.OnFormMoved | mainwindow.cpp:63-66 | After a form reports its new geometry, the container is extended for the refreshed list. It never shrinks and covers every live form, including that geometry plus 40 if the form is in the list. Each dimension is the old one or attained by the margin or a form's edge plus 40, and `resized` holds exactly when the size changed. |
| MainWindow.OnFormClose | mainwindow.cpp:68-74 | A null form is a no-op with no resize. Otherwise no entry of that form remains, no null entry remains, every other live entry keeps its multiplicity. The container is extended for the list without that form, with the same exact size and `resized` facts as `MaybeExpandContainer`. |
| MainWindow.LiveEntriesKept | mainwindow.cpp:80-83 | Every live entry of the list survives the erase loop. |
| MainWindow.NoLiveCompactsEmpty | mainwindow.cpp:80-83 | A list holding only null entries erases to the empty list. |
| Seqs.FilterConcat | mainwindow.cpp:71 | Filtering distributes over concatenation, so the entries that `removeAll` and the erase loop keep stay in their original relative order. |
| FormCanvas.SetGuidelines | formcanvas.cpp:15-21 | The stored list becomes exactly the given list. A repaint is requested exactly when it differs from the stored one. |
| FormCanvas.ClearGuidelines | formcanvas.cpp:23-29 | The stored list becomes empty. A repaint is requested exactly when it was non-empty. |
| FormCanvas.ClearIsSetEmpty | formcanvas.cpp:23-29 | Clearing behaves exactly as setting the empty list. |
| FormCanvas.SetGuidelinesIdempotent | formcanvas.cpp:17-18 | Setting the same list again changes nothing and requests no repaint. |
| FormCanvas.ClearGuidelinesIdempotent | formcanvas.cpp:25-26 | Clearing twice: the second clear changes nothing and requests no repaint. |
| FormCanvas.GridLines | formcanvas.cpp:45-48 | The k-th vertical line is at x = 20k from top to bottom, and there is one for each k with 20k ≤ width (none for a negative width). The same holds for horizontal lines against the height. |
| FormCanvas.GridLineAt | formcanvas.h:23 | The x-coordinates of those lines are exactly the multiples of 20 between 0 and the extent. |

## Left out

- Painting: colours, pens, antialiasing, the panel border and the guide-line drawing. Only the grid coordinates are modelled.
- Widget construction: the tab widget, table model and text page, the toolbar, the scroll area and window sizing. All of it is user-interface wiring with no geometry.
- `resizeEvent`: the cursor refresh and the extra `moved` emission that Qt triggers after a resize. It depends on the global cursor position and on Qt's event dispatch.
- `enterEvent`, `leaveEvent` and `eventFilter`, the recursive mouse-tracking and event-filter installation, and the clearing of ancestor cursors. These depend on the toolkit's event routing and widget tree. The model's cursor is the panel's own cursor state.
- The context menu, the `requestClose` emission and `deleteLater`. A destroyed form appears only as a `None` entry in the window's list.
- `QRect::normalized` beyond non-negative width and height. Its code is not part of this model, so it stays an abstract parameter.
- The widget's own minimum-size enforcement in `setGeometry`. Every geometry the model installs already meets the 260×160 minimum.
- 32-bit integer overflow. All coordinates are unbounded integers. The source's `int` arithmetic (pointer deltas, `x += 20` in the grid loop) is assumed not to wrap at realistic screen sizes.
- Event ordering across panels and where the parent's rectangle comes from. `Run` takes a fixed parent rectangle for a whole event sequence.
- Snapping to the grid, to the parent or to sibling edges, and saving and loading layouts as JSON. The modelled files do not implement them.
- MainWindow.AddComponent: the new form's identity is a parameter. The freshness that allocation guarantees is not modelled, because no stated property depends on it.
