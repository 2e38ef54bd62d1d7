/**
  The drag/resize engine of a movable, resizable panel ("form").

  A panel classifies a pointer position into one of nine drag modes
  (`HitTest`), shows a matching resize cursor while hovering, and runs a
  press/move/release state machine: a left press records the mode, the
  pointer's global position and the panel's geometry; each move recomputes
  the geometry from that anchor and the total pointer delta; a left release
  ends the drag.
 */
module CustomForm {
  import opened Geometry

  /** Width in pixels of the band along each edge that grabs that edge. */
  const Margin: int := 8
  /** Minimum panel size, also installed as the widget's minimum size. */
  const MinWidth: int := 260
  const MinHeight: int := 160

  datatype DragMode =
    | None | Move
    | ResizeLeft | ResizeRight | ResizeTop | ResizeBottom
    | ResizeTopLeft | ResizeTopRight | ResizeBottomLeft | ResizeBottomRight

  /** Which of the four edges a drag mode moves. */
  datatype Edges = Edges(left: bool, right: bool, top: bool, bottom: bool) {
    predicate Any() {
      left || right || top || bottom
    }
  }

  function OwnedEdges(m: DragMode): Edges {
    match m
    case None => Edges(false, false, false, false)
    case Move => Edges(false, false, false, false)
    case ResizeLeft => Edges(true, false, false, false)
    case ResizeRight => Edges(false, true, false, false)
    case ResizeTop => Edges(false, false, true, false)
    case ResizeBottom => Edges(false, false, false, true)
    case ResizeTopLeft => Edges(true, false, true, false)
    case ResizeTopRight => Edges(false, true, true, false)
    case ResizeBottomLeft => Edges(true, false, false, true)
    case ResizeBottomRight => Edges(false, true, false, true)
  }

  /** The mode a drag starts in, given the pointer's panel-local position and the panel size. */
  function HitTest(p: Point, width: int, height: int): (r: DragMode)
    ensures r != None
    // the mode grabs exactly the edges the point is near; left wins over right, top over bottom
    ensures OwnedEdges(r) == Edges(
                               p.x < Margin,
                               p.x > width - Margin && !(p.x < Margin),
                               p.y < Margin,
                               p.y > height - Margin && !(p.y < Margin))
    ensures r == Move <==> Margin <= p.x <= width - Margin && Margin <= p.y <= height - Margin
  {
    var left := p.x < Margin;
    var right := p.x > width - Margin;
    var top := p.y < Margin;
    var bottom := p.y > height - Margin;
    if left && top then ResizeTopLeft
    else if right && top then ResizeTopRight
    else if left && bottom then ResizeBottomLeft
    else if right && bottom then ResizeBottomRight
    else if left then ResizeLeft
    else if right then ResizeRight
    else if top then ResizeTop
    else if bottom then ResizeBottom
    else Move
  }

  /** A non-`None` mode is determined by the edges it owns. */
  lemma EdgesDetermineMode(m1: DragMode, m2: DragMode)
    requires m1 != None && m2 != None
    requires OwnedEdges(m1) == OwnedEdges(m2)
    ensures m1 == m2
  {
  }

  /**
    On a panel at least 15 pixels wide and high (every panel is, being at
    least MinWidth by MinHeight) the near-left and near-right bands are
    disjoint, as are near-top and near-bottom, so a corner band yields the
    corner mode and never a single-edge mode.
   */
  lemma HitTestCorners(p: Point, width: int, height: int)
    requires width >= 2 * Margin - 1 && height >= 2 * Margin - 1
    ensures p.x < Margin && p.y < Margin ==> HitTest(p, width, height) == ResizeTopLeft
    ensures p.x > width - Margin && p.y < Margin ==> HitTest(p, width, height) == ResizeTopRight
    ensures p.x < Margin && p.y > height - Margin ==> HitTest(p, width, height) == ResizeBottomLeft
    ensures p.x > width - Margin && p.y > height - Margin ==> HitTest(p, width, height) == ResizeBottomRight
  {
  }

  /** The pointer shapes a panel sets; `Unset` falls back to the ancestor's cursor. */
  datatype Cursor = Unset | SizeFDiag | SizeBDiag | SizeHor | SizeVer

  /** The hover cursor shown for a drag mode. */
  function CursorFor(m: DragMode): (c: Cursor)
    ensures var e := OwnedEdges(m);
            && (c == Unset <==> !e.Any())
            && (c == SizeHor <==> (e.left || e.right) && !(e.top || e.bottom))
            && (c == SizeVer <==> (e.top || e.bottom) && !(e.left || e.right))
            && (c == SizeFDiag <==> (e.left && e.top) || (e.right && e.bottom))
            && (c == SizeBDiag <==> (e.right && e.top) || (e.left && e.bottom))
  {
    match m
    case ResizeTopLeft | ResizeBottomRight => SizeFDiag
    case ResizeTopRight | ResizeBottomLeft => SizeBDiag
    case ResizeLeft | ResizeRight => SizeHor
    case ResizeTop | ResizeBottom => SizeVer
    case _ => Unset
  }

  /**
    The un-normalised rectangle of a resize drag: the anchor with the edges
    the mode owns shifted by the pointer delta (x for left/right, y for
    top/bottom) and every other edge where it was. `Move` and `None` leave
    the anchor as it is.
   */
  function ResizeEdges(m: DragMode, anchor: Rect, delta: Point): (g: Rect)
    ensures var e := OwnedEdges(m);
            && g.left == anchor.left + (if e.left then delta.x else 0)
            && g.right == anchor.right + (if e.right then delta.x else 0)
            && g.top == anchor.top + (if e.top then delta.y else 0)
            && g.bottom == anchor.bottom + (if e.bottom then delta.y else 0)
  {
    match m
    case ResizeLeft => anchor.(left := anchor.left + delta.x)
    case ResizeRight => anchor.(right := anchor.right + delta.x)
    case ResizeTop => anchor.(top := anchor.top + delta.y)
    case ResizeBottom => anchor.(bottom := anchor.bottom + delta.y)
    case ResizeTopLeft => anchor.(left := anchor.left + delta.x, top := anchor.top + delta.y)
    case ResizeTopRight => anchor.(right := anchor.right + delta.x, top := anchor.top + delta.y)
    case ResizeBottomLeft => anchor.(left := anchor.left + delta.x, bottom := anchor.bottom + delta.y)
    case ResizeBottomRight => anchor.(right := anchor.right + delta.x, bottom := anchor.bottom + delta.y)
    case _ => anchor
  }

  /**
    Raises a too-small width to exactly the minimum width and a too-small
    height to exactly the minimum height, each independently of the other,
    keeping the top-left corner.
   */
  function FloorSize(g: Rect): (r: Rect)
    ensures r.TopLeft() == g.TopLeft()
    ensures r.Width() >= MinWidth && r.Height() >= MinHeight
    ensures g.Width() >= MinWidth ==> r.Width() == g.Width()
    ensures g.Height() >= MinHeight ==> r.Height() == g.Height()
    ensures g.Width() < MinWidth ==> r.Width() == MinWidth
    ensures g.Height() < MinHeight ==> r.Height() == MinHeight
  {
    var w := if g.Width() < MinWidth then g.WithWidth(MinWidth) else g;
    if w.Height() < MinHeight then w.WithHeight(MinHeight) else w
  }

  /**
    The geometry a resize drag installs: shift the owned edges, normalise,
    floor each dimension separately at its minimum.
   */
  function ResizeGeometry(m: DragMode, anchor: Rect, delta: Point, normalize: Normalizer): (r: Rect)
    ensures r.Width() >= MinWidth && r.Height() >= MinHeight
    ensures var n := normalize(ResizeEdges(m, anchor, delta));
            && r.TopLeft() == n.TopLeft()
            && r.Width() == (if n.Width() < MinWidth then MinWidth else n.Width())
            && r.Height() == (if n.Height() < MinHeight then MinHeight else n.Height())
            && (n.Width() >= MinWidth && n.Height() >= MinHeight ==> r == n)
  {
    FloorSize(normalize(ResizeEdges(m, anchor, delta)))
  }

  /** std::max(lo, std::min(v, hi)): `lo` wins when the range is empty. */
  function Clamp(v: int, lo: int, hi: int): (r: int)
    ensures lo <= r
    ensures lo <= hi ==> r <= hi
    ensures lo <= v <= hi ==> r == v
    ensures v < lo || hi < lo ==> r == lo
    ensures lo <= hi < v ==> r == hi
  {
    if v <= hi then (if v < lo then lo else v)
    else (if hi < lo then lo else hi)
  }

  /** A panel is either a child of a parent widget, whose own rectangle bounds a move, or top-level. */
  datatype Parent = TopLevel | ChildOf(rect: Rect)

  /**
    The top-left corner a `Move` drag moves the panel to: the anchor's corner
    shifted by the delta, then clamped (each axis on its own) so that a panel
    of the anchor's size stays inside the parent. On an axis where the parent
    is too small, the corner goes to the parent's near edge.
   */
  function MoveTopLeft(anchor: Rect, delta: Point, parent: Parent): (p: Point)
    ensures parent.TopLevel? ==> p == anchor.TopLeft().Plus(delta)
    ensures parent.ChildOf? ==>
              var pr := parent.rect;
              && pr.left <= p.x && pr.top <= p.y
              && (anchor.Width() <= pr.Width() ==> p.x + anchor.Width() - 1 <= pr.right)
              && (anchor.Height() <= pr.Height() ==> p.y + anchor.Height() - 1 <= pr.bottom)
              && (pr.Contains(anchor.MovedTo(anchor.TopLeft().Plus(delta)))
                  ==> p == anchor.TopLeft().Plus(delta))
    // per axis, with q the unclamped corner and hi the last corner position that still fits
    ensures parent.ChildOf? ==>
              var pr := parent.rect;
              var q := anchor.TopLeft().Plus(delta);
              var hiX := pr.right - anchor.Width() + 1;
              && (pr.left <= q.x <= hiX ==> p.x == q.x)
              && (pr.left <= hiX < q.x ==> p.x == hiX)
              && (q.x < pr.left || hiX < pr.left ==> p.x == pr.left)
    ensures parent.ChildOf? ==>
              var pr := parent.rect;
              var q := anchor.TopLeft().Plus(delta);
              var hiY := pr.bottom - anchor.Height() + 1;
              && (pr.top <= q.y <= hiY ==> p.y == q.y)
              && (pr.top <= hiY < q.y ==> p.y == hiY)
              && (q.y < pr.top || hiY < pr.top ==> p.y == pr.top)
  {
    var p := anchor.TopLeft().Plus(delta);
    match parent
    case TopLevel => p
    case ChildOf(pr) =>
      Point(Clamp(p.x, pr.left, pr.right - anchor.Width() + 1),
            Clamp(p.y, pr.top, pr.bottom - anchor.Height() + 1))
  }

  /**
    The geometry a drag in mode `m` reaches when the pointer has travelled
    `delta` since the press: a function of the anchor and the total delta only.
   */
  function DragGeometry(m: DragMode, anchor: Rect, delta: Point, parent: Parent, normalize: Normalizer): Rect
  {
    if m == Move then anchor.MovedTo(MoveTopLeft(anchor, delta, parent))
    else ResizeGeometry(m, anchor, delta, normalize)
  }

  /** Mouse buttons, as far as the engine distinguishes them. */
  datatype Button = LeftButton | RightButton | MiddleButton

  /** The per-panel state the event handlers read and write. */
  datatype Panel = Panel(
    geom: Rect,          // the widget's geometry in its parent's coordinates
    mode: DragMode,
    pressGlobal: Point,  // global pointer position at the last left press
    pressGeom: Rect,     // geometry at the last left press
    cursor: Cursor)

  /** A freshly constructed panel placed at `geom`: not dragging, no cursor, empty anchors. */
  function NewPanel(geom: Rect): (s: Panel)
    ensures s.mode == None && s.cursor == Unset && s.geom == geom
  {
    // QPoint() is (0, 0); QRect() has its right/bottom one left/above its left/top.
    Panel(geom, None, Point(0, 0), Rect(0, 0, -1, -1), Unset)
  }

  /** The `moved` notification a handler emits, carrying the panel's geometry, or none. */
  datatype Signal = Silent | Moved(geom: Rect)

  datatype Step = Step(panel: Panel, signal: Signal)

  /** A mouse press at panel-local `local` and global `global`. */
  function OnPress(s: Panel, button: Button, local: Point, global: Point): (r: Step)
    ensures r.signal == Silent
    ensures button != LeftButton ==> r.panel == s
    ensures button == LeftButton ==>
              && r.panel.mode == HitTest(local, s.geom.Width(), s.geom.Height())
              && r.panel.mode != None
              && r.panel.pressGlobal == global
              && r.panel.pressGeom == s.geom
              && r.panel.geom == s.geom
              && r.panel.cursor == s.cursor
  {
    if button != LeftButton then Step(s, Silent)
    else
      Step(s.(mode := HitTest(local, s.geom.Width(), s.geom.Height()),
              pressGlobal := global,
              pressGeom := s.geom),
           Silent)
  }

  /**
    A mouse move. Hovering (mode `None`) only refreshes the cursor from the
    hit test. Dragging recomputes the geometry from the press anchor and the
    total delta: `Move` moves the widget, keeping its current size, to the
    clamped corner; the resize modes install `ResizeGeometry`. Every drag move
    emits `moved` with the new geometry.
   */
  function OnMove(s: Panel, local: Point, global: Point, parent: Parent, normalize: Normalizer): (r: Step)
    ensures r.panel.mode == s.mode
    ensures r.panel.pressGlobal == s.pressGlobal && r.panel.pressGeom == s.pressGeom
    ensures s.mode == None ==>
              && r.panel.geom == s.geom
              && r.panel.cursor == CursorFor(HitTest(local, s.geom.Width(), s.geom.Height()))
              && r.signal == Silent
    ensures s.mode != None ==> r.panel.cursor == s.cursor && r.signal == Moved(r.panel.geom)
    ensures s.mode == Move ==>
              && r.panel.geom.Width() == s.geom.Width()
              && r.panel.geom.Height() == s.geom.Height()
    ensures s.mode != None && s.mode != Move ==>
              r.panel.geom.Width() >= MinWidth && r.panel.geom.Height() >= MinHeight
  {
    var delta := global.Minus(s.pressGlobal);
    if s.mode == None then
      Step(s.(cursor := CursorFor(HitTest(local, s.geom.Width(), s.geom.Height()))), Silent)
    else
      var g := if s.mode == Move then s.geom.MovedTo(MoveTopLeft(s.pressGeom, delta, parent))
               else ResizeGeometry(s.mode, s.pressGeom, delta, normalize);
      Step(s.(geom := g), Moved(g))
  }

  /** A mouse release: a left release ends any drag, unsets the cursor and emits `moved`. */
  function OnRelease(s: Panel, button: Button): (r: Step)
    ensures button != LeftButton ==> r == Step(s, Silent)
    ensures button == LeftButton ==>
              && r.panel.mode == None
              && r.panel.cursor == Unset
              && r.panel.geom == s.geom
              && r.signal == Moved(s.geom)
  {
    if button != LeftButton then Step(s, Silent)
    else Step(s.(mode := None, cursor := Unset), Moved(s.geom))
  }

  /** The pointer events a panel handles, with panel-local and global positions. */
  datatype Event =
    | Press(button: Button, local: Point, global: Point)
    | MoveTo(local: Point, global: Point)
    | Release(button: Button)

  function Handle(s: Panel, ev: Event, parent: Parent, normalize: Normalizer): Step {
    match ev
    case Press(b, l, g) => OnPress(s, b, l, g)
    case MoveTo(l, g) => OnMove(s, l, g, parent, normalize)
    case Release(b) => OnRelease(s, b)
  }

  /** The panel after handling `events` in order, under a fixed parent. */
  function Run(s: Panel, events: seq<Event>, parent: Parent, normalize: Normalizer): Panel
    decreases |events|
  {
    if |events| == 0 then s
    else Run(Handle(s, events[0], parent, normalize).panel, events[1..], parent, normalize)
  }

  /**
    What every reachable panel satisfies: it is at least the minimum size,
    and during a `Move` drag it still has the size it had at the press.
   */
  predicate Valid(s: Panel) {
    && s.geom.Width() >= MinWidth && s.geom.Height() >= MinHeight
    && (s.mode == Move ==>
          s.geom.Width() == s.pressGeom.Width() && s.geom.Height() == s.pressGeom.Height())
  }

  lemma HandlePreservesValid(s: Panel, ev: Event, parent: Parent, normalize: Normalizer)
    requires Valid(s)
    ensures Valid(Handle(s, ev, parent, normalize).panel)
  {
  }

  /** No sequence of events makes a valid panel smaller than the minimum size. */
  lemma {:induction false} RunPreservesValid(s: Panel, events: seq<Event>, parent: Parent, normalize: Normalizer)
    requires Valid(s)
    ensures Valid(Run(s, events, parent, normalize))
    ensures Run(s, events, parent, normalize).geom.Width() >= MinWidth
    ensures Run(s, events, parent, normalize).geom.Height() >= MinHeight
    decreases |events|
  {
    if |events| > 0 {
      HandlePreservesValid(s, events[0], parent, normalize);
      RunPreservesValid(Handle(s, events[0], parent, normalize).panel, events[1..], parent, normalize);
    }
  }

  /**
    During a drag, a move event sets the geometry to `DragGeometry` of the
    press anchor and the total delta since the press: nothing else of the
    panel's history matters.
   */
  lemma MoveFollowsTotalDelta(s: Panel, local: Point, global: Point, parent: Parent, normalize: Normalizer)
    requires Valid(s) && s.mode != None
    ensures OnMove(s, local, global, parent, normalize).panel.geom
            == DragGeometry(s.mode, s.pressGeom, global.Minus(s.pressGlobal), parent, normalize)
  {
    if s.mode == Move {
      var p := MoveTopLeft(s.pressGeom, global.Minus(s.pressGlobal), parent);
      assert s.geom.MovedTo(p) == s.pressGeom.MovedTo(p);
    }
  }

  /** Only pointer moves: the events of a drag between press and release. */
  predicate AllMoves(events: seq<Event>) {
    forall i :: 0 <= i < |events| ==> events[i].MoveTo?
  }

  /** Moves during a drag keep the drag going: same mode, same anchors, still valid. */
  lemma {:induction false} MovesKeepDrag(s: Panel, moves: seq<Event>, parent: Parent, normalize: Normalizer)
    requires Valid(s) && s.mode != None
    requires AllMoves(moves)
    ensures var t := Run(s, moves, parent, normalize);
            && Valid(t) && t.mode == s.mode
            && t.pressGlobal == s.pressGlobal && t.pressGeom == s.pressGeom
    decreases |moves|
  {
    if |moves| > 0 {
      HandlePreservesValid(s, moves[0], parent, normalize);
      assert AllMoves(moves[1..]) by {
        forall i | 0 <= i < |moves[1..]| ensures moves[1..][i].MoveTo? {
          assert moves[1..][i] == moves[i + 1];
        }
      }
      MovesKeepDrag(Handle(s, moves[0], parent, normalize).panel, moves[1..], parent, normalize);
    }
  }

  /**
    Intermediate moves are forgotten: after any number of moves, one more
    move lands where that move alone would have landed from the press.
   */
  lemma IntermediateMovesForgotten(
    s: Panel, moves: seq<Event>, local: Point, global: Point, parent: Parent, normalize: Normalizer)
    requires Valid(s) && s.mode != None
    requires AllMoves(moves)
    ensures OnMove(Run(s, moves, parent, normalize), local, global, parent, normalize).panel.geom
            == OnMove(s, local, global, parent, normalize).panel.geom
  {
    MovesKeepDrag(s, moves, parent, normalize);
    var t := Run(s, moves, parent, normalize);
    MoveFollowsTotalDelta(t, local, global, parent, normalize);
    MoveFollowsTotalDelta(s, local, global, parent, normalize);
  }

  /**
    A `Move` drag inside a parent at least as large as the panel keeps the
    panel wholly inside the parent, whatever the delta.
   */
  lemma MoveStaysInsideParent(s: Panel, local: Point, global: Point, pr: Rect, normalize: Normalizer)
    requires Valid(s) && s.mode == Move
    requires s.pressGeom.Width() <= pr.Width() && s.pressGeom.Height() <= pr.Height()
    ensures pr.Contains(OnMove(s, local, global, ChildOf(pr), normalize).panel.geom)
  {
  }

  /** Hovering never moves or resizes the panel, and never starts a drag. */
  lemma {:induction false} HoverKeepsGeometry(s: Panel, moves: seq<Event>, parent: Parent, normalize: Normalizer)
    requires s.mode == None
    requires AllMoves(moves)
    ensures Run(s, moves, parent, normalize).geom == s.geom
    ensures Run(s, moves, parent, normalize).mode == None
    decreases |moves|
  {
    if |moves| > 0 {
      assert AllMoves(moves[1..]) by {
        forall i | 0 <= i < |moves[1..]| ensures moves[1..][i].MoveTo? {
          assert moves[1..][i] == moves[i + 1];
        }
      }
      HoverKeepsGeometry(Handle(s, moves[0], parent, normalize).panel, moves[1..], parent, normalize);
    }
  }
}
