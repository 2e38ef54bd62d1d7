/**
  The canvas surface: it stores the guide lines it is asked to show,
  repainting only when that set really changes, and paints a background
  grid every `GridSize` pixels.
 */
module FormCanvas {
  import opened Geometry

  /** Spacing of the background grid, also what the canvas reports as its grid size. */
  const GridSize: int := 20

  datatype Canvas = Canvas(guides: seq<Line>)

  /** The canvas after a request, and whether it asked for a repaint. */
  datatype Update = Update(canvas: Canvas, repaint: bool)

  /** Replaces the stored guide lines; repaints only if the list differs from the stored one. */
  function SetGuidelines(c: Canvas, lines: seq<Line>): (u: Update)
    ensures u.canvas.guides == lines
    ensures u.repaint <==> c.guides != lines
  {
    if c.guides == lines then Update(c, false)
    else Update(Canvas(lines), true)
  }

  /** Empties the stored guide lines; repaints only if there were any. */
  function ClearGuidelines(c: Canvas): (u: Update)
    ensures u.canvas.guides == []
    ensures u.repaint <==> |c.guides| > 0
  {
    if |c.guides| == 0 then Update(c, false)
    else Update(Canvas([]), true)
  }

  /** Clearing behaves exactly as setting the empty list. */
  lemma ClearIsSetEmpty(c: Canvas)
    ensures ClearGuidelines(c) == SetGuidelines(c, [])
  {
  }

  /** Setting the same list twice: the second request changes nothing and does not repaint. */
  lemma SetGuidelinesIdempotent(c: Canvas, lines: seq<Line>)
    ensures var u := SetGuidelines(c, lines);
            SetGuidelines(u.canvas, lines) == Update(u.canvas, false)
  {
  }

  /** Clearing twice: the second request changes nothing and does not repaint. */
  lemma ClearGuidelinesIdempotent(c: Canvas)
    ensures var u := ClearGuidelines(c);
            ClearGuidelines(u.canvas) == Update(u.canvas, false)
  {
  }

  /**
    The background grid of a canvas `width` by `height`: a vertical line
    from top to bottom at every multiple of the grid size from 0 to the
    width inclusive, left to right, and a horizontal line from left to
    right at every multiple from 0 to the height inclusive, top to bottom.
   */
  method GridLines(width: int, height: int) returns (vertical: seq<Line>, horizontal: seq<Line>)
    ensures |vertical| == if width < 0 then 0 else width / GridSize + 1
    ensures |horizontal| == if height < 0 then 0 else height / GridSize + 1
    ensures forall k :: 0 <= k < |vertical| ==> vertical[k] == Line(k * GridSize, 0, k * GridSize, height)
    ensures forall k :: 0 <= k < |horizontal| ==> horizontal[k] == Line(0, k * GridSize, width, k * GridSize)
  {
    vertical := [];
    var x := 0;
    while x <= width
      invariant x == |vertical| * GridSize
      invariant x <= if width < 0 then 0 else width + GridSize
      invariant forall k :: 0 <= k < |vertical| ==> vertical[k] == Line(k * GridSize, 0, k * GridSize, height)
      decreases width - x
    {
      vertical := vertical + [Line(x, 0, x, height)];
      x := x + GridSize;
    }
    horizontal := [];
    var y := 0;
    while y <= height
      invariant y == |horizontal| * GridSize
      invariant y <= if height < 0 then 0 else height + GridSize
      invariant forall k :: 0 <= k < |horizontal| ==> horizontal[k] == Line(0, k * GridSize, width, k * GridSize)
      decreases height - y
    {
      horizontal := horizontal + [Line(0, y, width, y)];
      y := y + GridSize;
    }
    if width >= 0 {
      LineCount(width, |vertical|);
    }
    if height >= 0 {
      LineCount(height, |horizontal|);
    }
  }

  /** The number of multiples of the grid size in [0, extent], pinned down by the first one past it. */
  lemma LineCount(extent: int, n: int)
    requires 0 <= extent < n * GridSize <= extent + GridSize
    ensures n == extent / GridSize + 1
  {
  }

  /**
    The coordinates of the lines `GridLines` returns for an extent (the k-th
    line sits at k times the grid size, for k below extent / GridSize + 1)
    are exactly the multiples of the grid size between 0 and the extent.
   */
  lemma GridLineAt(extent: int, v: int)
    requires extent >= 0
    ensures (exists k :: 0 <= k < extent / GridSize + 1 && v == k * GridSize)
            <==> 0 <= v <= extent && v % GridSize == 0
  {
    if 0 <= v <= extent && v % GridSize == 0 {
      var k := v / GridSize;
      assert v == k * GridSize;
      assert 0 <= k < extent / GridSize + 1;
    }
  }
}
