/**
  The main window's bookkeeping of its panels ("forms") and of the minimum
  size of the scrollable container that holds them.

  The window keeps a list of guarded pointers to its forms; a pointer whose
  form has been destroyed reads as null, modelled as `None`. Each entry
  carries the form's identity and its current geometry in container
  coordinates. Whenever forms are added, moved or closed, the container's
  minimum size grows so that every form, plus a 40 pixel margin, fits;
  it never shrinks.
 */
module MainWindow {
  import opened Geometry
  import opened Seqs

  /** Room kept right of and below the furthest form. */
  const ExtentMargin: int := 40
  /** The container's minimum size when the window is built. */
  const InitialMinWidth: int := 1400
  const InitialMinHeight: int := 900

  type FormId = nat

  datatype Form = Form(id: FormId, geom: Rect)

  datatype Window = Window(forms: seq<Option<Form>>, minWidth: int, minHeight: int)

  function InitialWindow(): (w: Window)
    ensures w.forms == [] && w.minWidth == 1400 && w.minHeight == 900
  {
    Window([], InitialMinWidth, InitialMinHeight)
  }

  predicate IsLive(e: Option<Form>) {
    e.Some?
  }

  predicate HasId(e: Option<Form>, id: FormId) {
    e.Some? && e.value.id == id
  }

  /** The list with its null entries erased. */
  function Compact(forms: seq<Option<Form>>): seq<Option<Form>> {
    Filter(forms, IsLive)
  }

  /** QList::removeAll of one form: every entry pointing to it goes, null entries stay. */
  function RemoveAll(forms: seq<Option<Form>>, id: FormId): seq<Option<Form>> {
    Filter(forms, e => !HasId(e, id))
  }

  /** The entries pointing to form `id` take the geometry `g`; all others are untouched. */
  function Refresh(forms: seq<Option<Form>>, id: FormId, g: Rect): (r: seq<Option<Form>>)
    ensures |r| == |forms|
    ensures forall i :: 0 <= i < |r| ==> IsLive(r[i]) == IsLive(forms[i])
    ensures forall i :: 0 <= i < |r| && HasId(forms[i], id) ==> r[i] == Some(Form(id, g))
    ensures forall i :: 0 <= i < |r| && !HasId(forms[i], id) ==> r[i] == forms[i]
  {
    seq(|forms|, i requires 0 <= i < |forms| =>
      if HasId(forms[i], id) then Some(Form(id, g)) else forms[i])
  }

  /** Every live form, widened by the margin, fits in a container of minimum size minW by minH. */
  predicate Covers(forms: seq<Option<Form>>, minW: int, minH: int) {
    forall i :: 0 <= i < |forms| && forms[i].Some? ==>
      forms[i].value.geom.right + ExtentMargin <= minW
      && forms[i].value.geom.bottom + ExtentMargin <= minH
  }

  /** `m` is the margin alone, or some live form's right edge plus the margin. */
  predicate IsRightExtent(forms: seq<Option<Form>>, m: int) {
    m == ExtentMargin
    || exists i :: 0 <= i < |forms| && forms[i].Some? && m == forms[i].value.geom.right + ExtentMargin
  }

  /** `m` is the margin alone, or some live form's bottom edge plus the margin. */
  predicate IsBottomExtent(forms: seq<Option<Form>>, m: int) {
    m == ExtentMargin
    || exists i :: 0 <= i < |forms| && forms[i].Some? && m == forms[i].value.geom.bottom + ExtentMargin
  }

  /**
    The container size `after` is what extending `before`'s minimum size to
    the list `forms` gives: it never decreases and is at least the margin; it
    covers every live form of `forms`; each dimension is the old one or is
    attained by the margin or by a form of `forms` (so it is the least such
    bound); and `resized` holds exactly when the size changed.
   */
  predicate ExpandedFor(before: Window, forms: seq<Option<Form>>, after: Window, resized: bool) {
    && before.minWidth <= after.minWidth && before.minHeight <= after.minHeight
    && ExtentMargin <= after.minWidth && ExtentMargin <= after.minHeight
    && Covers(forms, after.minWidth, after.minHeight)
    && (after.minWidth == before.minWidth || IsRightExtent(forms, after.minWidth))
    && (after.minHeight == before.minHeight || IsBottomExtent(forms, after.minHeight))
    && (resized <==> (after.minWidth != before.minWidth || after.minHeight != before.minHeight))
  }

  /**
    Drops the null entries, then raises the container's minimum size to the
    furthest right and bottom edge of the remaining forms plus the margin
    (counting from 0), never lowering it. `resized` reports whether the
    minimum size was set, which happens exactly when it changes.
   */
  method MaybeExpandContainer(w: Window) returns (w': Window, resized: bool)
    ensures w'.forms == Compact(w.forms)
    ensures forall i :: 0 <= i < |w'.forms| ==> w'.forms[i].Some?
    ensures ExpandedFor(w, w.forms, w', resized)
    // with no live form, a minimum size of at least the margin stays as it is
    ensures (forall i :: 0 <= i < |w.forms| ==> w.forms[i].None?)
            && ExtentMargin <= w.minWidth && ExtentMargin <= w.minHeight
            ==> w' == Window([], w.minWidth, w.minHeight) && !resized
  {
    var kept := EraseNulls(w.forms);
    var maxRight, maxBottom := MaxEdges(kept);
    LiveEntriesKept(w.forms, kept);
    if forall i :: 0 <= i < |w.forms| ==> w.forms[i].None? {
      NoLiveCompactsEmpty(w.forms);
    }
    ExtentFromKept(w.forms, kept, maxRight, maxBottom);
    var needW := if maxRight + ExtentMargin < w.minWidth then w.minWidth else maxRight + ExtentMargin;
    var needH := if maxBottom + ExtentMargin < w.minHeight then w.minHeight else maxBottom + ExtentMargin;
    resized := needW != w.minWidth || needH != w.minHeight;
    w' := Window(kept, if resized then needW else w.minWidth, if resized then needH else w.minHeight);
  }

  /** The erase loop: walks the list and keeps exactly the non-null entries, in order. */
  method EraseNulls(forms: seq<Option<Form>>) returns (kept: seq<Option<Form>>)
    ensures kept == Compact(forms)
  {
    kept := [];
    var i := 0;
    while i < |forms|
      invariant 0 <= i <= |forms|
      invariant kept == Filter(forms[..i], IsLive)
    {
      var x := forms[i];
      FilterSnoc(forms[..i], x, IsLive);
      assert forms[..i + 1] == forms[..i] + [x];
      kept := kept + (if IsLive(x) then [x] else []);
      i := i + 1;
    }
    assert forms[..|forms|] == forms;
  }

  /**
    The maximum right and bottom edge over a list of live forms, starting
    from 0: each is 0 or attained by some form, and bounds every form.
   */
  method MaxEdges(kept: seq<Option<Form>>) returns (maxRight: int, maxBottom: int)
    requires forall k :: 0 <= k < |kept| ==> kept[k].Some?
    ensures 0 <= maxRight && 0 <= maxBottom
    ensures forall k :: 0 <= k < |kept| ==> kept[k].value.geom.right <= maxRight
    ensures forall k :: 0 <= k < |kept| ==> kept[k].value.geom.bottom <= maxBottom
    ensures maxRight == 0 || exists k :: 0 <= k < |kept| && maxRight == kept[k].value.geom.right
    ensures maxBottom == 0 || exists k :: 0 <= k < |kept| && maxBottom == kept[k].value.geom.bottom
  {
    maxRight, maxBottom := 0, 0;
    var j := 0;
    while j < |kept|
      invariant 0 <= j <= |kept|
      invariant 0 <= maxRight && 0 <= maxBottom
      invariant forall k :: 0 <= k < j ==> kept[k].value.geom.right <= maxRight
      invariant forall k :: 0 <= k < j ==> kept[k].value.geom.bottom <= maxBottom
      invariant maxRight == 0 || exists k :: 0 <= k < j && maxRight == kept[k].value.geom.right
      invariant maxBottom == 0 || exists k :: 0 <= k < j && maxBottom == kept[k].value.geom.bottom
    {
      var g := kept[j].value.geom;
      if maxRight < g.right {
        maxRight := g.right;
      }
      if maxBottom < g.bottom {
        maxBottom := g.bottom;
      }
      j := j + 1;
    }
  }

  /** A list of null entries only compacts to the empty list. */
  lemma {:induction false} NoLiveCompactsEmpty(forms: seq<Option<Form>>)
    requires forall i :: 0 <= i < |forms| ==> forms[i].None?
    ensures Compact(forms) == []
    decreases |forms|
  {
    if |forms| > 0 {
      var init := forms[..|forms| - 1];
      assert forms == init + [forms[|forms| - 1]];
      FilterSnoc(init, forms[|forms| - 1], IsLive);
      NoLiveCompactsEmpty(init);
    }
  }

  /** Every live entry of `forms` survives compaction. */
  lemma LiveEntriesKept(forms: seq<Option<Form>>, kept: seq<Option<Form>>)
    requires kept == Compact(forms)
    ensures forall i :: 0 <= i < |forms| && forms[i].Some? ==> forms[i] in kept
  {
    forall i | 0 <= i < |forms| && forms[i].Some?
      ensures forms[i] in kept
    {
      assert forms[i] in multiset(forms);
      assert IsLive(forms[i]);
      assert multiset(kept)[forms[i]] == multiset(forms)[forms[i]];
    }
  }

  /** An extent attained in the compacted list is attained by a live entry of the original. */
  lemma ExtentFromKept(forms: seq<Option<Form>>, kept: seq<Option<Form>>, maxRight: int, maxBottom: int)
    requires kept == Compact(forms)
    requires maxRight == 0 || exists k :: 0 <= k < |kept| && maxRight == kept[k].value.geom.right
    requires maxBottom == 0 || exists k :: 0 <= k < |kept| && maxBottom == kept[k].value.geom.bottom
    ensures IsRightExtent(forms, maxRight + ExtentMargin)
    ensures IsBottomExtent(forms, maxBottom + ExtentMargin)
  {
    if maxRight != 0 {
      var k :| 0 <= k < |kept| && maxRight == kept[k].value.geom.right;
      var i := EntryIndex(forms, kept, k);
      assert forms[i].Some? && maxRight + ExtentMargin == forms[i].value.geom.right + ExtentMargin;
    }
    if maxBottom != 0 {
      var k :| 0 <= k < |kept| && maxBottom == kept[k].value.geom.bottom;
      var i := EntryIndex(forms, kept, k);
      assert forms[i].Some? && maxBottom + ExtentMargin == forms[i].value.geom.bottom + ExtentMargin;
    }
  }

  /** Where the k-th entry of the compacted list sits in the original list. */
  lemma EntryIndex(forms: seq<Option<Form>>, kept: seq<Option<Form>>, k: int) returns (i: int)
    requires kept == Compact(forms)
    requires 0 <= k < |kept|
    ensures 0 <= i < |forms| && forms[i] == kept[k] && forms[i].Some?
  {
    assert kept[k] in multiset(kept);
    assert IsLive(kept[k]);
    assert kept[k] in multiset(forms);
    i :| 0 <= i < |forms| && forms[i] == kept[k];
  }

  /**
    Adds a standard form: 420 by 280, placed 20 pixels further down and right
    for every entry already in the list (dead ones included), appended at the
    end, then extends the container.
   */
  method AddComponent(w: Window, id: FormId) returns (w': Window, resized: bool, placed: Form)
    ensures placed.id == id
    ensures placed.geom.TopLeft() == Point(40 + 20 * |w.forms|, 40 + 20 * |w.forms|)
    ensures placed.geom.Width() == 420 && placed.geom.Height() == 280
    ensures w'.forms == Compact(w.forms) + [Some(placed)]
    ensures ExpandedFor(w, w.forms + [Some(placed)], w', resized)
    ensures placed.geom.right + ExtentMargin <= w'.minWidth
    ensures placed.geom.bottom + ExtentMargin <= w'.minHeight
    ensures Covers(w'.forms, w'.minWidth, w'.minHeight)
  {
    var n := |w.forms|;
    placed := Form(id, FromGeometry(40 + 20 * n, 40 + 20 * n, 420, 280));
    w', resized := AppendAndExpand(w, placed);
  }

  /** Adds a wide form, always at (60, 360) with size 720 by 300, then extends the container. */
  method AddWideComponent(w: Window, id: FormId) returns (w': Window, resized: bool, placed: Form)
    ensures placed.id == id
    ensures placed.geom.TopLeft() == Point(60, 360)
    ensures placed.geom.Width() == 720 && placed.geom.Height() == 300
    ensures w'.forms == Compact(w.forms) + [Some(placed)]
    ensures ExpandedFor(w, w.forms + [Some(placed)], w', resized)
    ensures placed.geom.right + ExtentMargin <= w'.minWidth
    ensures placed.geom.bottom + ExtentMargin <= w'.minHeight
    ensures Covers(w'.forms, w'.minWidth, w'.minHeight)
  {
    placed := Form(id, FromGeometry(60, 360, 720, 300));
    w', resized := AppendAndExpand(w, placed);
  }

  /** The common tail of both add actions. */
  method AppendAndExpand(w: Window, f: Form) returns (w': Window, resized: bool)
    ensures w'.forms == Compact(w.forms) + [Some(f)]
    ensures ExpandedFor(w, w.forms + [Some(f)], w', resized)
    ensures f.geom.right + ExtentMargin <= w'.minWidth
    ensures f.geom.bottom + ExtentMargin <= w'.minHeight
    ensures Covers(w'.forms, w'.minWidth, w'.minHeight)
  {
    var grown := w.(forms := w.forms + [Some(f)]);
    w', resized := MaybeExpandContainer(grown);
    FilterConcat(w.forms, [Some(f)], IsLive);
    FilterAllKept([Some(f)], IsLive);
    assert grown.forms[|w.forms|] == Some(f);
    CoversCompact(grown.forms, w'.minWidth, w'.minHeight);
  }

  /** A bound that covers a list covers its compaction. */
  lemma CoversCompact(forms: seq<Option<Form>>, minW: int, minH: int)
    requires Covers(forms, minW, minH)
    ensures Covers(Compact(forms), minW, minH)
  {
    var kept := Compact(forms);
    forall k | 0 <= k < |kept| && kept[k].Some?
      ensures kept[k].value.geom.right + ExtentMargin <= minW
      ensures kept[k].value.geom.bottom + ExtentMargin <= minH
    {
      var i := EntryIndex(forms, kept, k);
    }
  }

  /**
    The `moved` notification of form `id`: the window reads the form's new
    geometry `g` and extends the container to it.
   */
  method OnFormMoved(w: Window, id: FormId, g: Rect) returns (w': Window, resized: bool)
    ensures w'.forms == Compact(Refresh(w.forms, id, g))
    ensures ExpandedFor(w, Refresh(w.forms, id, g), w', resized)
    ensures (exists i :: 0 <= i < |w.forms| && HasId(w.forms[i], id)) ==>
              g.right + ExtentMargin <= w'.minWidth && g.bottom + ExtentMargin <= w'.minHeight
    ensures Covers(w'.forms, w'.minWidth, w'.minHeight)
  {
    var refreshed := Refresh(w.forms, id, g);
    w', resized := MaybeExpandContainer(w.(forms := refreshed));
    if exists i :: 0 <= i < |w.forms| && HasId(w.forms[i], id) {
      var i :| 0 <= i < |w.forms| && HasId(w.forms[i], id);
      assert refreshed[i] == Some(Form(id, g));
    }
    CoversCompact(refreshed, w'.minWidth, w'.minHeight);
  }

  /**
    The close request of a form. A null form is ignored; otherwise every
    entry pointing to it is removed (the others stay in order) and the
    container is extended as after any change.
   */
  method OnFormClose(w: Window, f: Option<FormId>) returns (w': Window, resized: bool)
    ensures f.None? ==> w' == w && !resized
    ensures f.Some? ==>
              && w'.forms == Compact(RemoveAll(w.forms, f.value))
              && (forall i :: 0 <= i < |w'.forms| ==> w'.forms[i].Some? && !HasId(w'.forms[i], f.value))
              && (forall e: Option<Form> | e.Some? && !HasId(e, f.value) :: multiset(w'.forms)[e] == multiset(w.forms)[e])
              && ExpandedFor(w, RemoveAll(w.forms, f.value), w', resized)
              && Covers(w'.forms, w'.minWidth, w'.minHeight)
  {
    if f.None? {
      return w, false;
    }
    var id := f.value;
    var remaining := RemoveAll(w.forms, id);
    w', resized := MaybeExpandContainer(w.(forms := remaining));
    forall e: Option<Form> | e.Some? && !HasId(e, id)
      ensures multiset(w'.forms)[e] == multiset(w.forms)[e]
    {
      assert IsLive(e);
      assert (e => !HasId(e, id))(e);
    }
    forall i | 0 <= i < |w'.forms|
      ensures w'.forms[i].Some? && !HasId(w'.forms[i], id)
    {
      assert w'.forms[i] in multiset(w'.forms);
      assert w'.forms[i] in multiset(remaining);
      var j :| 0 <= j < |remaining| && remaining[j] == w'.forms[i];
    }
    CoversCompact(remaining, w'.minWidth, w'.minHeight);
  }
}
