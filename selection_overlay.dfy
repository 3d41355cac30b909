/**
  The region-selection overlay (AreaSelector): a drag state machine over the
  fields selection_start, selection_end and is_selecting, the geometry it
  paints while a drag is in progress, and the hand-over of the finished
  rectangle (or of a cancellation) to the main window.

  The transitions are first given as a pure function Step over a Selector
  value; the class AreaSelector below updates its fields in place and is
  proved to follow Step.
 */
module SelectionOverlay {
  import opened Wrappers
  import opened QtGeometry
  import opened Decimal
  import opened CaptureWindow

  datatype Button = LeftButton | RightButton | MiddleButton

  /** Escape is the only key the overlay reacts to; every other key is OtherKey. */
  datatype Key = Escape | OtherKey

  /** The input events the overlay handles, with their positions. */
  datatype Input =
    | MousePress(button: Button, pos: Point)
    | MouseMove(pos: Point)
    | MouseRelease(button: Button, pos: Point)
    | KeyPress(key: Key)

  /**
    The overlay's state: the drag anchor, the current drag point, whether a
    drag is in progress, and whether the overlay has been closed.
   */
  datatype Selector = Selector(start: Point, end: Point, selecting: bool, closed: bool)

  /** A new overlay: both points are the null QPoint and no drag is in progress. */
  const INITIAL := Selector(Point(0, 0), Point(0, 0), false, false)

  /** What the overlay hands its owner when it finishes. */
  datatype Notice = AreaSelected(rect: Rect) | SelectionCanceled

  datatype Transition = Transition(next: Selector, notice: Option<Notice>)

  const SELECTION_CANCELED := "Rectangular area selection canceled."

  /**
    One input event. A closed overlay has been hidden by Qt and receives no
    more input, so every event leaves it as it is.
   */
  function Step(s: Selector, input: Input): (t: Transition)
    ensures s.closed ==> t == Transition(s, None)
    ensures t.notice.Some? <==> !s.closed && t.next.closed
    ensures !s.closed && !t.next.closed ==> t.next.selecting == (s.selecting || (input.MousePress? && input.button == LeftButton))
    ensures input.MouseMove? ==> t.next.(end := s.end) == s
    ensures input.MouseMove? && !s.closed && s.selecting ==> t.next.end == input.pos
    ensures input.MouseMove? && !s.selecting ==> t == Transition(s, None)
    ensures input.MouseRelease? && t.notice.Some? ==> t.next.end == input.pos
    ensures t.notice.Some? && t.notice.value.AreaSelected? ==>
              t.notice.value.rect.Width() >= 0 && t.notice.value.rect.Height() >= 0 &&
              t.notice.value.rect == FromCorners(s.start, t.next.end).Normalized()
  {
    if s.closed then Transition(s, None)
    else match input
      case MousePress(button, pos) =>
        if button == LeftButton then Transition(s.(start := pos, end := pos, selecting := true), None)
        else Transition(s, None)
      case MouseMove(pos) =>
        if s.selecting then Transition(s.(end := pos), None) else Transition(s, None)
      case MouseRelease(button, pos) =>
        if button == LeftButton && s.selecting then
          Transition(s.(end := pos, selecting := false, closed := true),
                     Some(AreaSelected(FromCorners(s.start, pos).Normalized())))
        else Transition(s, None)
      case KeyPress(key) =>
        if key == Escape then Transition(s.(closed := true), Some(SelectionCanceled))
        else Transition(s, None)
  }

  /** A left press anchors the drag at the press point, even in the middle of a drag. */
  lemma PressAnchors(s: Selector, button: Button, pos: Point)
    requires !s.closed
    ensures var t := Step(s, MousePress(button, pos));
            t.notice == None &&
            t.next == if button == LeftButton then s.(start := pos, end := pos, selecting := true) else s
  {
  }

  /** A release finishes the drag only if it is a left release during a drag. */
  lemma ReleaseFinishes(s: Selector, button: Button, pos: Point)
    requires !s.closed
    ensures var t := Step(s, MouseRelease(button, pos));
            if button == LeftButton && s.selecting then
              t.next == s.(end := pos, selecting := false, closed := true) &&
              t.notice == Some(AreaSelected(FromCorners(s.start, pos).Normalized()))
            else t == Transition(s, None)
  {
  }

  /** ESC closes the overlay and reports a cancellation; it does not clear the drag flag. */
  lemma EscapeCancels(s: Selector, key: Key)
    requires !s.closed
    ensures var t := Step(s, KeyPress(key));
            if key == Escape then t == Transition(s.(closed := true), Some(SelectionCanceled))
            else t == Transition(s, None)
  {
  }

  /** The outcome of a sequence of events: the last state and the notices handed out. */
  datatype Transcript = Transcript(final: Selector, notices: seq<Notice>)

  function Run(s: Selector, inputs: seq<Input>): Transcript
    decreases |inputs|
  {
    if inputs == [] then Transcript(s, [])
    else
      var t := Step(s, inputs[0]);
      var rest := Run(t.next, inputs[1..]);
      Transcript(rest.final, (if t.notice.Some? then [t.notice.value] else []) + rest.notices)
  }

  lemma {:induction false} RunAppend(s: Selector, xs: seq<Input>, ys: seq<Input>)
    ensures Run(s, xs + ys) ==
            Transcript(Run(Run(s, xs).final, ys).final, Run(s, xs).notices + Run(Run(s, xs).final, ys).notices)
    decreases |xs|
  {
    if xs == [] {
      assert xs + ys == ys;
    } else {
      assert (xs + ys)[0] == xs[0];
      assert (xs + ys)[1..] == xs[1..] + ys;
      RunAppend(Step(s, xs[0]).next, xs[1..], ys);
    }
  }

  /** Once closed, the overlay ignores every further event and notifies nobody. */
  lemma {:induction false} ClosedIgnoresInput(s: Selector, inputs: seq<Input>)
    requires s.closed
    ensures Run(s, inputs) == Transcript(s, [])
    decreases |inputs|
  {
    if inputs != [] {
      ClosedIgnoresInput(s, inputs[1..]);
    }
  }

  /**
    Whatever the events, the owner is notified at most once, and it is
    notified exactly when the events close an overlay that was open.
   */
  lemma {:induction false} AtMostOneNotice(s: Selector, inputs: seq<Input>)
    ensures |Run(s, inputs).notices| <= 1
    ensures |Run(s, inputs).notices| == 1 <==> !s.closed && Run(s, inputs).final.closed
    ensures s.closed ==> Run(s, inputs).final.closed
    decreases |inputs|
  {
    if inputs != [] {
      var t := Step(s, inputs[0]);
      if t.notice.Some? {
        ClosedIgnoresInput(t.next, inputs[1..]);
      } else {
        AtMostOneNotice(t.next, inputs[1..]);
      }
    }
  }

  predicate AllMoves(inputs: seq<Input>) {
    forall i :: 0 <= i < |inputs| ==> inputs[i].MouseMove?
  }

  /**
    Pointer moves never finish the drag; during a drag the current point is
    the last position seen, and outside a drag nothing changes.
   */
  lemma {:induction false} MovesTrackPointer(s: Selector, inputs: seq<Input>)
    requires AllMoves(inputs)
    ensures Run(s, inputs).notices == []
    ensures Run(s, inputs).final ==
            if !s.closed && s.selecting && inputs != [] then s.(end := inputs[|inputs| - 1].pos) else s
    decreases |inputs|
  {
    if inputs != [] {
      var t := Step(s, inputs[0]);
      MovesTrackPointer(t.next, inputs[1..]);
      if |inputs| > 1 {
        assert inputs[1..][|inputs[1..]| - 1] == inputs[|inputs| - 1];
      }
    }
  }

  /** ESC during a drag, after any number of moves, cancels exactly once and never selects. */
  lemma EscapeAfterMoves(s: Selector, moves: seq<Input>)
    requires !s.closed && AllMoves(moves)
    ensures Run(s, moves + [KeyPress(Escape)]).notices == [SelectionCanceled]
    ensures Run(s, moves + [KeyPress(Escape)]).final.closed
    ensures Run(s, moves + [KeyPress(Escape)]).final.selecting == s.selecting
  {
    RunAppend(s, moves, [KeyPress(Escape)]);
    MovesTrackPointer(s, moves);
  }

  /**
    A drag from a to b is captured exactly when neither axis is a one-pixel
    backward drag; the captured region then spans both points inclusively.
   */
  lemma DragCapturedIff(a: Point, b: Point)
    ensures Admits(FromCorners(a, b).Normalized()) <==> b.x != a.x - 1 && b.y != a.y - 1
    ensures Admits(FromCorners(a, b).Normalized()) ==>
              RegionOf(FromCorners(a, b).Normalized())
              == Region(Min(a.x, b.x), Min(a.y, b.y), Abs(b.x - a.x) + 1, Abs(b.y - a.y) + 1)
  {
    DragExtent(a, b);
    DragSpansPoints(a, b);
  }

  /** A press and release at (10,10) and (110,60), with a move between, selects 101 x 51 pixels at (10,10). */
  lemma ForwardDragExample()
    ensures Run(INITIAL, [MousePress(LeftButton, Point(10, 10)), MouseMove(Point(110, 60)),
                          MouseRelease(LeftButton, Point(110, 60))]).notices
            == [AreaSelected(Rect(10, 10, 110, 60))]
    ensures RegionOf(Rect(10, 10, 110, 60)) == Region(10, 10, 101, 51)
  {
    var inputs := [MousePress(LeftButton, Point(10, 10)), MouseMove(Point(110, 60)),
                   MouseRelease(LeftButton, Point(110, 60))];
    assert inputs[1..][1..][1..] == [];
  }

  /** The same drag done backwards selects the same rectangle. */
  lemma BackwardDragExample()
    ensures Run(INITIAL, [MousePress(LeftButton, Point(110, 60)), MouseMove(Point(10, 10)),
                          MouseRelease(LeftButton, Point(10, 10))]).notices
            == [AreaSelected(Rect(10, 10, 110, 60))]
  {
    var inputs := [MousePress(LeftButton, Point(110, 60)), MouseMove(Point(10, 10)),
                   MouseRelease(LeftButton, Point(10, 10))];
    assert inputs[1..][1..][1..] == [];
  }

  /** A click without a drag selects a single pixel, which the capture gate lets through. */
  lemma ClickSelectsOnePixel(s: Selector, p: Point)
    requires !s.closed
    ensures Run(s, [MousePress(LeftButton, p), MouseRelease(LeftButton, p)]).notices
            == [AreaSelected(FromCorners(p, p))]
    ensures FromCorners(p, p).Width() == 1 && FromCorners(p, p).Height() == 1
    ensures Admits(FromCorners(p, p))
  {
    var inputs := [MousePress(LeftButton, p), MouseRelease(LeftButton, p)];
    var pressed := s.(start := p, end := p, selecting := true);
    assert Step(s, inputs[0]).next == pressed;
    assert inputs[1..] == [MouseRelease(LeftButton, p)];
    assert Run(pressed, inputs[1..]).notices == [AreaSelected(FromCorners(p, p).Normalized())];
  }

  /** A drag of exactly one pixel to the left yields a zero-width rectangle, which the gate rejects. */
  lemma OnePixelBackDragRejected(s: Selector, p: Point)
    requires !s.closed
    ensures Run(s, [MousePress(LeftButton, p), MouseRelease(LeftButton, Point(p.x - 1, p.y))]).notices
            == [AreaSelected(Rect(p.x, p.y, p.x - 1, p.y))]
    ensures Rect(p.x, p.y, p.x - 1, p.y).Width() == 0
    ensures !Admits(Rect(p.x, p.y, p.x - 1, p.y))
  {
    var q := Point(p.x - 1, p.y);
    var inputs := [MousePress(LeftButton, p), MouseRelease(LeftButton, q)];
    var pressed := s.(start := p, end := p, selecting := true);
    assert Step(s, inputs[0]).next == pressed;
    assert inputs[1..] == [MouseRelease(LeftButton, q)];
    assert Run(pressed, inputs[1..]).notices == [AreaSelected(FromCorners(p, q).Normalized())];
  }

  // ----- The owner's side of a notice -----

  /** The main window after receiving a notice (or none): it is shown, then told the outcome. */
  function Deliver(w: Window, notice: Option<Notice>): (w': Window)
    ensures notice == None ==> w' == w
    ensures notice.Some? ==> w'.visible
    ensures w.captures <= w'.captures && |w'.captures| <= |w.captures| + 1
    ensures |w'.captures| == |w.captures| ==> w'.lastCapture == w.lastCapture
    ensures notice == Some(SelectionCanceled) ==> w'.captures == w.captures && w'.status == SELECTION_CANCELED
    ensures notice.Some? && notice.value.AreaSelected? ==>
              w' == AreaSelectionProcessed(w.(visible := true), notice.value.rect)
  {
    match notice
    case None => w
    case Some(AreaSelected(r)) => AreaSelectionProcessed(w.(visible := true), r)
    case Some(SelectionCanceled) => w.(visible := true, status := SELECTION_CANCELED)
  }

  function DeliverAll(w: Window, notices: seq<Notice>): Window
    decreases |notices|
  {
    if notices == [] then w else DeliverAll(Deliver(w, Some(notices[0])), notices[1..])
  }

  /**
    One overlay session requests at most one capture from the backend, and a
    session that requests none leaves the last capture unchanged.
   */
  lemma SessionCapturesAtMostOnce(w: Window, s: Selector, inputs: seq<Input>)
    ensures var w' := DeliverAll(w, Run(s, inputs).notices);
            w.captures <= w'.captures && |w'.captures| <= |w.captures| + 1 &&
            (|w'.captures| == |w.captures| ==> w'.lastCapture == w.lastCapture)
  {
    var ns := Run(s, inputs).notices;
    AtMostOneNotice(s, inputs);
    if ns != [] {
      assert ns[1..] == [];
    }
  }

  /**
    A press at a and a release at b hand the main window exactly one capture
    request, for the region spanning both points, unless one axis is a
    one-pixel backward drag; then nothing is captured. Either way the window
    is shown again.
   */
  lemma DragDelivered(w: Window, s: Selector, a: Point, b: Point)
    requires !s.closed
    ensures var w' := DeliverAll(w, Run(s, [MousePress(LeftButton, a), MouseRelease(LeftButton, b)]).notices);
            w'.visible &&
            w'.captures == if b.x != a.x - 1 && b.y != a.y - 1
                           then w.captures + [Region(Min(a.x, b.x), Min(a.y, b.y), Abs(b.x - a.x) + 1, Abs(b.y - a.y) + 1)]
                           else w.captures
  {
    var inputs := [MousePress(LeftButton, a), MouseRelease(LeftButton, b)];
    var pressed := s.(start := a, end := a, selecting := true);
    var r := FromCorners(a, b).Normalized();
    assert Step(s, inputs[0]).next == pressed;
    assert inputs[1..] == [MouseRelease(LeftButton, b)];
    assert Run(pressed, inputs[1..]).notices == [AreaSelected(r)];
    assert Run(s, inputs).notices == [AreaSelected(r)];
    DragCapturedIff(a, b);
    assert DeliverAll(w, [AreaSelected(r)]) == Deliver(w, Some(AreaSelected(r)));
  }

  /** A session cancelled with ESC shows the window with the cancel message and captures nothing. */
  lemma CanceledSessionCapturesNothing(w: Window, s: Selector, moves: seq<Input>)
    requires !s.closed && AllMoves(moves)
    ensures DeliverAll(w, Run(s, moves + [KeyPress(Escape)]).notices)
            == w.(visible := true, status := SELECTION_CANCELED)
  {
    EscapeAfterMoves(s, moves);
  }

  // ----- Paint geometry -----

  const CORNER_SIZE := 10
  const LABEL_WIDTH := 150
  const LABEL_HEIGHT := 30
  const LABEL_GAP := 10

  /** A corner marker: a CORNER_SIZE square whose top-left is CORNER_SIZE // 2 up and left of c. */
  function CornerMarker(c: Point): (m: Rect)
    ensures m.Width() == CORNER_SIZE && m.Height() == CORNER_SIZE
    ensures m.Left() + m.Right() + 1 == 2 * c.x && m.Top() + m.Bottom() + 1 == 2 * c.y
    ensures m.Left() <= c.x <= m.Right() && m.Top() <= c.y <= m.Bottom()
  {
    FromSize(c.x - CORNER_SIZE / 2, c.y - CORNER_SIZE / 2, CORNER_SIZE, CORNER_SIZE)
  }

  /** The corners the markers are drawn on: top-left, top-right, bottom-left, bottom-right. */
  function Corners(r: Rect): (c: seq<Point>)
    ensures |c| == 4
    ensures c[0] == r.TopLeft() && c[3] == r.BottomRight()
    ensures c[1].x == c[3].x == r.Right() && c[2].x == c[0].x == r.Left()
    ensures c[1].y == c[0].y == r.Top() && c[2].y == c[3].y == r.Bottom()
  {
    [Point(r.Left(), r.Top()), Point(r.Right(), r.Top()),
     Point(r.Left(), r.Bottom()), Point(r.Right(), r.Bottom())]
  }

  /**
    The box behind the size readout: LABEL_WIDTH x LABEL_HEIGHT, LABEL_GAP
    pixels below the bottom-right corner, ending one column left of the
    selection's right edge. It is not clamped to the surface.
   */
  function LabelBox(r: Rect): (b: Rect)
    ensures b.Width() == LABEL_WIDTH && b.Height() == LABEL_HEIGHT
    ensures b.Right() == r.Right() - 1
    ensures b.Top() == r.Bottom() + LABEL_GAP && b.Top() > r.Bottom()
  {
    FromSize(r.BottomRight().x - LABEL_WIDTH, r.BottomRight().y + LABEL_GAP, LABEL_WIDTH, LABEL_HEIGHT)
  }

  /** What paintEvent draws on top of the dimmed surface during a drag. */
  datatype Feedback = Feedback(selection: Rect, sizeText: string, labelBox: Rect, markers: seq<Rect>)

  /**
    The selection feedback is drawn only during a drag whose anchor is not the
    null point (0,0); it shows the normalized rectangle from anchor to current
    point, a readout of exactly its width and height, the label box, and four
    markers, one per corner.
   */
  function Paint(s: Selector): (f: Option<Feedback>)
    ensures f.Some? <==> s.selecting && !s.start.IsNull()
    ensures f.Some? ==> f.value.selection == FromCorners(s.start, s.end).Normalized()
    ensures f.Some? ==> f.value.sizeText == SizeText(f.value.selection.Width(), f.value.selection.Height())
    ensures f.Some? ==> ParseSizeText(f.value.sizeText)
                        == Some((f.value.selection.Width(), f.value.selection.Height()))
    ensures f.Some? ==> f.value.labelBox == LabelBox(f.value.selection)
    ensures f.Some? ==> (|f.value.markers| == 4 &&
              forall i :: 0 <= i < 4 ==> f.value.markers[i] == CornerMarker(Corners(f.value.selection)[i]))
  {
    if s.selecting && !s.start.IsNull() then
      var selection := FromCorners(s.start, s.end).Normalized();
      var width: nat, height: nat := selection.Width(), selection.Height();
      Some(Feedback(selection, SizeText(width, height), LabelBox(selection),
                    [CornerMarker(Point(selection.Left(), selection.Top())),
                     CornerMarker(Point(selection.Right(), selection.Top())),
                     CornerMarker(Point(selection.Left(), selection.Bottom())),
                     CornerMarker(Point(selection.Right(), selection.Bottom()))]))
    else None
  }

  /**
    During a drag, after any moves, the readout names the size of the
    rectangle from the anchor to the latest pointer position.
   */
  lemma ReadoutFollowsPointer(s: Selector, moves: seq<Input>)
    requires !s.closed && s.selecting && !s.start.IsNull()
    requires AllMoves(moves) && moves != []
    ensures var f := Paint(Run(s, moves).final);
            var r := FromCorners(s.start, moves[|moves| - 1].pos).Normalized();
            f.Some? && ParseSizeText(f.value.sizeText) == Some((r.Width(), r.Height()))
  {
    MovesTrackPointer(s, moves);
  }

  /** A drag anchored at the null point (0,0) draws no feedback at all. */
  lemma AnchorAtOriginHidesFeedback(s: Selector, moves: seq<Input>)
    requires !s.closed && AllMoves(moves)
    ensures Paint(Run(Step(s, MousePress(LeftButton, Point(0, 0))).next, moves).final) == None
  {
    MovesTrackPointer(Step(s, MousePress(LeftButton, Point(0, 0))).next, moves);
  }

  /** Each marker is centred on its corner: the corner is the middle of the marker's pixel span. */
  lemma MarkersCentredOnCorners(s: Selector)
    requires Paint(s).Some?
    ensures var f := Paint(s).value;
            var r := f.selection;
            f.markers[0].Left() + f.markers[0].Right() + 1 == 2 * r.Left() &&
            f.markers[0].Top() + f.markers[0].Bottom() + 1 == 2 * r.Top() &&
            f.markers[3].Left() + f.markers[3].Right() + 1 == 2 * r.Right() &&
            f.markers[3].Top() + f.markers[3].Bottom() + 1 == 2 * r.Bottom()
  {
  }

  /** The label box is not clamped: near the bottom of a surface of the given height it lies wholly below it. */
  lemma LabelBoxNotClamped(s: Selector, surfaceHeight: int)
    requires Paint(s).Some? && Paint(s).value.selection.Bottom() >= surfaceHeight - LABEL_GAP
    ensures Paint(s).value.labelBox.Top() >= surfaceHeight
  {
  }

  // ----- The overlay widget -----

  /**
    The AreaSelector widget. `closed` stands for the effect of close(): Qt
    hides the widget, so it is sent no more input. The handlers below begin
    with that check; the program's own handlers have no such guard.
   */
  class AreaSelector {
    const parent: CaptureUI?
    var selectionStart: Point
    var selectionEnd: Point
    var isSelecting: bool
    var closed: bool

    function Snapshot(): Selector
      reads this
    {
      Selector(selectionStart, selectionEnd, isSelecting, closed)
    }

    constructor (parent: CaptureUI?)
      ensures this.parent == parent
      ensures Snapshot() == INITIAL
    {
      this.parent := parent;
      selectionStart := Point(0, 0);
      selectionEnd := Point(0, 0);
      isSelecting := false;
      closed := false;
    }

    method Close()
      modifies this
      ensures Snapshot() == old(Snapshot()).(closed := true)
    {
      closed := true;
    }

    method MousePressEvent(button: Button, pos: Point)
      modifies this
      ensures Snapshot() == Step(old(Snapshot()), MousePress(button, pos)).next
    {
      if closed {
        return;
      }
      if button == LeftButton {
        selectionStart := pos;
        selectionEnd := selectionStart;
        isSelecting := true;
      }
    }

    method MouseMoveEvent(pos: Point)
      modifies this
      ensures Snapshot() == Step(old(Snapshot()), MouseMove(pos)).next
    {
      if closed {
        return;
      }
      if isSelecting {
        selectionEnd := pos;
      }
    }

    method MouseReleaseEvent(button: Button, pos: Point)
      modifies this, parent
      ensures Snapshot() == Step(old(Snapshot()), MouseRelease(button, pos)).next
      ensures parent != null ==>
                parent.Model() == Deliver(old(parent.Model()), Step(old(Snapshot()), MouseRelease(button, pos)).notice)
    {
      if closed {
        return;
      }
      if button == LeftButton && isSelecting {
        selectionEnd := pos;
        isSelecting := false;
        var selectionRect := FromCorners(selectionStart, selectionEnd).Normalized();
        Close();
        if parent != null {
          parent.Show();
          parent.ProcessAreaSelection(selectionRect);
        }
      }
    }

    method KeyPressEvent(key: Key)
      modifies this, parent
      ensures Snapshot() == Step(old(Snapshot()), KeyPress(key)).next
      ensures parent != null ==>
                parent.Model() == Deliver(old(parent.Model()), Step(old(Snapshot()), KeyPress(key)).notice)
    {
      if closed {
        return;
      }
      if key == Escape {
        Close();
        if parent != null {
          parent.Show();
          parent.ShowMessage(SELECTION_CANCELED);
        }
      }
    }
  }
}
