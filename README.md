# Snipix area selection, modelled in Dafny

Snipix captures the whole screen or a rectangle the user drags out on a
full-screen overlay. This project models the overlay, `AreaSelector`, and the
gate in the main window, `CaptureUI.process_area_selection`, that decides
whether the chosen rectangle is captured.

- `QtGeometry` (qt_geometry.dfy): `QPoint` and `QRect` as Qt 5 defines them.
  A `QRect` keeps two inclusive corners, so `width() == right - left + 1`.
  `normalized()` flips an axis only when its extent is negative.
- `Decimal` (decimal.dfy): the size readout `"{w} x {h}"`, with a reader
  that recovers both numbers from it.
- `CaptureWindow` (capture_window.dfy): the main-window state the overlay
  touches (shown or hidden, status text, last capture, save button, the
  capture requests sent to the backend) and `process_area_selection`. The
  pure function `AreaSelectionProcessed` specifies it, and the class
  `CaptureUI` follows that function.
- `SelectionOverlay` (selection_overlay.dfy): the drag state machine as a
  pure `Step` over the fields `selection_start`, `selection_end`,
  `is_selecting` and a `closed` flag, with `Run` over event sequences. It
  also holds the paint geometry (`Paint`, `LabelBox`, `CornerMarker`) and the
  class `AreaSelector`, whose four event handlers are proved to follow `Step`
  and to notify the parent window as `Deliver` says.

`close()` is modelled as the `closed` flag. The handlers return at once when
it is set. That stands for Qt hiding the widget, which then gets no more
input. The program's handlers have no such check: ESC, for one, leaves
`is_selecting` set.

Qt 5's inclusive rectangles give the program some behaviour that is easy to
misread; the model follows the code:

- A forward drag from x = 10 to x = 110 gives width 101, not 100. `QRect`
  counts both corners.
- A click without a drag gives a 1 x 1 rectangle. It passes the gate
  `width() > 0 and height() > 0` and is captured (`ClickSelectsOnePixel`).
- Only a drag of exactly one pixel backwards on an axis gives extent 0 and
  is rejected by the gate (`DragCapturedIff`, `OnePixelBackDragRejected`).
- Normalization is not symmetric. Dragging a to b and b to a agree exactly
  when neither axis differs by one pixel (`DragOrderIndependentIff`).
- The size label box is not clamped to the screen (`LabelBoxNotClamped`).
- A drag anchored at (0,0) draws no feedback, because the paint code treats
  a null start point as "no selection" (`AnchorAtOriginHidesFeedback`).

## Model

| member | source | states |
|---|---|---|
| `QtGeometry.Point.IsNull` | gui_module.py:359 | a point is null exactly when it is (0,0), the default `QPoint` |
| `QtGeometry.Rect.Width` | gui_module.py:384 | `width()` counts the columns from left to right, both included: it is positive exactly when left <= right |
| `QtGeometry.Rect.Height` | gui_module.py:384 | `height()` counts the rows from top to bottom, both included: it is positive exactly when top <= bottom |
| `QtGeometry.Rect.Normalized` | gui_module.py:360-361 | the normalized rectangle has non-negative width and height, keeps each axis's two coordinates (possibly swapped), and leaves an axis with non-negative extent unchanged |
| `QtGeometry.FromCorners` | gui_module.py:442 | a rectangle built from two points has them as inclusive corners: width is `b.x - a.x + 1` |
| `QtGeometry.FromSize` | gui_module.py:385-386 | `QRect(x, y, w, h)` has left `x`, top `y`, width `w`, height `h`, so right is `x + w - 1` |
| `QtGeometry.NormalizedIdempotent` | gui_module.py:361 | normalizing an already normalized rectangle changes nothing |
| `QtGeometry.DragExtent` | gui_module.py:442 | the normalized extent of a drag is the inclusive pixel count `abs(dx) + 1`, except 0 for a drag of exactly one pixel backwards |
| `QtGeometry.DragSpansPoints` | gui_module.py:442 | except for a one-pixel backward drag, the normalized rectangle runs from the smaller to the larger coordinate of the two points |
| `QtGeometry.DragOrderIndependentIff` | gui_module.py:442 | dragging a to b and b to a give the same rectangle if and only if no axis differs by exactly one pixel |
| `Decimal.NatToString` | gui_module.py:384 | `str(n)` is a non-empty string of digits with no leading zero, and a single digit for n < 10 (so `str(0)` is "0") |
| `Decimal.NatToStringRoundTrip` | gui_module.py:384 | the digits of `str(n)` denote n |
| `Decimal.SizeText` | gui_module.py:384 | the readout `"{w} x {h}"` reads back as exactly (w, h) |
| `Decimal.SizeTextInjective` | gui_module.py:384 | different sizes never produce the same readout |
| `CaptureWindow.Admits` | gui_module.py:242 | the gate `width() > 0 and height() > 0` admits a rectangle exactly when its left does not exceed its right and its top does not exceed its bottom |
| `CaptureWindow.RegionOf` | gui_module.py:244-245 | the capture request starts at the rectangle's top-left and ends at its inclusive bottom-right |
| `CaptureWindow.AreaSelectionProcessed` | gui_module.py:240-252 | with positive width and height: one capture of (x, y, w, h) is requested, becomes the last capture, save is enabled and the completion status is shown; otherwise only the status "Area selection canceled." changes |
| `CaptureWindow.CaptureIffAdmitted` | gui_module.py:242-245 | a capture is requested if and only if width and height are both positive, and every requested region has positive size |
| `CaptureWindow.RejectKeepsCapture` | gui_module.py:251-252 | a rejected rectangle leaves the last capture, the save button and the capture requests unchanged |
| `CaptureWindow.CaptureUI.constructor` | gui_module.py:188-198 | a new main window has no capture, save disabled and status "Ready" |
| `CaptureWindow.CaptureUI.Show` | gui_module.py:449 | showing the window changes only its visibility |
| `CaptureWindow.CaptureUI.ShowMessage` | gui_module.py:459 | a status message changes only the status text |
| `CaptureWindow.CaptureUI.ProcessAreaSelection` | gui_module.py:240-252 | the window's new state is `AreaSelectionProcessed` of its old state and the rectangle |
| `SelectionOverlay.Step` | gui_module.py:422-459 | a closed overlay ignores input; a notice is issued exactly when an event closes the overlay; only a left press can start a drag; a move changes only the current point, and only during a drag, and outside a drag nothing changes; a selected rectangle is the normalized rectangle from anchor to release point, with non-negative size |
| `SelectionOverlay.PressAnchors` | gui_module.py:424-427 | a left press sets anchor and current point to the press point and starts a drag, even during a drag; any other button changes nothing |
| `SelectionOverlay.ReleaseFinishes` | gui_module.py:437-442 | only a left release during a drag acts: it sets the current point, ends the drag, closes the overlay and selects the normalized rectangle; anything else changes nothing |
| `SelectionOverlay.EscapeCancels` | gui_module.py:455-459 | ESC closes the overlay and reports a cancellation without clearing the drag flag; other keys change nothing |
| `SelectionOverlay.ClosedIgnoresInput` | gui_module.py:445 | after the overlay is closed, any sequence of events changes nothing and notifies nobody |
| `SelectionOverlay.AtMostOneNotice` | gui_module.py:444-459 | over any event sequence the owner gets at most one notice, and gets one if and only if the overlay was open and ends closed |
| `SelectionOverlay.MovesTrackPointer` | gui_module.py:429-433 | moves never notify; during a drag the current point becomes the last move's position, otherwise nothing changes |
| `SelectionOverlay.EscapeAfterMoves` | gui_module.py:452-459 | ESC after any number of moves yields exactly one cancellation and no selection, and leaves the drag flag as it was |
| `SelectionOverlay.DragCapturedIff` | gui_module.py:242-245 | a drag from a to b is captured if and only if neither axis is a one-pixel backward drag; the region is then (min x, min y, abs(dx) + 1, abs(dy) + 1) |
| `SelectionOverlay.ForwardDragExample` | gui_module.py:442 | press (10,10), move (110,60), release (110,60) selects the rectangle with corners (10,10) and (110,60), captured as (10, 10, 101, 51) |
| `SelectionOverlay.BackwardDragExample` | gui_module.py:442 | the same drag done backwards selects the same rectangle |
| `SelectionOverlay.ClickSelectsOnePixel` | gui_module.py:242 | a click without a drag selects a 1 x 1 rectangle, which the gate lets through |
| `SelectionOverlay.OnePixelBackDragRejected` | gui_module.py:242 | a release one pixel left of the press selects a width-0 rectangle, which the gate rejects |
| `SelectionOverlay.Deliver` | gui_module.py:447-459 | a notice shows the main window; a cancellation sets its status and requests no capture; a selected rectangle is then passed through `process_area_selection` (`AreaSelectionProcessed`), so it requests at most one capture and the last capture changes only if one was requested |
| `SelectionOverlay.DragDelivered` | gui_module.py:435-450 | a press at a and release at b show the main window and add exactly one capture request, for (min x, min y, abs(dx) + 1, abs(dy) + 1), unless an axis is a one-pixel backward drag, in which case the capture requests are unchanged |
| `SelectionOverlay.SessionCapturesAtMostOnce` | gui_module.py:444-450 | one overlay session, whatever its events, requests at most one capture, and the last capture changes only if it does |
| `SelectionOverlay.CanceledSessionCapturesNothing` | gui_module.py:455-459 | a session ended by ESC only shows the main window with "Rectangular area selection canceled." |
| `SelectionOverlay.CornerMarker` | gui_module.py:400-420 | a marker is a 10 x 10 square that contains its corner and whose pixel span has the corner as its middle |
| `SelectionOverlay.Corners` | gui_module.py:405-420 | the markers' corners, in order: top-left, top-right, bottom-left, bottom-right of the rectangle |
| `SelectionOverlay.LabelBox` | gui_module.py:385-386 | the label box is 150 x 30, starts 10 pixels below the selection's bottom and ends one column left of its right edge |
| `SelectionOverlay.Paint` | gui_module.py:359-420 | feedback is drawn if and only if a drag is in progress and the anchor is not (0,0); it shows the normalized rectangle from anchor to current point, the readout `"{w} x {h}"` of its width and height (which reads back as exactly those), the label box and one marker per corner |
| `SelectionOverlay.ReadoutFollowsPointer` | gui_module.py:429-433 | during a drag, after any moves, the readout names the size of the rectangle from the anchor to the latest pointer position |
| `SelectionOverlay.AnchorAtOriginHidesFeedback` | gui_module.py:359 | a drag anchored at (0,0) draws no feedback, whatever moves follow |
| `SelectionOverlay.MarkersCentredOnCorners` | gui_module.py:405-420 | the top-left and bottom-right markers are centred on the selection's top-left and bottom-right corners |
| `SelectionOverlay.LabelBoxNotClamped` | gui_module.py:385-386 | when the selection ends within 10 pixels of a surface's bottom, the label box lies entirely below that surface |
| `SelectionOverlay.AreaSelector.constructor` | gui_module.py:317-323 | a new overlay keeps its parent, has both points at (0,0), no drag and is open |
| `SelectionOverlay.AreaSelector.Close` | gui_module.py:445 | closing changes only the closed flag |
| `SelectionOverlay.AreaSelector.MousePressEvent` | gui_module.py:422-427 | the overlay's new state is `Step` of its old state and the press |
| `SelectionOverlay.AreaSelector.MouseMoveEvent` | gui_module.py:429-433 | the overlay's new state is `Step` of its old state and the move |
| `SelectionOverlay.AreaSelector.MouseReleaseEvent` | gui_module.py:435-450 | the overlay follows `Step`; a parent, if any, is updated by `Deliver` with the notice `Step` issues, so it is shown and processes the rectangle exactly when the drag finishes |
| `SelectionOverlay.AreaSelector.KeyPressEvent` | gui_module.py:452-459 | the overlay follows `Step`; a parent, if any, is shown and given the cancel status exactly when ESC closes the overlay |

## Left out

- Window construction (`CaptureUI.initUI`, `AreaSelector.initUI`): layouts, stylesheets, window flags and screen geometry. It has no behaviour to state.
- `capture_full_screen` and `capture_area`: hiding and showing the window, `processEvents`, the 0.2 s sleep and the calls into the capture module, which is not part of this model. The path that `capture_module.capture_area` returns is represented by the region it was asked to capture.
- `update_preview`, `resizeEvent`, `set_save_path` and `save_image`: pixmap scaling, file dialogs, clock-based file names, file copies and message boxes.
- Pixel compositing in `paintEvent`: colours, alpha, the `QPainterPath` subtraction, pens and fonts. Only the integer geometry is modelled.
- The repaint request `self.update()` in `mouseMoveEvent`. `Paint` is a function of the current state, so a repaint always shows that state.
- The unused `CaptureUI` fields `is_selecting`, `selection_start`, `selection_end` and `selection_rect`. They are never read.
- Qt's event delivery order and any mouse buttons beyond left, right and middle. Every non-left button behaves the same in the handlers.
- The 32-bit range of Qt coordinates. Screen coordinates stay far inside it, so the model uses unbounded integers.
- main.py: application start-up, icon loading and a Windows-only taskbar call.
