/**
  The part of the main window (CaptureUI) that the area selector drives:
  showing the window again, the status bar text, and the gate in
  process_area_selection that decides whether the chosen rectangle is
  captured. The capture backend is external: a call to
  capture_module.capture_area(x, y, w, h) is recorded as the Region it was
  asked for, and the file path it returns is represented by that Region.
 */
module CaptureWindow {
  import opened Wrappers
  import opened QtGeometry

  /** The arguments of one capture_area(x, y, width, height) call. */
  datatype Region = Region(x: int, y: int, width: int, height: int)

  /**
    The observable state of the main window: whether it is shown, the status
    bar message, the last capture (last_capture_path), whether the save button
    is enabled, and every capture requested from the backend, in order.
   */
  datatype Window = Window(
    visible: bool,
    status: string,
    lastCapture: Option<Region>,
    saveEnabled: bool,
    captures: seq<Region>)

  const READY := "Ready"
  const AREA_CAPTURED := "Area capture completed - Press Save button to save the image"
  const AREA_CANCELED := "Area selection canceled."

  /** The capture gate: only a rectangle with positive width and height is captured. */
  predicate Admits(r: Rect)
    ensures Admits(r) <==> r.Left() <= r.Right() && r.Top() <= r.Bottom()
  {
    r.Width() > 0 && r.Height() > 0
  }

  /** The capture_area arguments taken from a rectangle: x(), y(), width(), height(). */
  function RegionOf(r: Rect): (g: Region)
    ensures g.x == r.Left() && g.y == r.Top()
    ensures g.x + g.width - 1 == r.Right() && g.y + g.height - 1 == r.Bottom()
  {
    Region(r.Left(), r.Top(), r.Width(), r.Height())
  }

  /** The main window after process_area_selection(r). */
  function AreaSelectionProcessed(w: Window, r: Rect): (w': Window)
    ensures w'.visible == w.visible
    ensures Admits(r) ==> w'.captures == w.captures + [RegionOf(r)]
    ensures Admits(r) ==> w'.lastCapture == Some(RegionOf(r)) && w'.saveEnabled
    ensures Admits(r) ==> w'.status == AREA_CAPTURED
    ensures !Admits(r) ==> w' == w.(status := AREA_CANCELED)
  {
    if Admits(r) then
      w.(lastCapture := Some(RegionOf(r)), saveEnabled := true,
         status := AREA_CAPTURED, captures := w.captures + [RegionOf(r)])
    else
      w.(status := AREA_CANCELED)
  }

  /**
    A capture is requested exactly when the rectangle has positive extent,
    and every requested region has positive width and height.
   */
  lemma CaptureIffAdmitted(w: Window, r: Rect)
    ensures |AreaSelectionProcessed(w, r).captures| == |w.captures| + 1 <==> Admits(r)
    ensures Admits(r) ==> RegionOf(r).width > 0 && RegionOf(r).height > 0
  {
  }

  /** A rejected rectangle leaves the last capture and the save button as they were. */
  lemma RejectKeepsCapture(w: Window, r: Rect)
    requires !Admits(r)
    ensures AreaSelectionProcessed(w, r).lastCapture == w.lastCapture
    ensures AreaSelectionProcessed(w, r).saveEnabled == w.saveEnabled
    ensures AreaSelectionProcessed(w, r).captures == w.captures
  {
  }

  /** The main window object, updated in place by the selector's callbacks. */
  class CaptureUI {
    var visible: bool
    var status: string
    var lastCapture: Option<Region>
    var saveEnabled: bool
    var captures: seq<Region>

    function Model(): Window
      reads this
    {
      Window(visible, status, lastCapture, saveEnabled, captures)
    }

    /** No capture yet, save disabled, status "Ready"; the window is shown later by its caller. */
    constructor ()
      ensures Model() == Window(false, READY, None, false, [])
    {
      visible := false;
      status := READY;
      lastCapture := None;
      saveEnabled := false;
      captures := [];
    }

    method Show()
      modifies this
      ensures Model() == old(Model()).(visible := true)
    {
      visible := true;
    }

    /** statusBar().showMessage(message). */
    method ShowMessage(message: string)
      modifies this
      ensures Model() == old(Model()).(status := message)
    {
      status := message;
    }

    method ProcessAreaSelection(rect: Rect)
      modifies this
      ensures Model() == AreaSelectionProcessed(old(Model()), rect)
    {
      if rect.Width() > 0 && rect.Height() > 0 {
        var region := Region(rect.Left(), rect.Top(), rect.Width(), rect.Height());
        captures := captures + [region];
        lastCapture := Some(region);
        ShowMessage(AREA_CAPTURED);
        saveEnabled := true;
      } else {
        ShowMessage(AREA_CANCELED);
      }
    }
  }
}
