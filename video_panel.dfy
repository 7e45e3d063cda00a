/** VideoPanel: one viewport with its capture, playback position and stride
    annotation, updated in place by its handlers. Each method is proved to
    leave the panel in the state its PanelSpec function gives. */
module Panel {
  import opened Options
  import opened StrideGeometry
  import PanelSpec

  class VideoPanel {
    var cap: Option<PanelSpec.Capture>
    var framePos: int
    var totalFrames: int
    var syncFrame: int
    var lastPath: Option<string>
    var strideMode: bool
    var points: seq<Point>
    var shown: Option<PanelSpec.Picture>

    /** The panel's fields as a value. */
    function State(): PanelSpec.PanelState
      reads this
    {
      PanelSpec.PanelState(cap, framePos, totalFrames, syncFrame, lastPath, strideMode, points, shown)
    }

    constructor ()
      ensures State() == PanelSpec.Unloaded
    {
      cap := None;
      framePos := 0;
      totalFrames := 0;
      syncFrame := 0;
      lastPath := None;
      strideMode := false;
      points := [];
      shown := None;
    }

    method ShowFrame(n: int)
      modifies this
      ensures State() == PanelSpec.ShowFrame(old(State()), n)
    {
      if cap.Some? {
        var ok := n in cap.value.readable;  // seek to n, then read
        if ok {
          shown := Some(PanelSpec.Picture(n, n - syncFrame, PanelSpec.Overlay(points)));
          framePos := n;
        }
      }
    }

    method LoadVideo(path: string, capture: PanelSpec.Capture)
      modifies this
      ensures State() == PanelSpec.LoadVideo(old(State()), path, capture)
    {
      cap := Some(capture);
      totalFrames := capture.frameCount;
      framePos := 0;
      ShowFrame(0);
      lastPath := Some(path);
    }

    method EnableStrideMode()
      modifies this
      ensures State() == PanelSpec.EnableStrideMode(old(State()))
    {
      strideMode := true;
      points := [];
    }

    method MousePressEvent(button: PanelSpec.Button, at: Point)
      modifies this
      ensures State() == PanelSpec.Click(old(State()), button, at)
    {
      if strideMode && button == PanelSpec.LeftButton && cap.Some? {
        var ok := framePos in cap.value.readable;  // seek to framePos, then read
        if ok {
          points := points + [at];
          if |points| == 2 {
            strideMode := false;
            DrawStrideLines();
          }
        }
      }
    }

    method DrawStrideLines()
      requires cap.Some?
      modifies this
      ensures State() == PanelSpec.DrawStrideLines(old(State()))
    {
      if |points| == 2 {
        var ok := framePos in cap.value.readable;  // seek to framePos, then read
        if ok {
          shown := Some(PanelSpec.Picture(framePos, framePos - syncFrame, Some(Lines(points[0], points[1]))));
        }
      }
    }
  }
}
