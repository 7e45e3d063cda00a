/** MainWindow: owns the two panels, the sync flag and the frame offset. Each
    handler is proved to leave the window in the state its WindowSpec
    function gives. Dialog results, file contents and opened captures arrive
    as parameters. */
module Window {
  import opened Options
  import PanelSpec
  import WindowSpec
  import opened Panel

  class MainWindow {
    const leftPanel: VideoPanel
    const rightPanel: VideoPanel
    var sync: bool
    var frameOffset: int

    ghost predicate Valid()
      reads this
    {
      leftPanel != rightPanel
    }

    function State(): WindowSpec.AppState
      reads this, leftPanel, rightPanel
    {
      WindowSpec.AppState(leftPanel.State(), rightPanel.State(), sync, frameOffset)
    }

    constructor ()
      ensures Valid() && fresh(leftPanel) && fresh(rightPanel)
      ensures State() == WindowSpec.Startup
    {
      leftPanel := new VideoPanel();
      rightPanel := new VideoPanel();
      sync := false;
      frameOffset := 0;
    }

    method LeftNextFrame()
      requires Valid()
      modifies leftPanel, rightPanel
      ensures State() == WindowSpec.LeftNextFrame(old(State()))
    {
      leftPanel.ShowFrame(WindowSpec.Min(leftPanel.totalFrames - 1, leftPanel.framePos + 1));
      if sync {
        rightPanel.ShowFrame(WindowSpec.Min(rightPanel.totalFrames - 1, leftPanel.framePos - frameOffset));
      }
    }

    method LeftPrevFrame()
      requires Valid()
      modifies leftPanel, rightPanel
      ensures State() == WindowSpec.LeftPrevFrame(old(State()))
    {
      leftPanel.ShowFrame(WindowSpec.Max(0, leftPanel.framePos - 1));
      if sync {
        rightPanel.ShowFrame(WindowSpec.Max(0, leftPanel.framePos - frameOffset));
      }
    }

    method RightPrevFrame()
      requires Valid()
      modifies leftPanel, rightPanel
      ensures State() == WindowSpec.RightPrevFrame(old(State()))
    {
      rightPanel.ShowFrame(WindowSpec.Max(0, rightPanel.framePos - 1));
      if sync {
        leftPanel.ShowFrame(WindowSpec.Max(0, rightPanel.framePos + frameOffset));
      }
    }

    method RightNextFrame()
      requires Valid()
      modifies leftPanel, rightPanel
      ensures State() == WindowSpec.RightNextFrame(old(State()))
    {
      rightPanel.ShowFrame(WindowSpec.Min(rightPanel.totalFrames - 1, rightPanel.framePos + 1));
      if sync {
        leftPanel.ShowFrame(WindowSpec.Min(leftPanel.totalFrames - 1, rightPanel.framePos + frameOffset));
      }
    }

    method ComputeSyncOffset()
      requires Valid()
      modifies this, leftPanel, rightPanel
      ensures State() == WindowSpec.ComputeSyncOffset(old(State()))
    {
      frameOffset := leftPanel.framePos - rightPanel.framePos;
      sync := true;
      leftPanel.syncFrame := leftPanel.framePos;
      rightPanel.syncFrame := rightPanel.framePos;
      leftPanel.ShowFrame(leftPanel.framePos);
      rightPanel.ShowFrame(leftPanel.framePos - frameOffset);
    }

    /** `path` is the dialog's answer ("" when cancelled); `capture` is what
        the video library opens for it. */
    method LoadLeftVideo(path: string, capture: PanelSpec.Capture)
      requires Valid()
      modifies leftPanel
      ensures State() == WindowSpec.LoadLeftVideo(old(State()), path, capture)
    {
      if path != "" {
        leftPanel.LoadVideo(path, capture);
      }
    }

    method LoadRightVideo(path: string, capture: PanelSpec.Capture)
      requires Valid()
      modifies leftPanel, rightPanel
      ensures State() == WindowSpec.LoadRightVideo(old(State()), path, capture)
    {
      if path != "" {
        rightPanel.LoadVideo(path, capture);
      }
      leftPanel.ShowFrame(WindowSpec.Min(leftPanel.totalFrames - 1, leftPanel.framePos + 1));
      if sync {
        rightPanel.ShowFrame(WindowSpec.Min(rightPanel.totalFrames - 1, leftPanel.framePos - frameOffset));
      }
    }

    method DrawStrideLines()
      requires Valid()
      modifies leftPanel
      ensures State() == WindowSpec.DrawStrideLines(old(State()))
    {
      leftPanel.EnableStrideMode();
    }

    /** save_jack_file: `path` is the dialog's answer; the record returned is
        what is written to it, nothing when the dialog was cancelled. */
    method SaveJackFile(path: string) returns (written: Option<WindowSpec.SessionRecord>)
      ensures path == "" ==> written == None
      ensures path != "" ==> written == Some(WindowSpec.Session(State()))
    {
      written := None;
      if path != "" {
        written := Some(WindowSpec.SessionRecord(
          if leftPanel.lastPath.Some? then leftPanel.lastPath.value else "",
          if rightPanel.lastPath.Some? then rightPanel.lastPath.value else "",
          frameOffset));
      }
    }

    /** load_jack_file: `path` is the dialog's answer, `data` the file's
        parsed keys, and the captures what the library opens for its paths. */
    method LoadJackFile(path: string, data: WindowSpec.JackData,
                        leftCapture: PanelSpec.Capture, rightCapture: PanelSpec.Capture)
      requires Valid()
      modifies this, leftPanel, rightPanel
      ensures State() == if path == "" then old(State())
                         else WindowSpec.ApplyJack(old(State()), data, leftCapture, rightCapture)
    {
      if path != "" {
        var leftVideo := data.leftVideo.GetOr("");
        var rightVideo := data.rightVideo.GetOr("");
        var offset := data.offset.GetOr(0);
        if leftVideo != "" {
          leftPanel.LoadVideo(leftVideo, leftCapture);
        }
        if rightVideo != "" {
          rightPanel.LoadVideo(rightVideo, rightCapture);
        }
        frameOffset := offset;
        sync := true;
        leftPanel.ShowFrame(leftPanel.framePos);
        rightPanel.ShowFrame(leftPanel.framePos - frameOffset);
      }
    }
  }
}
