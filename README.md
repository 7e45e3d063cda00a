# Pitching-video comparison: frame navigation, sync and stride annotation

A model of the state logic of a two-panel desktop tool for comparing
pitching videos (`video_analysis_app.py`). Each `VideoPanel` holds an opened
capture, a current frame, a frame count, a sync frame (the zero point of its
elapsed-time label), the last loaded path, and a stride annotation of up to
two clicked points. The `MainWindow` holds both panels, a `sync` flag and an
integer `frame_offset`. Its handlers step either panel by one frame. With
sync on, the other panel follows through the offset: a left-driven step
sends the right panel to `left - offset`, a right-driven step sends the left
panel to `right + offset`. The handlers also compute the offset, load videos,
save and load `.jack` session records, and start stride annotation.

Files:

- `options.dfy`: `Option`, for attributes that may be absent and for keys
  missing from a session file.
- `stride_geometry.dfy` (module `StrideGeometry`): the two segments drawn
  from two clicked points. This part is pure.
- `panel_spec.dfy` (module `PanelSpec`): a panel's state as a value, and
  each panel handler as a function of the state before the call.
- `video_panel.dfy` (module `Panel`): the class `VideoPanel`. Its fields are
  updated in place, and each method is proved to produce the state its
  `PanelSpec` function gives.
- `window_spec.dfy` (module `WindowSpec`): the window's state as a value.
  It holds each window handler as a function, the session record, and the
  properties of sync, stepping and session files.
- `main_window.dfy` (module `Window`): the class `MainWindow`, whose methods
  drive the two `VideoPanel` objects. Each method is proved against its
  `WindowSpec` function.
- `dispatch.dfy` (module `Dispatch`): the window's controls as a closed set
  of commands. It defines runs of command sequences and proves invariants
  over any such run by induction.

The video library is modelled as an oracle. Opening a file yields a
`Capture(frameCount, readable)`: the frame count the library reports, and the
set of frame indices whose seek-then-read succeeds. A panel reads frame `n`
by testing `n in readable`; a read depends only on the frame sought, because
every read follows a seek. Nothing is assumed about
reads outside `[0, frameCount)`. Properties that need a well-behaved
capture say so:

- `BoundedCapture` / `Bounded`: reads succeed only inside the frame count.
- `Exact`: reads succeed exactly on `[0, totalFrames)`.

Dialog answers are parameters: `""` means the dialog was cancelled. So are
the parsed contents of a session file and the captures opened for its
paths.

Behaviours of the code that the model keeps as they are:

- Loading a session always turns sync on, even when the loaded offset is 0.
- The follower's target is clamped on one side only: above for "next",
  below for "prev". `PairedTargetClampedOneSide` shows the consequence:
  with a bounded capture, a follower sent out of range stays where it was.
- `show_frame` does not clamp its argument.
- There is no 10-frame step.
- `load_video` keeps the stride points and the sync frame. If frame 0 of
  the new video does not decode, the previous picture stays on screen.
- `load_right_video` always finishes by stepping the left panel forward,
  even when the dialog was cancelled; with sync on, the right panel then
  follows it.

## Model

| member | source | states |
|---|---|---|
| StrideGeometry.Lines | video_analysis_app.py:48-52 | both segments start at the first click; the vertical one ends at the second click's height; the horizontal one runs right from the first click, and its length equals the vertical span |
| StrideGeometry.LinesIgnoreSecondX | video_analysis_app.py:96-99 | the second click's x coordinate never affects what is drawn |
| StrideGeometry.HorizontalIsMirrorInvariant | video_analysis_app.py:50-52 | the horizontal line depends only on the distance between the two heights, not on whether the second click is above or below the first |
| StrideGeometry.WorkedExample | video_analysis_app.py:96-99 | clicks (50,20) then (80,100) draw (50,20)-(50,100) and (50,20)-(130,20) |
| PanelSpec.ShowFrame | video_analysis_app.py:79-106 | the frame is committed and displayed exactly when a capture is present and the frame decodes; otherwise nothing changes; the capture, frame count, sync frame, path, stride mode and points are never touched |
| PanelSpec.LoadVideo | video_analysis_app.py:72-77 | the new capture and its frame count replace the old ones; the position is reset to 0 before showing frame 0; the path is recorded; the old picture stays when frame 0 fails; sync frame and stride points are kept |
| PanelSpec.EnableStrideMode | video_analysis_app.py:8-11 | collecting is switched on and the points are cleared; nothing else changes |
| PanelSpec.DrawStrideLines | video_analysis_app.py:30-58 | with two points and a decodable current frame, that frame is redisplayed with the lines from the first point to the second and nothing but the picture changes; otherwise nothing changes |
| PanelSpec.Click | video_analysis_app.py:13-28 | a click is appended only while collecting, with the left button, on a readable current frame; collecting stops exactly when that click is the second point, which then draws the lines; the stride invariant is preserved |
| PanelSpec.PanelOpsKeepStrideInv | video_analysis_app.py:8-27 | showing a frame, loading a video, enabling stride mode and clicking all keep the stride invariant |
| Panel.VideoPanel.constructor | video_analysis_app.py:59-70 | a new panel has no capture, frame 0, frame count 0, sync frame 0, no path, no points |
| Panel.VideoPanel.ShowFrame | video_analysis_app.py:79-106 | the panel's new state is PanelSpec.ShowFrame of its old state |
| Panel.VideoPanel.LoadVideo | video_analysis_app.py:72-77 | the panel's new state is PanelSpec.LoadVideo of its old state |
| Panel.VideoPanel.EnableStrideMode | video_analysis_app.py:8-11 | the panel's new state is PanelSpec.EnableStrideMode of its old state |
| Panel.VideoPanel.MousePressEvent | video_analysis_app.py:13-28 | the panel's new state is PanelSpec.Click of its old state |
| Panel.VideoPanel.DrawStrideLines | video_analysis_app.py:30-58 | the panel's new state is PanelSpec.DrawStrideLines of its old state |
| WindowSpec.ComputeSyncOffset | video_analysis_app.py:233-242 | the offset becomes left minus right; sync is on even when the offset is 0; each sync frame becomes that panel's current frame; each panel is then re-shown at its own current frame, so it stays where it is, a decodable panel shows an elapsed label of 0, and nothing else of either panel changes |
| WindowSpec.SyncPairsCurrentFrames | video_analysis_app.py:233-242 | right after a sync, the right panel's paired frame (left minus offset) is its own current frame |
| WindowSpec.LoadLeftVideo | video_analysis_app.py:203-206 | a cancelled dialog changes nothing; otherwise only the left panel is loaded |
| WindowSpec.LoadRightVideo | video_analysis_app.py:208-221 | loads the right panel (capture, frame count, path) only when a path was chosen; either way what follows is exactly a left-next step on the resulting state: the left panel is asked for its next frame and, with sync on, the right panel follows |
| WindowSpec.DrawStrideLines | video_analysis_app.py:109-110 | stride collection starts on the left panel, with no points, and nothing else of it changes; the right panel, sync flag and offset are unchanged |
| WindowSpec.ApplyJack | video_analysis_app.py:129-139 | missing keys default to "", "", 0; an empty path leaves that panel's capture, frame count and path alone (and the left panel's position), a non-empty one loads it (left at frame 0); stride points, stride mode and sync frames are kept; the left panel is re-shown at its frame; the offset is taken as loaded and sync is on whatever its value; the right panel, loaded or not, is then sent to the left panel's frame minus the offset |
| WindowSpec.JackDefaults | video_analysis_app.py:129-131 | a file with no keys loads as "", "", 0; a record as saved reads back unchanged |
| WindowSpec.SaveThenLoadRoundTrip | video_analysis_app.py:111-139 | loading the record that save writes reproduces both paths and the offset, with sync on |
| WindowSpec.LoadedSessionIsInSync | video_analysis_app.py:136-139 | after loading a session, if the right panel's target lies inside an exactly-readable right video, left minus right equals the loaded offset |
| WindowSpec.SteppedPanelStaysInRange | video_analysis_app.py:140-147 | a panel stepped by its own next/prev button (left or right handler) stays within [0, total-1] if it was within it before |
| WindowSpec.UnsyncedStepLeavesFollower | video_analysis_app.py:223-231 | with sync off, any of the four steps leaves the other panel, the sync flag and the offset untouched |
| WindowSpec.SyncedStepKeepsOffset | video_analysis_app.py:140-147 | with sync on and exactly-readable videos, a step whose paired target (left minus offset, or right plus offset) lies in the other video keeps left minus right equal to the offset |
| WindowSpec.PairedTargetClampedOneSide | video_analysis_app.py:223-231 | the paired target is clamped above only for "next" and below only for "prev": a target past the unclamped side is unreadable by a bounded capture and leaves the other panel where it was |
| WindowSpec.PairedTargetClampedOtherSide | video_analysis_app.py:140-147 | the clamped side: with sync on, a "next" step whose paired target is past the end, or a "prev" step whose target is below 0 (left or right handler), lands an exactly-readable follower on its last or first frame |
| Window.MainWindow.constructor | video_analysis_app.py:148-155 | two distinct fresh panels, sync off, offset 0 |
| Window.MainWindow.LeftNextFrame | video_analysis_app.py:140-143 | the window's new state is WindowSpec.LeftNextFrame of its old state |
| Window.MainWindow.LeftPrevFrame | video_analysis_app.py:144-147 | the window's new state is WindowSpec.LeftPrevFrame of its old state |
| Window.MainWindow.RightPrevFrame | video_analysis_app.py:223-226 | the window's new state is WindowSpec.RightPrevFrame of its old state |
| Window.MainWindow.RightNextFrame | video_analysis_app.py:228-231 | the window's new state is WindowSpec.RightNextFrame of its old state |
| Window.MainWindow.ComputeSyncOffset | video_analysis_app.py:233-242 | the window's new state is WindowSpec.ComputeSyncOffset of its old state |
| Window.MainWindow.LoadLeftVideo | video_analysis_app.py:203-206 | the window's new state is WindowSpec.LoadLeftVideo of its old state |
| Window.MainWindow.LoadRightVideo | video_analysis_app.py:208-221 | the window's new state is WindowSpec.LoadRightVideo of its old state |
| Window.MainWindow.DrawStrideLines | video_analysis_app.py:109-110 | the window's new state is WindowSpec.DrawStrideLines of its old state |
| Window.MainWindow.SaveJackFile | video_analysis_app.py:111-121 | nothing is written when the dialog is cancelled; otherwise each panel's last path (or "") and the current offset |
| Window.MainWindow.LoadJackFile | video_analysis_app.py:123-139 | a cancelled dialog changes nothing; otherwise the window's new state is WindowSpec.ApplyJack of its old state |
| Dispatch.ExecKeepsConsistent | video_analysis_app.py:189-198 | every control keeps both panels consistent: stride invariant, no empty recorded path, frame count from the capture, an unloaded panel at frame 0 |
| Dispatch.RunKeepsConsistent | video_analysis_app.py:189-198 | any sequence of controls keeps the window consistent |
| Dispatch.AtMostTwoPoints | video_analysis_app.py:14-27 | from startup, whatever the user does, no panel holds more than two stride points, or more than one while collecting |
| Dispatch.ExecKeepsPositioned | video_analysis_app.py:79-106 | with bounded captures, every control leaves each panel at frame 0 or inside its video |
| Dispatch.RunKeepsPositioned | video_analysis_app.py:140-147 | with bounded captures, any sequence of controls leaves each panel at frame 0 or inside its video, despite the one-sided clamps |
| Dispatch.RepeatedLeftNextClamps | video_analysis_app.py:140-141 | k presses of "left next" without sync, on an exactly-readable video, reach min(total-1, pos+k) and leave the right panel alone |

## Left out

- Widgets, layouts and button wiring are left out: they are UI plumbing.
  The wiring appears only as the `Dispatch.Command` table.
- File dialogs are left out; their answers are parameters.
- Conversion to displayable images and the drawing calls are left out. The
  picture is modelled as the frame index, the elapsed frame count and the
  stride segments drawn over it.
- Video decoding and seeking are external library calls. They are modelled
  as the `Capture` oracle: a read depends only on the frame sought, because
  every read follows a seek. Releasing the previous capture is not
  modelled.
- The elapsed-time label is `(frame - sync_frame) / fps`, formatted to two
  decimals, with 0 when fps is 0. This is floating point; only the integer
  frame difference is modelled.
- JSON encoding and file reads and writes are left out. The session is the
  record `{left, right, offset}`: paths are strings, the offset an integer,
  and any key may be missing. A file that cannot be parsed raises before any
  state changes. Other JSON value types are not modelled. Their effects
  vary: a `null` path is skipped like an empty one, an integer path is
  opened as a camera index, and a float offset is accepted. A string offset
  raises only at the final re-show of the right panel (line 139), after the
  offset and sync flag were set and the left panel re-shown, so the window
  is left partly updated.
- Zoom and pan are not modelled: the code has no zoom or pan.
- The unused button objects built in `load_right_video` are left out: they
  have no effect on state.
- The panel's `draw_stride_lines` (video_analysis_app.py:30-58) reads
  the capture without checking that one is present. It is only called after
  a click that needed the capture, so the model checks for a capture
  there and raises no error.
