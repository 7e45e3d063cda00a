/** The main window's state (two panels, the sync flag and the frame offset)
    and what each of its handlers does to it, as functions of the state
    before the call. Dialog results, file contents and opened captures are
    parameters. */
module WindowSpec {
  import opened Options
  import opened StrideGeometry
  import opened PanelSpec

  datatype AppState = AppState(left: PanelState, right: PanelState, sync: bool, frameOffset: int)

  /** The window as constructed: two unloaded panels, sync off, offset 0. */
  const Startup: AppState := AppState(Unloaded, Unloaded, false, 0)

  function Min(a: int, b: int): int { if a <= b then a else b }

  function Max(a: int, b: int): int { if a >= b then a else b }

  /** The frame the right panel is sent to when the left one is at `pos`. */
  function FromLeft(pos: int, offset: int): int { pos - offset }

  /** The frame the left panel is sent to when the right one is at `pos`. */
  function FromRight(pos: int, offset: int): int { pos + offset }

  // ---- the four step handlers -------------------------------------------

  /** left_next_frame: step the left panel forward, clamped above only; with
      sync on, send the right panel to the left's (possibly unchanged) frame
      minus the offset, clamped above only. */
  function LeftNextFrame(a: AppState): AppState {
    var left := ShowFrame(a.left, Min(a.left.totalFrames - 1, a.left.framePos + 1));
    var right := if a.sync then ShowFrame(a.right, Min(a.right.totalFrames - 1, FromLeft(left.framePos, a.frameOffset)))
                 else a.right;
    a.(left := left, right := right)
  }

  /** left_prev_frame: step the left panel back, clamped below only; with sync
      on, the right panel follows, clamped below only. */
  function LeftPrevFrame(a: AppState): AppState {
    var left := ShowFrame(a.left, Max(0, a.left.framePos - 1));
    var right := if a.sync then ShowFrame(a.right, Max(0, FromLeft(left.framePos, a.frameOffset)))
                 else a.right;
    a.(left := left, right := right)
  }

  /** right_next_frame: the mirror image, pairing through plus the offset. */
  function RightNextFrame(a: AppState): AppState {
    var right := ShowFrame(a.right, Min(a.right.totalFrames - 1, a.right.framePos + 1));
    var left := if a.sync then ShowFrame(a.left, Min(a.left.totalFrames - 1, FromRight(right.framePos, a.frameOffset)))
                else a.left;
    a.(left := left, right := right)
  }

  /** right_prev_frame */
  function RightPrevFrame(a: AppState): AppState {
    var right := ShowFrame(a.right, Max(0, a.right.framePos - 1));
    var left := if a.sync then ShowFrame(a.left, Max(0, FromRight(right.framePos, a.frameOffset)))
                else a.left;
    a.(left := left, right := right)
  }

  datatype Step = LeftNext | LeftPrev | RightNext | RightPrev {
    predicate LeftDriven() { this == LeftNext || this == LeftPrev }
    predicate Forward() { this == LeftNext || this == RightNext }
  }

  function Stepped(a: AppState, st: Step): AppState {
    match st
    case LeftNext => LeftNextFrame(a)
    case LeftPrev => LeftPrevFrame(a)
    case RightNext => RightNextFrame(a)
    case RightPrev => RightPrevFrame(a)
  }

  /** The panel a step moves, and the one that follows it. */
  function Driver(a: AppState, st: Step): PanelState { if st.LeftDriven() then a.left else a.right }

  function Follower(a: AppState, st: Step): PanelState { if st.LeftDriven() then a.right else a.left }

  /** The follower's target before its one-sided clamp. */
  function PairedTarget(st: Step, driverPos: int, offset: int): int {
    if st.LeftDriven() then FromLeft(driverPos, offset) else FromRight(driverPos, offset)
  }

  predicate InRange(p: PanelState) { 0 <= p.framePos < p.totalFrames }

  /** The capture reads only frames inside the count it reports. */
  predicate BoundedCapture(c: Capture) {
    forall n :: n in c.readable ==> 0 <= n < c.frameCount
  }

  predicate Bounded(p: PanelState) {
    p.cap.Some? ==> BoundedCapture(p.cap.value)
  }

  /** A loaded capture that reads exactly the frames [0, totalFrames). */
  ghost predicate Exact(p: PanelState) {
    p.cap.Some? && p.totalFrames == p.cap.value.frameCount
    && forall n :: n in p.cap.value.readable <==> 0 <= n < p.totalFrames
  }

  // ---- sync ---------------------------------------------------------------

  /** compute_sync_offset: the offset becomes left minus right, sync is turned
      on even when that is 0, each panel's sync frame becomes its own current
      frame, and re-showing puts each panel back where it was, with an elapsed
      label of zero. */
  function ComputeSyncOffset(a: AppState): (r: AppState)
    ensures r.sync && r.frameOffset == a.left.framePos - a.right.framePos
    ensures r.left.syncFrame == a.left.framePos && r.right.syncFrame == a.right.framePos
    ensures r.left.framePos == a.left.framePos && r.right.framePos == a.right.framePos
    ensures Decodes(a.left, a.left.framePos) ==> r.left.shown.Some? && r.left.shown.value.elapsedFrames == 0
    ensures Decodes(a.right, a.right.framePos) ==> r.right.shown.Some? && r.right.shown.value.elapsedFrames == 0
    ensures r.left == ShowFrame(a.left.(syncFrame := a.left.framePos), a.left.framePos)
    ensures r.right == ShowFrame(a.right.(syncFrame := a.right.framePos), a.right.framePos)
  {
    var offset := a.left.framePos - a.right.framePos;
    var left := ShowFrame(a.left.(syncFrame := a.left.framePos), a.left.framePos);
    var right := ShowFrame(a.right.(syncFrame := a.right.framePos), FromLeft(left.framePos, offset));
    AppState(left, right, true, offset)
  }

  // ---- loading videos and stride mode --------------------------------------

  /** load_left_video: an empty dialog result (cancelled) changes nothing. */
  function LoadLeftVideo(a: AppState, path: string, capture: Capture): (r: AppState)
    ensures path == "" ==> r == a
    ensures path != "" ==> r.left == LoadVideo(a.left, path, capture)
    ensures r.right == a.right && r.sync == a.sync && r.frameOffset == a.frameOffset
  {
    if path == "" then a else a.(left := LoadVideo(a.left, path, capture))
  }

  /** load_right_video: loads the right panel when a path was chosen and then,
      whether or not one was, steps the left panel forward and pairs the right
      one exactly as left_next_frame does. */
  function LoadRightVideo(a: AppState, path: string, capture: Capture): (r: AppState)
    ensures path == "" ==> r == LeftNextFrame(a)
    ensures path != "" ==> r == LeftNextFrame(a.(right := LoadVideo(a.right, path, capture)))
    ensures path != "" ==> r.right.cap == Some(capture) && r.right.totalFrames == capture.frameCount
    ensures r.left == ShowFrame(a.left, Min(a.left.totalFrames - 1, a.left.framePos + 1))
    ensures r.right.lastPath == (if path == "" then a.right.lastPath else Some(path))
    ensures r.sync == a.sync && r.frameOffset == a.frameOffset
  {
    var loaded := if path == "" then a else a.(right := LoadVideo(a.right, path, capture));
    LeftNextFrame(loaded)
  }

  /** The window's draw-stride button: stride collection on the left panel. */
  function DrawStrideLines(a: AppState): (r: AppState)
    ensures r.left.strideMode && r.left.points == []
    ensures r.left == EnableStrideMode(a.left)
    ensures r.right == a.right && r.sync == a.sync && r.frameOffset == a.frameOffset
  {
    a.(left := EnableStrideMode(a.left))
  }

  // ---- .jack session files ----------------------------------------------------

  /** What save writes: both paths and the offset. */
  datatype SessionRecord = SessionRecord(leftVideo: string, rightVideo: string, offset: int)

  /** What load reads: any of the three keys may be missing. */
  datatype JackData = JackData(leftVideo: Option<string>, rightVideo: Option<string>, offset: Option<int>)

  /** Missing keys read as "", "" and 0. */
  function WithDefaults(d: JackData): SessionRecord {
    SessionRecord(d.leftVideo.GetOr(""), d.rightVideo.GetOr(""), d.offset.GetOr(0))
  }

  /** A saved record read back: every key present. */
  function AsJackData(rec: SessionRecord): JackData {
    JackData(Some(rec.leftVideo), Some(rec.rightVideo), Some(rec.offset))
  }

  /** save_jack_file: each panel's last path ("" if it never loaded one) and
      the current offset, whether or not sync is on. */
  function Session(a: AppState): SessionRecord {
    SessionRecord(a.left.lastPath.GetOr(""), a.right.lastPath.GetOr(""), a.frameOffset)
  }

  /** load_jack_file once the file has been read: non-empty paths are loaded
      into their panels, the offset is taken as it is, sync is turned on
      whatever the offset, the left panel is re-shown where it is and the
      right one is sent to the left's frame minus the offset. */
  function ApplyJack(a: AppState, d: JackData, leftCapture: Capture, rightCapture: Capture): (r: AppState)
    ensures r.sync && r.frameOffset == WithDefaults(d).offset
    ensures WithDefaults(d).leftVideo == "" ==>
              r.left.lastPath == a.left.lastPath && r.left.cap == a.left.cap && r.left.framePos == a.left.framePos
    ensures WithDefaults(d).leftVideo != "" ==>
              r.left.lastPath == Some(WithDefaults(d).leftVideo) && r.left.cap == Some(leftCapture) && r.left.framePos == 0
    ensures WithDefaults(d).rightVideo == "" ==> r.right.lastPath == a.right.lastPath && r.right.cap == a.right.cap
    ensures WithDefaults(d).rightVideo != "" ==>
              r.right.lastPath == Some(WithDefaults(d).rightVideo) && r.right.cap == Some(rightCapture)
    ensures r.left.totalFrames == (if WithDefaults(d).leftVideo == "" then a.left.totalFrames else leftCapture.frameCount)
    ensures r.right.totalFrames == (if WithDefaults(d).rightVideo == "" then a.right.totalFrames else rightCapture.frameCount)
    ensures var left := if WithDefaults(d).leftVideo == "" then a.left
                        else LoadVideo(a.left, WithDefaults(d).leftVideo, leftCapture);
            r.left == ShowFrame(left, left.framePos)
    ensures var right := if WithDefaults(d).rightVideo == "" then a.right
                         else LoadVideo(a.right, WithDefaults(d).rightVideo, rightCapture);
            r.right == ShowFrame(right, FromLeft(r.left.framePos, r.frameOffset))
  {
    var rec := WithDefaults(d);
    var left := if rec.leftVideo != "" then LoadVideo(a.left, rec.leftVideo, leftCapture) else a.left;
    var right := if rec.rightVideo != "" then LoadVideo(a.right, rec.rightVideo, rightCapture) else a.right;
    var left' := ShowFrame(left, left.framePos);
    var right' := ShowFrame(right, FromLeft(left'.framePos, rec.offset));
    AppState(left', right', true, rec.offset)
  }

  // ---- properties -----------------------------------------------------------

  /** A panel stepped by its own button stays inside [0, totalFrames - 1]
      when it was inside before, whether or not the frame decodes. */
  lemma SteppedPanelStaysInRange(a: AppState, st: Step)
    requires InRange(Driver(a, st))
    ensures InRange(Driver(Stepped(a, st), st))
  {
  }

  /** With sync off, a step leaves the other panel untouched. */
  lemma UnsyncedStepLeavesFollower(a: AppState, st: Step)
    requires !a.sync
    ensures Follower(Stepped(a, st), st) == Follower(a, st)
    ensures Stepped(a, st).sync == a.sync && Stepped(a, st).frameOffset == a.frameOffset
  {
  }

  /** With sync on and well-behaved captures, a step whose paired target lies
      inside the follower's video keeps left minus right equal to the offset. */
  lemma SyncedStepKeepsOffset(a: AppState, st: Step)
    requires a.sync && Exact(a.left) && Exact(a.right) && InRange(Driver(a, st))
    requires 0 <= PairedTarget(st, Driver(Stepped(a, st), st).framePos, a.frameOffset) < Follower(a, st).totalFrames
    ensures Stepped(a, st).left.framePos - Stepped(a, st).right.framePos == a.frameOffset
  {
  }

  /** The follower's target is clamped on one side only: a "next" step whose
      paired target falls below 0, or a "prev" step whose paired target falls
      past the end, asks for a frame that a bounded capture cannot read, so the
      follower stays where it was. */
  lemma PairedTargetClampedOneSide(a: AppState, st: Step)
    requires a.sync && Bounded(Follower(a, st))
    requires Follower(a, st).cap.Some? ==> Follower(a, st).totalFrames == Follower(a, st).cap.value.frameCount
    requires var t := PairedTarget(st, Driver(Stepped(a, st), st).framePos, a.frameOffset);
             if st.Forward() then t < 0 else t >= Follower(a, st).totalFrames
    ensures Follower(Stepped(a, st), st) == Follower(a, st)
  {
  }

  /** The clamped side of the follower's target: a "next" step whose paired
      target is past the end, or a "prev" step whose paired target is below 0,
      lands an exactly-readable follower on its last or first frame. */
  lemma PairedTargetClampedOtherSide(a: AppState, st: Step)
    requires a.sync && Exact(Follower(a, st)) && Follower(a, st).totalFrames >= 1
    requires var t := PairedTarget(st, Driver(Stepped(a, st), st).framePos, a.frameOffset);
             if st.Forward() then t >= Follower(a, st).totalFrames else t < 0
    ensures Follower(Stepped(a, st), st).framePos == if st.Forward() then Follower(a, st).totalFrames - 1 else 0
  {
  }

  /** Right after a sync, the right panel's paired frame (left minus offset) is
      the frame it is already at. */
  lemma SyncPairsCurrentFrames(a: AppState)
    ensures var r := ComputeSyncOffset(a); FromLeft(r.left.framePos, r.frameOffset) == r.right.framePos
  {
  }

  /** Missing keys: an empty file loads as "", "", 0; a saved record reads
      back as itself. */
  lemma JackDefaults(rec: SessionRecord)
    ensures WithDefaults(JackData(None, None, None)) == SessionRecord("", "", 0)
    ensures WithDefaults(AsJackData(rec)) == rec
  {
  }

  /** Loading what save wrote gives back the same session (paths and offset)
      with sync on, as long as no panel recorded an empty path. */
  lemma SaveThenLoadRoundTrip(a: AppState, leftCapture: Capture, rightCapture: Capture)
    requires a.left.lastPath != Some("") && a.right.lastPath != Some("")
    ensures var r := ApplyJack(a, AsJackData(Session(a)), leftCapture, rightCapture);
            Session(r) == Session(a) && r.sync
  {
  }

  /** A loaded session whose paired frame lies inside the right video, with
      well-behaved captures, leaves the panels exactly the offset apart. */
  lemma LoadedSessionIsInSync(a: AppState, d: JackData, leftCapture: Capture, rightCapture: Capture)
    requires var r := ApplyJack(a, d, leftCapture, rightCapture);
             Exact(r.right) && 0 <= FromLeft(r.left.framePos, r.frameOffset) < r.right.totalFrames
    ensures var r := ApplyJack(a, d, leftCapture, rightCapture);
            r.left.framePos - r.right.framePos == r.frameOffset
  {
  }
}
