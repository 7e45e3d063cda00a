/** The window's controls as a closed set of commands (the buttons wired up in
    init_ui, plus a pointer press on either panel), their effect on the
    window's state, and what holds after any sequence of them. */
module Dispatch {
  import opened Options
  import opened StrideGeometry
  import opened PanelSpec
  import opened WindowSpec

  datatype Command =
    | LoadLeft(path: string, capture: Capture)
    | LoadRight(path: string, capture: Capture)
    | Nav(step: Step)
    | Sync
    | SaveJack(path: string)
    | LoadJack(path: string, data: JackData, leftCapture: Capture, rightCapture: Capture)
    | DrawStride
    | ClickLeft(button: Button, at: Point)
    | ClickRight(button: Button, at: Point)

  function Exec(a: AppState, c: Command): AppState {
    match c
    case LoadLeft(path, capture) => LoadLeftVideo(a, path, capture)
    case LoadRight(path, capture) => LoadRightVideo(a, path, capture)
    case Nav(st) => Stepped(a, st)
    case Sync => ComputeSyncOffset(a)
    case SaveJack(_) => a
    case LoadJack(path, data, l, r) => if path == "" then a else ApplyJack(a, data, l, r)
    case DrawStride => WindowSpec.DrawStrideLines(a)
    case ClickLeft(button, at) => a.(left := Click(a.left, button, at))
    case ClickRight(button, at) => a.(right := Click(a.right, button, at))
  }

  function Run(a: AppState, cs: seq<Command>): AppState
    decreases |cs|
  {
    if cs == [] then a else Run(Exec(a, cs[0]), cs[1..])
  }

  function Repeat(c: Command, k: nat): (cs: seq<Command>)
    ensures |cs| == k
    ensures forall i :: 0 <= i < k ==> cs[i] == c
  {
    if k == 0 then [] else [c] + Repeat(c, k - 1)
  }

  /** What every reachable panel satisfies: the stride invariant, no empty
      recorded path, the frame count taken from the capture, and an unloaded
      panel still at frame 0 with nothing shown. */
  predicate PanelOk(p: PanelState) {
    StrideInv(p)
    && p.lastPath != Some("")
    && (p.cap.Some? ==> p.totalFrames == p.cap.value.frameCount)
    && (p.cap.None? ==> p.framePos == 0 && p.totalFrames == 0 && p.shown.None? && p.lastPath.None?)
  }

  predicate Consistent(a: AppState) {
    PanelOk(a.left) && PanelOk(a.right)
  }

  /** With captures that read only inside their frame count, a panel is at
      frame 0 or inside its video. */
  predicate Positioned(p: PanelState) {
    Bounded(p) && (p.framePos == 0 || InRange(p))
  }

  predicate CommandBounded(c: Command) {
    match c
    case LoadLeft(_, capture) => BoundedCapture(capture)
    case LoadRight(_, capture) => BoundedCapture(capture)
    case LoadJack(_, _, l, r) => BoundedCapture(l) && BoundedCapture(r)
    case _ => true
  }

  /** One command keeps the window consistent. */
  lemma ExecKeepsConsistent(a: AppState, c: Command)
    requires Consistent(a)
    ensures Consistent(Exec(a, c))
  {
  }

  /** Every sequence of commands keeps the window consistent. */
  lemma {:induction false} RunKeepsConsistent(a: AppState, cs: seq<Command>)
    requires Consistent(a)
    ensures Consistent(Run(a, cs))
    decreases |cs|
  {
    if cs != [] {
      ExecKeepsConsistent(a, cs[0]);
      RunKeepsConsistent(Exec(a, cs[0]), cs[1..]);
    }
  }

  /** From startup, whatever the user does, no panel ever holds more than two
      stride points, or more than one while collecting. */
  lemma AtMostTwoPoints(cs: seq<Command>)
    ensures |Run(Startup, cs).left.points| <= 2 && |Run(Startup, cs).right.points| <= 2
    ensures Run(Startup, cs).left.strideMode ==> |Run(Startup, cs).left.points| <= 1
    ensures Run(Startup, cs).right.strideMode ==> |Run(Startup, cs).right.points| <= 1
  {
    RunKeepsConsistent(Startup, cs);
  }

  /** One command with bounded captures keeps both panels positioned. */
  lemma ExecKeepsPositioned(a: AppState, c: Command)
    requires Consistent(a) && Positioned(a.left) && Positioned(a.right) && CommandBounded(c)
    ensures Positioned(Exec(a, c).left) && Positioned(Exec(a, c).right)
  {
  }

  /** With captures that never read outside their frame count, every panel is
      at frame 0 or inside its video after any sequence of commands, even
      though paired targets are clamped on one side only. */
  lemma {:induction false} RunKeepsPositioned(a: AppState, cs: seq<Command>)
    requires Consistent(a) && Positioned(a.left) && Positioned(a.right)
    requires forall i :: 0 <= i < |cs| ==> CommandBounded(cs[i])
    ensures Positioned(Run(a, cs).left) && Positioned(Run(a, cs).right)
    decreases |cs|
  {
    if cs != [] {
      ExecKeepsPositioned(a, cs[0]);
      ExecKeepsConsistent(a, cs[0]);
      RunKeepsPositioned(Exec(a, cs[0]), cs[1..]);
    }
  }

  /** Pressing "left next" k times without sync, on a video that reads every
      frame, walks forward and stops at the last frame. */
  lemma {:induction false} RepeatedLeftNextClamps(a: AppState, k: nat)
    requires !a.sync && Exact(a.left) && InRange(a.left)
    ensures Run(a, Repeat(Nav(LeftNext), k)).left.framePos == Min(a.left.totalFrames - 1, a.left.framePos + k)
    ensures Run(a, Repeat(Nav(LeftNext), k)).right == a.right
    decreases k
  {
    if k > 0 {
      var b := Exec(a, Nav(LeftNext));
      assert Repeat(Nav(LeftNext), k)[1..] == Repeat(Nav(LeftNext), k - 1);
      assert Decodes(a.left, Min(a.left.totalFrames - 1, a.left.framePos + 1));
      RepeatedLeftNextClamps(b, k - 1);
    }
  }
}
