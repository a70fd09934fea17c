/** One call of SceneRendererES2::render, on values: whether the frame is
    drawn at all, the GL set-up of a drawn frame, the draw-list pipeline
    (collect, sort, calculate, execute every render target) and the frame
    counters. */
module Frame {
  import opened Matrices
  import opened Drawables
  import opened GLModel
  import opened Counting
  import opened Collection
  import opened DrawOrder
  import opened CalcPass
  import opened TargetPass

  // ---------------------------------------------------------------------------
  // Whether to draw

  /** How a call of render ends: without a scene it does nothing; with an
      empty framebuffer it only lets the scene process its changes; with
      nothing changed it skips; otherwise it draws. */
  datatype Outcome = NoScene | ZeroSize | Skipped | Drawn

  /** What one call of render sees: whether there is a scene, the
      framebuffer size, whether anything changed (the scene's, the view's and
      the continuous-render requests' verdict, asked after the view has
      animated), and the clock when the frame is decided and when it ends. */
  datatype FrameInput = FrameInput(hasScene: bool, width: int, height: int, changed: bool, now: real, endNow: real)

  /** The counters render keeps between frames. */
  datatype FrameCounters = FrameCounters(frameCount: nat, extraFrameDrawn: bool, lastDraw: real, frameCountStart: real)

  function Decide(input: FrameInput, extraFrameMode: bool, extraFrameDrawn: bool): Outcome
  {
    if !input.hasScene then NoScene
    else if input.width <= 0 || input.height <= 0 then ZeroSize
    else if !input.changed && (!extraFrameMode || extraFrameDrawn) then Skipped
    else Drawn
  }

  /** The counters once render has decided: frameCount counts every call
      that has a scene; a drawn frame records when it was decided and
      whether it was the extra frame. */
  function CountersAtDecision(input: FrameInput, extraFrameMode: bool, c: FrameCounters): FrameCounters
  {
    match Decide(input, extraFrameMode, c.extraFrameDrawn)
    case NoScene => c
    case ZeroSize => c.(frameCount := c.frameCount + 1)
    case Skipped => c.(frameCount := c.frameCount + 1)
    case Drawn => c.(frameCount := c.frameCount + 1, extraFrameDrawn := !input.changed, lastDraw := input.now)
  }

  /** The end of a drawn frame: once more than perfInterval frames were
      counted, the frame-rate window restarts at endNow. */
  function PerfReset(perfInterval: int, endNow: real, c: FrameCounters): FrameCounters
  {
    if perfInterval > 0 && c.frameCount > perfInterval then c.(frameCount := 0, frameCountStart := endNow) else c
  }

  /** The counters after one call. */
  function CountersAfter(input: FrameInput, extraFrameMode: bool, perfInterval: int, c: FrameCounters): FrameCounters
  {
    var decided := CountersAtDecision(input, extraFrameMode, c);
    if Decide(input, extraFrameMode, c.extraFrameDrawn) == Drawn then PerfReset(perfInterval, input.endNow, decided) else decided
  }

  /** The early exits change nothing but frameCount, and without a scene not
      even that. */
  lemma EarlyExits(input: FrameInput, extraFrameMode: bool, perfInterval: int, c: FrameCounters)
    ensures var o := Decide(input, extraFrameMode, c.extraFrameDrawn);
      var c' := CountersAfter(input, extraFrameMode, perfInterval, c);
      && (o == NoScene <==> !input.hasScene)
      && (o == NoScene ==> c' == c)
      && (o == ZeroSize <==> input.hasScene && (input.width <= 0 || input.height <= 0))
      && (o == ZeroSize || o == Skipped ==> c' == c.(frameCount := c.frameCount + 1))
  {
  }

  /** A drawn frame: exactly when the frame can be drawn and something changed
      or the extra frame is still owed; afterwards the extra frame is owed
      exactly when something changed; and with a sampling interval the
      counter never exceeds it: it is reset to zero when it would, and the
      window then restarts. */
  lemma DrawnFrame(input: FrameInput, extraFrameMode: bool, perfInterval: int, c: FrameCounters)
    ensures var o := Decide(input, extraFrameMode, c.extraFrameDrawn);
      var c' := CountersAfter(input, extraFrameMode, perfInterval, c);
      && (o == Drawn <==> input.hasScene && input.width > 0 && input.height > 0 && (input.changed || (extraFrameMode && !c.extraFrameDrawn)))
      && (o == Drawn ==>
            && c'.extraFrameDrawn == !input.changed
            && c'.lastDraw == input.now
            && (perfInterval > 0 ==> c'.frameCount <= perfInterval)
            && (perfInterval > 0 && c.frameCount + 1 > perfInterval ==> c'.frameCount == 0 && c'.frameCountStart == input.endNow)
            && (!(perfInterval > 0 && c.frameCount + 1 > perfInterval) ==> c'.frameCount == c.frameCount + 1 && c'.frameCountStart == c.frameCountStart))
  {
  }

  /** A run of calls: the outcomes, in order. */
  function Outcomes(inputs: seq<FrameInput>, extraFrameMode: bool, perfInterval: int, c: FrameCounters): (r: seq<Outcome>)
    ensures |r| == |inputs|
    decreases |inputs|
  {
    if inputs == [] then []
    else [Decide(inputs[0], extraFrameMode, c.extraFrameDrawn)]
         + Outcomes(inputs[1..], extraFrameMode, perfInterval, CountersAfter(inputs[0], extraFrameMode, perfInterval, c))
  }

  /** A call that can draw but sees no change. */
  predicate Quiet(input: FrameInput)
  {
    input.hasScene && input.width > 0 && input.height > 0 && !input.changed
  }

  function IsDrawnOutcome(o: Outcome): bool
  {
    o == Drawn
  }

  /** In a run of quiet calls, the first one catches up on the extra frame
      when it is owed and every other call skips. */
  lemma {:induction false} QuietRun(inputs: seq<FrameInput>, extraFrameMode: bool, perfInterval: int, c: FrameCounters)
    requires forall j :: 0 <= j < |inputs| ==> Quiet(inputs[j])
    ensures var os := Outcomes(inputs, extraFrameMode, perfInterval, c);
      forall j :: 0 <= j < |inputs| ==>
        os[j] == (if j == 0 && extraFrameMode && !c.extraFrameDrawn then Drawn else Skipped)
    decreases |inputs|
  {
    if inputs != [] {
      var c1 := CountersAfter(inputs[0], extraFrameMode, perfInterval, c);
      assert c1.extraFrameDrawn == (c.extraFrameDrawn || extraFrameMode);
      var rest := inputs[1..];
      var os := Outcomes(inputs, extraFrameMode, perfInterval, c);
      var tail := Outcomes(rest, extraFrameMode, perfInterval, c1);
      assert os == [Decide(inputs[0], extraFrameMode, c.extraFrameDrawn)] + tail;
      assert forall j :: 0 < j < |inputs| ==> os[j] == tail[j - 1];
      assert forall j :: 0 <= j < |rest| ==> Quiet(rest[j]) by {
        forall j | 0 <= j < |rest| ensures Quiet(rest[j]) {
          assert rest[j] == inputs[j + 1];
        }
      }
      QuietAfterExtra(rest, extraFrameMode, perfInterval, c1);
      assert forall jj :: 0 <= jj < |rest| ==> Outcomes(rest, extraFrameMode, perfInterval, c1)[jj] == Skipped;
    }
  }

  /** Once the extra frame is drawn (or not wanted), quiet calls skip. */
  lemma {:induction false} QuietAfterExtra(inputs: seq<FrameInput>, extraFrameMode: bool, perfInterval: int, c: FrameCounters)
    requires forall j :: 0 <= j < |inputs| ==> Quiet(inputs[j])
    requires c.extraFrameDrawn || !extraFrameMode
    ensures var os := Outcomes(inputs, extraFrameMode, perfInterval, c);
      forall j :: 0 <= j < |inputs| ==> os[j] == Skipped
    decreases |inputs|
  {
    if inputs != [] {
      var c1 := CountersAfter(inputs[0], extraFrameMode, perfInterval, c);
      var rest := inputs[1..];
      var os := Outcomes(inputs, extraFrameMode, perfInterval, c);
      var tail := Outcomes(rest, extraFrameMode, perfInterval, c1);
      assert os == [Decide(inputs[0], extraFrameMode, c.extraFrameDrawn)] + tail;
      assert forall j :: 0 < j < |inputs| ==> os[j] == tail[j - 1];
      assert forall j :: 0 <= j < |rest| ==> Quiet(rest[j]) by {
        forall j | 0 <= j < |rest| ensures Quiet(rest[j]) {
          assert rest[j] == inputs[j + 1];
        }
      }
      QuietAfterExtra(rest, extraFrameMode, perfInterval, c1);
      assert forall jj :: 0 <= jj < |rest| ==> Outcomes(rest, extraFrameMode, perfInterval, c1)[jj] == Skipped;
    }
  }

  /** A run that draws at most its first call counts one draw or none. */
  lemma {:induction false} FirstOnlyDrawn(run: seq<Outcome>, first: bool)
    requires forall j :: 0 <= j < |run| ==> run[j] == (if j == 0 && first then Drawn else Skipped)
    ensures CountWhere(run, IsDrawnOutcome) == (if first && |run| > 0 then 1 else 0)
  {
    if |run| > 0 {
      var rest := run[1..];
      assert run == [run[0]] + rest;
      CountWhereConcat([run[0]], rest, IsDrawnOutcome);
      assert [run[0]][1..] == [];
      assert forall j :: 0 <= j < |rest| ==> !IsDrawnOutcome(rest[j]) by {
        forall j | 0 <= j < |rest| ensures !IsDrawnOutcome(rest[j]) {
          assert rest[j] == run[j + 1];
        }
      }
      CountNone(rest, IsDrawnOutcome);
    }
  }

  /** Exactly one extra frame: after a drawn frame that saw a change, a run
      of quiet calls draws once in extra-frame mode and never otherwise. */
  lemma ExactlyOneExtraFrame(changed: FrameInput, inputs: seq<FrameInput>, extraFrameMode: bool, perfInterval: int, c: FrameCounters)
    requires changed.hasScene && changed.width > 0 && changed.height > 0 && changed.changed
    requires forall j :: 0 <= j < |inputs| ==> Quiet(inputs[j])
    ensures var os := Outcomes([changed] + inputs, extraFrameMode, perfInterval, c);
      && os[0] == Drawn
      && CountWhere(os[1..], IsDrawnOutcome) == (if extraFrameMode && |inputs| > 0 then 1 else 0)
  {
    var c1 := CountersAfter(changed, extraFrameMode, perfInterval, c);
    assert !c1.extraFrameDrawn;
    var os := Outcomes([changed] + inputs, extraFrameMode, perfInterval, c);
    var run := Outcomes(inputs, extraFrameMode, perfInterval, c1);
    assert ([changed] + inputs)[1..] == inputs;
    assert os == [Drawn] + run;
    assert os[1..] == run;
    QuietRun(inputs, extraFrameMode, perfInterval, c1);
    forall j | 0 <= j < |run| ensures run[j] == (if j == 0 && extraFrameMode then Drawn else Skipped) {
      assert Outcomes(inputs, extraFrameMode, perfInterval, c1)[j] == (if j == 0 && extraFrameMode && !c1.extraFrameDrawn then Drawn else Skipped);
    }
    FirstOnlyDrawn(run, extraFrameMode);
  }

  // ---------------------------------------------------------------------------
  // A drawn frame

  /** The GL set-up of a drawn frame: blending on, the depth state of the
      z-buffer mode (Off leaves the depth function as it was), culling on. */
  function SetupGL(mode: ZBufferMode, gl: GLState): (r: GLState)
    ensures r.blend && r.cullFace
    ensures r.depthTest == (mode != ZBufferOff) && r.depthMask == (mode != ZBufferOff)
    ensures r.depthFunc == (match mode case ZBufferOn => Less case ZBufferOffDefault => Always case ZBufferOff => gl.depthFunc)
    ensures r.program == gl.program && r.rasterizerDiscard == gl.rasterizerDiscard && r.framebuffer == gl.framebuffer
  {
    var blended := gl.(blend := true);
    var depth := match mode
      case ZBufferOn => blended.(depthMask := true, depthTest := true, depthFunc := Less)
      case ZBufferOff => blended.(depthMask := false, depthTest := false)
      case ZBufferOffDefault => blended.(depthMask := true, depthTest := true, depthFunc := Always);
    depth.(cullFace := true)
  }

  /** What the scene and the view hand the frame. */
  datatype FrameScene = FrameScene(offsets: seq<Matrix>, drawables: seq<Drawable>, isOn: (nat, Drawable) -> bool, fm: FrameMatrices)

  /** The sorted draw list of the frame: every offset's active drawables,
      sorted with the alpha rule when sortAlphaToEnd is set and the z-buffer
      tie-break in OffDefault mode. */
  function DrawList(cfg: PassConfig, sortAlphaToEnd: bool, scene: FrameScene): seq<DrawableContainer>
  {
    SortDrawList(sortAlphaToEnd, cfg.zBufferMode == ZBufferOffDefault, CollectedEntries(scene.offsets, scene.drawables, scene.isOn, scene.fm))
  }

  function FirstTarget(targets: seq<TargetSnapshot>): Option<Identity>
  {
    if |targets| == 0 then None else Some(targets[0].id)
  }

  /** The calculation pass needs a render target to bind. */
  predicate CanCalculate(list: seq<DrawableContainer>, targets: seq<TargetSnapshot>)
  {
    HasCalcProgram(list) ==> |targets| > 0
  }

  /** What a drawn frame does: its sorted draw list, the GL state after the
      set-up, the calculation pass and the target loop. */
  datatype FrameDraw = FrameDraw(list: seq<DrawableContainer>, setup: GLState, calcPass: CalcResult, loop: LoopResult)

  /** A drawn frame whose sorted draw list is `list`. */
  function ExecuteFrame(cfg: PassConfig, list: seq<DrawableContainer>, targets: seq<TargetSnapshot>, gl: GLState): FrameDraw
    requires CanCalculate(list, targets)
  {
    var setup := SetupGL(cfg.zBufferMode, gl);
    var calcRun := CalculationPassSpec(list, cfg.programs, FirstTarget(targets), setup);
    FrameDraw(list, setup, calcRun, TargetsUpTo(cfg, list, targets, |targets|, PassState(calcRun.gl, EmptyIdentity, false, 0)))
  }

  function DrawFrame(cfg: PassConfig, sortAlphaToEnd: bool, scene: FrameScene, targets: seq<TargetSnapshot>, gl: GLState): FrameDraw
    requires CanCalculate(DrawList(cfg, sortAlphaToEnd, scene), targets)
  {
    ExecuteFrame(cfg, DrawList(cfg, sortAlphaToEnd, scene), targets, gl)
  }

  /** The depth test at the draw of entry i for target k: always off with the
      z-buffer off and always on in OffDefault; with it on, on until the first
      alpha entry of the first target when depthBufferOffForAlpha is set, and
      off from there to the end of the frame. */
  predicate DepthTestAt(cfg: PassConfig, list: seq<DrawableContainer>, k: nat, i: nat, on: bool)
    requires i < |list|
  {
    match cfg.zBufferMode
    case ZBufferOff => !on
    case ZBufferOffDefault => on
    case ZBufferOn => on == !(cfg.depthBufferOffForAlpha && (AnyAlphaUpTo(list, i + 1) || (k > 0 && AnyAlphaUpTo(list, |list|))))
  }

  /** The GL state at the draw of drawable d for target t in a frame whose GL
      state was gl before the set-up. */
  predicate FrameDrawState(cfg: PassConfig, list: seq<DrawableContainer>, gl: GLState, k: nat, t: Identity, i: nat, g: GLState)
    requires i < |list|
  {
    var d := list[i].drawable;
    && g.framebuffer == Some(t)
    && g.blend && g.cullFace
    && g.rasterizerDiscard == (gl.rasterizerDiscard && !HasCalcProgram(list))
    && DepthTestAt(cfg, list, k, i, g.depthTest)
    && g.depthFunc == (match cfg.zBufferMode
                       case ZBufferOn => Less
                       case ZBufferOff => gl.depthFunc
                       case ZBufferOffDefault => if d.requestZBuffer then Less else Always)
    && g.depthMask == (cfg.zBufferMode != ZBufferOff && d.writeZBuffer)
    && (d.program in cfg.programs ==> g.program == Some(cfg.programs[d.program].glName))
  }

  /** The GL state the target loop starts from: the set-up's, with the
      calculation pass's framebuffer, discard and program. */
  lemma AfterCalc(cfg: PassConfig, list: seq<DrawableContainer>, targets: seq<TargetSnapshot>, gl: GLState)
    requires CanCalculate(list, targets)
    ensures var setup := SetupGL(cfg.zBufferMode, gl);
      var g := CalculationPassSpec(list, cfg.programs, FirstTarget(targets), setup).gl;
      && SameDepthState(g, setup) && g.blend && g.cullFace
      && g.rasterizerDiscard == (gl.rasterizerDiscard && !HasCalcProgram(list))
  {
    CalculationPassProperties(list, cfg.programs, FirstTarget(targets), SetupGL(cfg.zBufferMode, gl));
  }

  /** The draw of entry i for target k, from what the target loop promises
      and what the set-up and the calculation pass leave. */
  lemma DrawInFrame(cfg: PassConfig, list: seq<DrawableContainer>, targets: seq<TargetSnapshot>, gl: GLState, k: nat, i: nat, g: GLState)
    requires CanCalculate(list, targets) && i < |list| && k < |targets|
    requires FrameDrawOk(cfg, list, ExecuteFrame(cfg, list, targets, gl).calcPass.gl, k, targets[k].id, i, g)
    ensures FrameDrawState(cfg, list, gl, k, targets[k].id, i, g)
  {
    AfterCalc(cfg, list, targets, gl);
  }

  /** Every draw of a frame. The targets are handled in order, each bound
      and cleared as its snapshot says; in the pass for target k, entry i is
      drawn exactly when its program is not empty and its render target is
      k's, with the GL state of FrameDrawState; it sets up a program exactly
      when its program differs from the one before it (nothing before the
      first entry of the first target; the list's last entry before that of
      a later one) and the scene knows it. */
  lemma FrameDraws(cfg: PassConfig, list: seq<DrawableContainer>, targets: seq<TargetSnapshot>, gl: GLState)
    requires CanCalculate(list, targets)
    ensures var f := ExecuteFrame(cfg, list, targets, gl);
      && |f.loop.logs| == |targets|
      && forall k :: 0 <= k < |targets| ==>
           && f.loop.logs[k].target == targets[k].id && f.loop.logs[k].cleared == targets[k].clear
           && |f.loop.logs[k].entries| == |list|
           && forall i :: 0 <= i < |list| ==>
                var e := f.loop.logs[k].entries[i];
                && (e.draw.Some? <==> Selected(list[i], targets[k].id))
                && (e.draw.Some? ==> FrameDrawState(cfg, list, gl, k, targets[k].id, i, e.draw.value))
                && e.setup == if Rebinds(cfg, list, i, ProgramAtTarget(list, k, EmptyIdentity))
                              then ProgramSetup(cfg, list[i], cfg.programs[list[i].drawable.program]) else []
  {
    var f := ExecuteFrame(cfg, list, targets, gl);
    TargetsDrawSnapshots(cfg, list, targets, PassState(f.calcPass.gl, EmptyIdentity, false, 0));
    forall k, i | 0 <= k < |targets| && 0 <= i < |list| && f.loop.logs[k].entries[i].draw.Some?
      ensures FrameDrawState(cfg, list, gl, k, targets[k].id, i, f.loop.logs[k].entries[i].draw.value)
    {
      DrawInFrame(cfg, list, targets, gl, k, i, f.loop.logs[k].entries[i].draw.value);
    }
  }

  /** numDrawables counts, over all targets, the entries drawn for it. */
  lemma FrameCountsDraws(cfg: PassConfig, list: seq<DrawableContainer>, targets: seq<TargetSnapshot>, gl: GLState)
    requires CanCalculate(list, targets)
    ensures ExecuteFrame(cfg, list, targets, gl).loop.st.numDrawables == SelectedForTargets(list, targets, |targets|)
  {
    var f := ExecuteFrame(cfg, list, targets, gl);
    TargetsCountDraws(cfg, list, targets, |targets|, PassState(f.calcPass.gl, EmptyIdentity, false, 0));
  }

  /** With no render target and no calculation program nothing is drawn or
      bound, and no program is set up. */
  lemma NoTargetsNoDraws(cfg: PassConfig, list: seq<DrawableContainer>, gl: GLState)
    requires CanCalculate(list, [])
    ensures var f := ExecuteFrame(cfg, list, [], gl);
      f.loop.logs == [] && f.loop.st.numDrawables == 0 && f.calcPass.target == None
  {
    CalculationPassProperties(list, cfg.programs, None, SetupGL(cfg.zBufferMode, gl));
  }

  /** With alpha sorted to the end, the alpha rule in force and the z-buffer
      on, every entry without alpha is drawn for the first target with the
      depth test on, and, once the list holds an alpha entry, every entry
      drawn for a later target has it off. */
  lemma OpaqueDrawnWithDepthTest(cfg: PassConfig, scene: FrameScene, targets: seq<TargetSnapshot>, gl: GLState)
    requires cfg.zBufferMode == ZBufferOn && cfg.depthBufferOffForAlpha
    requires CanCalculate(DrawList(cfg, true, scene), targets)
    ensures var f := DrawFrame(cfg, true, scene, targets, gl);
      forall k, i :: 0 <= k < |targets| && 0 <= i < |f.list| && i < |f.loop.logs[k].entries| && f.loop.logs[k].entries[i].draw.Some? ==>
        && (k == 0 && !f.list[i].drawable.hasAlpha ==> f.loop.logs[k].entries[i].draw.value.depthTest)
        && (k > 0 && AnyAlphaUpTo(f.list, |f.list|) ==> !f.loop.logs[k].entries[i].draw.value.depthTest)
  {
    var f := DrawFrame(cfg, true, scene, targets, gl);
    FrameDraws(cfg, f.list, targets, gl);
    forall i | 0 <= i < |f.list| && !f.list[i].drawable.hasAlpha
      ensures !AnyAlphaUpTo(f.list, i + 1)
    {
      AnyAlphaUpToExists(f.list, i + 1);
      forall j | 0 <= j < i + 1 ensures !f.list[j].drawable.hasAlpha {
        if j < i {
          AlphaSortsToEnd(false, f.list, j, i);
        }
      }
    }
  }
}
