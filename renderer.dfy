/** The renderer object: the state SceneRendererES2 keeps between frames, its
    setters, and render itself, which updates that state and the render
    targets in place. */
module Renderer {
  import opened Matrices
  import opened Drawables
  import opened GLModel
  import opened Collection
  import opened DrawOrder
  import opened CalcPass
  import opened TargetPass
  import opened Frame

  /** A render target as the renderer uses it: its id, its clear flags and
      its set-up state. */
  class RenderTarget {
    const id: Identity
    var clearEveryFrame: bool
    var clearOnce: bool
    var isSetup: bool
    var clearColor: Vector4

    constructor (id: Identity, clearEveryFrame: bool, clearOnce: bool)
      ensures this.id == id && this.clearEveryFrame == clearEveryFrame && this.clearOnce == clearOnce
      ensures !isSetup
    {
      this.id := id;
      this.clearEveryFrame := clearEveryFrame;
      this.clearOnce := clearOnce;
      isSetup := false;
      clearColor := Vector4(0.0, 0.0, 0.0, 0.0);
    }
  }

  /** The light the constructor installs. */
  function DefaultLight(): DirectionalLight
  {
    DirectionalLight(Vector3(0.75, 0.5, -1.0), true,
                     Vector4(0.6, 0.6, 0.6, 1.0), Vector4(0.5, 0.5, 0.5, 1.0), Vector4(0.0, 0.0, 0.0, 0.0))
  }

  /** What the loop over render targets sees at target i: a target is
      cleared when it clears every frame, or when its clear-once flag is set
      and the loop has not met it earlier in the list (meeting it cleared
      the flag). */
  function SnapshotAt(targets: seq<RenderTarget>, i: nat): TargetSnapshot
    reads targets
    requires i < |targets|
  {
    var t := targets[i];
    TargetSnapshot(t.id, t.clearEveryFrame || (t.clearOnce && !MetBefore(targets, t, i)))
  }

  /** Whether t is among the first i targets. */
  predicate MetBefore(targets: seq<RenderTarget>, t: RenderTarget, i: nat)
    requires i <= |targets|
  {
    i > 0 && (targets[i - 1] == t || MetBefore(targets, t, i - 1))
  }

  lemma {:induction false} MetBeforeIff(targets: seq<RenderTarget>, t: RenderTarget, i: nat)
    requires i <= |targets|
    ensures MetBefore(targets, t, i) <==> exists j :: 0 <= j < i && targets[j] == t
  {
    if i > 0 {
      MetBeforeIff(targets, t, i - 1);
    }
  }

  /** The snapshots of the first k targets, in list order. */
  function SnapshotsUpTo(targets: seq<RenderTarget>, k: nat): (r: seq<TargetSnapshot>)
    reads targets
    requires k <= |targets|
    ensures |r| == k
  {
    if k == 0 then [] else SnapshotsUpTo(targets, k - 1) + [SnapshotAt(targets, k - 1)]
  }

  lemma {:induction false} SnapshotsUpToAt(targets: seq<RenderTarget>, k: nat)
    requires k <= |targets|
    ensures forall i :: 0 <= i < k ==> SnapshotsUpTo(targets, k)[i] == SnapshotAt(targets, i)
  {
    if k > 0 {
      SnapshotsUpToAt(targets, k - 1);
    }
  }

  /** The configuration fields render reads and the setters do not change. */
  datatype RendererSettings = RendererSettings(
    renderTargets: seq<RenderTarget>,
    zBufferMode: ZBufferMode,
    sortAlphaToEnd: bool,
    depthBufferOffForAlpha: bool,
    extraFrameMode: bool,
    perfInterval: int,
    framebufferWidth: int,
    framebufferHeight: int)

  class SceneRenderer {
    var lights: seq<DirectionalLight>
    var lightsLastUpdated: real
    var triggerDraw: bool
    var defaultMat: Material
    var clearColor: RGBAColor
    var renderTargets: seq<RenderTarget>
    var zBufferMode: ZBufferMode
    var sortAlphaToEnd: bool
    var depthBufferOffForAlpha: bool
    var extraFrameMode: bool
    var perfInterval: int
    var framebufferWidth: int
    var framebufferHeight: int
    var frameCount: nat
    var extraFrameDrawn: bool
    var lastDraw: real
    var frameCountStart: real
    /** The GL state the renderer's context is in. */
    var gl: GLState

    function Settings(): RendererSettings
      reads this
    {
      RendererSettings(renderTargets, zBufferMode, sortAlphaToEnd, depthBufferOffForAlpha,
                       extraFrameMode, perfInterval, framebufferWidth, framebufferHeight)
    }

    function Counters(): FrameCounters
      reads this
    {
      FrameCounters(frameCount, extraFrameDrawn, lastDraw, frameCountStart)
    }

    /** What the target loop will see of the render targets. */
    function Snapshots(): (r: seq<TargetSnapshot>)
      reads this`renderTargets, renderTargets
      ensures |r| == |renderTargets|
    {
      SnapshotsUpTo(renderTargets, |renderTargets|)
    }

    /** The executor's configuration for a frame whose scene knows `programs`. */
    function Config(programs: map<Identity, Program>): PassConfig
      reads this`zBufferMode, this`depthBufferOffForAlpha, this`lights, this`lightsLastUpdated, this`defaultMat
    {
      PassConfig(zBufferMode, depthBufferOffForAlpha, programs, lights, lightsLastUpdated, defaultMat)
    }

    function Input(hasScene: bool, changed: bool, now: real, endNow: real): FrameInput
      reads this`framebufferWidth, this`framebufferHeight
    {
      FrameInput(hasScene, framebufferWidth, framebufferHeight, changed, now, endNow)
    }

    /** The constructor installs one default light; `now` is the clock
      reading it records as the lights' update time. */
    constructor (now: real, settings: RendererSettings, gl: GLState)
      ensures lights == [DefaultLight()] && lightsLastUpdated == now && triggerDraw
      ensures !extraFrameDrawn
      ensures Settings() == settings && this.gl == gl
    {
      lights := [DefaultLight()];
      triggerDraw := true;
      lightsLastUpdated := now;
      extraFrameDrawn := false;
      renderTargets := settings.renderTargets;
      zBufferMode := settings.zBufferMode;
      sortAlphaToEnd := settings.sortAlphaToEnd;
      depthBufferOffForAlpha := settings.depthBufferOffForAlpha;
      extraFrameMode := settings.extraFrameMode;
      perfInterval := settings.perfInterval;
      framebufferWidth := settings.framebufferWidth;
      framebufferHeight := settings.framebufferHeight;
      this.gl := gl;
    }

    /** addLight: the light goes at the end of the list; a redraw is triggered. */
    method AddLight(light: DirectionalLight, now: real)
      modifies this
      ensures lights == old(lights) + [light]
      ensures lightsLastUpdated == now && triggerDraw
      ensures defaultMat == old(defaultMat) && clearColor == old(clearColor)
      ensures Settings() == old(Settings()) && Counters() == old(Counters()) && gl == old(gl)
    {
      lights := lights + [light];
      lightsLastUpdated := now;
      triggerDraw := true;
    }

    /** replaceLights: the light list becomes newLights, element by element
      (an empty list turns lighting off); a redraw is triggered. */
    method ReplaceLights(newLights: seq<DirectionalLight>, now: real)
      modifies this
      ensures |lights| == |newLights| && forall i :: 0 <= i < |newLights| ==> lights[i] == newLights[i]
      ensures lightsLastUpdated == now && triggerDraw
      ensures defaultMat == old(defaultMat) && clearColor == old(clearColor)
      ensures Settings() == old(Settings()) && Counters() == old(Counters()) && gl == old(gl)
    {
      lights := [];
      var i := 0;
      while i < |newLights|
        invariant 0 <= i <= |newLights|
        invariant lights == newLights[..i]
        invariant Settings() == old(Settings()) && Counters() == old(Counters()) && gl == old(gl)
        invariant defaultMat == old(defaultMat) && clearColor == old(clearColor)
      {
        lights := lights + [newLights[i]];
        i := i + 1;
      }
      lightsLastUpdated := now;
      triggerDraw := true;
    }

    /** setDefaultMaterial: the material handed to programs with lights; a
      redraw is triggered. */
    method SetDefaultMaterial(mat: Material, now: real)
      modifies this
      ensures defaultMat == mat
      ensures lightsLastUpdated == now && triggerDraw
      ensures lights == old(lights) && clearColor == old(clearColor)
      ensures Settings() == old(Settings()) && Counters() == old(Counters()) && gl == old(gl)
    {
      defaultMat := mat;
      lightsLastUpdated := now;
      triggerDraw := true;
    }

    /** forceRenderSetup: every render target is marked as not set up;
      nothing else changes. */
    method ForceRenderSetup()
      modifies renderTargets`isSetup
      ensures forall t :: t in renderTargets ==> !t.isSetup
    {
      var i := 0;
      while i < |renderTargets|
        invariant 0 <= i <= |renderTargets|
        invariant forall j :: 0 <= j < i ==> !renderTargets[j].isSetup
      {
        renderTargets[i].isSetup := false;
        i := i + 1;
      }
    }

    /** setClearColor: without render targets nothing happens; otherwise the
      last target's clear color becomes the colour as unit floats, the
      renderer records the colour, and every target must be set up again. */
    method SetClearColor(color: RGBAColor)
      modifies this, renderTargets`isSetup, renderTargets`clearColor
      ensures Settings() == old(Settings()) && Counters() == old(Counters()) && gl == old(gl)
      ensures renderTargets == [] ==> clearColor == old(clearColor)
      ensures renderTargets != [] ==>
        && clearColor == color
        && renderTargets[|renderTargets| - 1].clearColor == AsUnitFloats(color)
        && (forall t :: t in renderTargets ==> !t.isSetup)
        && (forall t :: t in renderTargets && t != renderTargets[|renderTargets| - 1] ==> t.clearColor == old(t.clearColor))
      ensures lights == old(lights) && lightsLastUpdated == old(lightsLastUpdated) && triggerDraw == old(triggerDraw)
      ensures defaultMat == old(defaultMat)
    {
      if |renderTargets| == 0 {
        return;
      }
      var defaultTarget := renderTargets[|renderTargets| - 1];
      defaultTarget.clearColor := AsUnitFloats(color);
      clearColor := color;
      ForceRenderSetup();
    }
  
    /** Binding target ii of the loop and clearing it when it clears every
      frame or once; the clear-once flag is consumed. What the loop sees of
      the target is the snapshot taken before the loop, and the later
      targets' snapshots still describe what the loop will see of them. */
    static method BindAndClear(t: RenderTarget, ghost targets: seq<RenderTarget>, ghost ii: nat, ghost snaps: seq<TargetSnapshot>)
      returns (seen: TargetSnapshot)
      requires ii < |targets| <= |snaps| && targets[ii] == t
      requires forall i :: ii <= i < |targets| ==> snaps[i] == SnapshotAt(targets, i)
      requires forall j :: 0 <= j < ii ==> !targets[j].clearOnce
      modifies t`clearOnce
      ensures seen == snaps[ii]
      ensures forall i :: ii < i < |targets| ==> snaps[i] == SnapshotAt(targets, i)
      ensures forall j :: 0 <= j <= ii ==> !targets[j].clearOnce
    {
      if MetBefore(targets, t, ii) {
        MetBeforeIff(targets, t, ii);
        var j :| 0 <= j < ii && targets[j] == t;
      }
      var cleared := t.clearEveryFrame || t.clearOnce;
      if cleared {
        t.clearOnce := false;
        // the target's colour and depth buffers are cleared here
      }
      seen := TargetSnapshot(t.id, cleared);
      forall i | ii < i < |targets| ensures snaps[i] == SnapshotAt(targets, i) {
        if targets[i] == t {
          MetBeforeIff(targets, t, i);
        }
      }
    }

    /** One iteration of the loop over render targets, at target t, the
      ii-th: the target is bound and cleared as the loop sees it, and the
      pass over the draw list for it extends the loop's result. */
    static method VisitTarget(cfg: PassConfig, drawList: seq<DrawableContainer>, ghost st0: PassState, t: RenderTarget,
                              ghost targets: seq<RenderTarget>, ii: nat, ghost snaps: seq<TargetSnapshot>, acc: LoopResult)
      returns (next: LoopResult)
      requires ii < |targets| <= |snaps| && targets[ii] == t
      requires acc == TargetsUpTo(cfg, drawList, snaps, ii, st0)
      requires forall i :: ii <= i < |targets| ==> snaps[i] == SnapshotAt(targets, i)
      requires forall j :: 0 <= j < ii ==> !targets[j].clearOnce
      modifies t`clearOnce
      ensures next == TargetsUpTo(cfg, drawList, snaps, ii + 1, st0)
      ensures forall i :: ii < i < |targets| ==> snaps[i] == SnapshotAt(targets, i)
      ensures forall j :: 0 <= j <= ii ==> !targets[j].clearOnce
    {
      var seen := BindAndClear(t, targets, ii, snaps);
      next := AdvanceTargets(cfg, drawList, snaps, st0, ii, seen, acc);
    }

    /** The loop over render targets: each target in list order is bound and
      cleared when its snapshot says so, consuming its clear-once flag, and
      gets one pass over the whole draw list. Afterwards no target has its
      clear-once flag set; nothing else of the targets changes. */
    method ExecuteTargets(cfg: PassConfig, drawList: seq<DrawableContainer>, st0: PassState, ghost snaps: seq<TargetSnapshot>)
      returns (r: LoopResult)
      requires snaps == Snapshots()
      modifies this`gl, renderTargets`clearOnce
      ensures r == TargetsUpTo(cfg, drawList, snaps, |snaps|, st0)
      ensures gl == r.st.gl
      ensures forall t :: t in renderTargets ==> !t.clearOnce
    {
      var targets := renderTargets;
      SnapshotsUpToAt(targets, |targets|);
      r := LoopResult(st0, []);
      var ii := 0;
      while ii < |targets|
        invariant 0 <= ii <= |targets|
        invariant r == TargetsUpTo(cfg, drawList, snaps, ii, st0)
        invariant forall i :: ii <= i < |targets| ==> snaps[i] == SnapshotAt(targets, i)
        invariant forall j :: 0 <= j < ii ==> !targets[j].clearOnce
      {
        r := VisitTarget(cfg, drawList, st0, targets[ii], targets, ii, snaps, r);
        ii := ii + 1;
      }
      forall t | t in targets ensures !t.clearOnce {
        var j :| 0 <= j < |targets| && targets[j] == t;
      }
      gl := r.st.gl;
    }

    /** The part of a drawn frame before the target loop, on values: the GL
      set-up, collection, the sort and the calculation pass. */
    static method PrepareDraw(cfg: PassConfig, sortAlphaToEnd: bool, scene: FrameScene, ghost snaps: seq<TargetSnapshot>,
                              firstTarget: Option<Identity>, gl: GLState)
      returns (drawList: seq<DrawableContainer>, setup: GLState, calcRun: CalcResult)
      requires firstTarget == FirstTarget(snaps) && CanCalculate(DrawList(cfg, sortAlphaToEnd, scene), snaps)
      ensures drawList == DrawList(cfg, sortAlphaToEnd, scene)
      ensures setup == SetupGL(cfg.zBufferMode, gl)
      ensures calcRun == CalculationPassSpec(drawList, cfg.programs, firstTarget, setup)
    {
      setup := SetupGL(cfg.zBufferMode, gl);
      var collected := CollectDrawList(scene.offsets, scene.drawables, scene.isOn, scene.fm);
      drawList := SortDrawList(sortAlphaToEnd, cfg.zBufferMode == ZBufferOffDefault, collected);
      calcRun := CalculationPass(drawList, cfg.programs, firstTarget, setup);
    }

    /** The drawing part of a drawn frame under configuration cfg: the GL
      set-up, collection, the sort, the calculation pass and the target loop. */
    method DrawScene(cfg: PassConfig, scene: FrameScene) returns (f: FrameDraw)
      requires CanCalculate(DrawList(cfg, sortAlphaToEnd, scene), Snapshots())
      modifies this`gl, renderTargets`clearOnce
      ensures f == DrawFrame(cfg, sortAlphaToEnd, scene, old(Snapshots()), old(gl))
      ensures gl == f.loop.st.gl
      ensures forall t :: t in renderTargets ==> !t.clearOnce
    {
      ghost var snaps := Snapshots();
      var firstTarget := if |renderTargets| > 0 then Some(renderTargets[0].id) else None;
      assert firstTarget == FirstTarget(snaps) by {
        SnapshotsUpToAt(renderTargets, |renderTargets|);
      }
      var drawList, setup, calcRun := PrepareDraw(cfg, sortAlphaToEnd, scene, snaps, firstTarget, gl);
      var loop := ExecuteTargets(cfg, drawList, PassState(calcRun.gl, EmptyIdentity, false, 0), snaps);
      f := FrameDraw(drawList, setup, calcRun, loop);
    }

    /** The top of render: with a scene the call is counted; the frame is
      abandoned with an empty framebuffer, and skipped when nothing changed
      unless the extra frame is still owed; a drawn frame records its time
      and whether it is the extra frame. */
    method BeginFrame(input: FrameInput) returns (outcome: Outcome)
      requires input.width == framebufferWidth && input.height == framebufferHeight
      modifies this`frameCount, this`extraFrameDrawn, this`lastDraw
      ensures outcome == Decide(input, extraFrameMode, old(extraFrameDrawn))
      ensures Counters() == CountersAtDecision(input, extraFrameMode, old(Counters()))
      ensures Snapshots() == old(Snapshots())
    {
      outcome := Decide(input, extraFrameMode, extraFrameDrawn);
      if !input.hasScene {
        return;
      }
      frameCount := frameCount + 1;
      if framebufferWidth <= 0 || framebufferHeight <= 0 {
        // the scene still processes its changes here
        return;
      }
      if !input.changed {
        if !extraFrameMode || extraFrameDrawn {
          return;
        }
        extraFrameDrawn := true;
      } else {
        extraFrameDrawn := false;
      }
      lastDraw := input.now;
    }

    /** The end of a drawn frame: the frame-rate window restarts once more
      than perfInterval frames were counted. */
    method EndFrame(endNow: real)
      modifies this`frameCount, this`frameCountStart
      ensures Counters() == PerfReset(perfInterval, endNow, old(Counters()))
    {
      if perfInterval > 0 && frameCount > perfInterval {
        frameCountStart := endNow;
        frameCount := 0;
      }
    }

    /** A frame render has decided to draw: the drawing, then the end-of-frame
      bookkeeping. */
    method DrawAndFinish(cfg: PassConfig, scene: FrameScene, endNow: real) returns (f: FrameDraw)
      requires CanCalculate(DrawList(cfg, sortAlphaToEnd, scene), Snapshots())
      modifies this`gl, this`frameCount, this`frameCountStart, renderTargets`clearOnce
      ensures f == DrawFrame(cfg, sortAlphaToEnd, scene, old(Snapshots()), old(gl))
      ensures gl == f.loop.st.gl
      ensures forall t :: t in renderTargets ==> !t.clearOnce
      ensures Counters() == PerfReset(perfInterval, endNow, old(Counters()))
    {
      f := DrawScene(cfg, scene);
      EndFrame(endNow);
    }

    /** SceneRendererES2::render. `hasScene` says whether a scene is set;
      `changed` is the change check's verdict, taken after the view has
      animated; `now` and `endNow` are the clock at the decision and at the
      end of the frame; the scene's active drawables and programs, the offsets
      and the frame's matrices come in `scene` and `programs`. A drawn frame
      is returned as the value DrawFrame describes; the renderer's counters
      move as CountersAfter says and the render targets' clear-once flags are
      consumed. Nothing else of the renderer changes. */
    method Render(hasScene: bool, changed: bool, now: real, endNow: real, scene: FrameScene, programs: map<Identity, Program>)
      returns (outcome: Outcome, frame: Option<FrameDraw>)
      requires Decide(Input(hasScene, changed, now, endNow), extraFrameMode, extraFrameDrawn) == Drawn ==>
        CanCalculate(DrawList(Config(programs), sortAlphaToEnd, scene), Snapshots())
      modifies this`frameCount, this`extraFrameDrawn, this`lastDraw, this`frameCountStart, this`gl, renderTargets`clearOnce
      ensures outcome == Decide(old(Input(hasScene, changed, now, endNow)), extraFrameMode, old(extraFrameDrawn))
      ensures Counters() == CountersAfter(old(Input(hasScene, changed, now, endNow)), extraFrameMode, perfInterval, old(Counters()))
      ensures outcome == Drawn ==>
        && frame == Some(DrawFrame(old(Config(programs)), sortAlphaToEnd, scene, old(Snapshots()), old(gl)))
        && gl == frame.value.loop.st.gl
        && forall t :: t in renderTargets ==> !t.clearOnce
      ensures outcome != Drawn ==>
        && frame == None && gl == old(gl)
        && forall t :: t in renderTargets ==> t.clearOnce == old(t.clearOnce)
    {
      var input := Input(hasScene, changed, now, endNow);
      var cfg := Config(programs);
      ghost var c0 := Counters();
      outcome := BeginFrame(input);
      frame := None;
      if outcome == Drawn {
        var f := DrawAndFinish(cfg, scene, endNow);
        frame := Some(f);
      }
      assert Counters() == CountersAfter(input, extraFrameMode, perfInterval, c0);
    }
  }
}
