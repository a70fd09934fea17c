/** The render-target executor: for each render target, one pass over the whole
    sorted draw list with a depth state machine, program-switch minimisation
    and a per-target filter.

    What the executor hands to collaborators is kept per iteration: entry i of
    a pass's log holds the program set-up calls of iteration i and, when entry
    i is drawn, the GL state in force at its draw (its tweakers run just
    before the draw). The calls in order are the logs read front to back. */
module TargetPass {
  import opened Drawables
  import opened GLModel
  import opened Counting

  datatype ZBufferMode = ZBufferOn | ZBufferOff | ZBufferOffDefault

  /** The renderer state the executor reads; it does not change during a frame. */
  datatype PassConfig = PassConfig(
    zBufferMode: ZBufferMode,
    depthBufferOffForAlpha: bool,
    programs: map<Identity, Program>,
    lights: seq<DirectionalLight>,
    lightsLastUpdated: real,
    defaultMat: Material)

  /** The executor's working state: the GL state, `curProgramId` (kept across
      targets), `depthMaskOn` (reset per target) and `numDrawables`. */
  datatype PassState = PassState(gl: GLState, curProgramId: Identity, depthMaskOn: bool, numDrawables: nat)

  /** What iteration ii hands over: the calls setting up the program it binds
      (none when it binds none) and the GL state of its draw, if it draws. */
  datatype EntryLog = EntryLog(setup: seq<Event>, draw: Option<GLState>)

  datatype PassResult = PassResult(st: PassState, log: seq<EntryLog>)

  /** The depth test goes off at the first alpha entry of a pass. */
  predicate DisablesForAlpha(cfg: PassConfig)
  {
    cfg.depthBufferOffForAlpha && cfg.zBufferMode == ZBufferOn
  }

  /** Some entry among the first n has alpha. */
  predicate AnyAlphaUpTo(list: seq<DrawableContainer>, n: nat)
    requires n <= |list|
  {
    n > 0 && (AnyAlphaUpTo(list, n - 1) || list[n - 1].drawable.hasAlpha)
  }

  lemma {:induction false} AnyAlphaUpToExists(list: seq<DrawableContainer>, n: nat)
    requires n <= |list|
    ensures AnyAlphaUpTo(list, n) <==> exists j :: 0 <= j < n && list[j].drawable.hasAlpha
  {
    if n > 0 {
      AnyAlphaUpToExists(list, n - 1);
    }
  }

  lemma {:induction false} AnyAlphaUpToMonotone(list: seq<DrawableContainer>, i: nat, j: nat)
    requires i <= j <= |list|
    ensures AnyAlphaUpTo(list, i) ==> AnyAlphaUpTo(list, j)
    decreases j - i
  {
    if i < j {
      AnyAlphaUpToMonotone(list, i, j - 1);
    }
  }

  // ---------------------------------------------------------------------------
  // One iteration of the inner loop

  /** Entry d switches depth testing off for the rest of the pass: it is the
      first alpha entry, depthBufferOffForAlpha is set and the mode is not OffDefault. */
  predicate SwitchesDepthOff(cfg: PassConfig, d: Drawable, depthMaskOn: bool)
  {
    cfg.depthBufferOffForAlpha && cfg.zBufferMode != ZBufferOffDefault && depthMaskOn && d.hasAlpha
  }

  /** The depth handling for entry d: the alpha rule; in OffDefault the depth
      function chosen again for every entry (LESS on request, ALWAYS otherwise);
      unless the z-buffer is off, the depth mask following the entry's write request. */
  function DepthStep(cfg: PassConfig, d: Drawable, st: PassState): PassState
  {
    var off := SwitchesDepthOff(cfg, d, st.depthMaskOn);
    var offDefault := cfg.zBufferMode == ZBufferOffDefault;
    st.(depthMaskOn := (st.depthMaskOn && !off) || (offDefault && d.requestZBuffer),
        gl := st.gl.(depthTest := st.gl.depthTest && !off,
                     depthFunc := if !offDefault then st.gl.depthFunc else if d.requestZBuffer then Less else Always,
                     depthMask := if cfg.zBufferMode != ZBufferOff then d.writeZBuffer else st.gl.depthMask))
  }

  /** The entry's program differs from curProgramId and the scene knows it. */
  predicate Binds(cfg: PassConfig, c: DrawableContainer, st: PassState)
  {
    c.drawable.program != st.curProgramId && c.drawable.program in cfg.programs
  }

  /** Setting up program p: the lights when p has lights and the list is not
      empty, then the number of lights. */
  function ProgramSetup(cfg: PassConfig, c: DrawableContainer, p: Program): seq<Event>
  {
    (if p.hasLights && |cfg.lights| > 0
     then [SetLights(p.glName, cfg.lights, cfg.lightsLastUpdated, cfg.defaultMat, c.mvpMat)] else [])
    + [SetNumLights(p.glName, |cfg.lights|)]
  }

  /** The program switch: curProgramId always becomes the entry's program, even
      when the scene does not know it; a known, different program is bound. */
  function ProgramStep(cfg: PassConfig, c: DrawableContainer, st: PassState): PassState
  {
    var id := c.drawable.program;
    st.(curProgramId := id, gl := st.gl.(program := if Binds(cfg, c, st) then Some(cfg.programs[id].glName) else st.gl.program))
  }

  /** The calls of the program switch: a bound program is set up. */
  function SetupEvents(cfg: PassConfig, c: DrawableContainer, st: PassState): seq<Event>
  {
    if Binds(cfg, c, st) then ProgramSetup(cfg, c, cfg.programs[c.drawable.program]) else []
  }

  /** The entry is drawn in the pass for targetId. */
  predicate Selected(c: DrawableContainer, targetId: Identity)
  {
    c.drawable.program != EmptyIdentity && c.drawable.renderTarget == targetId
  }

  function CountDraw(st: PassState, drawn: bool): PassState
  {
    st.(numDrawables := st.numDrawables + (if drawn then 1 else 0))
  }

  /** The state after the iteration for entry c. */
  function StepState(cfg: PassConfig, c: DrawableContainer, targetId: Identity, st: PassState): PassState
  {
    CountDraw(ProgramStep(cfg, c, DepthStep(cfg, c.drawable, st)), Selected(c, targetId))
  }

  /** What the iteration for entry c hands over. */
  function StepLog(cfg: PassConfig, c: DrawableContainer, targetId: Identity, st: PassState): EntryLog
  {
    var d := DepthStep(cfg, c.drawable, st);
    EntryLog(SetupEvents(cfg, c, d), if Selected(c, targetId) then Some(ProgramStep(cfg, c, d).gl) else None)
  }

  /** The pass for one target after its first n iterations; the log has one
      entry per iteration. */
  function PassUpTo(cfg: PassConfig, list: seq<DrawableContainer>, n: nat, targetId: Identity, st: PassState): (r: PassResult)
    requires n <= |list|
    ensures |r.log| == n
  {
    if n == 0 then
      PassResult(st, [])
    else
      var r := PassUpTo(cfg, list, n - 1, targetId, st);
      PassResult(StepState(cfg, list[n - 1], targetId, r.st), r.log + [StepLog(cfg, list[n - 1], targetId, r.st)])
  }

  /** The depth handling at the head of an iteration: the alpha rule, the
      OffDefault depth function and the depth mask. */
  method PrepareDepth(cfg: PassConfig, drawable: Drawable, st: PassState) returns (r: PassState)
    ensures r == DepthStep(cfg, drawable, st)
  {
    var gl := st.gl;
    var depthMaskOn := st.depthMaskOn;
    if cfg.depthBufferOffForAlpha && cfg.zBufferMode != ZBufferOffDefault {
      if depthMaskOn && cfg.depthBufferOffForAlpha && drawable.hasAlpha {
        depthMaskOn := false;
        gl := gl.(depthTest := false);
      }
    }
    if cfg.zBufferMode == ZBufferOffDefault {
      if drawable.requestZBuffer {
        gl := gl.(depthFunc := Less);
        depthMaskOn := true;
      } else {
        gl := gl.(depthFunc := Always);
      }
    }
    if cfg.zBufferMode != ZBufferOff {
      gl := gl.(depthMask := drawable.writeZBuffer);
    }
    r := st.(gl := gl, depthMaskOn := depthMaskOn);
  }

  /** The program switch of an iteration. */
  method SwitchProgram(cfg: PassConfig, drawContain: DrawableContainer, st: PassState) returns (r: PassState, setup: seq<Event>)
    ensures r == ProgramStep(cfg, drawContain, st)
    ensures setup == SetupEvents(cfg, drawContain, st)
  {
    var gl := st.gl;
    var curProgramId := st.curProgramId;
    setup := [];
    var drawProgramId := drawContain.drawable.program;
    if drawProgramId != curProgramId {
      curProgramId := drawProgramId;
      if drawProgramId in cfg.programs {
        var program := cfg.programs[drawProgramId];
        gl := gl.(program := Some(program.glName));
        if program.hasLights && |cfg.lights| > 0 {
          setup := [SetLights(program.glName, cfg.lights, cfg.lightsLastUpdated, cfg.defaultMat, drawContain.mvpMat)];
        }
        setup := setup + [SetNumLights(program.glName, |cfg.lights|)];
      }
    }
    r := st.(gl := gl, curProgramId := curProgramId);
  }

  /** The inner loop of the target loop. */
  method DrawPass(cfg: PassConfig, drawList: seq<DrawableContainer>, targetId: Identity, st: PassState) returns (out: PassResult)
    ensures out == PassUpTo(cfg, drawList, |drawList|, targetId, st)
  {
    var cur := st;
    var log: seq<EntryLog> := [];
    var ii := 0;
    while ii < |drawList|
      invariant 0 <= ii <= |drawList|
      invariant PassResult(cur, log) == PassUpTo(cfg, drawList, ii, targetId, st)
    {
      var drawContain := drawList[ii];
      var drawable := drawContain.drawable;
      cur := PrepareDepth(cfg, drawable, cur);
      var setup;
      cur, setup := SwitchProgram(cfg, drawContain, cur);
      if drawable.program == EmptyIdentity || drawable.renderTarget != targetId {
        log := log + [EntryLog(setup, None)];
        ii := ii + 1;
        continue;
      }
      log := log + [EntryLog(setup, Some(cur.gl))];
      cur := cur.(numDrawables := cur.numDrawables + 1);
      ii := ii + 1;
    }
    out := PassResult(cur, log);
  }

  // ---------------------------------------------------------------------------
  // What one pass does

  /** Iteration i of a pass is the step for entry i taken from the state the
      first i iterations left. */
  lemma {:induction false} PassLogEntries(cfg: PassConfig, list: seq<DrawableContainer>, n: nat, targetId: Identity, st: PassState)
    requires n <= |list|
    ensures forall i {:trigger PassUpTo(cfg, list, n, targetId, st).log[i]} :: 0 <= i < n ==>
      PassUpTo(cfg, list, n, targetId, st).log[i] == StepLog(cfg, list[i], targetId, PassUpTo(cfg, list, i, targetId, st).st)
  {
    if n > 0 {
      PassLogEntries(cfg, list, n - 1, targetId, st);
      var r := PassUpTo(cfg, list, n - 1, targetId, st);
      var l := StepLog(cfg, list[n - 1], targetId, r.st);
      var log := PassUpTo(cfg, list, n, targetId, st).log;
      assert log == r.log + [l];
      assert forall i :: 0 <= i < n - 1 ==> log[i] == r.log[i];
      assert log[n - 1] == l;
    }
  }

  /** A pass draws exactly the entries for its target whose program is not empty. */
  lemma PassDrawsSelected(cfg: PassConfig, list: seq<DrawableContainer>, targetId: Identity, st: PassState)
    ensures var log := PassUpTo(cfg, list, |list|, targetId, st).log;
      forall i :: 0 <= i < |list| ==> (log[i].draw.Some? <==> Selected(list[i], targetId))
  {
    PassLogEntries(cfg, list, |list|, targetId, st);
  }

  predicate IsDrawn(e: EntryLog)
  {
    e.draw.Some?
  }

  /** numDrawables counts the draws of the pass. */
  lemma {:induction false} PassCountsDraws(cfg: PassConfig, list: seq<DrawableContainer>, n: nat, targetId: Identity, st: PassState)
    requires n <= |list|
    ensures PassUpTo(cfg, list, n, targetId, st).st.numDrawables == st.numDrawables + CountWhere(PassUpTo(cfg, list, n, targetId, st).log, IsDrawn)
  {
    if n > 0 {
      PassCountsDraws(cfg, list, n - 1, targetId, st);
      var r := PassUpTo(cfg, list, n - 1, targetId, st);
      var l := StepLog(cfg, list[n - 1], targetId, r.st);
      CountWhereConcat(r.log, [l], IsDrawn);
      assert [l][1..] == [];
    }
  }

  /** curProgramId after n iterations is the program of entry n-1, drawn or
      not: the check comes before the skip tests. */
  lemma {:induction false} PassProgramTracksLastEntry(cfg: PassConfig, list: seq<DrawableContainer>, n: nat, targetId: Identity, st: PassState)
    requires n <= |list|
    ensures PassUpTo(cfg, list, n, targetId, st).st.curProgramId == if n == 0 then st.curProgramId else list[n - 1].drawable.program
  {
    if n > 0 {
      PassProgramTracksLastEntry(cfg, list, n - 1, targetId, st);
    }
  }

  /** Entry i makes the executor set up a program: its program differs from
      the previous entry's (from cur0 for the first entry) and the scene knows it. */
  predicate Rebinds(cfg: PassConfig, list: seq<DrawableContainer>, i: nat, cur0: Identity)
    requires i < |list|
  {
    var prev := if i == 0 then cur0 else list[i - 1].drawable.program;
    list[i].drawable.program != prev && list[i].drawable.program in cfg.programs
  }

  /** Program switches are minimised: iteration i sets up a program exactly
      when entry i's program differs from the previous entry's and the scene
      knows it, whether or not either entry is drawn; the set-up hands over
      the light list only to a program with lights and only when the list is
      not empty, and then the light count. */
  lemma PassProgramSetups(cfg: PassConfig, list: seq<DrawableContainer>, targetId: Identity, st: PassState)
    ensures var log := PassUpTo(cfg, list, |list|, targetId, st).log;
      forall i :: 0 <= i < |list| ==>
        log[i].setup == if Rebinds(cfg, list, i, st.curProgramId) then ProgramSetup(cfg, list[i], cfg.programs[list[i].drawable.program]) else []
  {
    PassLogEntries(cfg, list, |list|, targetId, st);
    forall i | 0 <= i < |list|
      ensures PassUpTo(cfg, list, i, targetId, st).st.curProgramId == if i == 0 then st.curProgramId else list[i - 1].drawable.program
    {
      PassProgramTracksLastEntry(cfg, list, i, targetId, st);
    }
  }

  /** The GL program bound is that of curProgramId whenever the scene knows it. */
  predicate ProgramBound(cfg: PassConfig, st: PassState)
  {
    st.curProgramId != EmptyIdentity && st.curProgramId in cfg.programs ==>
      st.gl.program == Some(cfg.programs[st.curProgramId].glName)
  }

  /** The invariant of a pass that started in state p0 (its GL state after
      binding the target) and has done i iterations. */
  predicate PassInv(cfg: PassConfig, list: seq<DrawableContainer>, targetId: Identity, p0: GLState, i: nat, st: PassState)
    requires i <= |list|
  {
    && st.gl.framebuffer == Some(targetId)
    && st.gl.blend == p0.blend && st.gl.cullFace == p0.cullFace && st.gl.rasterizerDiscard == p0.rasterizerDiscard
    && st.gl.depthTest == (p0.depthTest && !(DisablesForAlpha(cfg) && AnyAlphaUpTo(list, i)))
    && (cfg.zBufferMode == ZBufferOn ==> st.depthMaskOn == !(cfg.depthBufferOffForAlpha && AnyAlphaUpTo(list, i)))
    && (cfg.zBufferMode == ZBufferOff ==> !st.depthMaskOn && st.gl.depthMask == p0.depthMask)
    && (cfg.zBufferMode != ZBufferOffDefault ==> st.gl.depthFunc == p0.depthFunc)
    && ProgramBound(cfg, st)
  }

  /** The GL state at the draw of drawable d, relative to the state p0 the
      executor started from: blending, culling and rasterizer discard as in
      p0; the depth function the entry asks for in OffDefault, p0's otherwise;
      the depth mask the entry asks for unless the z-buffer is off; the
      entry's program whenever the scene knows it. */
  predicate DrawStateOk(cfg: PassConfig, p0: GLState, d: Drawable, g: GLState)
  {
    && g.blend == p0.blend && g.cullFace == p0.cullFace && g.rasterizerDiscard == p0.rasterizerDiscard
    && (cfg.zBufferMode == ZBufferOffDefault ==> g.depthFunc == (if d.requestZBuffer then Less else Always))
    && (cfg.zBufferMode != ZBufferOffDefault ==> g.depthFunc == p0.depthFunc)
    && (cfg.zBufferMode != ZBufferOff ==> g.depthMask == d.writeZBuffer)
    && (cfg.zBufferMode == ZBufferOff ==> g.depthMask == p0.depthMask)
    && (d.program in cfg.programs ==> g.program == Some(cfg.programs[d.program].glName))
  }

  /** The draw of entry i in a pass for targetId that started in GL state p0:
      the target's framebuffer, the depth test off from the first alpha entry
      on (when the alpha rule applies), and DrawStateOk. */
  predicate PassDrawOk(cfg: PassConfig, list: seq<DrawableContainer>, targetId: Identity, p0: GLState, i: nat, g: GLState)
    requires i < |list|
  {
    && g.framebuffer == Some(targetId)
    && g.depthTest == (p0.depthTest && !(DisablesForAlpha(cfg) && AnyAlphaUpTo(list, i + 1)))
    && DrawStateOk(cfg, p0, list[i].drawable, g)
  }

  /** The state after the depth steps of entry i, from an invariant state. */
  lemma DepthSteps(cfg: PassConfig, list: seq<DrawableContainer>, targetId: Identity, p0: GLState, i: nat, st: PassState)
    requires i < |list| && PassInv(cfg, list, targetId, p0, i, st)
    ensures var d := list[i].drawable;
      var st3 := DepthStep(cfg, d, st);
      && st3.curProgramId == st.curProgramId && st3.gl.program == st.gl.program
      && st3.numDrawables == st.numDrawables
      && st3.gl.framebuffer == Some(targetId)
      && st3.gl.blend == p0.blend && st3.gl.cullFace == p0.cullFace && st3.gl.rasterizerDiscard == p0.rasterizerDiscard
      && st3.gl.depthTest == (p0.depthTest && !(DisablesForAlpha(cfg) && AnyAlphaUpTo(list, i + 1)))
      && (cfg.zBufferMode == ZBufferOn ==> st3.depthMaskOn == !(cfg.depthBufferOffForAlpha && AnyAlphaUpTo(list, i + 1)))
      && (cfg.zBufferMode == ZBufferOff ==> !st3.depthMaskOn && st3.gl.depthMask == p0.depthMask)
      && (cfg.zBufferMode != ZBufferOffDefault ==> st3.gl.depthFunc == p0.depthFunc)
      && (cfg.zBufferMode == ZBufferOffDefault ==> st3.gl.depthFunc == (if d.requestZBuffer then Less else Always))
      && (cfg.zBufferMode != ZBufferOff ==> st3.gl.depthMask == d.writeZBuffer)
  {
  }

  /** The program step changes only curProgramId and the bound program, and
      keeps ProgramBound. */
  lemma ProgramStepFacts(cfg: PassConfig, c: DrawableContainer, st: PassState)
    requires ProgramBound(cfg, st)
    ensures var b := ProgramStep(cfg, c, st);
      && b.gl == st.gl.(program := b.gl.program)
      && b.depthMaskOn == st.depthMaskOn && b.numDrawables == st.numDrawables
      && b.curProgramId == c.drawable.program
      && ProgramBound(cfg, b)
  {
  }

  /** The iteration for entry i keeps the invariant, and its draw, if any, is
      as PassDrawOk says. */
  lemma StepKeepsInv(cfg: PassConfig, list: seq<DrawableContainer>, targetId: Identity, p0: GLState, i: nat, st: PassState)
    requires i < |list| && PassInv(cfg, list, targetId, p0, i, st)
    ensures PassInv(cfg, list, targetId, p0, i + 1, StepState(cfg, list[i], targetId, st))
    ensures var l := StepLog(cfg, list[i], targetId, st);
      l.draw.Some? ==> PassDrawOk(cfg, list, targetId, p0, i, l.draw.value)
  {
    var st3 := DepthStep(cfg, list[i].drawable, st);
    DepthSteps(cfg, list, targetId, p0, i, st);
    ProgramStepFacts(cfg, list[i], st3);
  }

  /** The pass keeps its invariant. */
  lemma {:induction false} PassKeepsInv(cfg: PassConfig, list: seq<DrawableContainer>, n: nat, targetId: Identity, st: PassState)
    requires n <= |list|
    requires st.gl.framebuffer == Some(targetId)
    requires st.depthMaskOn == (cfg.zBufferMode == ZBufferOn)
    requires ProgramBound(cfg, st)
    ensures PassInv(cfg, list, targetId, st.gl, n, PassUpTo(cfg, list, n, targetId, st).st)
  {
    if n > 0 {
      var prev := PassUpTo(cfg, list, n - 1, targetId, st).st;
      PassKeepsInv(cfg, list, n - 1, targetId, st);
      StepKeepsInv(cfg, list, targetId, st.gl, n - 1, prev);
      assert PassUpTo(cfg, list, n, targetId, st).st == StepState(cfg, list[n - 1], targetId, prev);
    }
  }

  /** The depth state machine and the program cache over a whole pass: every
      draw has its entry's depth function and mask, the depth test as the
      alpha rule leaves it, the target's framebuffer and the entry's program
      when the scene knows it. */
  lemma PassDrawSnapshots(cfg: PassConfig, list: seq<DrawableContainer>, targetId: Identity, st: PassState)
    requires st.gl.framebuffer == Some(targetId)
    requires st.depthMaskOn == (cfg.zBufferMode == ZBufferOn)
    requires ProgramBound(cfg, st)
    ensures var log := PassUpTo(cfg, list, |list|, targetId, st).log;
      forall i :: 0 <= i < |list| && log[i].draw.Some? ==> PassDrawOk(cfg, list, targetId, st.gl, i, log[i].draw.value)
  {
    PassLogEntries(cfg, list, |list|, targetId, st);
    forall i | 0 <= i < |list|
      ensures var l := StepLog(cfg, list[i], targetId, PassUpTo(cfg, list, i, targetId, st).st);
        l.draw.Some? ==> PassDrawOk(cfg, list, targetId, st.gl, i, l.draw.value)
    {
      PassKeepsInv(cfg, list, i, targetId, st);
      StepKeepsInv(cfg, list, targetId, st.gl, i, PassUpTo(cfg, list, i, targetId, st).st);
    }
  }

  /** The number of entries drawn in the pass for targetId. */
  function SelectedCount(list: seq<DrawableContainer>, n: nat, targetId: Identity): nat
    requires n <= |list|
  {
    if n == 0 then 0 else SelectedCount(list, n - 1, targetId) + (if Selected(list[n - 1], targetId) then 1 else 0)
  }

  /** A log that draws exactly the selected entries counts them. */
  lemma {:induction false} DrawnAreSelected(list: seq<DrawableContainer>, log: seq<EntryLog>, n: nat, targetId: Identity)
    requires n <= |list| == |log|
    requires forall i :: 0 <= i < |list| ==> (log[i].draw.Some? <==> Selected(list[i], targetId))
    ensures CountWhere(log[..n], IsDrawn) == SelectedCount(list, n, targetId)
  {
    if n > 0 {
      DrawnAreSelected(list, log, n - 1, targetId);
      assert log[..n] == log[..n - 1] + [log[n - 1]];
      CountWhereConcat(log[..n - 1], [log[n - 1]], IsDrawn);
      assert [log[n - 1]][1..] == [];
    }
  }

  /** numDrawables grows by the number of entries drawn for the target. */
  lemma PassCountsSelected(cfg: PassConfig, list: seq<DrawableContainer>, targetId: Identity, st: PassState)
    ensures PassUpTo(cfg, list, |list|, targetId, st).st.numDrawables == st.numDrawables + SelectedCount(list, |list|, targetId)
  {
    var log := PassUpTo(cfg, list, |list|, targetId, st).log;
    PassCountsDraws(cfg, list, |list|, targetId, st);
    PassDrawsSelected(cfg, list, targetId, st);
    DrawnAreSelected(list, log, |list|, targetId);
    assert log[..|list|] == log;
  }

  // ---------------------------------------------------------------------------
  // The loop over render targets

  /** A render target as the loop sees it when it reaches it: its id and
      whether it is cleared (clearEveryFrame, or clearOnce still set). */
  datatype TargetSnapshot = TargetSnapshot(id: Identity, clear: bool)

  /** What the loop does for one target: it binds the target's framebuffer,
      clears it when `cleared`, and runs the pass whose log is `entries`. */
  datatype TargetLog = TargetLog(target: Identity, cleared: bool, entries: seq<EntryLog>)

  datatype LoopResult = LoopResult(st: PassState, logs: seq<TargetLog>)

  /** Binding a target; depthMaskOn starts afresh, everything else carries over. */
  function EnterTarget(cfg: PassConfig, t: TargetSnapshot, st: PassState): PassState
  {
    st.(gl := st.gl.(framebuffer := Some(t.id)), depthMaskOn := cfg.zBufferMode == ZBufferOn)
  }

  /** The pass for target t, entered from state st. */
  function TargetRun(cfg: PassConfig, list: seq<DrawableContainer>, t: TargetSnapshot, st: PassState): PassResult
  {
    PassUpTo(cfg, list, |list|, t.id, EnterTarget(cfg, t, st))
  }

  /** The target loop after its first k targets; one log per target. */
  function TargetsUpTo(cfg: PassConfig, list: seq<DrawableContainer>, targets: seq<TargetSnapshot>, k: nat, st: PassState): (r: LoopResult)
    requires k <= |targets|
    ensures |r.logs| == k
  {
    if k == 0 then
      LoopResult(st, [])
    else
      var r := TargetsUpTo(cfg, list, targets, k - 1, st);
      var t := targets[k - 1];
      var pass := TargetRun(cfg, list, t, r.st);
      LoopResult(pass.st, r.logs + [TargetLog(t.id, t.clear, pass.log)])
  }

  /** Target j of the loop is bound and cleared as its snapshot says, and its
      pass starts from the state the first j targets left. */
  lemma {:induction false} TargetsLogEntries(cfg: PassConfig, list: seq<DrawableContainer>, targets: seq<TargetSnapshot>, k: nat, st: PassState)
    requires k <= |targets|
    ensures forall j {:trigger TargetsUpTo(cfg, list, targets, k, st).logs[j]} :: 0 <= j < k ==>
      TargetsUpTo(cfg, list, targets, k, st).logs[j] ==
        TargetLog(targets[j].id, targets[j].clear, TargetRun(cfg, list, targets[j], TargetsUpTo(cfg, list, targets, j, st).st).log)
  {
    if k > 0 {
      TargetsLogEntries(cfg, list, targets, k - 1, st);
      var r := TargetsUpTo(cfg, list, targets, k - 1, st);
      var logs := TargetsUpTo(cfg, list, targets, k, st).logs;
      var t := targets[k - 1];
      assert logs == r.logs + [TargetLog(t.id, t.clear, TargetRun(cfg, list, t, r.st).log)];
      assert forall j :: 0 <= j < k - 1 ==> logs[j] == r.logs[j];
    }
  }

  /** One iteration of the target loop on values: bind target k's
      framebuffer, start depthMaskOn afresh and run the pass; the loop's
      result after k targets becomes its result after k + 1. */
  method AdvanceTargets(cfg: PassConfig, drawList: seq<DrawableContainer>, ghost targets: seq<TargetSnapshot>,
                        ghost st0: PassState, k: nat, t: TargetSnapshot, acc: LoopResult)
    returns (next: LoopResult)
    requires k < |targets| && targets[k] == t
    requires acc == TargetsUpTo(cfg, drawList, targets, k, st0)
    ensures next == TargetsUpTo(cfg, drawList, targets, k + 1, st0)
  {
    var bound := acc.st.(gl := acc.st.gl.(framebuffer := Some(t.id)));
    var depthMaskOn := cfg.zBufferMode == ZBufferOn;
    var pass := DrawPass(cfg, drawList, t.id, bound.(depthMaskOn := depthMaskOn));
    next := LoopResult(pass.st, acc.logs + [TargetLog(t.id, t.clear, pass.log)]);
  }

  /** The program the executor believes bound when target k starts:
      curProgramId is not reset between targets. */
  function ProgramAtTarget(list: seq<DrawableContainer>, k: nat, cur0: Identity): Identity
  {
    if k == 0 || |list| == 0 then cur0 else list[|list| - 1].drawable.program
  }

  lemma {:induction false} TargetsProgramCarriesOver(cfg: PassConfig, list: seq<DrawableContainer>, targets: seq<TargetSnapshot>, k: nat, st: PassState)
    requires k <= |targets|
    ensures TargetsUpTo(cfg, list, targets, k, st).st.curProgramId == ProgramAtTarget(list, k, st.curProgramId)
  {
    if k > 0 {
      TargetsProgramCarriesOver(cfg, list, targets, k - 1, st);
      var r := TargetsUpTo(cfg, list, targets, k - 1, st);
      PassProgramTracksLastEntry(cfg, list, |list|, targets[k - 1].id, EnterTarget(cfg, targets[k - 1], r.st));
    }
  }

  /** The number of draws the first k targets call for. */
  function SelectedForTargets(list: seq<DrawableContainer>, targets: seq<TargetSnapshot>, k: nat): nat
    requires k <= |targets|
  {
    if k == 0 then 0 else SelectedForTargets(list, targets, k - 1) + SelectedCount(list, |list|, targets[k - 1].id)
  }

  /** numDrawables counts every draw of every target. */
  lemma {:induction false} TargetsCountDraws(cfg: PassConfig, list: seq<DrawableContainer>, targets: seq<TargetSnapshot>, k: nat, st: PassState)
    requires k <= |targets|
    ensures TargetsUpTo(cfg, list, targets, k, st).st.numDrawables == st.numDrawables + SelectedForTargets(list, targets, k)
  {
    if k > 0 {
      TargetsCountDraws(cfg, list, targets, k - 1, st);
      var r := TargetsUpTo(cfg, list, targets, k - 1, st);
      PassCountsSelected(cfg, list, targets[k - 1].id, EnterTarget(cfg, targets[k - 1], r.st));
    }
  }

  /** The invariant of the target loop relative to the GL state gl0 it
      started from: the depth test, once off for alpha, stays off for every
      later target. */
  predicate TargetsInv(cfg: PassConfig, list: seq<DrawableContainer>, gl0: GLState, k: nat, st: PassState)
  {
    && st.gl.blend == gl0.blend && st.gl.cullFace == gl0.cullFace && st.gl.rasterizerDiscard == gl0.rasterizerDiscard
    && st.gl.depthTest == (gl0.depthTest && !(DisablesForAlpha(cfg) && k > 0 && AnyAlphaUpTo(list, |list|)))
    && (cfg.zBufferMode != ZBufferOffDefault ==> st.gl.depthFunc == gl0.depthFunc)
    && (cfg.zBufferMode == ZBufferOff ==> st.gl.depthMask == gl0.depthMask)
    && ProgramBound(cfg, st)
  }

  lemma {:induction false} TargetsKeepInv(cfg: PassConfig, list: seq<DrawableContainer>, targets: seq<TargetSnapshot>, k: nat, st: PassState)
    requires k <= |targets|
    requires ProgramBound(cfg, st)
    ensures TargetsInv(cfg, list, st.gl, k, TargetsUpTo(cfg, list, targets, k, st).st)
  {
    if k > 0 {
      TargetsKeepInv(cfg, list, targets, k - 1, st);
      var r := TargetsUpTo(cfg, list, targets, k - 1, st);
      PassKeepsInv(cfg, list, |list|, targets[k - 1].id, EnterTarget(cfg, targets[k - 1], r.st));
    }
  }

  /** The draw of entry i for target k (of id targetId) in a loop that
      started from gl0: the target's framebuffer; the depth test as in gl0
      until the alpha rule turns it off, at the first alpha entry of the first
      target, and for good: every later target starts with it off. */
  predicate FrameDrawOk(cfg: PassConfig, list: seq<DrawableContainer>, gl0: GLState, k: nat, targetId: Identity, i: nat, g: GLState)
    requires i < |list|
  {
    && g.framebuffer == Some(targetId)
    && g.depthTest == (gl0.depthTest && !(DisablesForAlpha(cfg) && (AnyAlphaUpTo(list, i + 1) || (k > 0 && AnyAlphaUpTo(list, |list|)))))
    && DrawStateOk(cfg, gl0, list[i].drawable, g)
  }

  /** A draw of a pass, entered from a state that keeps the loop invariant,
      is a draw of the loop. */
  lemma PassDrawInFrame(cfg: PassConfig, list: seq<DrawableContainer>, gl0: GLState, k: nat, t: TargetSnapshot, st: PassState, i: nat, g: GLState)
    requires i < |list|
    requires TargetsInv(cfg, list, gl0, k, st)
    requires PassDrawOk(cfg, list, t.id, EnterTarget(cfg, t, st).gl, i, g)
    ensures FrameDrawOk(cfg, list, gl0, k, t.id, i, g)
  {
  }

  /** The target loop as a whole. Targets are handled in list order, each
      bound, and cleared exactly when its snapshot says so. In the pass for
      target k, entry i is drawn exactly when its program is not empty and its
      render target is k's, with the GL state of FrameDrawOk; and it sets up a
      program exactly when its program differs from the one before it, which
      for the first entry of a later target is the last entry's of the list,
      and the scene knows it. */
  lemma TargetsDrawSnapshots(cfg: PassConfig, list: seq<DrawableContainer>, targets: seq<TargetSnapshot>, st: PassState)
    requires ProgramBound(cfg, st)
    ensures var r := TargetsUpTo(cfg, list, targets, |targets|, st);
      forall k :: 0 <= k < |targets| ==>
        && r.logs[k].target == targets[k].id && r.logs[k].cleared == targets[k].clear
        && |r.logs[k].entries| == |list|
        && forall i :: 0 <= i < |list| ==>
             && (r.logs[k].entries[i].draw.Some? <==> Selected(list[i], targets[k].id))
             && (r.logs[k].entries[i].draw.Some? ==> FrameDrawOk(cfg, list, st.gl, k, targets[k].id, i, r.logs[k].entries[i].draw.value))
             && r.logs[k].entries[i].setup ==
                  if Rebinds(cfg, list, i, ProgramAtTarget(list, k, st.curProgramId))
                  then ProgramSetup(cfg, list[i], cfg.programs[list[i].drawable.program]) else []
  {
    TargetsLogEntries(cfg, list, targets, |targets|, st);
    forall k | 0 <= k < |targets|
      ensures var log := TargetRun(cfg, list, targets[k], TargetsUpTo(cfg, list, targets, k, st).st).log;
        forall i :: 0 <= i < |list| ==>
          && (log[i].draw.Some? <==> Selected(list[i], targets[k].id))
          && (log[i].draw.Some? ==> FrameDrawOk(cfg, list, st.gl, k, targets[k].id, i, log[i].draw.value))
          && log[i].setup ==
               if Rebinds(cfg, list, i, ProgramAtTarget(list, k, st.curProgramId))
               then ProgramSetup(cfg, list[i], cfg.programs[list[i].drawable.program]) else []
    {
      TargetDraws(cfg, list, targets, k, st);
    }
  }

  /** TargetsDrawSnapshots for target k. */
  lemma TargetDraws(cfg: PassConfig, list: seq<DrawableContainer>, targets: seq<TargetSnapshot>, k: nat, st: PassState)
    requires k < |targets|
    requires ProgramBound(cfg, st)
    ensures var log := TargetRun(cfg, list, targets[k], TargetsUpTo(cfg, list, targets, k, st).st).log;
      forall i :: 0 <= i < |list| ==>
        && (log[i].draw.Some? <==> Selected(list[i], targets[k].id))
        && (log[i].draw.Some? ==> FrameDrawOk(cfg, list, st.gl, k, targets[k].id, i, log[i].draw.value))
        && log[i].setup ==
             if Rebinds(cfg, list, i, ProgramAtTarget(list, k, st.curProgramId))
             then ProgramSetup(cfg, list[i], cfg.programs[list[i].drawable.program]) else []
  {
    var t := targets[k];
    var before := TargetsUpTo(cfg, list, targets, k, st).st;
    var entered := EnterTarget(cfg, t, before);
    var log := PassUpTo(cfg, list, |list|, t.id, entered).log;
    TargetsKeepInv(cfg, list, targets, k, st);
    TargetsProgramCarriesOver(cfg, list, targets, k, st);
    PassDrawsSelected(cfg, list, t.id, entered);
    PassDrawSnapshots(cfg, list, t.id, entered);
    PassProgramSetups(cfg, list, t.id, entered);
    forall i | 0 <= i < |list| && log[i].draw.Some?
      ensures FrameDrawOk(cfg, list, st.gl, k, t.id, i, log[i].draw.value)
    {
      PassDrawInFrame(cfg, list, st.gl, k, t, before, i, log[i].draw.value);
    }
  }
}
