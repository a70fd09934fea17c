/** The calculation pre-pass: entries with a calculation program run it once per
    draw-list entry, with the rasterizer discarding, before anything is drawn.

    The loop's record has one item per draw-list entry: None when the entry is
    skipped, and otherwise the GL state in force at its calculation (its
    tweakers run just before). */
module CalcPass {
  import opened Matrices
  import opened Drawables
  import opened GLModel
  import opened Counting
  import opened Collection
  import opened DrawOrder

  /** Some entry of the list has a calculation program. */
  predicate HasCalcProgram(list: seq<DrawableContainer>)
  {
    exists i :: 0 <= i < |list| && list[i].drawable.calculationProgram != EmptyIdentity
  }

  /** The search loop that decides whether the pass runs at all. */
  method FindCalcShader(drawList: seq<DrawableContainer>) returns (haveCalcShader: bool)
    ensures haveCalcShader <==> HasCalcProgram(drawList)
  {
    haveCalcShader := false;
    var ii := 0;
    while ii < |drawList|
      invariant 0 <= ii <= |drawList|
      invariant forall k :: 0 <= k < ii ==> drawList[k].drawable.calculationProgram == EmptyIdentity
    {
      if drawList[ii].drawable.calculationProgram != EmptyIdentity {
        haveCalcShader := true;
        break;
      }
      ii := ii + 1;
    }
  }

  datatype CalcLoopResult = CalcLoopResult(gl: GLState, log: seq<Option<GLState>>)

  /** The GL state after the iteration for entry c: its calculation program is
      bound when it has one and the scene knows it. */
  function CalcStepGL(c: DrawableContainer, programs: map<Identity, Program>, gl: GLState): GLState
  {
    var id := c.drawable.calculationProgram;
    if id != EmptyIdentity && id in programs then gl.(program := Some(programs[id].glName)) else gl
  }

  /** What the iteration for entry c records: entries without a calculation
      program are skipped; the others calculate, even when the lookup failed. */
  function CalcStepLog(c: DrawableContainer, programs: map<Identity, Program>, gl: GLState): Option<GLState>
  {
    if c.drawable.calculationProgram == EmptyIdentity then None else Some(CalcStepGL(c, programs, gl))
  }

  /** The calculation loop after its first n iterations. */
  function CalcLoop(list: seq<DrawableContainer>, n: nat, programs: map<Identity, Program>, gl: GLState): (r: CalcLoopResult)
    requires n <= |list|
    ensures |r.log| == n
  {
    if n == 0 then
      CalcLoopResult(gl, [])
    else
      var r := CalcLoop(list, n - 1, programs, gl);
      CalcLoopResult(CalcStepGL(list[n - 1], programs, r.gl), r.log + [CalcStepLog(list[n - 1], programs, r.gl)])
  }

  /** The pre-pass: `target` is the render target it bound (None when it did
      not run), `log` the loop's record and `gl` the GL state it leaves. */
  datatype CalcResult = CalcResult(gl: GLState, target: Option<Identity>, log: seq<Option<GLState>>)

  /** The whole pre-pass; the first render target's id is needed only when it
      runs (the source indexes renderTargets[0]). */
  function CalculationPassSpec(list: seq<DrawableContainer>, programs: map<Identity, Program>, firstTarget: Option<Identity>, gl: GLState): CalcResult
    requires HasCalcProgram(list) ==> firstTarget.Some?
  {
    if !HasCalcProgram(list) then
      CalcResult(gl, None, [])
    else
      var start := gl.(framebuffer := Some(firstTarget.value), rasterizerDiscard := true);
      var r := CalcLoop(list, |list|, programs, start);
      CalcResult(r.gl.(rasterizerDiscard := false), firstTarget, r.log)
  }

  method CalculationPass(drawList: seq<DrawableContainer>, programs: map<Identity, Program>, firstTarget: Option<Identity>, gl: GLState)
    returns (r: CalcResult)
    requires HasCalcProgram(drawList) ==> firstTarget.Some?
    ensures r == CalculationPassSpec(drawList, programs, firstTarget, gl)
  {
    var haveCalcShader := FindCalcShader(drawList);
    var glNow := gl;
    var target: Option<Identity> := None;
    var log: seq<Option<GLState>> := [];
    if haveCalcShader {
      // bind the first target's framebuffer, then turn rasterizer discard on
      glNow := glNow.(framebuffer := Some(firstTarget.value));
      target := firstTarget;
      glNow := glNow.(rasterizerDiscard := true);
      ghost var start := glNow;
      var ii := 0;
      while ii < |drawList|
        invariant 0 <= ii <= |drawList|
        invariant CalcLoopResult(glNow, log) == CalcLoop(drawList, ii, programs, start)
      {
        var drawable := drawList[ii].drawable;
        var calcProgID := drawable.calculationProgram;
        if calcProgID == EmptyIdentity {
          log := log + [None];
          ii := ii + 1;
          continue;
        }
        if calcProgID in programs {
          glNow := glNow.(program := Some(programs[calcProgID].glName));
        }
        log := log + [Some(glNow)];
        ii := ii + 1;
      }
      glNow := glNow.(rasterizerDiscard := false);
    }
    r := CalcResult(glNow, target, log);
  }

  /** Iteration i is the step for entry i from the state the first i left. */
  lemma {:induction false} CalcLogEntries(list: seq<DrawableContainer>, n: nat, programs: map<Identity, Program>, gl0: GLState)
    requires n <= |list|
    ensures forall i {:trigger CalcLoop(list, n, programs, gl0).log[i]} :: 0 <= i < n ==>
      CalcLoop(list, n, programs, gl0).log[i] == CalcStepLog(list[i], programs, CalcLoop(list, i, programs, gl0).gl)
  {
    if n > 0 {
      CalcLogEntries(list, n - 1, programs, gl0);
      var r := CalcLoop(list, n - 1, programs, gl0);
      var log := CalcLoop(list, n, programs, gl0).log;
      assert log == r.log + [CalcStepLog(list[n - 1], programs, r.gl)];
      assert forall i :: 0 <= i < n - 1 ==> log[i] == r.log[i];
    }
  }

  /** The loop changes only the bound program. */
  lemma {:induction false} CalcLoopState(list: seq<DrawableContainer>, n: nat, programs: map<Identity, Program>, gl0: GLState)
    requires n <= |list|
    ensures CalcLoop(list, n, programs, gl0).gl == gl0.(program := CalcLoop(list, n, programs, gl0).gl.program)
  {
    if n > 0 {
      CalcLoopState(list, n - 1, programs, gl0);
    }
  }

  /** A calculation issued from state gl0 for entry c: the GL state is gl0
      except for the bound program, which is c's calculation program when the
      scene knows it. */
  predicate CalcSnapshotOk(c: DrawableContainer, programs: map<Identity, Program>, gl0: GLState, g: GLState)
  {
    && g == gl0.(program := g.program)
    && (c.drawable.calculationProgram in programs ==> g.program == Some(programs[c.drawable.calculationProgram].glName))
  }

  /** The loop calculates exactly the entries that have a calculation program,
      each with the GL state of CalcSnapshotOk. */
  lemma CalcLoopCalculates(list: seq<DrawableContainer>, programs: map<Identity, Program>, gl0: GLState)
    ensures var log := CalcLoop(list, |list|, programs, gl0).log;
      forall i :: 0 <= i < |list| ==>
        && (log[i].Some? <==> list[i].drawable.calculationProgram != EmptyIdentity)
        && (log[i].Some? ==> CalcSnapshotOk(list[i], programs, gl0, log[i].value))
  {
    var log := CalcLoop(list, |list|, programs, gl0).log;
    CalcLogEntries(list, |list|, programs, gl0);
    forall i | 0 <= i < |list|
      ensures && (log[i].Some? <==> list[i].drawable.calculationProgram != EmptyIdentity)
              && (log[i].Some? ==> CalcSnapshotOk(list[i], programs, gl0, log[i].value))
    {
      CalcLoopState(list, i, programs, gl0);
      CalcStepOk(list[i], programs, gl0, CalcLoop(list, i, programs, gl0).gl);
    }
  }

  /** The iteration for entry c from a state that differs from gl0 only in
      the bound program. */
  lemma CalcStepOk(c: DrawableContainer, programs: map<Identity, Program>, gl0: GLState, g: GLState)
    requires g == gl0.(program := g.program)
    ensures var l := CalcStepLog(c, programs, g);
      && (l.Some? <==> c.drawable.calculationProgram != EmptyIdentity)
      && (l.Some? ==> CalcSnapshotOk(c, programs, gl0, l.value))
  {
  }

  /** The pre-pass as a whole: it does nothing unless some entry has a
      calculation program; then it binds the first render target and, entry by
      entry in list order, calculates exactly the entries with a calculation
      program (duplicates included), with the rasterizer discarding, the depth
      state untouched and the entry's program bound when the scene knows it;
      and it turns the discard off again. */
  lemma CalculationPassProperties(list: seq<DrawableContainer>, programs: map<Identity, Program>, firstTarget: Option<Identity>, gl: GLState)
    requires HasCalcProgram(list) ==> firstTarget.Some?
    ensures var r := CalculationPassSpec(list, programs, firstTarget, gl);
      && (!HasCalcProgram(list) ==> r == CalcResult(gl, None, []))
      && (HasCalcProgram(list) ==>
            && r.target == firstTarget
            && |r.log| == |list|
            && (forall i :: 0 <= i < |list| ==>
                  && (r.log[i].Some? <==> list[i].drawable.calculationProgram != EmptyIdentity)
                  && (r.log[i].Some? ==>
                        && r.log[i].value.rasterizerDiscard
                        && r.log[i].value.framebuffer == firstTarget
                        && SameDepthState(r.log[i].value, gl)
                        && r.log[i].value.blend == gl.blend && r.log[i].value.cullFace == gl.cullFace
                        && (list[i].drawable.calculationProgram in programs ==>
                              r.log[i].value.program == Some(programs[list[i].drawable.calculationProgram].glName))))
            && !r.gl.rasterizerDiscard
            && r.gl.framebuffer == firstTarget
            && SameDepthState(r.gl, gl)
            && r.gl.blend == gl.blend && r.gl.cullFace == gl.cullFace)
  {
    if HasCalcProgram(list) {
      var start := gl.(framebuffer := Some(firstTarget.value), rasterizerDiscard := true);
      CalcLoopCalculates(list, programs, start);
      CalcLoopState(list, |list|, programs, start);
    }
  }

  // ---------------------------------------------------------------------------
  // No de-duplication

  predicate CalcEntryOf(x: Identity, c: DrawableContainer)
  {
    c.drawable.id == x && c.drawable.calculationProgram != EmptyIdentity
  }

  /** Entries of drawable x with a calculation program, as a counting predicate. */
  function CalcEntryTest(x: Identity): DrawableContainer -> bool
  {
    (c: DrawableContainer) => CalcEntryOf(x, c)
  }

  /** How many calculations of drawable x the first n items of a record hold. */
  function CalculationsOf(list: seq<DrawableContainer>, log: seq<Option<GLState>>, n: nat, x: Identity): nat
    requires n <= |list| && n <= |log|
  {
    if n == 0 then 0
    else CalculationsOf(list, log, n - 1, x) + (if log[n - 1].Some? && list[n - 1].drawable.id == x then 1 else 0)
  }

  /** A record that calculates exactly the entries with a calculation program
      calculates drawable x once per such entry of x. */
  lemma {:induction false} CalculationsCount(list: seq<DrawableContainer>, log: seq<Option<GLState>>, n: nat, x: Identity)
    requires n <= |list| && |log| == |list|
    requires forall i :: 0 <= i < |list| ==> (log[i].Some? <==> list[i].drawable.calculationProgram != EmptyIdentity)
    ensures CalculationsOf(list, log, n, x) == CountWhere(list[..n], CalcEntryTest(x))
  {
    if n > 0 {
      CalculationsCount(list, log, n - 1, x);
      assert list[..n] == list[..n - 1] + [list[n - 1]];
      CountWhereConcat(list[..n - 1], [list[n - 1]], CalcEntryTest(x));
      assert [list[n - 1]][1..] == [];
    }
  }

  function CalcDrawableTest(x: Identity): Drawable -> bool
  {
    (d: Drawable) => d.id == x && d.calculationProgram != EmptyIdentity
  }

  lemma {:induction false} CountThroughDrawables(list: seq<DrawableContainer>, x: Identity)
    ensures CountWhere(list, CalcEntryTest(x)) == CountWhere(DrawablesOf(list), CalcDrawableTest(x))
    decreases |list|
  {
    if list != [] {
      CountThroughDrawables(list[1..], x);
      assert DrawablesOf(list)[1..] == DrawablesOf(list[1..]);
    }
  }

  lemma {:induction false} CountRepeat(ds: seq<Drawable>, n: nat, x: Identity)
    ensures CountWhere(Repeat(ds, n), CalcDrawableTest(x)) == n * CountWhere(ds, CalcDrawableTest(x))
  {
    if n > 0 {
      CountRepeat(ds, n - 1, x);
      var c := CountWhere(ds, CalcDrawableTest(x));
      var before := CountWhere(Repeat(ds, n - 1), CalcDrawableTest(x));
      CountWhereConcat(Repeat(ds, n - 1), ds, CalcDrawableTest(x));
      assert CountWhere(Repeat(ds, n), CalcDrawableTest(x)) == before + c;
      assert n * c == (n - 1) * c + c;
    }
  }

  /** No de-duplication across offsets: when every drawable is on for every
      offset, a drawable with a calculation program is calculated once per
      offset (once per occurrence in the scene, times the number of offsets),
      whatever order the sort picks: `sorted` is any permutation of the
      collected list. */
  lemma CalculatedOncePerOffset(offsets: seq<Matrix>, ds: seq<Drawable>, isOn: (nat, Drawable) -> bool, fm: FrameMatrices,
                                sorted: seq<DrawableContainer>, programs: map<Identity, Program>, firstTarget: Identity, gl: GLState, x: Identity)
    requires forall off, d :: isOn(off, d)
    requires multiset(sorted) == multiset(CollectedEntries(offsets, ds, isOn, fm))
    ensures var r := CalculationPassSpec(sorted, programs, Some(firstTarget), gl);
      |r.log| <= |sorted| && CalculationsOf(sorted, r.log, |r.log|, x) == |offsets| * CountWhere(ds, CalcDrawableTest(x))
  {
    var collected := CollectedEntries(offsets, ds, isOn, fm);
    var r := CalculationPassSpec(sorted, programs, Some(firstTarget), gl);
    CountWherePermutation(sorted, collected, CalcEntryTest(x));
    CountThroughDrawables(collected, x);
    AllOnCollectsEveryPair(offsets, ds, isOn, fm);
    CountRepeat(ds, |offsets|, x);
    CalculationPassProperties(sorted, programs, Some(firstTarget), gl);
    if HasCalcProgram(sorted) {
      CalculationsCount(sorted, r.log, |sorted|, x);
      assert sorted[..|sorted|] == sorted;
    } else {
      CountNone(sorted, CalcEntryTest(x));
    }
  }
}
