# SceneRendererES2 frame composer, in Dafny

This project models the frame composer of WhirlyGlobe-Maply's OpenGL ES 2
renderer, `SceneRendererES2`. It proves properties of that model. The
modelled parts are:

- the draw-order comparator `DrawListSortStruct2` and the `DrawableContainer` record;
- the renderer's setters (`addLight`, `replaceLights`, `setDefaultMaterial`,
  `setClearColor`, `forceRenderSetup`) and its constructor;
- `render` itself:
  - the decision whether to draw at all, and the extra frame;
  - the GL set-up;
  - collecting the draw list over the offset matrices;
  - sorting it;
  - the calculation pre-pass;
  - the loop over render targets with its depth state machine and program-switch cache;
  - the frame-rate counter reset.

Layout, one module per stage of the frame:

| file | module | what it holds |
|---|---|---|
| `matrices.dfy` | `Matrices` | symbolic matrices; products kept in Eigen's evaluation order |
| `drawables.dfy` | `Drawables` | drawables, containers, programs, lights, materials and colours |
| `gl_model.dfy` | `GLModel` | the GL state the composer changes, and the program set-up calls |
| `counting.dfy` | `Counting` | counting the elements of a sequence that satisfy a predicate |
| `draw_order.dfy` | `DrawOrder` | the comparator, sortedness and the functional sort |
| `collection.dfy` | `Collection` | the collection loops and what the draw list holds |
| `calc_pass.dfy` | `CalcPass` | the calculation pre-pass |
| `target_pass.dfy` | `TargetPass` | one pass over the draw list per render target, and the target loop |
| `frame.dfy` | `Frame` | one `render` call on values: the draw decision, the counters, a drawn frame |
| `renderer.dfy` | `Renderer` | the `SceneRenderer` and `RenderTarget` classes, and `render` on them |

The same pattern recurs throughout. Each loop of the source is a method with
a `while` loop. It is proved equal to a specification fold that keeps one
log item per iteration. For a pass, a log item holds the GL state in force
at the entry's draw and the program set-up calls of the iteration. For the
calculation pass, it holds the GL state at the entry's calculation. Lemmas
about the folds state what the source promises: which entries are drawn,
with which depth, blend and program state, which programs are set up, which
targets are cleared, and what the counters are.

`SceneRenderer` is a class. Its fields are the renderer's lights, material,
clear colour, settings, frame counters and GL state. `render` and the setters
update them in place, as the source does. Each render target is a
`RenderTarget` object. `forceRenderSetup` and `setClearColor` change its
set-up flag and clear colour. The target loop consumes its clear-once flag.

Some behaviours of the code are easy to miss; the model keeps each of them:

- **One calculation per draw-list entry.** The comment at SceneRendererES2.cpp:421
  says calculation shaders run once, ignoring offsets. But the pass at :437-456
  calls `calculate` once per draw-list entry. A drawable collected under N
  offsets is therefore calculated N times (`CalcPass.CalculatedOncePerOffset`).
- **The calculation program is bound at every entry.** The pass binds it
  whenever the scene knows it (:444-449), even when it is the program already
  bound.
- **The OffDefault depth function is chosen per entry.** In OffDefault mode the
  depth function is set again for every entry (:501-510): LESS when the entry
  requests the z-buffer, ALWAYS otherwise. Only `depthMaskOn` is one-way.
- **The depth test stays off across targets.** Once the alpha rule disables the
  depth test (:491-498), nothing turns it on again for later render targets.
  Only `depthMaskOn` is reset per target (:484).
- **`curProgramId` is kept across targets.** It is set once before the target
  loop (:470), not per target. It is updated even when the scene does not know
  the program (:533-535).
- **The light count is always set.** It is handed to every bound program, with
  or without lights (:545).

## Model

| member | source | states |
|---|---|---|
| DrawOrder.DrawsBefore | common/WhirlyGlobeLib/src/SceneRendererES2.cpp:62-83 | the comparator holds exactly when A's key is lexicographically below B's; the key is (alpha rank if alpha sorting is on, draw priority, z-buffer-request rank if the tie-break is on) |
| DrawOrder.DrawsBeforeIsStrictWeakOrder | common/WhirlyGlobeLib/src/SceneRendererES2.cpp:62-83 | the comparator is irreflexive, asymmetric and transitive, and its incomparability is transitive, as std::sort requires; two entries are equivalent exactly when their keys agree |
| DrawOrder.ZBufferTieBreak | common/WhirlyGlobeLib/src/SceneRendererES2.cpp:71-80 | between entries of equal alpha status and equal priority, A goes first exactly when the tie-break is on, A does not request the z-buffer and B does |
| DrawOrder.SortedByKeys | common/WhirlyGlobeLib/src/SceneRendererES2.cpp:62-83 | a list is sorted by the comparator exactly when its keys never decrease along it |
| DrawOrder.InsertEntry | common/WhirlyGlobeLib/src/SceneRendererES2.cpp:415 | inserting one entry into a sorted list gives a sorted list holding the old elements plus that entry |
| DrawOrder.SortDrawList | common/WhirlyGlobeLib/src/SceneRendererES2.cpp:413-415 | the sorted draw list is sorted by the comparator and is a permutation (equal multiset) of the collected list |
| DrawOrder.AlphaSortsToEnd | common/WhirlyGlobeLib/src/SceneRendererES2.cpp:66-69 | with alpha sorting on, no entry with alpha comes before an entry without alpha, whatever the priorities |
| DrawOrder.ZBufferRequestersLater | common/WhirlyGlobeLib/src/SceneRendererES2.cpp:71-80 | with the tie-break on, among entries of equal alpha status and priority, z-buffer requesters come after non-requesters |
| DrawOrder.SortIsIdempotent | common/WhirlyGlobeLib/src/SceneRendererES2.cpp:415 | sorting twice is sorting once, for any sorted permutations std::sort may return: a sorted permutation of a sorted permutation of a list has, at every position, the same key as the first one and as the model's sort |
| DrawOrder.SortedPermutationsAgree | common/WhirlyGlobeLib/src/SceneRendererES2.cpp:415 | any two sorted permutations of one list have the same length and the same key at every position, so whatever std::sort returns differs from the model's sort only among equivalent entries |
| DrawOrder.ExampleAlphaOrder | common/WhirlyGlobeLib/src/SceneRendererES2.cpp:62-83 | with alpha sorting on, C (priority 1, opaque), A (priority 5, opaque) and B (priority 5, alpha) can only be sorted as [C, A, B] |
| Collection.ContainerFor | common/WhirlyGlobeLib/src/SceneRendererES2.cpp:400-408 | reference definition of one collected container: with a local matrix, mvp = proj·view·offset·model·local and mv = view·offset·model·local; otherwise the offset's shared mvp = proj·(view·offset·model) and mv; the normal matrix is the inverse transpose of mv (no ensures; CollectDrawList is proved against it) |
| Collection.CollectDrawList | common/WhirlyGlobeLib/src/SceneRendererES2.cpp:369-411 | the nested loops build the draw list offset by offset and, within an offset, in scene order: one container per drawable that is on; a local matrix gives mvp = proj·view·offset·model·local, otherwise the container gets the offset's shared matrices |
| Collection.CollectedLength | common/WhirlyGlobeLib/src/SceneRendererES2.cpp:369-411 | the draw list's length is the sum, over the offsets, of the number of drawables on for that offset |
| Collection.OffsetEntriesMembership | common/WhirlyGlobeLib/src/SceneRendererES2.cpp:395-410 | within one offset, a container is appended exactly when it is the container of a drawable that is on, built with that offset's matrix |
| Collection.CollectedMembership | common/WhirlyGlobeLib/src/SceneRendererES2.cpp:369-411 | an entry is in the draw list exactly when it is the container of some (offset, drawable) pair that is on |
| Collection.AllOnCollectsEveryPair | common/WhirlyGlobeLib/src/SceneRendererES2.cpp:369-411 | when everything is on, the draw list holds the scene's drawables in scene order once per offset: N offsets and D drawables give N×D entries |
| CalcPass.FindCalcShader | common/WhirlyGlobeLib/src/SceneRendererES2.cpp:424-429 | the search finds a calculation shader exactly when some entry of the sorted list has a calculation program |
| CalcPass.CalculationPass | common/WhirlyGlobeLib/src/SceneRendererES2.cpp:422-462 | the pre-pass method computes the pass specification CalculationPassSpec, whose properties follow |
| CalcPass.CalcLoopState | common/WhirlyGlobeLib/src/SceneRendererES2.cpp:437-456 | the calculation loop changes nothing in the GL state but the bound program |
| CalcPass.CalcLoopCalculates | common/WhirlyGlobeLib/src/SceneRendererES2.cpp:437-456 | the loop calculates exactly the entries with a calculation program; each calculation sees the starting GL state with the entry's calculation program bound whenever the scene knows it |
| CalcPass.CalculationPassProperties | common/WhirlyGlobeLib/src/SceneRendererES2.cpp:422-462 | with no calculation program the pass does nothing; otherwise it binds the first render target, calculates exactly the entries with a calculation program in list order with the rasterizer discarding, leaves depth, blend and culling alone, and ends with discard off |
| CalcPass.CalculatedOncePerOffset | common/WhirlyGlobeLib/src/SceneRendererES2.cpp:421-462 | no de-duplication: when everything is on, a drawable is calculated once per occurrence in the scene times the number of offsets, for every permutation of the collected list the sort may return |
| TargetPass.DepthStep | common/WhirlyGlobeLib/src/SceneRendererES2.cpp:489-519 | reference definition of one entry's depth handling: the first alpha entry turns the depth test off when the alpha rule applies; OffDefault picks LESS on request and ALWAYS otherwise; the mask follows the write request unless the z-buffer is off (no ensures; its laws are DepthSteps and PassDrawSnapshots) |
| TargetPass.ProgramStep | common/WhirlyGlobeLib/src/SceneRendererES2.cpp:531-549 | reference definition of the program switch: curProgramId becomes the entry's program; a different program the scene knows is bound (no ensures; its laws are ProgramStepFacts and PassProgramSetups) |
| TargetPass.PrepareDepth | common/WhirlyGlobeLib/src/SceneRendererES2.cpp:489-519 | the depth handling at the head of an iteration computes the depth step DepthStep, whose effect over a pass PassDrawSnapshots states |
| TargetPass.SwitchProgram | common/WhirlyGlobeLib/src/SceneRendererES2.cpp:531-549 | the program switch computes the program step and its set-up calls, whose effect over a pass PassProgramSetups states |
| TargetPass.DrawPass | common/WhirlyGlobeLib/src/SceneRendererES2.cpp:485-568 | the inner loop over the draw list computes the pass fold PassUpTo, one log item per entry |
| TargetPass.PassDrawsSelected | common/WhirlyGlobeLib/src/SceneRendererES2.cpp:550-561 | a pass draws an entry exactly when its program is not empty and its render target is the pass's |
| TargetPass.PassCountsDraws | common/WhirlyGlobeLib/src/SceneRendererES2.cpp:567 | numDrawables grows by the number of draws in the pass's log |
| TargetPass.PassProgramTracksLastEntry | common/WhirlyGlobeLib/src/SceneRendererES2.cpp:532-535 | after n iterations, curProgramId is the program of entry n-1, drawn or not |
| TargetPass.PassProgramSetups | common/WhirlyGlobeLib/src/SceneRendererES2.cpp:531-549 | an iteration sets up a program exactly when the entry's program differs from the previous entry's and the scene knows it; the set-up passes the lights only to a program with lights and only when there are lights, then always the number of lights |
| TargetPass.DepthSteps | common/WhirlyGlobeLib/src/SceneRendererES2.cpp:489-519 | from the pass invariant, one depth step leaves: the depth test off once an alpha entry was reached under the alpha rule; OffDefault's function LESS or ALWAYS by the entry's request; the mask following the entry's write request unless the z-buffer is off; program, framebuffer and blending untouched |
| TargetPass.StepKeepsInv | common/WhirlyGlobeLib/src/SceneRendererES2.cpp:485-568 | one iteration keeps the pass invariant, and its draw, if any, has the GL state PassDrawOk describes |
| TargetPass.PassKeepsInv | common/WhirlyGlobeLib/src/SceneRendererES2.cpp:485-568 | a pass entered with the target bound and depthMaskOn reset keeps its invariant throughout |
| TargetPass.PassDrawSnapshots | common/WhirlyGlobeLib/src/SceneRendererES2.cpp:485-561 | every draw of a pass has the target's framebuffer, the depth test as the alpha rule leaves it, the entry's depth function and mask, and the entry's program whenever the scene knows it |
| TargetPass.PassCountsSelected | common/WhirlyGlobeLib/src/SceneRendererES2.cpp:550-567 | numDrawables grows by the number of entries selected for the pass's target |
| TargetPass.AdvanceTargets | common/WhirlyGlobeLib/src/SceneRendererES2.cpp:475-568 | one target-loop iteration on values (bind the framebuffer, reset depthMaskOn, run the pass) extends the loop's result from k targets to k + 1 |
| TargetPass.TargetsProgramCarriesOver | common/WhirlyGlobeLib/src/SceneRendererES2.cpp:470-535 | curProgramId is not reset between targets: a later target starts with the program of the list's last entry |
| TargetPass.TargetsCountDraws | common/WhirlyGlobeLib/src/SceneRendererES2.cpp:470-567 | numDrawables counts, over all targets, the entries drawn for each |
| TargetPass.TargetsKeepInv | common/WhirlyGlobeLib/src/SceneRendererES2.cpp:473-568 | the target loop keeps blending, culling and discard, keeps the program bound, and once the alpha rule turns the depth test off it stays off for every later target |
| TargetPass.TargetDraws | common/WhirlyGlobeLib/src/SceneRendererES2.cpp:473-568 | for target k: the drawn entries, their GL state (FrameDrawOk) and the program set-ups, with the previous program carried over from earlier targets |
| TargetPass.TargetsDrawSnapshots | common/WhirlyGlobeLib/src/SceneRendererES2.cpp:473-568 | the loop handles targets in list order, binds each, clears it exactly as its snapshot says, and in each pass draws and sets up programs as TargetDraws says |
| Frame.Decide | common/WhirlyGlobeLib/src/SceneRendererES2.cpp:173-198 | reference definition of how a call ends: no scene, empty framebuffer, skipped when nothing changed and no extra frame is owed, drawn otherwise (no ensures; its laws are EarlyExits, DrawnFrame, QuietRun and ExactlyOneExtraFrame) |
| Frame.CountersAtDecision | common/WhirlyGlobeLib/src/SceneRendererES2.cpp:173-200 | reference definition of the counters after the decision: frameCount counts calls with a scene; a drawn frame records its time and whether it is the extra frame (no ensures; BeginFrame is proved against it) |
| Frame.PerfReset | common/WhirlyGlobeLib/src/SceneRendererES2.cpp:612-618 | reference definition of the frame-rate window reset: once more than perfInterval frames are counted, frameCount returns to 0 and the window restarts at the end time (no ensures; EndFrame is proved against it and DrawnFrame states its bound) |
| Frame.EarlyExits | common/WhirlyGlobeLib/src/SceneRendererES2.cpp:171-198 | without a scene nothing changes; with a scene but an empty framebuffer, and when the frame is skipped, only frameCount grows by one |
| Frame.DrawnFrame | common/WhirlyGlobeLib/src/SceneRendererES2.cpp:171-200 | a frame is drawn exactly when there is a scene, the framebuffer is not empty, and something changed or the extra frame is owed; after it the extra frame is owed exactly when something changed, lastDraw is the decision time, and with a sampling interval frameCount is reset to 0 (the window restarting at the frame's end) when it would exceed the interval |
| Frame.QuietRun | common/WhirlyGlobeLib/src/SceneRendererES2.cpp:189-198 | in a run of calls that could draw but see no change, only the first draws, and only when the extra frame is owed; all others skip |
| Frame.QuietAfterExtra | common/WhirlyGlobeLib/src/SceneRendererES2.cpp:189-198 | once the extra frame is drawn, or extra-frame mode is off, every quiet call skips |
| Frame.ExactlyOneExtraFrame | common/WhirlyGlobeLib/src/SceneRendererES2.cpp:189-198 | after a drawn frame that saw a change, the following quiet calls draw exactly once in extra-frame mode and never otherwise |
| Frame.SetupGL | common/WhirlyGlobeLib/src/SceneRendererES2.cpp:210-263 | a drawn frame turns blending and culling on; depth test and mask are on except in Off mode; the depth function is LESS in On, ALWAYS in OffDefault and unchanged in Off; nothing else changes |
| Frame.AfterCalc | common/WhirlyGlobeLib/src/SceneRendererES2.cpp:431-459 | the target loop starts from the set-up's depth, blend and cull state; discard is off whenever the pre-pass ran |
| Frame.FrameDraws | common/WhirlyGlobeLib/src/SceneRendererES2.cpp:470-568 | every draw of a frame: targets in order, each cleared as its snapshot says; entry i is drawn for target k exactly when its program is not empty and its render target is k's; the GL state at that draw is FrameDrawState (framebuffer, blend, cull, discard, depth test, function, mask, program); programs are set up exactly on a change to a known program |
| Frame.FrameCountsDraws | common/WhirlyGlobeLib/src/SceneRendererES2.cpp:567 | numDrawables at the end of a frame is the number of (target, entry) draws |
| Frame.NoTargetsNoDraws | common/WhirlyGlobeLib/src/SceneRendererES2.cpp:470-568 | with no render target (and so no calculation program) nothing is bound, drawn or counted |
| Frame.OpaqueDrawnWithDepthTest | common/WhirlyGlobeLib/src/SceneRendererES2.cpp:489-498 | with alpha sorted to the end, the alpha rule on and the z-buffer on, every opaque entry is drawn for the first target with the depth test on, and, once the list has an alpha entry, every draw for a later target has it off |
| Drawables.AsUnitFloats | common/WhirlyGlobeLib/src/SceneRendererES2.cpp:152 | the clear colour as unit floats: each channel in [0, 1] and equal to the 8-bit channel divided by 255 |
| Renderer.DefaultLight | common/WhirlyGlobeLib/src/SceneRendererES2.cpp:93-98 | the default light: position (0.75, 0.5, -1), view-dependent, ambient 0.6 grey, diffuse 0.5 grey, no specular (no ensures; the constructor installs it) |
| Renderer.SceneRenderer.constructor | common/WhirlyGlobeLib/src/SceneRendererES2.cpp:89-102 | a new renderer holds exactly the default light, records the construction time as the lights' update time, triggers a draw and owes no extra frame |
| Renderer.SceneRenderer.ForceRenderSetup | common/WhirlyGlobeLib/src/SceneRendererES2.cpp:108-112 | every render target is marked as not set up; only that flag of the targets changes |
| Renderer.SceneRenderer.AddLight | common/WhirlyGlobeLib/src/SceneRendererES2.cpp:121-126 | the light is appended to the list, the update time is recorded, a draw is triggered, nothing else changes |
| Renderer.SceneRenderer.ReplaceLights | common/WhirlyGlobeLib/src/SceneRendererES2.cpp:129-137 | the light list becomes the new list element by element (empty turns lighting off), the update time is recorded, a draw is triggered, nothing else changes |
| Renderer.SceneRenderer.SetDefaultMaterial | common/WhirlyGlobeLib/src/SceneRendererES2.cpp:139-144 | the default material becomes mat, the update time is recorded, a draw is triggered, nothing else changes |
| Renderer.SceneRenderer.SetClearColor | common/WhirlyGlobeLib/src/SceneRendererES2.cpp:146-156 | without render targets nothing changes; otherwise the last target's clear colour becomes the colour as unit floats, the renderer records the colour, every target must be set up again, and no other target's colour changes |
| Renderer.SceneRenderer.BindAndClear | common/WhirlyGlobeLib/src/SceneRendererES2.cpp:475-482 | a target is cleared exactly when it clears every frame or its clear-once flag is still set (the snapshot taken before the loop), and the flag is consumed |
| Renderer.SceneRenderer.VisitTarget | common/WhirlyGlobeLib/src/SceneRendererES2.cpp:473-568 | one iteration of the target loop on the objects extends the loop result by one target and consumes that target's clear-once flag |
| Renderer.SceneRenderer.ExecuteTargets | common/WhirlyGlobeLib/src/SceneRendererES2.cpp:470-569 | the loop over the renderer's targets computes the target-loop fold over their snapshots, leaves the GL state it ends in, and leaves no clear-once flag set |
| Renderer.SceneRenderer.PrepareDraw | common/WhirlyGlobeLib/src/SceneRendererES2.cpp:210-462 | the part of a drawn frame before the target loop: the GL set-up, the sorted draw list and the calculation pass, bound to the first target |
| Renderer.SceneRenderer.DrawScene | common/WhirlyGlobeLib/src/SceneRendererES2.cpp:210-569 | drawing a frame on the renderer computes DrawFrame over the targets' snapshots and the GL state before it (so FrameDraws applies), updates the GL state and consumes the clear-once flags |
| Renderer.SceneRenderer.BeginFrame | common/WhirlyGlobeLib/src/SceneRendererES2.cpp:171-200 | the head of render decides as Decide, whose laws EarlyExits, DrawnFrame and ExactlyOneExtraFrame state, and moves the counters accordingly, leaving the render targets alone |
| Renderer.SceneRenderer.EndFrame | common/WhirlyGlobeLib/src/SceneRendererES2.cpp:611-618 | once more than perfInterval frames were counted (interval positive), frameCount becomes 0 and the frame-rate window restarts at the end time; otherwise nothing changes |
| Renderer.SceneRenderer.DrawAndFinish | common/WhirlyGlobeLib/src/SceneRendererES2.cpp:210-618 | a frame render has decided to draw: DrawScene, then the frame-rate reset |
| Renderer.SceneRenderer.Render | common/WhirlyGlobeLib/src/SceneRendererES2.cpp:171-625 | one render call: the outcome and counters as Decide and CountersAfter say; a drawn frame is DrawFrame of the renderer's configuration, targets and GL state, and consumes the clear-once flags; any other outcome leaves the GL state and the targets' flags unchanged and draws nothing |

## Left out

- OpenGL is modelled as the state it leaves behind (`GLState`). Calls that leave no state the composer reads are not modelled: `glBlendFunc`, `CheckGLError`, `glInvalidateFramebuffer`. `glClear` is recorded as a target's `cleared` flag, and binding a frame buffer as `framebuffer := id`.
- Eigen numerics are not modelled: float conversion, inverses and eye vectors (SceneRendererES2.cpp:223-239, 286-313, 522-525). Matrices are symbolic terms, so the model states which products are taken, in which order, and nothing numeric.
- The frame-rate division and its logging are left out: `framesPerSec = frameCount / howLong` is floating-point time. `perfTimer` and `wkLogLevel` are also left out.
- Collaborators are parameters. The scene's drawables and program table come as `scene` and `programs`. `isOn` is a function of (offset index, drawable). `hasAlpha` is the drawable's per-frame answer. `hasChanges` is its verdict `changed`. Clock readings are `now` and `endNow`; the constructor's and setters' `TimeGetCurrent()` reading is `now`. The remaining calls are not modelled: `theView->animate`, `processScene`, `preProcessChanges`, the active models' `updateForFrame`, `processChanges` and `getOffsetMatrices`.
- Drawables' `runTweakers`, `draw` and `calculate`, and programs' `setLights` and `setUniform`, are recorded as log items rather than executed. A draw or calculation records the GL state in force at it; a set-up records the calls with their arguments.
- `presentRender` and `snapshotCallback` are left out. They are platform hooks with no result the composer reads.
- `setScene`, the destructor, `processScene` and `hasChanges` are not modelled beyond the `hasScene` and `changed` inputs. Clearing `generatedDrawables` and `drawList` at the end of a frame is not modelled either.
- `DrawOrder.SortOfSorted`: holds of the model's insertion sort only. `std::sort` may swap equivalent entries of an already sorted list; what holds of it is stated by `SortIsIdempotent` and `SortedPermutationsAgree`.
- `DrawOrder.SortDrawList`: `std::sort` works in place and is not stable. The model sorts a value by insertion and promises only what `std::sort` promises: sorted and a permutation. `SortedPermutationsAgree` shows that any other sorted permutation agrees with it key by key.
- `Frame.CountersAfter`: `frameCount` is an unbounded `nat`. Its declared width lives in the base class `SceneRendererES`, which is not part of this model, so wrap-around is not modelled.
- `Drawables.AsUnitFloats`: the channels are divided exactly; float rounding is not modelled. RGBAColor's own code is not part of this model.
- The `RenderTarget` class is not part of this model beyond the fields the composer touches: `id`, `clearEveryFrame`, `clearOnce`, `isSetup` and `clearColor`. The base-class fields the constructor does not initialise are given no initial value in the model contract.
- `Renderer.SceneRenderer.Render`: requires a render target whenever a drawn frame's sorted list has a calculation program. The source then indexes `renderTargets[0]`, which is out of bounds without targets, and the model does not describe what happens there. The same requirement is on `DrawScene`, `DrawAndFinish` and `PrepareDraw`.
- The `calcPassDone` flag is always false when tested, so it is not modelled. The same goes for the second `if (scene)` test, which is always true after the first.
- Concurrency is left out. Scene changes queued by other threads are drained by the collaborators above.
