/** The OpenGL state the frame composer changes, and the log of calls it makes
    into collaborators (drawables, programs, the scene, the platform). */
module GLModel {
  import opened Matrices
  import opened Drawables

  datatype DepthFunc = Less | Always

  /** What glEnable / glDisable / glDepthFunc / glDepthMask / glUseProgram and
      binding a framebuffer leave behind. */
  datatype GLState = GLState(
    blend: bool,
    cullFace: bool,
    depthTest: bool,
    depthFunc: DepthFunc,
    depthMask: bool,
    program: Option<nat>,             // glUseProgram's argument
    rasterizerDiscard: bool,
    framebuffer: Option<Identity>)    // id of the render target whose framebuffer is active

  /** The depth state of two snapshots agrees. */
  predicate SameDepthState(a: GLState, b: GLState)
  {
    a.depthTest == b.depthTest && a.depthFunc == b.depthFunc && a.depthMask == b.depthMask
  }

  /** The calls a pass makes into a program while setting it up for a
      draw: handing it the lights and the default material, and the number
      of lights. */
  datatype Event =
    | SetLights(glName: nat, lights: seq<DirectionalLight>, lightsLastUpdated: real, material: Material, mvp: Matrix)
    | SetNumLights(glName: nat, count: nat)
}
