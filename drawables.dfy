/** The records the frame composer works on: drawables as the renderer sees
    them during one frame, the containers of the draw list, shading programs,
    lights and materials. */
module Drawables {
  import opened Matrices

  datatype Option<T> = None | Some(value: T)

  /** SimpleIdentity: an unsigned id; 0 is EmptyIdentity. */
  type Identity = nat

  const EmptyIdentity: Identity := 0

  /** What the renderer reads from a drawable. `hasAlpha` is the answer the
      drawable gives for this frame's frame info. */
  datatype Drawable = Drawable(
    id: Identity,
    drawPriority: int,
    hasAlpha: bool,
    requestZBuffer: bool,
    writeZBuffer: bool,
    program: Identity,
    calculationProgram: Identity,
    renderTarget: Identity,
    localMatrix: Option<Matrix>)

  /** DrawableContainer: a drawable and the matrices to draw it with. */
  datatype DrawableContainer = DrawableContainer(
    drawable: Drawable,
    mvpMat: Matrix,
    mvMat: Matrix,
    mvNormalMat: Matrix)

  /** A shading program as the scene's program table returns it. */
  datatype Program = Program(glName: nat, hasLights: bool)

  datatype Vector3 = Vector3(x: real, y: real, z: real)
  datatype Vector4 = Vector4(x: real, y: real, z: real, w: real)

  datatype DirectionalLight = DirectionalLight(
    pos: Vector3,
    viewDependent: bool,
    ambient: Vector4,
    diffuse: Vector4,
    specular: Vector4)

  datatype Material = Material(
    ambient: Vector4,
    diffuse: Vector4,
    specular: Vector4,
    specularExponent: real)

  /** RGBAColor: four 8-bit channels. */
  type Channel = c: nat | c < 256

  datatype RGBAColor = RGBAColor(r: Channel, g: Channel, b: Channel, a: Channel)

  /** RGBAColor::asUnitFloats: each channel divided by 255 (float rounding not modelled). */
  function AsUnitFloats(c: RGBAColor): (v: Vector4)
    ensures 0.0 <= v.x <= 1.0 && 0.0 <= v.y <= 1.0 && 0.0 <= v.z <= 1.0 && 0.0 <= v.w <= 1.0
    ensures v.x * 255.0 == c.r as real && v.y * 255.0 == c.g as real
    ensures v.z * 255.0 == c.b as real && v.w * 255.0 == c.a as real
  {
    Vector4(c.r as real / 255.0, c.g as real / 255.0, c.b as real / 255.0, c.a as real / 255.0)
  }
}
