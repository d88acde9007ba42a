/// The scene description records of src/scene.hpp: node and material kinds,
/// the `Sdf` and `Mat` records with their constructors, and the defaults of
/// the image and renderer settings.  Handles are indices into the scene's
/// arenas, with SIZE_MAX meaning "no handle".
module Scene {
  import opened SdfOps

  /// SIZE_MAX on a 64-bit target: the "no handle" sentinel.
  const NoHandle: nat := 0xFFFF_FFFF_FFFF_FFFF

  datatype SdfType = Sphere | Translate | Union
  datatype MatType = None | Emission | Diffuse | Glass | Glossy

  datatype Vec4 = Vec4(x: real, y: real, z: real, w: real)

  datatype Mat = Mat(kind: MatType, color: Vec3, args: Vec2)

  datatype Sdf = Sdf(kind: SdfType, args: Vec4, mat: nat, a: nat, b: nat)

  /// Mat(type, color, float2 args).
  function MatOf2(kind: MatType, color: Vec3, args: Vec2): (r: Mat)
    ensures r.kind == kind && r.color == color && r.args == args
  {
    Mat(kind, color, args)
  }

  /// Mat(type, color, float s): the arguments are (s, 0).
  function MatOfScalar(kind: MatType, color: Vec3, s: real): (r: Mat)
    ensures r.kind == kind && r.color == color
    ensures r.args.x == s && r.args.y == 0.0
  {
    Mat(kind, color, Vec2(s, 0.0))
  }

  /// Whether a record carries no material and no children yet.
  predicate Unlinked(n: Sdf)
  {
    n.mat == NoHandle && n.a == NoHandle && n.b == NoHandle
  }

  /// Sdf(type, float4 args).
  function SdfOf4(kind: SdfType, args: Vec4): (r: Sdf)
    ensures r.kind == kind && r.args == args && Unlinked(r)
  {
    Sdf(kind, args, NoHandle, NoHandle, NoHandle)
  }

  /// Sdf(type, a1, a2, a3, a4), where the C++ defaults omitted arguments to 0.
  function SdfOfScalars(kind: SdfType, a1: real, a2: real, a3: real, a4: real): (r: Sdf)
    ensures r.kind == kind && r.args == Vec4(a1, a2, a3, a4) && Unlinked(r)
  {
    Sdf(kind, Vec4(a1, a2, a3, a4), NoHandle, NoHandle, NoHandle)
  }

  /// Sdf(type, float3 args): the fourth argument is 0.
  function SdfOf3(kind: SdfType, args: Vec3): (r: Sdf)
    ensures r.kind == kind && Unlinked(r)
    ensures r.args == Vec4(args.x, args.y, args.z, 0.0)
  {
    Sdf(kind, Vec4(args.x, args.y, args.z, 0.0), NoHandle, NoHandle, NoHandle)
  }

  /// Sdf(type, float2 args): the third and fourth arguments are 0.
  function SdfOf2(kind: SdfType, args: Vec2): (r: Sdf)
    ensures r.kind == kind && Unlinked(r)
    ensures r.args == Vec4(args.x, args.y, 0.0, 0.0)
  {
    Sdf(kind, Vec4(args.x, args.y, 0.0, 0.0), NoHandle, NoHandle, NoHandle)
  }

  /// The three scalar forms agree on how they pad.
  lemma ConstructorsPadWithZero(kind: SdfType, v: Vec3, u: Vec2)
    ensures SdfOf3(kind, v) == SdfOfScalars(kind, v.x, v.y, v.z, 0.0)
    ensures SdfOf2(kind, u) == SdfOfScalars(kind, u.x, u.y, 0.0, 0.0)
    ensures SdfOfScalars(kind, 0.0, 0.0, 0.0, 0.0) == SdfOf4(kind, Vec4(0.0, 0.0, 0.0, 0.0))
  {
  }

  datatype ImageSpec = ImageSpec(path: string, width: nat, height: nat, tile: nat)
  datatype RendererSpec = RendererSpec(spp: nat)

  /// The default image settings: output.png, 1920 x 1080, tiles of 32.
  const DefaultImage: ImageSpec := ImageSpec("output.png", 1920, 1080, 32)

  /// The default renderer settings: 64 samples per pixel.
  const DefaultRenderer: RendererSpec := RendererSpec(64)
}
