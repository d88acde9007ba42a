/// The CPU ray-march prototype of src/cpu.c: one translated sphere, a march
/// loop with a fixed step bound, and a shading step that decodes a packed
/// 64-bit material word.  Floats are modelled as reals; the square root is a
/// parameter as in SdfOps.
module CpuMarch {
  import opened SdfOps

  const MaxDistance: real := 100.0
  const Epsilon: real := 0.001

  /// The material type tag for an emitter.
  const Light: bv64 := 1

  /// The material the single scene object carries.
  const SceneMaterial: bv64 := 0x103A_9F40_0000_0000

  /// The translation applied to the scene's sphere.
  const SceneOffset: Vec3 := Vec3(0.0, 0.0, 5.0)

  /// A distance bound as sdf receives it: finite, or INFINITY.
  datatype Bound = Finite(v: real) | Infinity

  predicate Below(d: real, t: Bound)
  {
    t.Infinity? || d < t.v
  }

  /// sdTranslate(t, p) = p + t: the opposite sign to op_translate.
  function SdTranslate(t: Vec3, p: Vec3): (r: Vec3)
    ensures r == OpTranslate(p, Neg(t))
    ensures OpTranslate(r, t) == p
  {
    Add(p, t)
  }

  /// sdSphere(p, r) = sqrt(px^2 + py^2 + pz^2) - r.
  function SdSphere(p: Vec3, r: real, sqrt: real -> real): (d: real)
    ensures d == Sphere(p, r, sqrt)
  {
    assert Dot2Of3(p) == p.x * p.x + p.y * p.y + p.z * p.z;
    sqrt(p.x * p.x + p.y * p.y + p.z * p.z) - r
  }

  /// The distance from p to the scene: the unit sphere moved by SceneOffset.
  function SceneDistance(p: Vec3, sqrt: real -> real): real
  {
    SdSphere(SdTranslate(SceneOffset, p), 1.0, sqrt)
  }

  /// sdf(p, t, m): lower *t to the scene distance and set *m when that
  /// distance is strictly below the incoming *t; otherwise leave both.
  method Sdf(p: Vec3, t: Bound, m: bv64, sqrt: real -> real) returns (t': Bound, m': bv64)
    ensures Below(SceneDistance(p, sqrt), t) ==> t' == Finite(SceneDistance(p, sqrt)) && m' == SceneMaterial
    ensures !Below(SceneDistance(p, sqrt), t) ==> t' == t && m' == m
    ensures t'.Finite? ==> Below(t'.v, t) || t' == t
  {
    var tt := SdSphere(SdTranslate(SceneOffset, p), 1.0, sqrt);
    t', m' := t, m;
    if Below(tt, t) {
      t', m' := Finite(tt), SceneMaterial;
    }
  }

  /// The point o + t*d on the ray.
  function At(o: Vec3, d: Vec3, t: real): Vec3
  {
    Vec3(o.x + t * d.x, o.y + t * d.y, o.z + t * d.z)
  }

  /// How many EPSILON-steps remain before t reaches MAX_DISTANCE.
  function Budget(t: real): nat
  {
    if t < MaxDistance then ((MaxDistance - t) / Epsilon).Floor + 1 else 0
  }

  /// Every step of at least EPSILON from below MAX_DISTANCE uses up budget.
  lemma BudgetDecreases(t: real, step: real)
    requires t < MaxDistance && Epsilon <= step
    ensures Budget(t + step) < Budget(t)
  {
    if t + step < MaxDistance {
      var x := (MaxDistance - t) / Epsilon;
      var y := (MaxDistance - (t + step)) / Epsilon;
      assert y <= x - 1.0;
      assert y.Floor <= (x - 1.0).Floor;
      assert (x - 1.0).Floor == x.Floor - 1;
    }
  }

  /// The result of ray_march from t with material m: the loop keeps
  /// stepping by the scene distance until t reaches MAX_DISTANCE or a step
  /// falls below EPSILON (that last step is still added).
  function March(o: Vec3, d: Vec3, t: real, m: bv64, sqrt: real -> real): (real, bv64)
    decreases Budget(t)
  {
    if t < MaxDistance then
      var step := SceneDistance(At(o, d, t), sqrt);
      if step < Epsilon then (t + step, SceneMaterial)
      else
        BudgetDecreases(t, step);
        March(o, d, t + step, SceneMaterial, sqrt)
    else
      (t, m)
  }

  /// ray_march(o, d, t, m) as the loop of src/cpu.c.
  method RayMarch(o: Vec3, d: Vec3, t0: real, m0: bv64, sqrt: real -> real) returns (t: real, m: bv64)
    ensures (t, m) == March(o, d, t0, m0, sqrt)
  {
    t, m := t0, m0;
    while t < MaxDistance
      invariant March(o, d, t, m, sqrt) == March(o, d, t0, m0, sqrt)
      decreases Budget(t)
    {
      var stepT: Bound := Infinity;
      var p := At(o, d, t);
      stepT, m := Sdf(p, stepT, m, sqrt);
      var step := stepT.v;
      t := t + step;
      if step < Epsilon {
        break;
      }
      BudgetDecreases(t - step, step);
    }
  }

  /// A march that starts at or beyond MAX_DISTANCE changes nothing.
  lemma MarchFromFar(o: Vec3, d: Vec3, t: real, m: bv64, sqrt: real -> real)
    requires MaxDistance <= t
    ensures March(o, d, t, m, sqrt) == (t, m)
  {
  }

  /// When the march ends, either t has reached MAX_DISTANCE, or it ended
  /// with a step below EPSILON taken from some t0 below MAX_DISTANCE, after
  /// which the material is the scene's.
  lemma {:induction false} MarchExit(o: Vec3, d: Vec3, t: real, m: bv64, sqrt: real -> real)
    requires t < MaxDistance
    ensures var (t', m') := March(o, d, t, m, sqrt);
      MaxDistance <= t' ||
      (m' == SceneMaterial &&
       exists t0 :: t <= t0 < MaxDistance && SceneDistance(At(o, d, t0), sqrt) < Epsilon &&
                    t' == t0 + SceneDistance(At(o, d, t0), sqrt))
    ensures March(o, d, t, m, sqrt).1 == SceneMaterial
    decreases Budget(t)
  {
    var step := SceneDistance(At(o, d, t), sqrt);
    if step < Epsilon {
      assert t <= t < MaxDistance && SceneDistance(At(o, d, t), sqrt) < Epsilon;
    } else {
      BudgetDecreases(t, step);
      if t + step < MaxDistance {
        MarchExit(o, d, t + step, SceneMaterial, sqrt);
      }
    }
  }

  /// The material type: bits 60..63.
  function MatType(m: bv64): bv64 { (m >> 60) & 0xF }
  /// The red byte: bits 52..59.
  function Red(m: bv64): bv64 { (m >> 52) & 0xFF }
  /// The green byte: bits 44..51.
  function Green(m: bv64): bv64 { (m >> 44) & 0xFF }
  /// The blue byte: bits 36..43.
  function Blue(m: bv64): bv64 { (m >> 36) & 0xFF }

  /// Packs a type nibble and three colour bytes in the layout path_trace reads.
  function PackMaterial(kind: bv64, r: bv64, g: bv64, b: bv64): bv64
  {
    ((kind & 0xF) << 60) | ((r & 0xFF) << 52) | ((g & 0xFF) << 44) | ((b & 0xFF) << 36)
  }

  /// Decoding a packed word gives back each field.
  lemma DecodePack(kind: bv64, r: bv64, g: bv64, b: bv64)
    requires kind < 16 && r < 256 && g < 256 && b < 256
    ensures MatType(PackMaterial(kind, r, g, b)) == kind
    ensures Red(PackMaterial(kind, r, g, b)) == r
    ensures Green(PackMaterial(kind, r, g, b)) == g
    ensures Blue(PackMaterial(kind, r, g, b)) == b
  {
  }

  /// The scene material is a LIGHT with colour bytes (0x03, 0xA9, 0xF4).
  lemma SceneMaterialFields()
    ensures SceneMaterial == PackMaterial(Light, 0x03, 0xA9, 0xF4)
    ensures MatType(SceneMaterial) == Light
    ensures Red(SceneMaterial) == 0x03 && Green(SceneMaterial) == 0xA9 && Blue(SceneMaterial) == 0xF4
  {
  }

  /// A colour byte as a fraction of 255.
  function Channel(byte: bv64): real
  {
    (byte as int) as real / 255.0
  }

  const SkyColor: seq<real> := [0.0, 0.0, 0.0]

  /// The colour path_trace adds for a march ending at t with material m.
  function Shade(t: real, m: bv64): (c: seq<real>)
    ensures |c| == 3
    ensures MaxDistance <= t ==> c == SkyColor
    ensures t < MaxDistance && MatType(m) != Light ==> c == [0.0, 0.0, 0.0]
    ensures forall i :: 0 <= i < 3 ==> 0.0 <= c[i] <= 1.0
  {
    if t < MaxDistance then
      if MatType(m) == Light then [Channel(Red(m)), Channel(Green(m)), Channel(Blue(m))]
      else [0.0, 0.0, 0.0]
    else SkyColor
  }

  /// path_trace(o, d, c): march from t = 0 with m = 0, then accumulate the
  /// emitted colour on a LIGHT hit, or the sky colour on a miss.
  method PathTrace(o: Vec3, d: Vec3, c: array<real>, sqrt: real -> real)
    requires c.Length == 3
    modifies c
    ensures var (t, m) := March(o, d, 0.0, 0, sqrt);
      forall i :: 0 <= i < 3 ==> c[i] == old(c[i]) + Shade(t, m)[i]
  {
    var t, m := RayMarch(o, d, 0.0, 0, sqrt);
    if t < MaxDistance {
      var matType := MatType(m);
      if matType == Light {
        c[0] := c[0] + Channel(Red(m));
        c[1] := c[1] + Channel(Green(m));
        c[2] := c[2] + Channel(Blue(m));
      }
    } else {
      c[0] := c[0] + SkyColor[0];
      c[1] := c[1] + SkyColor[1];
      c[2] := c[2] + SkyColor[2];
    }
  }

  /// Every hit is the scene's sphere, so path_trace adds exactly its colour;
  /// a miss leaves c numerically unchanged.
  lemma PathTraceColour(o: Vec3, d: Vec3, sqrt: real -> real)
    ensures var (t, m) := March(o, d, 0.0, 0, sqrt);
      (t < MaxDistance ==> Shade(t, m) == [Channel(0x03), Channel(0xA9), Channel(0xF4)]) &&
      (MaxDistance <= t ==> Shade(t, m) == [0.0, 0.0, 0.0])
  {
    MarchExit(o, d, 0.0, 0, sqrt);
    SceneMaterialFields();
  }
}
