/**
 * The two coordinate stages of load_skeleton.py, over exact reals:
 * `world_to_cam` applies the F-PHAB camera extrinsic `CAM_EXTR` to a
 * world point in homogeneous form and drops the fourth coordinate;
 * `cam_to_blender` turns millimetres into metres, maps the camera axes
 * (right, down, forward) onto Blender's (right, forward, up) and widens
 * the lateral axis by `SPREAD`.
 */
module Transform {

  datatype Vec3 = Vec3(x: real, y: real, z: real)

  datatype Vec4 = Vec4(x: real, y: real, z: real, w: real)

  /** A 4x4 matrix given by its rows. */
  datatype Mat4 = Mat4(r0: Vec4, r1: Vec4, r2: Vec4, r3: Vec4)

  /** A 3x3 matrix given by its rows. */
  datatype Mat3 = Mat3(r0: Vec3, r1: Vec3, r2: Vec3)

  /** World -> camera extrinsic of the F-PHAB recordings (rotation in the top-left block, translation in millimetres in the last column). */
  const CAM_EXTR: Mat4 := Mat4(
    Vec4(0.999988496304, -0.00468848412856, 0.000982563360594, 25.7),
    Vec4(0.00469115935266, 0.999985218048, -0.00273845880292, 1.22),
    Vec4(-0.000969709653873, 0.00274303671904, 0.99999576807, 3.902),
    Vec4(0.0, 0.0, 0.0, 1.0))

  /** Widening of Blender's X axis; 1.0 leaves the hand's proportions unchanged. */
  const SPREAD: real := 1.0

  /** Millimetres to metres. */
  const MM_TO_M: real := 0.001

  function Dot4(a: Vec4, b: Vec4): real
  {
    a.x * b.x + a.y * b.y + a.z * b.z + a.w * b.w
  }

  function Dot3(a: Vec3, b: Vec3): real
  {
    a.x * b.x + a.y * b.y + a.z * b.z
  }

  /** The product `m @ v` of mathutils. */
  function MulMat4(m: Mat4, v: Vec4): Vec4
  {
    Vec4(Dot4(m.r0, v), Dot4(m.r1, v), Dot4(m.r2, v), Dot4(m.r3, v))
  }

  function MulMat3(m: Mat3, v: Vec3): Vec3
  {
    Vec3(Dot3(m.r0, v), Dot3(m.r1, v), Dot3(m.r2, v))
  }

  function Add3(a: Vec3, b: Vec3): Vec3
  {
    Vec3(a.x + b.x, a.y + b.y, a.z + b.z)
  }

  function Sub3(a: Vec3, b: Vec3): Vec3
  {
    Vec3(a.x - b.x, a.y - b.y, a.z - b.z)
  }

  function Scale3(v: Vec3, k: real): Vec3
  {
    Vec3(k * v.x, k * v.y, k * v.z)
  }

  function NormSq(v: Vec3): real
  {
    Dot3(v, v)
  }

  /** The top-left 3x3 block of `m`. */
  function Rotation(m: Mat4): Mat3
  {
    Mat3(Vec3(m.r0.x, m.r0.y, m.r0.z), Vec3(m.r1.x, m.r1.y, m.r1.z), Vec3(m.r2.x, m.r2.y, m.r2.z))
  }

  /** The first three entries of the last column of `m`. */
  function Translation(m: Mat4): Vec3
  {
    Vec3(m.r0.w, m.r1.w, m.r2.w)
  }

  /** Bottom row (0, 0, 0, 1): the matrix maps points with w = 1 to points with w = 1. */
  predicate IsAffine(m: Mat4)
  {
    m.r3 == Vec4(0.0, 0.0, 0.0, 1.0)
  }

  function Homogeneous(v: Vec3): Vec4
  {
    Vec4(v.x, v.y, v.z, 1.0)
  }

  /** `m @ Vector((x, y, z, 1.0))` with the fourth coordinate dropped. */
  function ApplyHomogeneous(m: Mat4, v: Vec3): Vec3
  {
    var v4 := MulMat4(m, Homogeneous(v));
    Vec3(v4.x, v4.y, v4.z)
  }

  /** world_to_cam: the rigid motion R*v + t that `CAM_EXTR` encodes. */
  function WorldToCam(v: Vec3): (r: Vec3)
    ensures r == Add3(MulMat3(Rotation(CAM_EXTR), v), Translation(CAM_EXTR))
  {
    HomogeneousIsAffine(CAM_EXTR, v);
    ApplyHomogeneous(CAM_EXTR, v)
  }

  /** cam_to_blender with its spread factor as a parameter: scale to metres, then (spread * x, z, -y). */
  function CamToBlender(spread: real, v: Vec3): (r: Vec3)
    ensures spread != 0.0 ==> BlenderToCam(spread, r) == v
  {
    var m := Scale3(v, MM_TO_M);
    Vec3(spread * m.x, m.z, -m.y)
  }

  /** Both stages, with the configured extrinsic and spread, as `bake` applies them to every joint. */
  function ToBlender(v: Vec3): Vec3
  {
    CamToBlender(SPREAD, WorldToCam(v))
  }

  /** The inverse of `CamToBlender` for a non-zero spread. */
  function BlenderToCam(spread: real, b: Vec3): Vec3
    requires spread != 0.0
  {
    Vec3(b.x / (spread * MM_TO_M), -b.z / MM_TO_M, b.y / MM_TO_M)
  }

  /** The homogeneous product equals R*v + t, and an affine matrix keeps w at 1. */
  lemma HomogeneousIsAffine(m: Mat4, v: Vec3)
    ensures ApplyHomogeneous(m, v) == Add3(MulMat3(Rotation(m), v), Translation(m))
    ensures IsAffine(m) ==> MulMat4(m, Homogeneous(v)).w == 1.0
  {
  }

  lemma CamExtrIsAffine()
    ensures IsAffine(CAM_EXTR)
  {
  }

  /** world_to_cam is R*v + t with R and t read off CAM_EXTR; its homogeneous coordinate stays 1. */
  lemma WorldToCamFormula(v: Vec3)
    ensures MulMat4(CAM_EXTR, Homogeneous(v)).w == 1.0
    ensures WorldToCam(v) == Add3(MulMat3(Rotation(CAM_EXTR), v), Translation(CAM_EXTR))
    ensures WorldToCam(v) == Vec3(
      0.999988496304 * v.x - 0.00468848412856 * v.y + 0.000982563360594 * v.z + 25.7,
      0.00469115935266 * v.x + 0.999985218048 * v.y - 0.00273845880292 * v.z + 1.22,
      -0.000969709653873 * v.x + 0.00274303671904 * v.y + 0.99999576807 * v.z + 3.902)
  {
    HomogeneousIsAffine(CAM_EXTR, v);
  }

  /** The translation cancels between two points: differences are only rotated. */
  lemma WorldToCamDifference(a: Vec3, b: Vec3)
    ensures Sub3(WorldToCam(a), WorldToCam(b)) == MulMat3(Rotation(CAM_EXTR), Sub3(a, b))
  {
    HomogeneousIsAffine(CAM_EXTR, a);
    HomogeneousIsAffine(CAM_EXTR, b);
  }

  /** cam_to_blender(x, y, z) = (spread * 0.001 * x, 0.001 * z, -0.001 * y). */
  lemma CamToBlenderFormula(spread: real, v: Vec3)
    ensures CamToBlender(spread, v) == Vec3(spread * 0.001 * v.x, 0.001 * v.z, -0.001 * v.y)
  {
  }

  /** The spread scales Blender's X axis only. */
  lemma SpreadScalesLateralAxisOnly(spread: real, v: Vec3)
    ensures CamToBlender(spread, v) == Vec3(spread * CamToBlender(1.0, v).x, CamToBlender(1.0, v).y, CamToBlender(1.0, v).z)
  {
  }

  /** With spread 1 the stage is a uniform scale by 0.001 composed with the axis permutation (x, y, z) -> (x, z, -y), so lengths scale by 0.001. */
  lemma UnitSpreadIsScaledAxisSwap(v: Vec3)
    ensures CamToBlender(1.0, v) == Scale3(Vec3(v.x, v.z, -v.y), 0.001)
    ensures NormSq(CamToBlender(1.0, v)) == 0.000001 * NormSq(v)
  {
  }

  /** BlenderToCam undoes CamToBlender, and conversely. */
  lemma CamToBlenderRoundTrip(spread: real, v: Vec3, b: Vec3)
    requires spread != 0.0
    ensures BlenderToCam(spread, CamToBlender(spread, v)) == v
    ensures CamToBlender(spread, BlenderToCam(spread, b)) == b
  {
  }

  /** The composed transform of one joint, component by component. */
  lemma ToBlenderFormula(v: Vec3)
    ensures var c := WorldToCam(v);
            ToBlender(v) == Vec3(0.001 * c.x, 0.001 * c.z, -0.001 * c.y)
  {
  }
}
