/**
 Euler angles to quaternions (src/robot_dh/lake/hf_adapters.py, lines 140-159, 690-710),
 over the reals. Cosine and sine are parameters; all that is used of them is that their
 squares add up to one.
 */
module Quaternion {
  import opened Wrappers

  datatype Quat = Quat(x: real, y: real, z: real, w: real)

  function SumOfSquares(x: real, y: real, z: real, w: real): real { x * x + y * y + z * z + w * w }

  function Mul(a: real, b: real): real { a * b }

  function Norm2(q: Quat): real { SumOfSquares(q.x, q.y, q.z, q.w) }

  /** The Hamilton product. */
  function Times(a: Quat, b: Quat): Quat {
    Quat(a.w * b.x + a.x * b.w + a.y * b.z - a.z * b.y,
         a.w * b.y - a.x * b.z + a.y * b.w + a.z * b.x,
         a.w * b.z + a.x * b.y - a.y * b.x + a.z * b.w,
         a.w * b.w - a.x * b.x - a.y * b.y - a.z * b.z)
  }

  function Roll(c: real, s: real): Quat { Quat(s, 0.0, 0.0, c) }

  function Pitch(c: real, s: real): Quat { Quat(0.0, s, 0.0, c) }

  function Yaw(c: real, s: real): Quat { Quat(0.0, 0.0, s, c) }

  /** The closed form the source evaluates, from the half-angle cosines and sines. */
  function EulerToQuaternion(cr: real, sr: real, cp: real, sp: real, cy: real, sy: real): Quat {
    Quat(sr * cp * cy - cr * sp * sy,
         cr * sp * cy + sr * cp * sy,
         cr * cp * sy - sr * sp * cy,
         cr * cp * cy + sr * sp * sy)
  }

  /** The closed form is yaw after pitch after roll: the product of the axis rotations. */
  lemma IsAxisProduct(cr: real, sr: real, cp: real, sp: real, cy: real, sy: real)
    ensures EulerToQuaternion(cr, sr, cp, sp, cy, sy) == Times(Yaw(cy, sy), Times(Pitch(cp, sp), Roll(cr, sr)))
  {
    assert Times(Pitch(cp, sp), Roll(cr, sr)) == Quat(cp * sr, sp * cr, -(sp * sr), cp * cr);
  }

  /** Hamilton's rules for multiplying by i, j, k and one: i i = -1, i j = k, i k = -j and
      so on round the circle. */
  lemma HamiltonRules(b: Quat)
    ensures Times(Quat(1.0, 0.0, 0.0, 0.0), b) == Quat(b.w, -b.z, b.y, -b.x)
    ensures Times(Quat(0.0, 1.0, 0.0, 0.0), b) == Quat(b.z, b.w, -b.x, -b.y)
    ensures Times(Quat(0.0, 0.0, 1.0, 0.0), b) == Quat(-b.y, b.x, b.w, -b.z)
    ensures Times(Quat(0.0, 0.0, 0.0, 1.0), b) == b
  {}

  function Sum(a: Quat, b: Quat): Quat { Quat(a.x + b.x, a.y + b.y, a.z + b.z, a.w + b.w) }

  /** The product distributes over sums. */
  lemma TimesDistributes(a: Quat, b: Quat, c: Quat)
    ensures Times(Sum(a, b), c) == Sum(Times(a, c), Times(b, c))
  {
    DistributesOver(a, b, c.x);
    DistributesOver(a, b, c.y);
    DistributesOver(a, b, c.z);
    DistributesOver(a, b, c.w);
  }

  lemma DistributesOver(a: Quat, b: Quat, r: real)
    ensures (a.x + b.x) * r == a.x * r + b.x * r && (a.y + b.y) * r == a.y * r + b.y * r
    ensures (a.z + b.z) * r == a.z * r + b.z * r && (a.w + b.w) * r == a.w * r + b.w * r
  {}

  function Scale(r: real, a: Quat): Quat { Quat(Mul(r, a.x), Mul(r, a.y), Mul(r, a.z), Mul(r, a.w)) }

  lemma MulMul(r: real, a: real, b: real)
    ensures Mul(r, a) * b == Mul(r, a * b)
  {}

  lemma MulSum(r: real, a: real, b: real, c: real, d: real)
    ensures Mul(r, a) + Mul(r, b) + Mul(r, c) - Mul(r, d) == Mul(r, a + b + c - d)
  {}

  /** And scaling the left factor scales the product. */
  lemma TimesScales(r: real, a: Quat, c: Quat)
    ensures Times(Scale(r, a), c) == Scale(r, Times(a, c))
  {
    ScalesX(r, a, c);
    ScalesY(r, a, c);
    ScalesZ(r, a, c);
    ScalesW(r, a, c);
  }

  lemma ScalesX(r: real, a: Quat, c: Quat)
    ensures Times(Scale(r, a), c).x == Mul(r, Times(a, c).x)
  {
    MulMul(r, a.w, c.x);
    MulMul(r, a.x, c.w);
    MulMul(r, a.y, c.z);
    MulMul(r, a.z, c.y);
    MulSum(r, a.w * c.x, a.x * c.w, a.y * c.z, a.z * c.y);
  }

  lemma ScalesY(r: real, a: Quat, c: Quat)
    ensures Times(Scale(r, a), c).y == Mul(r, Times(a, c).y)
  {
    MulMul(r, a.w, c.y);
    MulMul(r, a.x, c.z);
    MulMul(r, a.y, c.w);
    MulMul(r, a.z, c.x);
    MulSum(r, a.w * c.y, a.y * c.w, a.z * c.x, a.x * c.z);
  }

  lemma ScalesZ(r: real, a: Quat, c: Quat)
    ensures Times(Scale(r, a), c).z == Mul(r, Times(a, c).z)
  {
    MulMul(r, a.w, c.z);
    MulMul(r, a.x, c.y);
    MulMul(r, a.y, c.x);
    MulMul(r, a.z, c.w);
    MulSum(r, a.w * c.z, a.x * c.y, a.z * c.w, a.y * c.x);
  }

  lemma ScalesW(r: real, a: Quat, c: Quat)
    ensures Times(Scale(r, a), c).w == Mul(r, Times(a, c).w)
  {
    MulMul(r, a.w, c.w);
    MulMul(r, a.x, c.x);
    MulMul(r, a.y, c.y);
    MulMul(r, a.z, c.z);
    MulSum(r, a.w * c.w, -(a.x * c.x), -(a.y * c.y), a.z * c.z);
  }

  /** The norm of a product is the product of the norms. */
  lemma NormTimes(a: Quat, b: Quat)
    ensures Norm2(Times(a, b)) == Mul(Norm2(a), Norm2(b))
  {
    FourSquares(a.x, a.y, a.z, a.w, b.x, b.y, b.z, b.w);
  }

  /** Euler's four-square identity. */
  lemma FourSquares(x: real, y: real, z: real, w: real, e: real, f: real, g: real, h: real)
    ensures
      var i := w * e + x * h + y * g - z * f;
      var j := w * f - x * g + y * h + z * e;
      var k := w * g + x * f - y * e + z * h;
      var l := w * h - x * e - y * f - z * g;
      SumOfSquares(i, j, k, l) == Mul(SumOfSquares(x, y, z, w), SumOfSquares(e, f, g, h))
  {}

  /** Every angle triple gives a unit quaternion. */
  lemma UnitNorm(cr: real, sr: real, cp: real, sp: real, cy: real, sy: real)
    requires cr * cr + sr * sr == 1.0 && cp * cp + sp * sp == 1.0 && cy * cy + sy * sy == 1.0
    ensures Norm2(EulerToQuaternion(cr, sr, cp, sp, cy, sy)) == 1.0
  {
    IsAxisProduct(cr, sr, cp, sp, cy, sy);
    var inner := Times(Pitch(cp, sp), Roll(cr, sr));
    NormTimes(Pitch(cp, sp), Roll(cr, sr));
    NormTimes(Yaw(cy, sy), inner);
    assert Norm2(Roll(cr, sr)) == 1.0 && Norm2(Pitch(cp, sp)) == 1.0 && Norm2(Yaw(cy, sy)) == 1.0;
  }

  // ---------- pose rows ----------

  datatype Pose = Pose(x: real, y: real, z: real, rotation: Quat)

  /** Any pair of functions on the unit circle may play cosine and sine. */
  ghost predicate OnCircle(cos: real -> real, sin: real -> real) {
    forall t :: cos(t) * cos(t) + sin(t) * sin(t) == 1.0
  }

  /** One row (x, y, z, roll, pitch, yaw, ...) as position and quaternion. */
  function PoseOf(cos: real -> real, sin: real -> real, row: seq<real>): Pose
    requires |row| >= 6
  {
    var (hr, hp, hy) := (0.5 * row[3], 0.5 * row[4], 0.5 * row[5]);
    Pose(row[0], row[1], row[2], EulerToQuaternion(cos(hr), sin(hr), cos(hp), sin(hp), cos(hy), sin(hy)))
  }

  /** _bridge_state_to_pose: rows narrower than six columns are refused. */
  function StateToPoses(cos: real -> real, sin: real -> real, width: nat, rows: seq<seq<real>>): Result<seq<Pose>>
    requires forall i :: 0 <= i < |rows| ==> |rows[i]| == width
  {
    if width < 6 then Err
    else Ok(seq(|rows|, i requires 0 <= i < |rows| => PoseOf(cos, sin, rows[i])))
  }

  /** Every emitted row keeps its position and carries a unit rotation. */
  lemma PosesAreUnit(cos: real -> real, sin: real -> real, width: nat, rows: seq<seq<real>>)
    requires OnCircle(cos, sin) && forall i :: 0 <= i < |rows| ==> |rows[i]| == width
    ensures match StateToPoses(cos, sin, width, rows)
      case Err => width < 6
      case Ok(poses) =>
        |poses| == |rows| && width >= 6 &&
        forall i :: 0 <= i < |poses| ==>
          Norm2(poses[i].rotation) == 1.0 &&
          poses[i].rotation ==
            Times(Yaw(cos(0.5 * rows[i][5]), sin(0.5 * rows[i][5])),
                  Times(Pitch(cos(0.5 * rows[i][4]), sin(0.5 * rows[i][4])),
                        Roll(cos(0.5 * rows[i][3]), sin(0.5 * rows[i][3])))) &&
          (poses[i].x, poses[i].y, poses[i].z) == (rows[i][0], rows[i][1], rows[i][2])
  {
    if width >= 6 {
      forall i | 0 <= i < |rows|
        ensures Norm2(PoseOf(cos, sin, rows[i]).rotation) == 1.0
        ensures PoseOf(cos, sin, rows[i]).rotation ==
          Times(Yaw(cos(0.5 * rows[i][5]), sin(0.5 * rows[i][5])),
                Times(Pitch(cos(0.5 * rows[i][4]), sin(0.5 * rows[i][4])),
                      Roll(cos(0.5 * rows[i][3]), sin(0.5 * rows[i][3]))))
      {
        var (hr, hp, hy) := (0.5 * rows[i][3], 0.5 * rows[i][4], 0.5 * rows[i][5]);
        UnitNorm(cos(hr), sin(hr), cos(hp), sin(hp), cos(hy), sin(hy));
        IsAxisProduct(cos(hr), sin(hr), cos(hp), sin(hp), cos(hy), sin(hy));
      }
    }
  }
}
