/**
  The pose records of the stick figure and their fixed flat layouts: the
  four-angle limb record, the 22-number joint-space pose, the 6 x 3
  Cartesian pose, and the table of limb length ratios.
 */
module StickConfig {

  /** A 3D position `[x, y, z]`. */
  datatype Vec3 = Vec3(x: real, y: real, z: real)
  {
    function ToSeq(): (s: seq<real>)
      ensures |s| == 3
    {
      [x, y, z]
    }
  }

  /** The three leading numbers of `a` as a position. */
  function Vec3Of(a: seq<real>): (v: Vec3)
    requires |a| >= 3
    ensures v.ToSeq() == a[..3]
  {
    Vec3(a[0], a[1], a[2])
  }

  /** Limb length ratios `(a1, a2)` as fractions of the screen size. */
  const LimbLengthRatios: map<string, (real, real)> := map[
    "left_arm" := (0.14, 0.12),
    "right_arm" := (0.14, 0.12),
    "left_leg" := (0.15, 0.14),
    "right_leg" := (0.15, 0.14)]

  /**
    The ratio table holds exactly the four limbs, the left and right limb
    of a pair are equal and every ratio is positive.
   */
  lemma LimbLengthRatiosShape()
    ensures LimbLengthRatios.Keys == {"left_arm", "right_arm", "left_leg", "right_leg"}
    ensures |LimbLengthRatios| == 4
    ensures LimbLengthRatios["left_arm"] == LimbLengthRatios["right_arm"] == (0.14, 0.12)
    ensures LimbLengthRatios["left_leg"] == LimbLengthRatios["right_leg"] == (0.15, 0.14)
    ensures forall k :: k in LimbLengthRatios ==> LimbLengthRatios[k].0 > 0.0 && LimbLengthRatios[k].1 > 0.0
  {
    var keys := {"left_arm", "right_arm", "left_leg", "right_leg"};
    assert LimbLengthRatios.Keys == keys;
    assert |keys| == 4 by {
      assert keys == {"left_arm"} + {"right_arm"} + {"left_leg"} + {"right_leg"};
    }
  }

  /** The joint angles of one limb (hip names also serve the arms). */
  datatype JointLimbConfig = JointLimbConfig(hipYaw: real, hipPitch: real, hipRoll: real, kneePitch: real)
  {
    /** `to_numpy`: `[hip_yaw, hip_pitch, hip_roll, knee_pitch]`. */
    function ToNumpy(): (a: seq<real>)
      ensures |a| == 4
    {
      [hipYaw, hipPitch, hipRoll, kneePitch]
    }
  }

  /** `JointLimbConfig.from_numpy`: reads the first four numbers. */
  function LimbFromNumpy(a: seq<real>): JointLimbConfig
    requires |a| >= 4
  {
    JointLimbConfig(a[0], a[1], a[2], a[3])
  }

  /** Limb round trips, with the order yaw, pitch, roll, knee. */
  lemma LimbRoundTrip(c: JointLimbConfig, a: seq<real>)
    ensures LimbFromNumpy(c.ToNumpy()) == c
    ensures c.ToNumpy()[0] == c.hipYaw && c.ToNumpy()[1] == c.hipPitch
         && c.ToNumpy()[2] == c.hipRoll && c.ToNumpy()[3] == c.kneePitch
    ensures |a| == 4 ==> LimbFromNumpy(a).ToNumpy() == a
  {
  }

  /** A pose in joint space: torso positions and the four limbs' angles. */
  datatype JointStickConfig = JointStickConfig(
    shoulder: Vec3, pelvis: Vec3,
    leftArm: JointLimbConfig, rightArm: JointLimbConfig,
    leftLeg: JointLimbConfig, rightLeg: JointLimbConfig)
  {
    /** `to_numpy`: the 22 numbers in the fixed layout. */
    function ToNumpy(): (a: seq<real>)
      ensures |a| == 22
      ensures a[0..3] == shoulder.ToSeq() && a[3..6] == pelvis.ToSeq()
      ensures a[6..10] == leftArm.ToNumpy() && a[10..14] == rightArm.ToNumpy()
      ensures a[14..18] == leftLeg.ToNumpy() && a[18..22] == rightLeg.ToNumpy()
    {
      var torso := shoulder.ToSeq() + pelvis.ToSeq();
      var arms := leftArm.ToNumpy() + rightArm.ToNumpy();
      var legs := leftLeg.ToNumpy() + rightLeg.ToNumpy();
      assert (torso + arms + legs)[14..22] == legs;
      assert legs[..4] == leftLeg.ToNumpy() && legs[4..] == rightLeg.ToNumpy();
      torso + arms + legs
    }
  }

  /** `JointStickConfig.from_numpy`: slices `[0:3]`, `[3:6]`, `[6:10]`, ... `[18:22]`. */
  function JointFromNumpy(a: seq<real>): JointStickConfig
    requires |a| >= 22
  {
    JointStickConfig(
      Vec3Of(a[0..3]), Vec3Of(a[3..6]),
      LimbFromNumpy(a[6..10]), LimbFromNumpy(a[10..14]),
      LimbFromNumpy(a[14..18]), LimbFromNumpy(a[18..22]))
  }

  /** The joint layout is a bijection between poses and 22-number arrays. */
  lemma {:induction false} JointRoundTrip(c: JointStickConfig, a: seq<real>)
    ensures JointFromNumpy(c.ToNumpy()) == c
    ensures |a| == 22 ==> JointFromNumpy(a).ToNumpy() == a
  {
    var n := c.ToNumpy();
    LimbRoundTrip(c.leftArm, n[6..10]);
    LimbRoundTrip(c.rightArm, n[10..14]);
    LimbRoundTrip(c.leftLeg, n[14..18]);
    LimbRoundTrip(c.rightLeg, n[18..22]);
    if |a| == 22 {
      var r := JointFromNumpy(a).ToNumpy();
      assert r[0..3] == a[0..3] && r[3..6] == a[3..6];
      assert r[6..10] == a[6..10] && r[10..14] == a[10..14];
      assert r[14..18] == a[14..18] && r[18..22] == a[18..22];
      assert forall i | 0 <= i < 22 :: r[i] == a[i] by {
        forall i | 0 <= i < 22 ensures r[i] == a[i] {
          if i < 3 { assert r[i] == r[0..3][i]; }
          else if i < 6 { assert r[i] == r[3..6][i - 3] && a[i] == a[3..6][i - 3]; }
          else if i < 10 { assert r[i] == r[6..10][i - 6] && a[i] == a[6..10][i - 6]; }
          else if i < 14 { assert r[i] == r[10..14][i - 10] && a[i] == a[10..14][i - 10]; }
          else if i < 18 { assert r[i] == r[14..18][i - 14] && a[i] == a[14..18][i - 14]; }
          else { assert r[i] == r[18..22][i - 18] && a[i] == a[18..22][i - 18]; }
        }
      }
    }
  }

  /** A pose in Cartesian space: the six tracked points. */
  datatype CartesianStickConfig = CartesianStickConfig(
    shoulder: Vec3, pelvis: Vec3,
    handLeft: Vec3, handRight: Vec3,
    footLeft: Vec3, footRight: Vec3)
  {
    /** `to_numpy`: six rows of three, in the fixed point order. */
    function ToNumpy(): (rows: seq<seq<real>>)
      ensures |rows| == 6 && forall i :: 0 <= i < 6 ==> |rows[i]| == 3
      ensures rows[0] == shoulder.ToSeq() && rows[1] == pelvis.ToSeq()
      ensures rows[2] == handLeft.ToSeq() && rows[3] == handRight.ToSeq()
      ensures rows[4] == footLeft.ToSeq() && rows[5] == footRight.ToSeq()
    {
      [shoulder.ToSeq(), pelvis.ToSeq(), handLeft.ToSeq(), handRight.ToSeq(),
       footLeft.ToSeq(), footRight.ToSeq()]
    }
  }

  /** Rows that have the shape `(6, 3)` in their first six entries. */
  predicate PoseRows(rows: seq<seq<real>>)
  {
    |rows| >= 6 && forall i :: 0 <= i < 6 ==> |rows[i]| == 3
  }

  /** `CartesianStickConfig.from_numpy`: row i becomes the i-th point. */
  function CartesianFromNumpy(rows: seq<seq<real>>): CartesianStickConfig
    requires PoseRows(rows)
  {
    CartesianStickConfig(
      Vec3Of(rows[0]), Vec3Of(rows[1]), Vec3Of(rows[2]),
      Vec3Of(rows[3]), Vec3Of(rows[4]), Vec3Of(rows[5]))
  }

  /** The Cartesian layout is a bijection between poses and 6 x 3 arrays. */
  lemma CartesianRoundTrip(c: CartesianStickConfig, rows: seq<seq<real>>)
    ensures CartesianFromNumpy(c.ToNumpy()) == c
    ensures PoseRows(rows) && |rows| == 6 ==> CartesianFromNumpy(rows).ToNumpy() == rows
  {
    if PoseRows(rows) && |rows| == 6 {
      var r := CartesianFromNumpy(rows).ToNumpy();
      forall i | 0 <= i < 6 ensures r[i] == rows[i] {
        assert rows[i][..3] == rows[i];
      }
    }
  }
}
