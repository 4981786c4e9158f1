/**
 * Geometric feature extraction over one pose: the three-point joint angle,
 * the two facing-direction heuristics, the synthetic neck point and the
 * metrics built from them.  Every extractor degrades to a fixed fallback
 * when a keypoint it needs is missing.
 *
 * `Math.atan2(dy, dx) * 180 / Math.PI` is the parameter `atan2` of every
 * function that needs it; all that is known of it is its range.
 */
module Calculation {
  import opened Keypoints

  /** Two-argument arc tangent `(dy, dx)` in degrees. */
  type Atan2Deg = f: (real, real) -> real | forall dy: real, dx: real :: -180.0 <= f(dy, dx) <= 180.0
    witness (dy: real, dx: real) => 0.0

  /** A value an extractor hands back: a number, or the literal `false` of a fallback. */
  datatype JsNumber = Num(n: real) | FalseValue

  /** JavaScript's numeric conversion, as the relational operators apply it (`false` is 0). */
  function ToNumber(v: JsNumber): real
  {
    match v
    case Num(n) => n
    case FalseValue => 0.0
  }

  function Abs(x: real): (r: real)
    ensures r >= 0.0 && (r == x || r == -x)
  {
    if x < 0.0 then -x else x
  }

  /** Truncation towards zero, as JavaScript's `%` rounds its quotient. */
  function Trunc(q: real): (t: int)
    ensures q >= 0.0 ==> 0.0 <= q - t as real < 1.0
    ensures q < 0.0 ==> -1.0 < q - t as real <= 0.0
  {
    if q >= 0.0 then q.Floor else -((-q).Floor)
  }

  /** JavaScript's `%` on numbers: the remainder of the quotient truncated towards zero. */
  function JsRem(x: real, m: real): (r: real)
    requires m != 0.0
    ensures m > 0.0 && x >= 0.0 ==> 0.0 <= r < m
    ensures m > 0.0 && x < 0.0 ==> -m < r <= 0.0
  {
    var t := Trunc(x / m) as real;
    RemainderBounds(x, m, t);
    x - m * t
  }

  /** `k` whole multiples of `m`. */
  function Multiple(k: int, m: real): real
  {
    k as real * m
  }

  /** A remainder of `x` by a positive `m` that has the sign of `x` and is smaller than `m` in size. */
  predicate SignedBelow(x: real, m: real, r: real)
  {
    (x >= 0.0 ==> 0.0 <= r < m) && (x < 0.0 ==> -m < r <= 0.0)
  }

  /**
   * `JsRem(x, m)` is the one number that differs from `x` by a whole multiple
   * of `m`, has the sign of `x` and is smaller than `m` in size.
   */
  lemma JsRemIsTruncatedRemainder(x: real, m: real, r: real)
    requires m > 0.0
    ensures r == JsRem(x, m) <==> (exists k: int :: x - r == Multiple(k, m)) && SignedBelow(x, m, r)
  {
    var t := Trunc(x / m);
    assert x - JsRem(x, m) == Multiple(t, m);
    if (exists k: int :: x - r == Multiple(k, m)) && SignedBelow(x, m, r) {
      var k :| x - r == Multiple(k, m);
      assert r - JsRem(x, m) == Multiple(t - k, m);
      OnlyZeroMultipleBelow(t - k, m);
    }
  }

  /** The only whole multiple of a positive `m` strictly between `-m` and `m` is zero. */
  lemma OnlyZeroMultipleBelow(n: int, m: real)
    requires m > 0.0 && -m < Multiple(n, m) < m
    ensures n == 0
  {
  }

  /** Taking `m` times a truncated quotient off `x` leaves less than `m`, with the sign of `x`. */
  lemma RemainderBounds(x: real, m: real, t: real)
    requires m != 0.0
    requires x / m >= 0.0 ==> 0.0 <= x / m - t < 1.0
    requires x / m < 0.0 ==> -1.0 < x / m - t <= 0.0
    ensures m > 0.0 && x >= 0.0 ==> 0.0 <= x - m * t < m
    ensures m > 0.0 && x < 0.0 ==> -m < x - m * t <= 0.0
  {
    QuotientFacts(x, m);
    RemainderIsScaledGap(x, m, x / m, t);
    if m > 0.0 {
      ScaledRemainder(m, x / m - t, x - m * t);
    }
  }

  /** Dividing by `m` and multiplying back gives `x`; a positive divisor keeps the sign. */
  lemma QuotientFacts(x: real, m: real)
    requires m != 0.0
    ensures m * (x / m) == x
    ensures m > 0.0 ==> (x >= 0.0 <==> x / m >= 0.0)
  {
  }

  /** Scaling a gap below one by a positive `m` gives a gap below `m`, of the same sign. */
  lemma ScaledRemainder(m: real, d: real, r: real)
    requires m > 0.0 && r == m * d
    ensures 0.0 <= d < 1.0 ==> 0.0 <= r < m
    ensures -1.0 < d <= 0.0 ==> -m < r <= 0.0
  {
    if 0.0 <= d < 1.0 {
      ScaledRemainderPos(m, d, r);
    }
    if -1.0 < d <= 0.0 {
      assert -r == m * (-d);
      ScaledRemainderPos(m, -d, -r);
    }
  }

  lemma ScaledRemainderPos(m: real, d: real, r: real)
    requires m > 0.0 && r == m * d && 0.0 <= d < 1.0
    ensures 0.0 <= r < m
  {
    assert m * (1.0 - d) == m - r;
    assert m * (1.0 - d) > 0.0;
    assert m * d >= 0.0;
  }

  lemma RemainderIsScaledGap(x: real, m: real, q: real, t: real)
    requires m * q == x
    ensures x - m * t == m * (q - t)
  {
  }

  /** `(angle + 180) % 180` for an arc tangent in degrees. */
  function FoldHalfTurn(angle: real): (r: real)
    requires -180.0 <= angle <= 180.0
    ensures 0.0 <= r < 180.0
    ensures r == if angle < 0.0 then angle + 180.0 else if angle < 180.0 then angle else 0.0
  {
    JsRem(angle + 180.0, 180.0)
  }

  // ---------------------------------------------------------------------
  // Primitives

  /** `angleCalculator`: the angle at `p2` between the rays to `p1` and `p3`, folded into a half turn. */
  function Angle(atan2: Atan2Deg, p1: Point, p2: Point, p3: Point): (r: real)
    ensures 0.0 <= r <= 180.0
  {
    var turn := atan2(p3.y - p2.y, p3.x - p2.x) - atan2(p1.y - p2.y, p1.x - p2.x);
    var angle := Abs(turn);
    if angle > 180.0 then 360.0 - angle else angle
  }

  /** The angle is the unsigned interior angle: it does not depend on which ray is named first. */
  lemma AngleSymmetric(atan2: Atan2Deg, p1: Point, p2: Point, p3: Point)
    ensures Angle(atan2, p1, p2, p3) == Angle(atan2, p3, p2, p1)
  {
  }

  /** Two rays in the same direction make a zero angle. */
  lemma AngleOfOneRay(atan2: Atan2Deg, p1: Point, p2: Point)
    ensures Angle(atan2, p1, p2, p1) == 0.0
  {
  }

  /** The vertical distance between two points. */
  function VerticalGap(p: Point, q: Point): (r: real)
    ensures r >= 0.0
    ensures r == 0.0 <==> p.y == q.y
    ensures r == p.y - q.y || r == q.y - p.y
  {
    Abs(p.y - q.y)
  }

  lemma VerticalGapSymmetric(p: Point, q: Point)
    ensures VerticalGap(p, q) == VerticalGap(q, p)
  {
  }

  // ---------------------------------------------------------------------
  // Facing direction

  /**
   * `rightFacingCheck`: both ears lie to the right of their knees.
   * False when an ear or a knee is missing.
   */
  predicate RightFacing(pose: Pose)
  {
    match (Find(pose, LeftEar), Find(pose, RightEar), Find(pose, LeftKnee), Find(pose, RightKnee))
    case (Some(le), Some(re), Some(lk), Some(rk)) => re.x > rk.x && le.x > lk.x
    case _ => false
  }

  /** The tilt, in degrees, of the line from `left` to `right`. */
  function Tilt(atan2: Atan2Deg, left: Point, right: Point): (r: real)
    ensures -180.0 <= r <= 180.0
  {
    atan2(right.y - left.y, right.x - left.x)
  }

  /**
   * `leftFacingCheck`: the shoulder line is tilted more than the hip line.
   * False when a shoulder or a hip is missing.
   */
  predicate LeftFacing(atan2: Atan2Deg, pose: Pose)
  {
    match (Find(pose, LeftShoulder), Find(pose, RightShoulder), Find(pose, LeftHip), Find(pose, RightHip))
    case (Some(ls), Some(rs), Some(lh), Some(rh)) => Tilt(atan2, ls.At(), rs.At()) > Tilt(atan2, lh.At(), rh.At())
    case _ => false
  }

  /** The ear/knee check falls back to `false` when an ear or a knee is missing. */
  lemma RightFacingFallsBack(pose: Pose)
    ensures (|| Find(pose, LeftEar).None? || Find(pose, RightEar).None?
             || Find(pose, LeftKnee).None? || Find(pose, RightKnee).None?) ==> !RightFacing(pose)
  {
  }

  /** The tilt check falls back to `false` when a shoulder or a hip is missing. */
  lemma LeftFacingFallsBack(atan2: Atan2Deg, pose: Pose)
    ensures (|| Find(pose, LeftShoulder).None? || Find(pose, RightShoulder).None?
             || Find(pose, LeftHip).None? || Find(pose, RightHip).None?) ==> !LeftFacing(atan2, pose)
  {
  }

  /** Parallel shoulder and hip lines (the same offset from left to right) never read as facing left. */
  lemma LeftFacingNeedsStrictTilt(atan2: Atan2Deg, pose: Pose)
    requires Find(pose, LeftShoulder).Some? && Find(pose, RightShoulder).Some?
    requires Find(pose, LeftHip).Some? && Find(pose, RightHip).Some?
    requires Find(pose, RightShoulder).value.x - Find(pose, LeftShoulder).value.x
          == Find(pose, RightHip).value.x - Find(pose, LeftHip).value.x
    requires Find(pose, RightShoulder).value.y - Find(pose, LeftShoulder).value.y
          == Find(pose, RightHip).value.y - Find(pose, LeftHip).value.y
    ensures !LeftFacing(atan2, pose)
  {
    var ls, rs := Find(pose, LeftShoulder).value, Find(pose, RightShoulder).value;
    var lh, rh := Find(pose, LeftHip).value, Find(pose, RightHip).value;
    assert Tilt(atan2, ls.At(), rs.At()) == Tilt(atan2, lh.At(), rh.At());
  }

  // ---------------------------------------------------------------------
  // Neck point and neck tilt

  function Midpoint(p: Point, q: Point): (r: Point)
    ensures r.x - p.x == q.x - r.x && r.y - p.y == q.y - r.y
  {
    Point((p.x + q.x) / 2.0, (p.y + q.y) / 2.0)
  }

  /**
   * `neckPointCalculator`: halfway between the ear and the shoulder of the
   * side whose ear has the smaller x; a tie picks the right side.  `None`
   * (the source's `null`) when an ear or a shoulder is missing.
   */
  function NeckPoint(pose: Pose): (r: Option<Point>)
    ensures r.None? <==>
      Find(pose, LeftEar).None? || Find(pose, RightEar).None? ||
      Find(pose, LeftShoulder).None? || Find(pose, RightShoulder).None?
    ensures r.Some? && Find(pose, LeftEar).value.x < Find(pose, RightEar).value.x ==>
      r.value == Midpoint(Find(pose, LeftEar).value.At(), Find(pose, LeftShoulder).value.At())
    ensures r.Some? && Find(pose, LeftEar).value.x >= Find(pose, RightEar).value.x ==>
      r.value == Midpoint(Find(pose, RightEar).value.At(), Find(pose, RightShoulder).value.At())
  {
    match (Find(pose, LeftEar), Find(pose, RightEar), Find(pose, LeftShoulder), Find(pose, RightShoulder))
    case (Some(le), Some(re), Some(ls), Some(rs)) =>
      if le.x < re.x then Some(Point((le.x + ls.x) / 2.0, (le.y + ls.y) / 2.0))
      else Some(Point((re.x + rs.x) / 2.0, (re.y + rs.y) / 2.0))
    case _ => None
  }

  /**
   * The direction of the neck point seen from the nose, measured from the
   * image's vertical axis and folded into [0, 180) by `(a + 180) % 180`.
   */
  function NeckDirection(atan2: Atan2Deg, nose: Point, neck: Point): (r: real)
    ensures 0.0 <= r < 180.0
    ensures var a := atan2(nose.y - neck.y, neck.x - nose.x);
      r == if a < 0.0 then a + 180.0 else if a < 180.0 then a else 0.0
  {
    FoldHalfTurn(atan2(nose.y - neck.y, neck.x - nose.x))
  }

  /**
   * `neckTiltCalculator`: the neck direction, mirrored when the ear/knee
   * heuristic says the subject faces right.  0 when the nose or the neck
   * point is missing.
   */
  function NeckTilt(atan2: Atan2Deg, pose: Pose): (r: real)
    ensures Find(pose, Nose).None? || NeckPoint(pose).None? ==> r == 0.0
    ensures !RightFacing(pose) ==> 0.0 <= r < 180.0
    ensures RightFacing(pose) && Find(pose, Nose).Some? && NeckPoint(pose).Some? ==> 0.0 < r <= 180.0
    ensures Find(pose, Nose).Some? && NeckPoint(pose).Some? ==>
      var direction := NeckDirection(atan2, Find(pose, Nose).value.At(), NeckPoint(pose).value);
      r == if RightFacing(pose) then 180.0 - direction else direction
  {
    var nose, neck := Find(pose, Nose), NeckPoint(pose);
    if nose.None? || neck.None? then 0.0
    else
      var direction := NeckDirection(atan2, nose.value.At(), neck.value);
      if RightFacing(pose) then 180.0 - direction else direction
  }

  // ---------------------------------------------------------------------
  // Joint angles

  /**
   * `shoulderHipKneeCalculator`: the angle at the hip, on the left side when
   * the tilt heuristic says the subject faces left and on the right side
   * otherwise.  Both sides' shoulder, hip and knee must be present, else 0.
   */
  function ShoulderHipKnee(atan2: Atan2Deg, pose: Pose): (r: real)
    ensures 0.0 <= r <= 180.0
    ensures (|| Find(pose, LeftShoulder).None? || Find(pose, RightShoulder).None?
             || Find(pose, LeftHip).None? || Find(pose, RightHip).None?
             || Find(pose, LeftKnee).None? || Find(pose, RightKnee).None?) ==> r == 0.0
    ensures Find(pose, LeftShoulder).Some? && Find(pose, LeftHip).Some? && Find(pose, LeftKnee).Some? &&
            Find(pose, RightShoulder).Some? && Find(pose, RightHip).Some? && Find(pose, RightKnee).Some? ==>
      r == if LeftFacing(atan2, pose)
           then Angle(atan2, Find(pose, LeftShoulder).value.At(), Find(pose, LeftHip).value.At(), Find(pose, LeftKnee).value.At())
           else Angle(atan2, Find(pose, RightShoulder).value.At(), Find(pose, RightHip).value.At(), Find(pose, RightKnee).value.At())
  {
    match (Find(pose, LeftShoulder), Find(pose, RightShoulder), Find(pose, LeftHip), Find(pose, RightHip),
           Find(pose, LeftKnee), Find(pose, RightKnee))
    case (Some(ls), Some(rs), Some(lh), Some(rh), Some(lk), Some(rk)) =>
      var leftAngle := Angle(atan2, ls.At(), lh.At(), lk.At());
      var rightAngle := Angle(atan2, rs.At(), rh.At(), rk.At());
      if LeftFacing(atan2, pose) then leftAngle else rightAngle
    case _ => 0.0
  }

  /**
   * `hipKneeFootCalculator`: the angle at the knee, side chosen as for
   * `ShoulderHipKnee`.  All six hips, knees and ankles must be present, else
   * the fallback is the literal `false`.
   */
  function HipKneeFoot(atan2: Atan2Deg, pose: Pose): (r: JsNumber)
    ensures r == FalseValue <==>
      Find(pose, LeftHip).None? || Find(pose, RightHip).None? ||
      Find(pose, LeftKnee).None? || Find(pose, RightKnee).None? ||
      Find(pose, LeftAnkle).None? || Find(pose, RightAnkle).None?
    ensures r.Num? ==> 0.0 <= r.n <= 180.0
    ensures r.Num? ==>
      r.n == if LeftFacing(atan2, pose)
             then Angle(atan2, Find(pose, LeftHip).value.At(), Find(pose, LeftKnee).value.At(), Find(pose, LeftAnkle).value.At())
             else Angle(atan2, Find(pose, RightHip).value.At(), Find(pose, RightKnee).value.At(), Find(pose, RightAnkle).value.At())
  {
    match (Find(pose, LeftHip), Find(pose, RightHip), Find(pose, LeftKnee), Find(pose, RightKnee),
           Find(pose, LeftAnkle), Find(pose, RightAnkle))
    case (Some(lh), Some(rh), Some(lk), Some(rk), Some(la), Some(ra)) =>
      if LeftFacing(atan2, pose) then Num(Angle(atan2, lh.At(), lk.At(), la.At()))
      else Num(Angle(atan2, rh.At(), rk.At(), ra.At()))
    case _ => FalseValue
  }

  /** The side `ShoulderElbowWrist` measures: right when the ear/knee heuristic says so. */
  function ArmSide(pose: Pose): (Name, Name, Name)
  {
    if RightFacing(pose) then (RightShoulder, RightElbow, RightWrist) else (LeftShoulder, LeftElbow, LeftWrist)
  }

  /**
   * `shoulderElbowWristCalculator`: the angle at the elbow of the side the
   * ear/knee heuristic picks; only that side's three keypoints are needed,
   * else 0.
   */
  function ShoulderElbowWrist(atan2: Atan2Deg, pose: Pose): (r: real)
    ensures 0.0 <= r <= 180.0
    ensures RightFacing(pose) && Find(pose, RightShoulder).Some? && Find(pose, RightElbow).Some? && Find(pose, RightWrist).Some? ==>
      r == Angle(atan2, Find(pose, RightShoulder).value.At(), Find(pose, RightElbow).value.At(), Find(pose, RightWrist).value.At())
    ensures !RightFacing(pose) && Find(pose, LeftShoulder).Some? && Find(pose, LeftElbow).Some? && Find(pose, LeftWrist).Some? ==>
      r == Angle(atan2, Find(pose, LeftShoulder).value.At(), Find(pose, LeftElbow).value.At(), Find(pose, LeftWrist).value.At())
    ensures RightFacing(pose) && (Find(pose, RightShoulder).None? || Find(pose, RightElbow).None? || Find(pose, RightWrist).None?) ==>
      r == 0.0
    ensures !RightFacing(pose) && (Find(pose, LeftShoulder).None? || Find(pose, LeftElbow).None? || Find(pose, LeftWrist).None?) ==>
      r == 0.0
  {
    var (shoulderName, elbowName, wristName) := ArmSide(pose);
    match (Find(pose, shoulderName), Find(pose, elbowName), Find(pose, wristName))
    case (Some(shoulder), Some(elbow), Some(wrist)) => Angle(atan2, shoulder.At(), elbow.At(), wrist.At())
    case _ => 0.0
  }

  // ---------------------------------------------------------------------
  // Legs and feet

  /** `legCrossCheck`: the vertical gap between the ankles, 0 when an ankle is missing. */
  function LegCross(pose: Pose): (r: real)
    ensures r >= 0.0
    ensures Find(pose, LeftAnkle).None? || Find(pose, RightAnkle).None? ==> r == 0.0
    ensures Find(pose, LeftAnkle).Some? && Find(pose, RightAnkle).Some? ==>
      r == VerticalGap(Find(pose, LeftAnkle).value.At(), Find(pose, RightAnkle).value.At())
      && r == VerticalGap(Find(pose, RightAnkle).value.At(), Find(pose, LeftAnkle).value.At())
  {
    var leftAnkle, rightAnkle := Find(pose, LeftAnkle), Find(pose, RightAnkle);
    if leftAnkle.Some? && rightAnkle.Some? then Abs(leftAnkle.value.y - rightAnkle.value.y) else 0.0
  }

  /** Ankles further apart vertically than this are not planted side by side. */
  const FeetLevelTolerance: real := 30.0

  /**
   * `feetPlantedCheck`: both ankles, hips and knees are present, each ankle
   * is lower in the image than its hip and its knee, and the ankles are
   * within 30 pixels of each other vertically.
   */
  predicate FeetPlanted(pose: Pose)
  {
    FeetPlantedAt(Find(pose, LeftAnkle), Find(pose, RightAnkle), Find(pose, LeftHip), Find(pose, RightHip),
                  Find(pose, LeftKnee), Find(pose, RightKnee))
  }

  /** The planted-feet test on the six lookups, `undefined` failing it. */
  predicate FeetPlantedAt(leftFoot: Option<Keypoint>, rightFoot: Option<Keypoint>, leftHip: Option<Keypoint>,
                          rightHip: Option<Keypoint>, leftKnee: Option<Keypoint>, rightKnee: Option<Keypoint>)
  {
    && leftFoot.Some? && rightFoot.Some? && leftHip.Some? && rightHip.Some? && leftKnee.Some? && rightKnee.Some?
    && leftFoot.value.y > leftHip.value.y && rightFoot.value.y > rightHip.value.y
    && leftFoot.value.y > leftKnee.value.y && rightFoot.value.y > rightKnee.value.y
    && Abs(leftFoot.value.y - rightFoot.value.y) < FeetLevelTolerance
  }

  /** Two lookups that agree on presence and on height. */
  predicate SameHeight(a: Option<Keypoint>, b: Option<Keypoint>)
  {
    a.Some? == b.Some? && (a.Some? ==> a.value.y == b.value.y)
  }

  /** The planted-feet test reads only presence and heights. */
  lemma FeetPlantedAtReadsHeights(
    lf: Option<Keypoint>, rf: Option<Keypoint>, lh: Option<Keypoint>, rh: Option<Keypoint>, lk: Option<Keypoint>, rk: Option<Keypoint>,
    lf': Option<Keypoint>, rf': Option<Keypoint>, lh': Option<Keypoint>, rh': Option<Keypoint>, lk': Option<Keypoint>, rk': Option<Keypoint>)
    requires SameHeight(lf, lf') && SameHeight(rf, rf') && SameHeight(lh, lh')
    requires SameHeight(rh, rh') && SameHeight(lk, lk') && SameHeight(rk, rk')
    ensures FeetPlantedAt(lf, rf, lh, rh, lk, rk) == FeetPlantedAt(lf', rf', lh', rh', lk', rk')
  {
  }

  /** Planted feet always have a measured chair angle: the two checks need the same six keypoints. */
  lemma FeetPlantedMeansKneeMeasured(atan2: Atan2Deg, pose: Pose)
    requires FeetPlanted(pose)
    ensures HipKneeFoot(atan2, pose).Num?
    ensures LegCross(pose) < FeetLevelTolerance
  {
    var lf, rf := Find(pose, LeftAnkle), Find(pose, RightAnkle);
    var lh, rh, lk, rk := Find(pose, LeftHip), Find(pose, RightHip), Find(pose, LeftKnee), Find(pose, RightKnee);
    assert FeetPlantedAt(lf, rf, lh, rh, lk, rk);
    assert lf.Some? && rf.Some? && lh.Some? && rh.Some? && lk.Some? && rk.Some?;
  }

  // ---------------------------------------------------------------------
  // Confidence never changes a measurement

  /** The tilt heuristic reads names and coordinates alone. */
  lemma LeftFacingIgnoresScores(atan2: Atan2Deg, p: Pose, q: Pose)
    requires SameGeometry(p, q)
    ensures LeftFacing(atan2, p) == LeftFacing(atan2, q)
  {
    FindIgnoresScores(p, q, LeftShoulder);
    FindIgnoresScores(p, q, RightShoulder);
    FindIgnoresScores(p, q, LeftHip);
    FindIgnoresScores(p, q, RightHip);
  }

  /** The ear/knee heuristic reads names and coordinates alone. */
  lemma RightFacingIgnoresScores(p: Pose, q: Pose)
    requires SameGeometry(p, q)
    ensures RightFacing(p) == RightFacing(q)
  {
    FindIgnoresScores(p, q, LeftEar);
    FindIgnoresScores(p, q, RightEar);
    FindIgnoresScores(p, q, LeftKnee);
    FindIgnoresScores(p, q, RightKnee);
  }

  lemma NeckPointIgnoresScores(p: Pose, q: Pose)
    requires SameGeometry(p, q)
    ensures NeckPoint(p) == NeckPoint(q)
  {
    FindIgnoresScores(p, q, LeftEar);
    FindIgnoresScores(p, q, RightEar);
    FindIgnoresScores(p, q, LeftShoulder);
    FindIgnoresScores(p, q, RightShoulder);
  }

  lemma NeckTiltIgnoresScores(atan2: Atan2Deg, p: Pose, q: Pose)
    requires SameGeometry(p, q)
    ensures NeckTilt(atan2, p) == NeckTilt(atan2, q)
  {
    FindIgnoresScores(p, q, Nose);
    NeckPointIgnoresScores(p, q);
    RightFacingIgnoresScores(p, q);
  }

  lemma ShoulderHipKneeIgnoresScores(atan2: Atan2Deg, p: Pose, q: Pose)
    requires SameGeometry(p, q)
    ensures ShoulderHipKnee(atan2, p) == ShoulderHipKnee(atan2, q)
  {
    FindIgnoresScores(p, q, LeftShoulder);
    FindIgnoresScores(p, q, RightShoulder);
    FindIgnoresScores(p, q, LeftHip);
    FindIgnoresScores(p, q, RightHip);
    FindIgnoresScores(p, q, LeftKnee);
    FindIgnoresScores(p, q, RightKnee);
    LeftFacingIgnoresScores(atan2, p, q);
  }

  lemma HipKneeFootIgnoresScores(atan2: Atan2Deg, p: Pose, q: Pose)
    requires SameGeometry(p, q)
    ensures HipKneeFoot(atan2, p) == HipKneeFoot(atan2, q)
  {
    FindIgnoresScores(p, q, LeftHip);
    FindIgnoresScores(p, q, RightHip);
    FindIgnoresScores(p, q, LeftKnee);
    FindIgnoresScores(p, q, RightKnee);
    FindIgnoresScores(p, q, LeftAnkle);
    FindIgnoresScores(p, q, RightAnkle);
    LeftFacingIgnoresScores(atan2, p, q);
  }

  lemma ShoulderElbowWristIgnoresScores(atan2: Atan2Deg, p: Pose, q: Pose)
    requires SameGeometry(p, q)
    ensures ShoulderElbowWrist(atan2, p) == ShoulderElbowWrist(atan2, q)
  {
    RightFacingIgnoresScores(p, q);
    var (s, e, w) := ArmSide(p);
    FindIgnoresScores(p, q, s);
    FindIgnoresScores(p, q, e);
    FindIgnoresScores(p, q, w);
  }

  lemma LegCrossIgnoresScores(p: Pose, q: Pose)
    requires SameGeometry(p, q)
    ensures LegCross(p) == LegCross(q)
  {
    FindIgnoresScores(p, q, LeftAnkle);
    FindIgnoresScores(p, q, RightAnkle);
  }

  lemma FeetPlantedIgnoresScores(p: Pose, q: Pose)
    requires SameGeometry(p, q)
    ensures FeetPlanted(p) == FeetPlanted(q)
  {
    FindIgnoresScores(p, q, LeftHip);
    FindIgnoresScores(p, q, RightHip);
    FindIgnoresScores(p, q, LeftKnee);
    FindIgnoresScores(p, q, RightKnee);
    FindIgnoresScores(p, q, LeftAnkle);
    FindIgnoresScores(p, q, RightAnkle);
    FeetPlantedAtReadsHeights(
      Find(p, LeftAnkle), Find(p, RightAnkle), Find(p, LeftHip), Find(p, RightHip), Find(p, LeftKnee), Find(p, RightKnee),
      Find(q, LeftAnkle), Find(q, RightAnkle), Find(q, LeftHip), Find(q, RightHip), Find(q, LeftKnee), Find(q, RightKnee));
  }

  /**
   * Confidence never blocks or alters a measurement: every metric is
   * computed from names and coordinates alone.
   */
  lemma MetricsIgnoreScores(atan2: Atan2Deg, p: Pose, q: Pose)
    requires SameGeometry(p, q)
    ensures NeckTilt(atan2, p) == NeckTilt(atan2, q)
    ensures LegCross(p) == LegCross(q)
    ensures ShoulderHipKnee(atan2, p) == ShoulderHipKnee(atan2, q)
    ensures HipKneeFoot(atan2, p) == HipKneeFoot(atan2, q)
    ensures ShoulderElbowWrist(atan2, p) == ShoulderElbowWrist(atan2, q)
    ensures FeetPlanted(p) == FeetPlanted(q)
    ensures LeftFacing(atan2, p) == LeftFacing(atan2, q)
  {
    NeckTiltIgnoresScores(atan2, p, q);
    LegCrossIgnoresScores(p, q);
    FeetPlantedIgnoresScores(p, q);
    ShoulderHipKneeIgnoresScores(atan2, p, q);
    HipKneeFootIgnoresScores(atan2, p, q);
    ShoulderElbowWristIgnoresScores(atan2, p, q);
    LeftFacingIgnoresScores(atan2, p, q);
  }
}
