/**
 * The hand-grip classifier: from the 21 landmarks of one detected hand it
 * reports whether the wrist is flexed and how the fingers sit relative to
 * their knuckles.  Only the vertical coordinate is compared; image y grows
 * downwards, so "higher" means a smaller y.
 */
module HandPose {

  /** One landmark as the hand model reports it, `[x, y, z]`. */
  datatype Landmark = Landmark(x: real, y: real, z: real)

  /** The hand model's landmark count: the wrist, then four joints per finger. */
  const LandmarkCount: nat := 21

  /** The base joint of each finger, thumb first. */
  const Knuckles: seq<nat> := [1, 5, 9, 13, 17]

  /** The tip of each finger, in the same order. */
  const Tips: seq<nat> := [4, 8, 12, 16, 20]

  datatype Grip = Ideal | Claw | Normal

  /** What the classifier reports: the wrist status and the grip. */
  datatype Reading = Reading(wristFlexed: bool, grip: Grip)

  /** The wrist sits more than `buffer` above every other landmark. */
  predicate WristFlexed(buffer: real, landmarks: seq<Landmark>)
    requires |landmarks| >= 1
  {
    forall i :: 1 <= i < |landmarks| ==> landmarks[0].y < landmarks[i].y - buffer
  }

  /**
   * The wrist test on its own, with no landmark besides the wrist, holds
   * vacuously.  The whole evaluation never gets this far on one landmark: the
   * knuckle test then reads landmark 1, which is absent.
   */
  lemma WristAloneIsFlexed(buffer: real, wrist: Landmark)
    ensures WristFlexed(buffer, [wrist])
  {
  }

  /** Every knuckle sits more than `buffer` above its fingertip. */
  predicate KnucklesHigher(buffer: real, landmarks: seq<Landmark>)
    requires |landmarks| >= LandmarkCount
  {
    forall f :: 0 <= f < |Knuckles| ==> landmarks[Knuckles[f]].y + buffer < landmarks[Tips[f]].y
  }

  /** Some fingertip sits above the point `buffer` below its knuckle. */
  predicate FingersHigher(buffer: real, landmarks: seq<Landmark>)
    requires |landmarks| >= LandmarkCount
  {
    exists f :: 0 <= f < |Tips| && landmarks[Tips[f]].y < landmarks[Knuckles[f]].y + buffer
  }

  /** The two finger checks are never both true: each is the other's failure on some finger. */
  lemma KnucklesAndFingersExclusive(buffer: real, landmarks: seq<Landmark>)
    requires |landmarks| >= LandmarkCount
    ensures !(KnucklesHigher(buffer, landmarks) && FingersHigher(buffer, landmarks))
  {
    if FingersHigher(buffer, landmarks) {
      var f :| 0 <= f < |Tips| && landmarks[Tips[f]].y < landmarks[Knuckles[f]].y + buffer;
      assert !(landmarks[Knuckles[f]].y + buffer < landmarks[Tips[f]].y);
    }
  }

  /**
   * `handPositionEvaluator(buffer)(landmarks)`: the knuckle check takes
   * precedence over the finger check, and neither gives a normal grip.  A
   * normal grip therefore means that no fingertip is above its knuckle's
   * buffered level while at least one sits exactly on it.
   */
  function Evaluate(buffer: real, landmarks: seq<Landmark>): (r: Reading)
    requires |landmarks| >= LandmarkCount
    ensures r.wristFlexed <==> forall i :: 1 <= i < |landmarks| ==> landmarks[0].y < landmarks[i].y - buffer
    ensures r.grip == Ideal <==>
      forall f :: 0 <= f < 5 ==> landmarks[Knuckles[f]].y + buffer < landmarks[Tips[f]].y
    ensures r.grip == Claw <==>
      exists f :: 0 <= f < 5 && landmarks[Tips[f]].y < landmarks[Knuckles[f]].y + buffer
    ensures r.grip == Normal <==>
      && (forall f :: 0 <= f < 5 ==> landmarks[Tips[f]].y >= landmarks[Knuckles[f]].y + buffer)
      && (exists f :: 0 <= f < 5 && landmarks[Tips[f]].y == landmarks[Knuckles[f]].y + buffer)
  {
    KnucklesAndFingersExclusive(buffer, landmarks);
    var wristFlexed := WristFlexed(buffer, landmarks);
    if KnucklesHigher(buffer, landmarks) then Reading(wristFlexed, Ideal)
    else if FingersHigher(buffer, landmarks) then Reading(wristFlexed, Claw)
    else
      NormalMeansLevelTip(buffer, landmarks);
      Reading(wristFlexed, Normal)
  }

  /** With neither finger check true, every tip is at or below its buffered knuckle and one is level with it. */
  lemma NormalMeansLevelTip(buffer: real, landmarks: seq<Landmark>)
    requires |landmarks| >= LandmarkCount
    requires !KnucklesHigher(buffer, landmarks) && !FingersHigher(buffer, landmarks)
    ensures forall f :: 0 <= f < 5 ==> landmarks[Tips[f]].y >= landmarks[Knuckles[f]].y + buffer
    ensures exists f :: 0 <= f < 5 && landmarks[Tips[f]].y == landmarks[Knuckles[f]].y + buffer
  {
    var f :| 0 <= f < |Knuckles| && !(landmarks[Knuckles[f]].y + buffer < landmarks[Tips[f]].y);
    assert landmarks[Tips[f]].y == landmarks[Knuckles[f]].y + buffer;
  }

  /** Moving every landmark by the same vertical offset. */
  function Shift(landmarks: seq<Landmark>, dy: real): (shifted: seq<Landmark>)
    ensures |shifted| == |landmarks|
    ensures forall i :: 0 <= i < |landmarks| ==> shifted[i].y == landmarks[i].y + dy
  {
    seq(|landmarks|, i requires 0 <= i < |landmarks| => Landmark(landmarks[i].x, landmarks[i].y + dy, landmarks[i].z))
  }

  /** The wrist check compares vertical differences only. */
  lemma WristFlexedIgnoresVerticalShift(buffer: real, landmarks: seq<Landmark>, dy: real)
    requires |landmarks| >= 1
    ensures WristFlexed(buffer, Shift(landmarks, dy)) <==> WristFlexed(buffer, landmarks)
  {
    var shifted := Shift(landmarks, dy);
    if WristFlexed(buffer, landmarks) {
      forall i | 1 <= i < |shifted|
        ensures shifted[0].y < shifted[i].y - buffer
      {
        assert landmarks[0].y < landmarks[i].y - buffer;
      }
    }
    if WristFlexed(buffer, shifted) {
      forall i | 1 <= i < |landmarks|
        ensures landmarks[0].y < landmarks[i].y - buffer
      {
        assert shifted[0].y < shifted[i].y - buffer;
      }
    }
  }

  /** Only vertical differences count: raising or lowering the whole hand changes nothing. */
  lemma EvaluateIgnoresVerticalShift(buffer: real, landmarks: seq<Landmark>, dy: real)
    requires |landmarks| >= LandmarkCount
    ensures Evaluate(buffer, Shift(landmarks, dy)) == Evaluate(buffer, landmarks)
  {
    var shifted := Shift(landmarks, dy);
    WristFlexedIgnoresVerticalShift(buffer, landmarks, dy);
    assert forall f :: 0 <= f < 5 ==>
      shifted[Tips[f]].y - shifted[Knuckles[f]].y == landmarks[Tips[f]].y - landmarks[Knuckles[f]].y;
  }

  /** A larger buffer can only turn an ideal grip into a non-ideal one, never the reverse. */
  lemma IdealNeedsRoomForBuffer(small: real, large: real, landmarks: seq<Landmark>)
    requires |landmarks| >= LandmarkCount && small <= large
    ensures Evaluate(large, landmarks).grip == Ideal ==> Evaluate(small, landmarks).grip == Ideal
    ensures Evaluate(small, landmarks).grip == Claw ==> Evaluate(large, landmarks).grip == Claw
  {
  }

  // ---------------------------------------------------------------------
  // The message

  function WristText(flexed: bool): string
  {
    if flexed then "Wrist Flexed" else "Wrist Not Flexed"
  }

  function GripText(grip: Grip): string
  {
    match grip
    case Ideal => "Ideal position"
    case Claw => "Claw grip"
    case Normal => "Normal position"
  }

  /** The string the evaluator returns: the wrist status, a comma and a space, then the grip. */
  function Label(r: Reading): (s: string)
    ensures |s| == |WristText(r.wristFlexed)| + 2 + |GripText(r.grip)|
    ensures s[..|WristText(r.wristFlexed)|] == WristText(r.wristFlexed)
    ensures s[|WristText(r.wristFlexed)|..] == ", " + GripText(r.grip)
  {
    WristText(r.wristFlexed) + ", " + GripText(r.grip)
  }

  /** Different readings never share a message: the message's length alone tells the six apart. */
  lemma LabelInjective(a: Reading, b: Reading)
    ensures Label(a) == Label(b) ==> a == b
  {
    assert |WristText(true)| == 12 && |WristText(false)| == 16;
    assert |GripText(Ideal)| == 14 && |GripText(Claw)| == 9 && |GripText(Normal)| == 15;
  }
}
