/**
 * The posture feedback table built for one pose: one "low confidence" row
 * per weak keypoint, then one row per metric with its verdict and a comment
 * that warns when keypoints of the side `!leftFacingCheck` selects are weak,
 * then the feet row and a closing aggregate row.  For body lean and chair
 * height that side is the opposite of the one the metric measures.  The table
 * distance picks its arm with `rightFacingCheck`, so when both checks say the
 * subject faces right it measures the right arm and the caveat watches the
 * left one.
 */
module Feedback {
  import opened Keypoints
  import opened Calculation

  // ---------------------------------------------------------------------
  // Verdicts: fixed bands over each metric

  /** The text of a row's second cell for the five metric rows. */
  datatype Verdict =
    | DownwardsTilt | UpwardsTilt | NeutralTilt
    | NoLegCrossing | LegsCrossed
    | LeaningForward | LeaningBack | CorrectPosture
    | ChairTooLow | ChairTooHigh | CorrectChairHeight
    | TableTooClose | TableTooFar | CorrectTableDistance

  function VerdictText(v: Verdict): (t: string)
    ensures |t| > |"OK"|
  {
    match v
    case DownwardsTilt => "Downwards tilt"
    case UpwardsTilt => "Upwards tilt"
    case NeutralTilt => "Neutral"
    case NoLegCrossing => "No crossing of legs"
    case LegsCrossed => "Legs crossed"
    case LeaningForward => "Leaning forward"
    case LeaningBack => "Leaning back"
    case CorrectPosture => "Correct posture"
    case ChairTooLow => "Chair too low"
    case ChairTooHigh => "Chair too high"
    case CorrectChairHeight => "Correct chair height"
    case TableTooClose => "Table too close to body"
    case TableTooFar => "Table too far from body"
    case CorrectTableDistance => "Correct table distance"
  }

  /** Head tilt: above 50 degrees is downwards, below 10 upwards, both edges neutral. */
  function NeckVerdict(tilt: real): (v: Verdict)
    ensures v == DownwardsTilt <==> tilt > 50.0
    ensures v == UpwardsTilt <==> tilt < 10.0
    ensures v == NeutralTilt <==> 10.0 <= tilt <= 50.0
  {
    if tilt > 50.0 then DownwardsTilt else if tilt < 10.0 then UpwardsTilt else NeutralTilt
  }

  /** Legs: an ankle gap under 10 pixels is no crossing. */
  function LegsVerdict(gap: real): (v: Verdict)
    ensures v == NoLegCrossing <==> gap < 10.0
    ensures v == LegsCrossed <==> gap >= 10.0
  {
    if gap < 10.0 then NoLegCrossing else LegsCrossed
  }

  /** Body lean: the shoulder-hip-knee angle is correct from 70 to 110 inclusive. */
  function BodyLeanVerdict(angle: real): (v: Verdict)
    ensures v == LeaningForward <==> angle < 70.0
    ensures v == LeaningBack <==> angle > 110.0
    ensures v == CorrectPosture <==> 70.0 <= angle <= 110.0
  {
    if angle < 70.0 then LeaningForward else if angle > 110.0 then LeaningBack else CorrectPosture
  }

  /** Chair height: the hip-knee-foot angle is correct from 70 to 110; the `false` fallback compares as 0. */
  function ChairVerdict(angle: JsNumber): (v: Verdict)
    ensures v == ChairTooLow <==> ToNumber(angle) < 70.0
    ensures v == ChairTooHigh <==> ToNumber(angle) > 110.0
    ensures v == CorrectChairHeight <==> 70.0 <= ToNumber(angle) <= 110.0
    ensures angle == FalseValue ==> v == ChairTooLow
  {
    if ToNumber(angle) < 70.0 then ChairTooLow
    else if ToNumber(angle) > 110.0 then ChairTooHigh
    else CorrectChairHeight
  }

  /** Table distance: the shoulder-elbow-wrist angle is correct from 90 to 120. */
  function TableVerdict(angle: real): (v: Verdict)
    ensures v == TableTooClose <==> angle < 90.0
    ensures v == TableTooFar <==> angle > 120.0
    ensures v == CorrectTableDistance <==> 90.0 <= angle <= 120.0
  {
    if angle < 90.0 then TableTooClose
    else if angle > 120.0 then TableTooFar
    else CorrectTableDistance
  }

  /**
   * A missing keypoint sends its metric's fallback value into the bottom band
   * of that metric's verdicts: "Upwards tilt", "Leaning forward", "Chair too
   * low" and "Table too close to body", and for the ankle gap "No crossing of
   * legs", which is the band of a good posture.
   */
  lemma MissingKeypointsGiveLowBands(atan2: Atan2Deg, pose: Pose)
    ensures Find(pose, Nose).None? || NeckPoint(pose).None? ==> NeckVerdict(NeckTilt(atan2, pose)) == UpwardsTilt
    ensures Find(pose, LeftAnkle).None? || Find(pose, RightAnkle).None? ==> LegsVerdict(LegCross(pose)) == NoLegCrossing
    ensures (|| Find(pose, LeftShoulder).None? || Find(pose, RightShoulder).None?
             || Find(pose, LeftHip).None? || Find(pose, RightHip).None?
             || Find(pose, LeftKnee).None? || Find(pose, RightKnee).None?) ==>
      BodyLeanVerdict(ShoulderHipKnee(atan2, pose)) == LeaningForward
    ensures (|| Find(pose, LeftHip).None? || Find(pose, RightHip).None?
             || Find(pose, LeftKnee).None? || Find(pose, RightKnee).None?
             || Find(pose, LeftAnkle).None? || Find(pose, RightAnkle).None?) ==>
      ChairVerdict(HipKneeFoot(atan2, pose)) == ChairTooLow
    ensures RightFacing(pose) && (Find(pose, RightShoulder).None? || Find(pose, RightElbow).None? || Find(pose, RightWrist).None?) ==>
      TableVerdict(ShoulderElbowWrist(atan2, pose)) == TableTooClose
    ensures !RightFacing(pose) && (Find(pose, LeftShoulder).None? || Find(pose, LeftElbow).None? || Find(pose, LeftWrist).None?) ==>
      TableVerdict(ShoulderElbowWrist(atan2, pose)) == TableTooClose
  {
  }

  // ---------------------------------------------------------------------
  // Rows

  /** The metrics whose comment carries a confidence caveat. */
  datatype Metric = HeadTilt | LegGap | BodyLean | ChairHeight | TableDistance

  /**
   * One `<tr>` of the table, by what it shows: a weak keypoint, a metric with
   * its verdict, whether its comment carries the caveat and the value it
   * prints, the feet row, or the closing row.
   */
  datatype Row =
    | LowConfidenceRow(name: Name)
    | MetricRow(metric: Metric, verdict: Verdict, caveat: bool, value: JsNumber)
    | FeetRow(planted: bool)
    | ClosingRow(good: bool)

  /** The colours a `style` prop may name. */
  datatype Color = Red | Green

  /**
   * The `style.color` of the `<tr>` element itself, which is what the
   * aggregate check reads.  Only the second cell of a low-confidence row is
   * styled (red); no `<tr>` is given a style.
   */
  function RowStyle(row: Row): Option<Color>
  {
    None
  }

  /** The rows the keypoint scan pushes: one per keypoint scoring below 0.2, in keypoint order. */
  function LowConfidenceRows(kps: seq<Keypoint>): (rows: seq<Row>)
    ensures |rows| <= |kps|
  {
    if |kps| == 0 then []
    else
      var last := kps[|kps| - 1];
      LowConfidenceRows(kps[..|kps| - 1]) + (if last.score < LowConfidence then [LowConfidenceRow(last.name)] else [])
  }

  /** The rows are exactly the warnings for the keypoints scoring below 0.2. */
  lemma {:induction false} LowConfidenceRowsMembers(kps: seq<Keypoint>, row: Row)
    ensures row in LowConfidenceRows(kps) <==>
      exists i :: 0 <= i < |kps| && kps[i].score < LowConfidence && row == LowConfidenceRow(kps[i].name)
    decreases |kps|
  {
    if |kps| > 0 {
      var n := |kps| - 1;
      var front := kps[..n];
      LowConfidenceRowsMembers(front, row);
      if exists i :: 0 <= i < |front| && front[i].score < LowConfidence && row == LowConfidenceRow(front[i].name) {
        var i :| 0 <= i < |front| && front[i].score < LowConfidence && row == LowConfidenceRow(front[i].name);
        assert kps[i] == front[i];
      }
      if exists i :: 0 <= i < |kps| && kps[i].score < LowConfidence && row == LowConfidenceRow(kps[i].name) {
        var i :| 0 <= i < |kps| && kps[i].score < LowConfidence && row == LowConfidenceRow(kps[i].name);
        if i < n {
          assert front[i] == kps[i];
        }
      }
    }
  }

  /** The positions of the keypoints scoring below 0.2. */
  function WeakIndices(kps: seq<Keypoint>): set<nat>
  {
    set i: nat | i < |kps| && kps[i].score < LowConfidence
  }

  /**
   * There are as many rows as weak keypoints: two weak keypoints with the same
   * name give two rows.
   */
  lemma {:induction false} LowConfidenceRowsCount(kps: seq<Keypoint>)
    ensures |LowConfidenceRows(kps)| == |WeakIndices(kps)|
    decreases |kps|
  {
    if |kps| == 0 {
      assert WeakIndices(kps) == {};
    } else {
      var n := |kps| - 1;
      var front := kps[..n];
      LowConfidenceRowsCount(front);
      if kps[n].score < LowConfidence {
        assert WeakIndices(kps) == WeakIndices(front) + {n};
        assert n !in WeakIndices(front);
      } else {
        assert WeakIndices(kps) == WeakIndices(front);
      }
    }
  }

  /** A name gets a low-confidence row exactly when some keypoint of that name is weak. */
  lemma LowConfidenceRowsListWeakNames(pose: Pose, name: Name)
    ensures LowConfidenceRow(name) in LowConfidenceRows(pose.keypoints) <==> Weak(pose, name)
  {
    LowConfidenceRowsMembers(pose.keypoints, LowConfidenceRow(name));
  }

  /** Every row of the scan is a warning, and there are none exactly when every keypoint scores at least 0.2. */
  lemma LowConfidenceRowsAreWarnings(kps: seq<Keypoint>)
    ensures forall i :: 0 <= i < |LowConfidenceRows(kps)| ==> LowConfidenceRows(kps)[i].LowConfidenceRow?
    ensures LowConfidenceRows(kps) == [] <==> forall k :: k in kps ==> k.score >= LowConfidence
  {
    var rows := LowConfidenceRows(kps);
    forall i | 0 <= i < |rows|
      ensures rows[i].LowConfidenceRow?
    {
      LowConfidenceRowsMembers(kps, rows[i]);
    }
    if rows != [] {
      LowConfidenceRowsMembers(kps, rows[0]);
    }
    forall k | k in kps && k.score < LowConfidence
      ensures rows != []
    {
      LowConfidenceRowsMembers(kps, LowConfidenceRow(k.name));
    }
  }

  /**
   * Scanning two runs of keypoints one after the other gives the rows of the
   * first run followed by those of the second: the rows keep keypoint order.
   */
  lemma {:induction false} LowConfidenceRowsConcat(a: seq<Keypoint>, b: seq<Keypoint>)
    ensures LowConfidenceRows(a + b) == LowConfidenceRows(a) + LowConfidenceRows(b)
    decreases |b|
  {
    if |b| == 0 {
      assert a + b == a;
    } else {
      var n := |b| - 1;
      var ab := a + b;
      assert ab[..|ab| - 1] == a + b[..n];
      assert ab[|ab| - 1] == b[n];
      var last := if b[n].score < LowConfidence then [LowConfidenceRow(b[n].name)] else [];
      assert LowConfidenceRows(b) == LowConfidenceRows(b[..n]) + last;
      LowConfidenceRowsConcat(a, b[..n]);
      assert LowConfidenceRows(ab) == LowConfidenceRows(a) + LowConfidenceRows(b[..n]) + last;
    }
  }

  /** A single keypoint gives one row naming it when it scores below 0.2, and none otherwise. */
  lemma LowConfidenceRowsOfOne(k: Keypoint)
    ensures LowConfidenceRows([k]) == if k.score < LowConfidence then [LowConfidenceRow(k.name)] else []
  {
    assert [k][..0] == [];
  }

  /** The scan of one more keypoint adds that keypoint's row, if it has one, at the end. */
  lemma LowConfidenceRowsStep(kps: seq<Keypoint>, i: nat)
    requires i < |kps|
    ensures LowConfidenceRows(kps[..i + 1])
      == LowConfidenceRows(kps[..i]) + (if kps[i].score < LowConfidence then [LowConfidenceRow(kps[i].name)] else [])
  {
    assert kps[..i + 1][..i] == kps[..i];
  }

  /**
   * The keypoints whose weakness triggers a metric's caveat.  The side is the
   * one `!leftFacingCheck` calls "facing right": the left side when facing
   * right, the right side otherwise.
   */
  function CaveatNames(m: Metric, facingRight: bool): (names: seq<Name>)
    ensures Nose in names <==> m == HeadTilt
    ensures 2 <= |names| <= 3
  {
    match m
    case HeadTilt => if facingRight then [Nose, LeftEar] else [Nose, RightEar]
    case LegGap => [LeftAnkle, RightAnkle]
    case BodyLean => if facingRight then [LeftShoulder, LeftHip] else [RightShoulder, RightHip]
    case ChairHeight => if facingRight then [LeftHip, LeftKnee, LeftAnkle] else [RightHip, RightKnee, RightAnkle]
    case TableDistance => if facingRight then [LeftShoulder, LeftElbow, LeftWrist] else [RightShoulder, RightElbow, RightWrist]
  }

  predicate Caveat(pose: Pose, m: Metric, facingRight: bool)
  {
    exists i :: 0 <= i < |CaveatNames(m, facingRight)| && Weak(pose, CaveatNames(m, facingRight)[i])
  }

  /**
   * The caveat of each metric row looks at one side only: the left side's
   * keypoints when the subject faces right, the right side's otherwise; the
   * leg row looks at both ankles whatever the side.
   */
  lemma CaveatChecksFacingSide(pose: Pose, facingRight: bool)
    ensures Caveat(pose, HeadTilt, facingRight) <==>
      Weak(pose, Nose) || Weak(pose, if facingRight then LeftEar else RightEar)
    ensures Caveat(pose, LegGap, facingRight) <==> Weak(pose, LeftAnkle) || Weak(pose, RightAnkle)
    ensures Caveat(pose, BodyLean, facingRight) <==>
      if facingRight then Weak(pose, LeftShoulder) || Weak(pose, LeftHip)
      else Weak(pose, RightShoulder) || Weak(pose, RightHip)
    ensures Caveat(pose, ChairHeight, facingRight) <==>
      if facingRight then Weak(pose, LeftHip) || Weak(pose, LeftKnee) || Weak(pose, LeftAnkle)
      else Weak(pose, RightHip) || Weak(pose, RightKnee) || Weak(pose, RightAnkle)
    ensures Caveat(pose, TableDistance, facingRight) <==>
      if facingRight then Weak(pose, LeftShoulder) || Weak(pose, LeftElbow) || Weak(pose, LeftWrist)
      else Weak(pose, RightShoulder) || Weak(pose, RightElbow) || Weak(pose, RightWrist)
  {
    CaveatIsAnyWeak(pose, HeadTilt, facingRight);
    CaveatIsAnyWeak(pose, LegGap, facingRight);
    CaveatIsAnyWeak(pose, BodyLean, facingRight);
    CaveatIsAnyWeak(pose, ChairHeight, facingRight);
    CaveatIsAnyWeak(pose, TableDistance, facingRight);
  }

  /** The caveat holds when one of the two or three listed keypoints is weak. */
  lemma CaveatIsAnyWeak(pose: Pose, m: Metric, facingRight: bool)
    ensures var names := CaveatNames(m, facingRight);
      Caveat(pose, m, facingRight) <==>
        Weak(pose, names[0]) || Weak(pose, names[1]) || (|names| == 3 && Weak(pose, names[2]))
  {
    var names := CaveatNames(m, facingRight);
    if Caveat(pose, m, facingRight) {
      var i :| 0 <= i < |names| && Weak(pose, names[i]);
    }
  }

  /**
   * The body-lean caveat watches the side the angle does not measure: facing
   * left, the left shoulder, hip and knee give the angle while the caveat
   * looks only at the right shoulder and hip, so a weak left shoulder goes
   * unmentioned.
   */
  lemma LeanCaveatMissesMeasuredSide(atan2: Atan2Deg, pose: Pose)
    requires LeftFacing(atan2, pose)
    requires Find(pose, LeftKnee).Some? && Find(pose, RightKnee).Some?
    requires Weak(pose, LeftShoulder) && !Weak(pose, RightShoulder) && !Weak(pose, RightHip)
    ensures ShoulderHipKnee(atan2, pose)
      == Angle(atan2, Find(pose, LeftShoulder).value.At(), Find(pose, LeftHip).value.At(), Find(pose, LeftKnee).value.At())
    ensures !Caveat(pose, BodyLean, !LeftFacing(atan2, pose))
  {
    CaveatIsAnyWeak(pose, BodyLean, false);
  }

  /** A pose whose every keypoint scores at least 0.2 gets no low-confidence row and no caveat. */
  lemma ConfidentPoseHasNoWarnings(pose: Pose, m: Metric, facingRight: bool)
    requires forall k :: k in pose.keypoints ==> k.score >= LowConfidence
    ensures LowConfidenceRows(pose.keypoints) == []
    ensures !Caveat(pose, m, facingRight)
  {
    LowConfidenceRowsAreWarnings(pose.keypoints);
  }

  // ---------------------------------------------------------------------
  // Rendered text

  function FocusText(m: Metric): string
  {
    match m
    case HeadTilt => "Head tilt check"
    case LegGap => "Legs crossed check"
    case BodyLean => "Body lean check"
    case ChairHeight => "Chair height check"
    case TableDistance => "Table distancing check"
  }

  /** How a metric row's comment opens when a keypoint it watches is weak. */
  const VisibilityWarning := "Some keypoints not fully visible"

  /**
   * The comment's leading text, before the value printed to two decimals: it
   * opens with the visibility warning exactly when the caveat holds.
   */
  function CommentText(m: Metric, caveat: bool): (t: string)
    ensures VisibilityWarning <= t <==> caveat
  {
    if caveat then VisibilityWarning + CaveatTail(m) else PlainComment(m)
  }

  /** What follows the visibility warning in a caveated comment. */
  function CaveatTail(m: Metric): string
  {
    match m
    case HeadTilt => " but estimated angle is "
    case LegGap => " but estimated distance is "
    case BodyLean => " based on estimation angle is "
    case ChairHeight => " based on estimation angle is "
    case TableDistance => " but shoulder elbow wrist angle is "
  }

  /** The comment when every watched keypoint scores at least 0.2. */
  function PlainComment(m: Metric): (t: string)
    ensures 1 < |t| && t[1] != 'o'
  {
    match m
    case HeadTilt => "Current neck angle is "
    case LegGap => "Current vertical leg distance is "
    case BodyLean => "Current shoulder hip knee angle is "
    case ChairHeight => "Current hip knee foot angle is "
    case TableDistance => "Shoulder elbow wrist angle is "
  }

  /**
   * The second cell: the verdict of a metric row, "OK" or "Not OK" for the
   * feet and closing rows.
   */
  function StatusText(row: Row): (t: string)
    ensures t == "OK" <==> row == FeetRow(true) || row == ClosingRow(true)
    ensures row.MetricRow? ==> t == VerdictText(row.verdict)
  {
    match row
    case LowConfidenceRow(_) => "Low confidence "
    case MetricRow(_, v, _, _) => VerdictText(v)
    case FeetRow(planted) => if planted then "OK" else "Not OK"
    case ClosingRow(good) => if good then "OK" else "Not OK"
  }

  /** The first cell: what the row is about. */
  function SubjectText(row: Row): (t: string)
    ensures row.MetricRow? ==> t == FocusText(row.metric)
    ensures row.LowConfidenceRow? ==> t == NameText(row.name) + " Confidence"
  {
    match row
    case LowConfidenceRow(name) => NameText(name) + " Confidence"
    case MetricRow(m, _, _, _) => FocusText(m)
    case FeetRow(planted) =>
      if planted then "Feet are planted on the ground. You've got a good base."
      else "Please ensure that your feet are on the ground and ensure that your legs are straight."
    case ClosingRow(good) =>
      if good then "Seated posture is good." else "Please look at the feedback above and try to correct your posture."
  }

  /**
   * The third cell: a metric row's comment text, which the page follows with
   * the value; a fixed remark for a weak keypoint.
   */
  function RemarkText(row: Row): (t: string)
    ensures row.MetricRow? ==> (VisibilityWarning <= t <==> row.caveat)
    ensures row.LowConfidenceRow? ==> t == "Corresponding point is not fully visible"
  {
    match row
    case LowConfidenceRow(_) => "Corresponding point is not fully visible"
    case MetricRow(m, _, caveat, _) => CommentText(m, caveat)
    case FeetRow(_) => "-"
    case ClosingRow(_) => "-"
  }

  /** The three cells of a row as text. */
  function Cells(row: Row): (cells: seq<string>)
    ensures |cells| == 3
    ensures cells[1] == "OK" <==> row == FeetRow(true) || row == ClosingRow(true)
    ensures row.MetricRow? ==> cells[0] == FocusText(row.metric) && cells[1] == VerdictText(row.verdict)
    ensures row.LowConfidenceRow? ==> cells[0] == NameText(row.name) + " Confidence"
    ensures row.MetricRow? ==> cells[2] == CommentText(row.metric, row.caveat)
    ensures row.MetricRow? ==> (VisibilityWarning <= cells[2] <==> row.caveat)
    ensures row.LowConfidenceRow? ==> cells[2] == "Corresponding point is not fully visible"
  {
    [SubjectText(row), StatusText(row), RemarkText(row)]
  }

  // ---------------------------------------------------------------------
  // The table

  /** `feedback.every(item => item.props.style && item.props.style.color === 'green')`. */
  predicate AllGreen(rows: seq<Row>)
  {
    forall i :: 0 <= i < |rows| ==> RowStyle(rows[i]) == Some(Green)
  }

  /** The aggregate check passes only on an empty table; any row fails it, since no `<tr>` is styled. */
  lemma AggregateNeedsEmptyTable(rows: seq<Row>)
    ensures AllGreen(rows) <==> rows == []
  {
    if rows != [] {
      assert RowStyle(rows[0]) == None;
    }
  }

  /** The keypoint scan of `renderPoseFeedback`: a row for each keypoint scoring below 0.2, in order. */
  method ScanLowConfidence(pose: Pose) returns (feedback: seq<Row>)
    ensures feedback == LowConfidenceRows(pose.keypoints)
  {
    feedback := [];
    var i := 0;
    while i < |pose.keypoints|
      invariant 0 <= i <= |pose.keypoints|
      invariant feedback == LowConfidenceRows(pose.keypoints[..i])
    {
      var keypoint := pose.keypoints[i];
      LowConfidenceRowsStep(pose.keypoints, i);
      if keypoint.score < LowConfidence {
        feedback := feedback + [LowConfidenceRow(keypoint.name)];
      }
      i := i + 1;
    }
    assert pose.keypoints[..i] == pose.keypoints;
  }

  /**
   * `renderPoseFeedback`: the rows of the table, in the order they are pushed:
   * the low-confidence rows, the five metric rows with their verdicts, caveats
   * and values, the feet row, and a closing row that never reports a good
   * posture, because the aggregate check it rests on cannot pass.
   */
  method RenderPoseFeedback(atan2: Atan2Deg, pose: Pose) returns (feedback: seq<Row>)
    ensures var facingRight := !LeftFacing(atan2, pose);
      feedback == LowConfidenceRows(pose.keypoints) + [
        MetricRow(HeadTilt, NeckVerdict(NeckTilt(atan2, pose)), Caveat(pose, HeadTilt, facingRight),
                  Num(NeckTilt(atan2, pose))),
        MetricRow(LegGap, LegsVerdict(LegCross(pose)), Caveat(pose, LegGap, facingRight), Num(LegCross(pose))),
        MetricRow(BodyLean, BodyLeanVerdict(ShoulderHipKnee(atan2, pose)), Caveat(pose, BodyLean, facingRight),
                  Num(ShoulderHipKnee(atan2, pose))),
        MetricRow(ChairHeight, ChairVerdict(HipKneeFoot(atan2, pose)), Caveat(pose, ChairHeight, facingRight),
                  HipKneeFoot(atan2, pose)),
        MetricRow(TableDistance, TableVerdict(ShoulderElbowWrist(atan2, pose)), Caveat(pose, TableDistance, facingRight),
                  Num(ShoulderElbowWrist(atan2, pose))),
        FeetRow(FeetPlanted(pose))]
      + [ClosingRow(false)]
  {
    var isFacingRight := !LeftFacing(atan2, pose);
    var lowRows := ScanLowConfidence(pose);
    var neckTilt := NeckTilt(atan2, pose);
    var legGap := LegCross(pose);
    var lean := ShoulderHipKnee(atan2, pose);
    var knee := HipKneeFoot(atan2, pose);
    var elbow := ShoulderElbowWrist(atan2, pose);
    var rows := [
      MetricRow(HeadTilt, NeckVerdict(neckTilt), Caveat(pose, HeadTilt, isFacingRight), Num(neckTilt)),
      MetricRow(LegGap, LegsVerdict(legGap), Caveat(pose, LegGap, isFacingRight), Num(legGap)),
      MetricRow(BodyLean, BodyLeanVerdict(lean), Caveat(pose, BodyLean, isFacingRight), Num(lean)),
      MetricRow(ChairHeight, ChairVerdict(knee), Caveat(pose, ChairHeight, isFacingRight), knee),
      MetricRow(TableDistance, TableVerdict(elbow), Caveat(pose, TableDistance, isFacingRight), Num(elbow)),
      FeetRow(FeetPlanted(pose))];
    feedback := lowRows + rows;
    var isPositiveFeedback := AllGreen(feedback);
    AggregateNeedsEmptyTable(feedback);
    feedback := feedback + [ClosingRow(isPositiveFeedback)];
  }

  /**
   * Detection scores only change the comments: two poses with the same
   * keypoint names and coordinates get the same verdict in every metric row.
   */
  lemma VerdictsIgnoreScores(atan2: Atan2Deg, p: Pose, q: Pose)
    requires SameGeometry(p, q)
    ensures NeckVerdict(NeckTilt(atan2, p)) == NeckVerdict(NeckTilt(atan2, q))
    ensures LegsVerdict(LegCross(p)) == LegsVerdict(LegCross(q))
    ensures BodyLeanVerdict(ShoulderHipKnee(atan2, p)) == BodyLeanVerdict(ShoulderHipKnee(atan2, q))
    ensures ChairVerdict(HipKneeFoot(atan2, p)) == ChairVerdict(HipKneeFoot(atan2, q))
    ensures TableVerdict(ShoulderElbowWrist(atan2, p)) == TableVerdict(ShoulderElbowWrist(atan2, q))
    ensures FeetPlanted(p) == FeetPlanted(q)
  {
    MetricsIgnoreScores(atan2, p, q);
  }
}
