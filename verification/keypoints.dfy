/**
 * Keypoints, poses and the find-by-name lookup that every posture feature
 * starts from.  A pose is the ordered list of named, scored landmarks that
 * the pose-estimation model produced for one body; a name may be missing.
 */
module Keypoints {

  datatype Option<+T> = None | Some(value: T)

  /** The seventeen body-part identifiers of the pose model. */
  datatype Name =
    | Nose
    | LeftEye | RightEye
    | LeftEar | RightEar
    | LeftShoulder | RightShoulder
    | LeftElbow | RightElbow
    | LeftWrist | RightWrist
    | LeftHip | RightHip
    | LeftKnee | RightKnee
    | LeftAnkle | RightAnkle

  /** The identifier as the pose model spells it. */
  function NameText(n: Name): string
  {
    match n
    case Nose => "nose"
    case LeftEye => "left_eye"
    case RightEye => "right_eye"
    case LeftEar => "left_ear"
    case RightEar => "right_ear"
    case LeftShoulder => "left_shoulder"
    case RightShoulder => "right_shoulder"
    case LeftElbow => "left_elbow"
    case RightElbow => "right_elbow"
    case LeftWrist => "left_wrist"
    case RightWrist => "right_wrist"
    case LeftHip => "left_hip"
    case RightHip => "right_hip"
    case LeftKnee => "left_knee"
    case RightKnee => "right_knee"
    case LeftAnkle => "left_ankle"
    case RightAnkle => "right_ankle"
  }

  /** A point in image pixel coordinates; the origin is the top-left corner, y grows downwards. */
  datatype Point = Point(x: real, y: real)

  datatype Keypoint = Keypoint(name: Name, x: real, y: real, score: real)
  {
    function At(): Point { Point(x, y) }
  }

  datatype Pose = Pose(keypoints: seq<Keypoint>)

  /** Confidence below this score marks a keypoint as not fully visible. */
  const LowConfidence: real := 0.2

  /** Index of the first keypoint called `name`, as `Array.prototype.find` scans. */
  function FirstIndex(kps: seq<Keypoint>, name: Name): (r: Option<nat>)
    ensures r.Some? ==> r.value < |kps| && kps[r.value].name == name
  {
    if |kps| == 0 then None
    else if kps[0].name == name then Some(0)
    else
      match FirstIndex(kps[1..], name)
      case None => None
      case Some(i) => Some(i + 1)
  }

  /** The scan stops at the first match and comes back empty only when no keypoint has the name. */
  lemma {:induction false} FirstIndexIsFirst(kps: seq<Keypoint>, name: Name)
    ensures FirstIndex(kps, name).Some? ==> forall j :: 0 <= j < FirstIndex(kps, name).value ==> kps[j].name != name
    ensures FirstIndex(kps, name).None? <==> forall j :: 0 <= j < |kps| ==> kps[j].name != name
  {
    if |kps| > 0 && kps[0].name != name {
      FirstIndexIsFirst(kps[1..], name);
      assert forall j :: 1 <= j < |kps| ==> kps[j] == kps[1..][j - 1];
    }
  }

  /** `pose.keypoints.find(k => k.name === name)`; `None` stands for `undefined`. */
  function Find(pose: Pose, name: Name): (r: Option<Keypoint>)
    ensures r.Some? ==> r.value.name == name
  {
    match FirstIndex(pose.keypoints, name)
    case None => None
    case Some(i) => Some(pose.keypoints[i])
  }

  /** The lookup returns a keypoint of the pose, and `undefined` exactly when no keypoint has the name. */
  lemma FindMeaning(pose: Pose, name: Name)
    ensures Find(pose, name).Some? ==> Find(pose, name).value in pose.keypoints
    ensures Find(pose, name).None? <==> forall k :: k in pose.keypoints ==> k.name != name
    ensures Find(pose, name).Some? ==>
      exists i :: 0 <= i < |pose.keypoints| && pose.keypoints[i] == Find(pose, name).value
        && forall j :: 0 <= j < i ==> pose.keypoints[j].name != name
  {
    FirstIndexIsFirst(pose.keypoints, name);
  }

  /** `pose.keypoints.some(k => k.name === name && k.score < 0.2)`: any keypoint of that name is weak. */
  predicate Weak(pose: Pose, name: Name)
  {
    exists i :: 0 <= i < |pose.keypoints| && pose.keypoints[i].name == name && pose.keypoints[i].score < LowConfidence
  }

  /** Two poses that list the same names at the same positions, differing at most in scores. */
  predicate SameGeometry(p: Pose, q: Pose)
  {
    && |p.keypoints| == |q.keypoints|
    && forall i :: 0 <= i < |p.keypoints| ==>
         p.keypoints[i].name == q.keypoints[i].name && p.keypoints[i].At() == q.keypoints[i].At()
  }

  /** The lookup depends only on the names: poses that differ only in scores find keypoints at the same place. */
  lemma {:induction false} FindIgnoresScores(p: Pose, q: Pose, name: Name)
    requires SameGeometry(p, q)
    ensures Find(p, name).Some? <==> Find(q, name).Some?
    ensures Find(p, name).Some? ==>
      Find(p, name).value.x == Find(q, name).value.x && Find(p, name).value.y == Find(q, name).value.y
  {
    FirstIndexIgnoresScores(p.keypoints, q.keypoints, name);
  }

  lemma {:induction false} FirstIndexIgnoresScores(a: seq<Keypoint>, b: seq<Keypoint>, name: Name)
    requires |a| == |b|
    requires forall i :: 0 <= i < |a| ==> a[i].name == b[i].name
    ensures FirstIndex(a, name) == FirstIndex(b, name)
  {
    if |a| > 0 && a[0].name != name {
      FirstIndexIgnoresScores(a[1..], b[1..], name);
    }
  }
}
