# Posture and grip checks of downwarddogdetector, in Dafny

downwarddogdetector is a React application. It reads keypoints from a pose
estimation model and grades a seated posture in a feedback table. It grades a
hand grip from hand landmarks. It also preprocesses images with a grayscale
pass and a dilation. This project models the deterministic core of those
features and proves what they promise.

- `keypoints.dfy` (module `Keypoints`):
  - poses and named, scored keypoints;
  - the find-by-name lookup that every extractor starts from, which returns
    the first keypoint of that name or `undefined`.
- `calculation.dfy` (module `Calculation`): the extractors of
  `src/utils/calculationUtils.js`:
  - the three-point joint angle;
  - the two facing-direction checks;
  - the neck point and the neck tilt;
  - the shoulder-hip-knee, hip-knee-foot and shoulder-elbow-wrist angles;
  - the ankle gap and the planted-feet check.

  Each returns its fallback value (`0`, `false` or `null`) when a keypoint it
  needs is missing. `Math.atan2` in degrees is a parameter of type `Atan2Deg`:
  any function whose values lie in [-180, 180].
- `feedback.dfy` (module `Feedback`): the table that `renderPoseFeedback` in
  `src/App.js` builds:
  - a low-confidence row for each keypoint scoring below 0.2;
  - five metric rows, each with a verdict band and a comment that carries a
    caveat when keypoints of the side `!leftFacingCheck` selects are weak.
    For body lean and chair height that is the side opposite to the one the
    metric measures. The table distance picks its arm with `rightFacingCheck`
    instead, so when both checks say the subject faces right, the right arm
    is measured and the caveat watches the left arm;
  - the feet row;
  - the closing row.

  The keypoint scan is a loop (`ScanLowConfidence`), and the table is an
  accumulated sequence of structured rows.
- `hand_pose.dfy` (module `HandPose`): `handPositionEvaluator`. It reports
  whether the wrist is flexed and whether the grip is ideal, a claw or
  normal, in that order of precedence, and produces the message text.
- `pixels.dfy` (module `Pixels`): the in-place loops of
  `src/utils/preprocessImage.js` over an RGBA byte array:
  - the grayscale loop, which also serves as "edge detection";
  - the dilation with a 3x3 cross kernel, which reads from a snapshot.

  Each loop is proved against a specification function (`Grayscaled`,
  `Dilated`), and the properties of the transform are proved about those
  functions.

## Model

| member | source | states |
|---|---|---|
| Keypoints.FirstIndex | src/utils/calculationUtils.js:3-4 | the index the scan returns holds a keypoint with the requested name |
| Keypoints.FirstIndexIsFirst | src/utils/calculationUtils.js:3-4 | `find` stops at the first match: no earlier keypoint has the name; there is no match exactly when no keypoint has the name |
| Keypoints.Find | src/utils/calculationUtils.js:3-4 | a found keypoint has the requested name |
| Keypoints.FindMeaning | src/utils/calculationUtils.js:3-4 | the lookup returns a keypoint of the pose, the first one with that name; it returns `undefined` exactly when no keypoint has the name |
| Keypoints.FindIgnoresScores | src/utils/calculationUtils.js:3-4 | poses that differ only in scores find the same keypoint presence and the same coordinates |
| Keypoints.FirstIndexIgnoresScores | src/utils/calculationUtils.js:3-4 | the first-match index depends on the names alone |
| Calculation.Abs | src/utils/calculationUtils.js:11 | `Math.abs`: non-negative, and equal to the argument or its negation |
| Calculation.Trunc | src/utils/calculationUtils.js:70 | truncation towards zero leaves a gap below one with the operand's sign |
| Calculation.JsRem | src/utils/calculationUtils.js:70 | JavaScript's `%` with a positive divisor lies in [0, m) for a non-negative dividend and in (-m, 0] for a negative one |
| Calculation.JsRemIsTruncatedRemainder | src/utils/calculationUtils.js:70 | with a positive divisor, `x % m` is the one number that differs from `x` by a whole multiple of `m`, has the sign of `x` and is smaller than `m` in size |
| Calculation.FoldHalfTurn | src/utils/calculationUtils.js:70 | `(a + 180) % 180` with JavaScript's truncating remainder lands in [0, 180); negative angles gain 180, and 180 folds to 0 |
| Calculation.Angle | src/utils/calculationUtils.js:152-159 | the joint angle always lies in [0, 180] |
| Calculation.AngleSymmetric | src/utils/calculationUtils.js:154-157 | swapping the two outer points leaves the angle unchanged |
| Calculation.AngleOfOneRay | src/utils/calculationUtils.js:154-157 | two identical rays make a zero angle |
| Calculation.VerticalGap | src/utils/calculationUtils.js:11 | the ankle distance is non-negative, zero exactly at equal heights, and one of the two signed differences |
| Calculation.VerticalGapSymmetric | src/utils/calculationUtils.js:11 | the distance does not depend on which ankle comes first |
| Calculation.Tilt | src/utils/calculationUtils.js:172-178 | the tilt of a shoulder or hip line lies in [-180, 180] |
| Calculation.RightFacing | src/utils/calculationUtils.js:40-53 | defined as: all four ears and knees present, the right ear's x greater than the right knee's and the left ear's x greater than the left knee's |
| Calculation.LeftFacing | src/utils/calculationUtils.js:160-182 | defined as: both shoulders and hips present, and the shoulder line's tilt strictly greater than the hip line's |
| Calculation.RightFacingFallsBack | src/utils/calculationUtils.js:47-49 | with an ear or a knee missing, the ear/knee check is false |
| Calculation.LeftFacingFallsBack | src/utils/calculationUtils.js:167-169 | with a shoulder or a hip missing, the tilt check is false |
| Calculation.LeftFacingNeedsStrictTilt | src/utils/calculationUtils.js:172-181 | parallel shoulder and hip lines never read as facing left: the comparison is strict |
| Calculation.Midpoint | src/utils/calculationUtils.js:96-101 | the neck point is equidistant from the ear and the shoulder on both axes |
| Calculation.NeckPoint | src/utils/calculationUtils.js:80-106 | `null` exactly when an ear or a shoulder is missing; otherwise the left ear/shoulder midpoint when the left ear's x is smaller, and the right side's midpoint otherwise, including equal x |
| Calculation.NeckDirection | src/utils/calculationUtils.js:63-70 | the direction from the nose to the neck point, folded into [0, 180) |
| Calculation.NeckTilt | src/utils/calculationUtils.js:54-79 | 0 when the nose or the neck point is missing; the folded direction in [0, 180) when not facing right; `180 - direction`, in (0, 180], when facing right |
| Calculation.ShoulderHipKnee | src/utils/calculationUtils.js:128-151 | in [0, 180]; 0 when any of the six keypoints is missing; otherwise the left-side angle exactly when the tilt check says facing left, and the right-side angle otherwise |
| Calculation.HipKneeFoot | src/utils/calculationUtils.js:107-127 | `false` exactly when a hip, knee or ankle is missing; otherwise an angle in [0, 180], on the side the tilt check picks |
| Calculation.ShoulderElbowWrist | src/utils/calculationUtils.js:17-39 | in [0, 180]; when the ear/knee check says facing right, the right elbow angle if the right shoulder, elbow and wrist are present and 0 if one is missing; otherwise the same with the left arm |
| Calculation.LegCross | src/utils/calculationUtils.js:1-16 | non-negative; 0 when an ankle is missing; otherwise the vertical ankle distance, symmetric in the two ankles |
| Calculation.FeetPlanted | src/utils/calculationUtils.js:183-197 | defined as the planted-feet test applied to the lookups of both ankles, hips and knees |
| Calculation.FeetPlantedAt | src/utils/calculationUtils.js:192-195 | defined as: all six keypoints present, each ankle's y greater than its hip's and its knee's, and the ankles' y within 30 of each other |
| Calculation.FeetPlantedAtReadsHeights | src/utils/calculationUtils.js:192-195 | the planted-feet test reads only which keypoints are present and their heights |
| Calculation.FeetPlantedMeansKneeMeasured | src/utils/calculationUtils.js:183-197 | planted feet imply that all six leg keypoints are present, so the chair angle is a number and the ankle gap is under 30 |
| Calculation.LeftFacingIgnoresScores | src/utils/calculationUtils.js:160-182 | the tilt check is unaffected by confidence scores |
| Calculation.RightFacingIgnoresScores | src/utils/calculationUtils.js:40-53 | the ear/knee check is unaffected by confidence scores |
| Calculation.NeckPointIgnoresScores | src/utils/calculationUtils.js:80-106 | the neck point is unaffected by confidence scores |
| Calculation.NeckTiltIgnoresScores | src/utils/calculationUtils.js:54-79 | the neck tilt is unaffected by confidence scores |
| Calculation.ShoulderHipKneeIgnoresScores | src/utils/calculationUtils.js:128-151 | the hip angle is unaffected by confidence scores |
| Calculation.HipKneeFootIgnoresScores | src/utils/calculationUtils.js:107-127 | the knee angle is unaffected by confidence scores |
| Calculation.ShoulderElbowWristIgnoresScores | src/utils/calculationUtils.js:17-39 | the elbow angle is unaffected by confidence scores |
| Calculation.LegCrossIgnoresScores | src/utils/calculationUtils.js:1-16 | the ankle gap is unaffected by confidence scores |
| Calculation.FeetPlantedIgnoresScores | src/utils/calculationUtils.js:183-197 | the planted-feet check is unaffected by confidence scores |
| Calculation.MetricsIgnoreScores | src/utils/calculationUtils.js:1-197 | every extractor computes from names and coordinates alone |
| Calculation.ToNumber | src/App.js:159-161 | defined as the number the relational operators compare: a number is itself, the `false` fallback is 0 |
| Feedback.VerdictText | src/App.js:90-194 | defined as the source's verdict strings, each longer than "OK" |
| Feedback.NeckVerdict | src/App.js:89-93 | "Downwards tilt" exactly above 50, "Upwards tilt" exactly below 10, "Neutral" on [10, 50] inclusive |
| Feedback.LegsVerdict | src/App.js:115 | "No crossing of legs" exactly below 10, and "Legs crossed" otherwise |
| Feedback.BodyLeanVerdict | src/App.js:130-134 | "Leaning forward" exactly below 70, "Leaning back" exactly above 110, "Correct posture" on [70, 110] |
| Feedback.ChairVerdict | src/App.js:159-163 | the same bands over the numeric value; the `false` fallback compares as 0 and reads "Chair too low" |
| Feedback.TableVerdict | src/App.js:190-194 | "Table too close to body" exactly below 90, "Table too far from body" exactly above 120, "Correct table distance" on [90, 120] |
| Feedback.MissingKeypointsGiveLowBands | src/App.js:89-194 | under each extractor's full fallback condition the verdict is the bottom band: a missing nose or neck point gives "Upwards tilt", a missing ankle "No crossing of legs", any of the six shoulders, hips and knees "Leaning forward", any of the six hips, knees and ankles "Chair too low", and a missing keypoint of the measured arm "Table too close to body" |
| Feedback.LowConfidenceRows | src/App.js:73-83 | the scan produces no more rows than there are keypoints |
| Feedback.LowConfidenceRowsCount | src/App.js:73-83 | there are exactly as many rows as keypoints scoring below 0.2, so two weak keypoints with the same name give two rows |
| Feedback.LowConfidenceRowsMembers | src/App.js:73-83 | a row is in the scan's output exactly when it warns about a keypoint scoring below 0.2 |
| Feedback.LowConfidenceRowsListWeakNames | src/App.js:73-83 | a name gets a low-confidence row exactly when some keypoint of that name is weak |
| Feedback.LowConfidenceRowsAreWarnings | src/App.js:73-83 | every scanned row is a low-confidence row; there are none exactly when every score is at least 0.2 |
| Feedback.LowConfidenceRowsConcat | src/App.js:73-83 | scanning two runs of keypoints gives the first run's rows followed by the second's, so the rows keep keypoint order and repeat a name as often as it is weak |
| Feedback.LowConfidenceRowsOfOne | src/App.js:74-82 | one keypoint gives a row naming it exactly when it scores below 0.2 |
| Keypoints.Weak | src/App.js:97-98 | defined as `keypoints.some(k => k.name === name && k.score < 0.2)`: some keypoint of that name scores below 0.2 |
| Feedback.Caveat | src/App.js:97-211 | defined as: some keypoint listed for the metric and side is weak |
| Feedback.CaveatNames | src/App.js:97-211 | only the head-tilt caveat looks at the nose; each caveat looks at two or three keypoints |
| Feedback.CaveatChecksFacingSide | src/App.js:97-211 | facing right, the caveats check the nose and left ear, the left shoulder and hip, the left hip, knee and ankle, and the left shoulder, elbow and wrist; otherwise they check the right-side counterparts; the leg caveat checks both ankles |
| Feedback.CaveatIsAnyWeak | src/App.js:97-211 | a caveat is shown exactly when one of its listed keypoints is weak |
| Feedback.LeanCaveatMissesMeasuredSide | src/App.js:138-149 | facing left, the body-lean angle is measured on the left side while a weak left shoulder raises no caveat, since the caveat looks at the right side |
| Feedback.ConfidentPoseHasNoWarnings | src/App.js:73-211 | when every score is at least 0.2, there are no low-confidence rows and no caveats |
| Feedback.SubjectText | src/App.js:77-241 | a metric row's first cell is its check's name; a low-confidence row's is the keypoint name followed by " Confidence" |
| Feedback.StatusText | src/App.js:78-250 | the second cell reads "OK" exactly on a feet row with planted feet or a good closing row; a metric row's is its verdict |
| Feedback.CommentText | src/App.js:99-210 | a metric's comment opens with "Some keypoints not fully visible" exactly when its caveat holds |
| Feedback.RemarkText | src/App.js:79-210 | the third cell of a metric row opens with the visibility warning exactly when the row's caveat holds; a low-confidence row's reads "Corresponding point is not fully visible" |
| Feedback.Cells | src/App.js:76-252 | every row renders as three cells; the second reads "OK" exactly on a feet row with planted feet or a good closing row; a metric row shows its check's name, its verdict and its comment, which opens with the visibility warning exactly when the caveat holds; a low-confidence row names the keypoint and carries the fixed remark |
| Feedback.RowStyle | src/App.js:236 | defined as no colour for every row: no pushed `<tr>` carries a `style` prop |
| Feedback.AllGreen | src/App.js:236 | defined as `feedback.every(item => item.props.style && item.props.style.color === 'green')` |
| Feedback.AggregateNeedsEmptyTable | src/App.js:236 | the all-green test passes only on an empty table, because no pushed `<tr>` has a style |
| Feedback.ScanLowConfidence | src/App.js:73-83 | the `forEach` loop pushes exactly `LowConfidenceRows`, whose order and multiplicity `LowConfidenceRowsConcat` and `LowConfidenceRowsOfOne` give |
| Feedback.RenderPoseFeedback | src/App.js:69-254 | the table is the low-confidence rows, then the five metric rows with their verdicts, caveats (side from `!leftFacingCheck`) and values, then the feet row (OK exactly when the feet are planted), then a closing row that is never "Seated posture is good." |
| Feedback.VerdictsIgnoreScores | src/App.js:89-233 | confidence scores change only comments, never a verdict or the feet row |
| HandPose.WristFlexed | src/utils/handPoseDetection.js:28-31 | defined as: the wrist's y is below every other landmark's y minus the buffer |
| HandPose.KnucklesHigher | src/utils/handPoseDetection.js:34-38 | defined as: for each of the five knuckle/tip pairs, the knuckle's y plus the buffer is below the tip's y |
| HandPose.FingersHigher | src/utils/handPoseDetection.js:41 | defined as: for some knuckle/tip pair, the tip's y is below the knuckle's y plus the buffer |
| HandPose.WristAloneIsFlexed | src/utils/handPoseDetection.js:31 | the wrist test of line 31 taken on its own: with no landmark besides the wrist it is vacuously true (the whole evaluation throws on such input at line 38) |
| HandPose.KnucklesAndFingersExclusive | src/utils/handPoseDetection.js:38-41 | `knucklesHigher` and `fingersHigher` are never both true |
| HandPose.Evaluate | src/utils/handPoseDetection.js:25-52 | wrist flexed exactly when the wrist is more than `buffer` above every other landmark; ideal exactly when every knuckle is more than `buffer` above its tip; claw exactly when some tip is above its buffered knuckle; normal exactly when no tip is above its buffered knuckle and one is level with it |
| HandPose.NormalMeansLevelTip | src/utils/handPoseDetection.js:38-50 | when both finger checks fail, every tip is at or below its buffered knuckle and at least one is exactly level |
| HandPose.WristFlexedIgnoresVerticalShift | src/utils/handPoseDetection.js:28-31 | moving the whole hand vertically does not change the wrist check |
| HandPose.EvaluateIgnoresVerticalShift | src/utils/handPoseDetection.js:25-52 | moving the whole hand vertically does not change the reading |
| HandPose.IdealNeedsRoomForBuffer | src/utils/handPoseDetection.js:38-41 | a grip ideal at a larger buffer is ideal at a smaller one, so a larger buffer can turn an ideal grip into a non-ideal one, never the reverse; a claw at a smaller buffer stays a claw at a larger one |
| HandPose.Label | src/utils/handPoseDetection.js:44-50 | the message is the wrist status, then ", ", then the grip text |
| HandPose.LabelInjective | src/utils/handPoseDetection.js:44-50 | different readings never produce the same message |
| Pixels.ToUint8Clamp | src/utils/preprocessImage.js:20-22 | a store into a `Uint8ClampedArray` clamps to [0, 255] and lands within half a unit of the value |
| Pixels.StoredAverage | src/utils/preprocessImage.js:19-22 | defined as the clamped store of `(r + g + b) / 3` |
| Pixels.StoredAverageIsRoundedThird | src/utils/preprocessImage.js:19-22 | the stored average of three bytes is `(r + g + b + 1) / 3` in integer division, because a third never ends in exactly one half |
| Pixels.RoundedThirdBetweenChannels | src/utils/preprocessImage.js:19 | the stored average lies between the smallest and the largest channel, and a gray pixel keeps its value |
| Pixels.RoundedThirdOfGray | src/utils/preprocessImage.js:19-22 | a pixel with equal channels stores its own value |
| Pixels.Grayscaled | src/utils/preprocessImage.js:18-23 | the grayscale pass keeps the buffer's length |
| Pixels.GrayscaledPixel | src/utils/preprocessImage.js:18-23 | every pixel's R, G and B become the stored average of the original R, G and B, and alpha is kept |
| Pixels.GrayscaledIsGray | src/utils/preprocessImage.js:18-23 | after the pass every pixel is gray |
| Pixels.GrayscaledFixesGray | src/utils/preprocessImage.js:48-53 | the pass leaves a gray buffer unchanged |
| Pixels.GrayscaledIdempotent | src/utils/preprocessImage.js:48-53 | the second pass, run as edge detection, changes nothing |
| Pixels.GrayscaledStep | src/utils/preprocessImage.js:19-22 | handling the pixel at byte `i` extends the grayscaled prefix by one pixel |
| Pixels.GrayPixel | src/utils/preprocessImage.js:19-22 | the loop body writes the stored average to bytes `i`, `i + 1` and `i + 2` and nothing else |
| Pixels.Grayscale | src/utils/preprocessImage.js:18-23 | the loop leaves the buffer equal to `Grayscaled` of its old contents |
| Pixels.ApplyEdgeDetection | src/utils/preprocessImage.js:44-56 | the edge-detection loop is the same transform |
| Pixels.IdxInBounds | src/utils/preprocessImage.js:81 | every byte index `(y * width + x) * 4 + c` of a pixel in the image lies within the buffer |
| Pixels.IdxInjective | src/utils/preprocessImage.js:85-88 | distinct pixels and channels occupy distinct bytes |
| Pixels.CrossMax | src/utils/preprocessImage.js:65-69 | the cross maximum is at least the red value of the pixel and of each orthogonal neighbour, and equals one of them |
| Pixels.RunningMaxIsCrossMax | src/utils/preprocessImage.js:76-84 | over all nine kernel cells the running maximum is the cross maximum, because the corner weights contribute 0 |
| Pixels.KernelProductAt | src/utils/preprocessImage.js:78-82 | the index the inner loop reads is within the buffer, and the product there is the kernel weight times the red value under it |
| Pixels.KernelMax | src/utils/preprocessImage.js:75-84 | the two inner loops compute the cross maximum of the snapshot |
| Pixels.Dilated | src/utils/preprocessImage.js:73-90 | dilation keeps the buffer's length |
| Pixels.DilatedPixel | src/utils/preprocessImage.js:85-88 | each byte of the dilated buffer is the new value of its own pixel and channel |
| Pixels.DilatedKeepsBorderAndAlpha | src/utils/preprocessImage.js:73-74 | border pixels and alpha bytes are unchanged |
| Pixels.DilatedSmallImageUnchanged | src/utils/preprocessImage.js:73-74 | an image narrower or shorter than the kernel is unchanged |
| Pixels.DilatedInterior | src/utils/preprocessImage.js:75-88 | an interior pixel's R, G and B become the cross maximum and never fall below its old red value |
| Pixels.DilatedMonotone | src/utils/preprocessImage.js:73-90 | a buffer that is brighter byte for byte stays brighter after dilation |
| Pixels.FrontierStep | src/utils/preprocessImage.js:85-88 | writing one interior pixel moves the processed region one pixel on |
| Pixels.FrontierNextRow | src/utils/preprocessImage.js:74 | the skipped pixels at a row's end are border pixels, so processing continues at the next row |
| Pixels.DilateRow | src/utils/preprocessImage.js:74-89 | one pass of the `x` loop dilates row `y` and leaves later rows untouched |
| Pixels.ApplyDilation | src/utils/preprocessImage.js:58-93 | the y-then-x loops leave the buffer equal to `Dilated` of the snapshot, which is defined pixel by pixel from the snapshot alone |
| Pixels.Preprocess | src/utils/preprocessImage.js:15-30 | grayscale, edge detection and dilation together give the dilation of the grayscaled input |

## Left out

- Floating point: coordinates, scores and angles are exact reals. `Math.atan2 * 180 / Math.PI` is the parameter `atan2`, which is known only to lie in [-180, 180]. The closed range also admits -180, which IEEE `-0` arguments can produce. Rounding, NaN and infinities are not modelled.
- Calculation.Angle: states the range [0, 180] only; the actual angle depends on the values of `atan2`, which are not modelled.
- The model-inference wrappers (`movenetUtils.js`, `objectDetection.js`, `objectUtils.js`, the detector call in `handPoseDetection.js`, `TransferLearningApp.js`) and `fileReader.js` are not part of this model: they are third-party models, asynchronous I/O, timers and React state.
- The outer `preprocessImage` is not modelled: image loading, canvas `getImageData`/`putImageData` and the JPEG `toDataURL`. Only the byte loops are modelled, on an `array` of bytes. Canvas colour conversion (premultiplied alpha) is also left out.
- JSX markup, React keys, styles and the rest of the page are not modelled. A row is a value describing what its cells show. The comment's number formatting with `toFixed(2)` is not modelled: a metric row carries the value itself. On the `false` chair fallback, `toFixed` would throw during rendering, and that crash is not modelled.
- Keypoint names are an enumeration of the model's seventeen names, so a keypoint with an unknown name cannot be written. The 0.2 threshold is an exact real.
- `feetPlantedCheck` returns `undefined` when a keypoint is missing and `false` when a comparison fails, through the `&&` chain. Only its truth value matters to its caller, so it is a predicate.
- HandPose.Evaluate: requires at least 21 landmarks, as many as the hand detector reports. On a shorter array the source throws or returns a reading depending on the values, because `every` and `some` stop at the first decisive landmark; fewer than 5 landmarks always throw, at line 28 when there are none and at line 38 otherwise. None of that is modelled.
- Pixels.Grayscale: requires the buffer length to be a multiple of 4, which every canvas `ImageData` satisfies. The specification function `Grayscaled` is meant for such buffers only. It takes whole pixels off the end, so on other lengths it keeps the leading `|s| % 4` bytes and is out of step with the source's loop, which starts its pixels at byte 0.
- Pixels.ApplyDilation: the snapshot `tempData` is a sequence value rather than a second typed array. The source's single body of four nested loops is split into `ApplyDilation`, `DilateRow` and `KernelMax`, and the grayscale body is split out as `GrayPixel`.
- Feedback.RenderPoseFeedback: the closing row is appended once at the end rather than pushed in two branches. The model proves that its "good" flag is always false.
