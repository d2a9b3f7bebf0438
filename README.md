# Stick-figure animation engine, modelled in Dafny

This project models the computational core of a stick-figure keyframe
animator. It covers five parts.

- **Interpolator family.** A factory builds one of six interpolators from a
  mode name. It checks the time range and the shapes, normalises time into
  [0, 1] and blends two parameter vectors with a per-mode easing weight.
- **Pose layout.** Joint-space and Cartesian poses are flattened into
  numeric arrays and rebuilt from them. The limb-length ratio table is
  included.
- **Animation screen.** The baker turns keyframes into per-frame
  configurations at 30 frames per second: frame count, evenly spaced frame
  times, the frames of each segment, boundary de-duplication and the nearest
  frame of each keyframe. The playback cursor covers `searchsorted`, seek,
  skip, previous/next keyframe and frame advance. The boundary
  de-duplication comes in two rules: `AsWritten`, the program's, and
  `BoundaryOnly`, the corrected one of the findings below. The screen is
  built with a rule, so the program is the screen built with `AsWritten`.
- **Geometry.** Homogeneous 2D transforms and two-link forward kinematics;
  the y-axis view rotation with viewport scaling, and its back-projection.
- **Editors.** The keyframe editor keeps a frame list and a cursor. Both
  editors propagate drags: the feet pull the pelvis, the pelvis carries the
  shoulder and the shoulder carries the hands.

All quantities are Dafny `real`. Cosine, sine, arcsine and powers of two
come in as a `Math` value of total functions. Each lemma assumes only the
identities it needs, such as `cos 0 = 1`, `cos pi = -1` or
`cos^2 + sin^2 = 1`. The conversion `cart_to_joint_config` is not part of
this model, so the baker takes it as a parameter.

Files, one module each:

- `wrappers.dfy`: `Option` and `Result`.
- `real_math.dfy`: the trigonometry parameter, clip/min/max and small
  real-arithmetic lemmas.
- `interpolation.dfy`: the interpolators and the factory.
- `stick_config.dfy`: the pose records and their numeric layouts.
- `linear_algebra.dfy`: 3x3 matrices.
- `forward_kinematics.dfy`, `projection2d.dfy`: the geometry.
- `baker.dfy`: the baker as functions on values. This is the specification
  the animation screen is proved against.
- `animation.dfy`: the animation screen as a class.
- `text.dfy`: `str` and `int` on frame numbers.
- `propagation.dfy`: the drag-propagation rules as functions on values.
- `keyframes.dfy`, `pose_editor.dfy`: the two editors as classes. Each
  handler is proved against `propagation.dfy`.

## Model

| member | source | states |
|---|---|---|
| `Interpolation.Construct` | src/kinematics/interpolation.py:51-71 | `p1 - p0` comes first: end values whose lengths after `atleast_1d` (`AtLeast1d`) neither match nor include a 1 fail to broadcast (`Broadcastable`); otherwise a non-increasing time range fails, then a length mismatch (a length-1 value against a longer one); construction succeeds exactly when t1 > t0 and the lengths match, keeping the times, the promoted end values and whether p0 was a scalar |
| `Interpolation.CreateInterpolator` | src/kinematics/interpolation.py:208-233 | an unknown name is rejected exactly when it is not one of the six offered names; otherwise the result is the construction's, with the broadcast error before the time error, and a built interpolator's mode carries the requested name |
| `Interpolation.ModeNames` | src/kinematics/interpolation.py:9-40 | the offered names are Constant, Linear, Sinusoidal, Quadratic, Cubic, Elastic in enum order; they are exactly the names the factory accepts, each mapped to its own mode; "None" is a mode but is not offered |
| `Interpolation.NamesExceptNone` | src/kinematics/interpolation.py:40 | the list of offered names never contains "None" and is no longer than the mode list |
| `Interpolation.NormalizeTime` | src/kinematics/interpolation.py:87-89 | the normalised time lies in [0, 1]; it is 0 for t <= t0 and 1 for t >= t1; inside the range it is (t - t0) / (t1 - t0) |
| `Interpolation.Lerp` | src/kinematics/interpolation.py:117-119 | `p0 + dp * w` keeps the length of the end values |
| `Interpolation.Blend` | src/kinematics/interpolation.py:97-204 | the value at one time has as many components as p0 |
| `Interpolation.Interpolate` | src/kinematics/interpolation.py:99-204 | with more than one parameter the result has one row per time; with one parameter and a scalar p0 at one time it is a single value; otherwise a flat array with one value per time |
| `Interpolation.InterpolatePointwise` | src/kinematics/interpolation.py:99-204 | row i (or value i) of a vectorised call is the interpolator evaluated at `ts[i]` |
| `Interpolation.ElasticWeights` | src/kinematics/interpolation.py:187-198 | the masked in-place fill produces, at every index, the Elastic weight of that time (`ElasticWeight`): 0 at or below 0, 1 at or above 1 and the damped curve strictly between |
| `Interpolation.InterpolateElastic` | src/kinematics/interpolation.py:185-204 | the array-filling Elastic evaluation agrees with the pointwise definition |
| `Interpolation.EndpointsExact` | src/kinematics/interpolation.py:97-204 | every mode gives exactly p0 at or before t0 and exactly p1 at or after t1; for Sinusoidal this needs only cos 0 = 1 and cos pi = -1 |
| `Interpolation.ConstantIsStep` | src/kinematics/interpolation.py:97-105 | Constant returns p0 before the midpoint (t0 + t1) / 2 and p1 from it on, and never a third value |
| `Interpolation.WeightInUnit` | src/kinematics/interpolation.py:111-173 | the per-mode weight (`Weight`, with `QuadraticWeight` and `CubicWeight` for the two eased modes) of Linear, Sinusoidal, Quadratic and Cubic lies in [0, 1] for u in [0, 1]; the Quadratic and Cubic weights are at most 0.5 before u = 0.5 and at least 0.5 from there |
| `Interpolation.LerpBetween` | src/kinematics/interpolation.py:117-119 | a weight in [0, 1] keeps every component between its two end values |
| `Interpolation.BlendBetween` | src/kinematics/interpolation.py:97-173 | Constant, Linear, Sinusoidal, Quadratic and Cubic outputs stay componentwise between p0 and p1 at every time |
| `Interpolation.NormalizeMonotone` | src/kinematics/interpolation.py:87-89 | normalised time is nondecreasing in t |
| `Interpolation.QuadraticMonotone` | src/kinematics/interpolation.py:145-149 | the Quadratic weight is nondecreasing on [0, 1], across the branch switch |
| `Interpolation.CubicMonotone` | src/kinematics/interpolation.py:164-168 | the Cubic weight is nondecreasing on [0, 1], across the branch switch |
| `Interpolation.WeightMonotone` | src/kinematics/interpolation.py:111-173 | the Linear, Quadratic and Cubic weights are nondecreasing on [0, 1] |
| `Interpolation.LerpMonotone` | src/kinematics/interpolation.py:117-119 | a larger weight moves a component further from its p0 value toward its p1 value |
| `Interpolation.BlendMonotone` | src/kinematics/interpolation.py:111-173 | Linear, Quadratic and Cubic outputs move monotonically from p0 toward p1 as time increases |
| `Interpolation.EaseBranchesMeet` | src/kinematics/interpolation.py:145-149 | both branches of the Quadratic and of the Cubic weight give 0.5 at u = 0.5 |
| `StickConfig.LimbLengthRatiosShape` | src/kinematics/stick_config.py:10-15 | the table has exactly four limbs; left and right arms are (0.14, 0.12), left and right legs (0.15, 0.14); every ratio is positive |
| `StickConfig.LimbRoundTrip` | src/kinematics/stick_config.py:33-41 | `LimbFromNumpy(ToNumpy(c)) == c` in the order yaw, pitch, roll, knee; `ToNumpy(LimbFromNumpy(a)) == a` for every 4-array |
| `StickConfig.JointStickConfig.ToNumpy` | src/kinematics/stick_config.py:58-70 | 22 numbers: shoulder at 0..3, pelvis at 3..6, left arm 6..10, right arm 10..14, left leg 14..18, right leg 18..22 |
| `StickConfig.JointRoundTrip` | src/kinematics/stick_config.py:58-82 | `JointFromNumpy(ToNumpy(c)) == c` for every joint pose; `ToNumpy(JointFromNumpy(a)) == a` for every 22-array |
| `StickConfig.CartesianStickConfig.ToNumpy` | src/kinematics/stick_config.py:98-110 | six rows of three, in the order shoulder, pelvis, left hand, right hand, left foot, right foot |
| `StickConfig.CartesianRoundTrip` | src/kinematics/stick_config.py:98-122 | `CartesianFromNumpy` inverts `ToNumpy`, and `ToNumpy(CartesianFromNumpy(rows)) == rows` for every 6x3 array |
| `StickConfig.Vec3Of` | src/kinematics/stick_config.py:76-77 | a 3D position read from an array holds its first three numbers |
| `ForwardKinematics.Rot2d` | src/kinematics/forward_kinematics.py:7-10 | the rotation matrix has cos on its diagonal, -sin top right and sin bottom left |
| `ForwardKinematics.Rot2dZero` | src/kinematics/forward_kinematics.py:27 | given cos 0 = 1 and sin 0 = 0, `rot2d(0)` is the identity and fixes every vector |
| `ForwardKinematics.RotationKeepsLength` | src/kinematics/forward_kinematics.py:7-10 | given cos^2 + sin^2 = 1, a rotation keeps the length of every vector |
| `ForwardKinematics.Transformation2d` | src/kinematics/forward_kinematics.py:15-19 | R fills the top-left 2x2 block, d the top two rows of the last column and the bottom row is 0, 0, 1 |
| `ForwardKinematics.TransformApply` | src/kinematics/forward_kinematics.py:15-19 | applied to a homogeneous point, the transform rotates by R and then translates by d |
| `ForwardKinematics.TransformCompose` | src/kinematics/forward_kinematics.py:31-32 | the product of two transforms is the transform of the product rotation with the first rotation applied to the second offset plus the first offset |
| `ForwardKinematics.ForwardKinematics2Link` | src/kinematics/forward_kinematics.py:24-38 | six numbers, the first pair exactly the base (x0, y0) |
| `ForwardKinematics.ChainPoints` | src/kinematics/forward_kinematics.py:25-32 | with T0 = (R1, 0) and T1 = (R2, (a1, 0)), T0 T1 maps the origin to R1 (a1, 0), and T0 T1 T2 maps it to R1 ((a1, 0) + R2 (a2, 0)) whatever the rotation of T2 |
| `ForwardKinematics.ForwardKinematicsPoints` | src/kinematics/forward_kinematics.py:24-38 | the elbow is (x0 + a1 cos th1, y0 + a1 sin th1); the end is base + R(th1)((a1, 0) + R(th2)(a2, 0)) |
| `ForwardKinematics.LinkLengths` | src/kinematics/forward_kinematics.py:22-38 | given cos^2 + sin^2 = 1, the base-to-elbow distance squared is a1^2 and the elbow-to-end distance squared is a2^2 |
| `Projection2d.ProjectPoint` | src/kinematics/projection2d.py:5-13 | with the view matrix (`ViewMatrix`) rotating about the y axis: u = W (c x + s z) + W/2, v = H y + H/2 and depth = -s x + c z, with c and s the cosine and sine of the rotation in degrees |
| `Projection2d.ProjectedHeightIgnoresRotation` | src/kinematics/projection2d.py:7-13 | the vertical screen coordinate is the same for every rotation |
| `Projection2d.BackProject` | src/kinematics/projection2d.py:16-27 | fails with a division by zero exactly when the window width or height is 0; otherwise it is the transposed view matrix applied to the unscaled point and the depth |
| `Projection2d.DefaultWindowFails` | src/kinematics/projection2d.py:16 | the default window (0, 0) always divides by zero |
| `Projection2d.RoundTrip` | src/kinematics/projection2d.py:5-27 | back-projecting a projected point with the same rotation, its depth and the same nonzero window returns the original point when cos^2 + sin^2 = 1 |
| `Projection2d.Unscale` | src/kinematics/projection2d.py:12-23 | subtracting half the window and dividing by it undoes the viewport scaling of `project_point` for a nonzero window |
| `Projection2d.RotateBack` | src/kinematics/projection2d.py:7-25 | the transposed view matrix undoes the view rotation on the x-z plane when cos^2 + sin^2 = 1 |
| `Baker.Trunc` | src/screens/animation.py:65 | `int(x)` truncates toward zero: within one unit of x, on the side of 0 |
| `Baker.FrameCount` | src/screens/animation.py:65 | the frame count n is at least 1, with n - 1 <= 30 duration < n |
| `Baker.Linspace` | src/screens/animation.py:66 | `linspace` yields exactly n values |
| `Baker.LinspaceSpacing` | src/screens/animation.py:66 | the values start at 0, end at stop, and consecutive values are stop / (n - 1) apart |
| `Baker.LinspaceIncreasing` | src/screens/animation.py:66 | with a positive stop the values rise strictly and stay within [0, stop] |
| `Baker.FrameTimesShape` | src/screens/animation.py:64-66 | the duration (the last keyframe time) is positive; frame times start at 0, end at the duration when there are two or more, rise strictly and stay within [0, duration] |
| `Baker.FrameTimes` | src/screens/animation.py:64-66 | there are exactly `FrameCount(duration)` frame times, for keyframes that satisfy `Keyframes.Valid` (at least two, matching lists, strictly increasing times from 0 or later) |
| `Baker.NearestIndex` | src/screens/animation.py:69-71 | the index of a frame time nearest to t, the first such index on ties |
| `Baker.KeyframeIndices` | src/screens/animation.py:69-71 | one valid frame index per keyframe time |
| `Baker.KeyframeIndicesEnds` | src/screens/animation.py:69-71 | with the first keyframe at 0, the first keyframe maps to frame 0 and the last keyframe to the last frame |
| `Baker.Segment` | src/screens/animation.py:82-83 | a segment holds exactly the frame times x with t0 <= x <= t1 |
| `Baker.SegmentSplit` | src/screens/animation.py:82-83 | the segments [a, b] and [b, c] together hold the frame times of [a, c], with b counted in both |
| `Baker.SegmentStartsAtBoundary` | src/screens/animation.py:82-83 | on increasing frame times, the segment [b, c] starts with b exactly when b is a frame time |
| `Baker.SegmentOfAll` | src/screens/animation.py:82-83 | the segment from the first to the last frame time is the whole frame-time list |
| `Baker.ReshapeFlatten` | src/screens/animation.py:126-137 | reshaping the flattened Cartesian pose gives back its 6x3 rows, and rebuilding from them gives back the pose |
| `Baker.Flatten` | src/screens/animation.py:126-128 | the flattened Cartesian pose has 18 numbers |
| `Baker.Reshape` | src/screens/animation.py:135-137 | `reshape(6, 3)` gives six rows of three, row i being numbers 3i to 3i + 2 |
| `Baker.SegmentInterpolator` | src/screens/animation.py:130 | inside the baker the factory cannot fail, since the mode is not None, t1 > t0 and the vectors match; the interpolator carries the segment's mode, times and end values |
| `Baker.SegmentFramesAtKeys` | src/screens/animation.py:112-171 | a Cartesian segment starts on its first keyframe and ends on its second; a joint segment starts and ends on the two joint configurations |
| `Baker.SegmentFrames` | src/screens/animation.py:85-101 | a segment appends one entry per segment frame time to both lists, set in exactly one list; mode None repeats the first keyframe in the Cartesian list; Cartesian space fills the Cartesian list and joint space the joint list |
| `Baker.RemoveAt` | src/screens/animation.py:106-110 | `list.pop(i)` removes index i and keeps the order of the rest |
| `Baker.PopIndex` | src/screens/animation.py:105-110 | index `-len(segment_times)` is n - L for L > 0 and index 0 for an empty segment |
| `Baker.Dedup` | src/screens/animation.py:103-110 | de-duplication keeps both lists well formed and removes at most one entry |
| `Baker.Baked` | src/screens/animation.py:74-110 | after every segment the two lists have equal length and each frame is set in exactly one of them |
| `Baker.AsWrittenPopsOne` | src/screens/animation.py:103-110 | as written, every segment after the first removes exactly one entry from non-empty lists; for an empty segment it is the first frame of the animation |
| `Baker.BoundaryOnlyCounts` | src/screens/animation.py:77-110 | with the corrected rule, the lists after segment k hold one entry per frame time in [times[0], times[k]] |
| `Baker.BoundaryOnlyCoversEveryFrame` | src/screens/animation.py:62-110 | with the corrected rule and the first keyframe at 0, both lists have exactly one entry per frame time |
| `Baker.AsWrittenLosesFrame` | src/screens/animation.py:103-110 | keyframes at 0, 0.02 and 0.04 s give frame times [0, 0.04] but only one entry per list as written, and two with the corrected rule |
| `Animation.SearchSortedLeft` | src/screens/animation.py:220-222 | `searchsorted` (left) gives the first index whose value is at least v: all earlier values are below v |
| `Animation.SearchSortedSplits` | src/screens/animation.py:220-230 | on increasing values every value from that index on is at least v |
| `Animation.SearchWithinDuration` | src/screens/animation.py:227-231 | on baked frame times with at least two frames, any time in [0, duration] finds a frame at or after it, so the clamp changes nothing; with one frame a positive time searches past it |
| `Animation.LoadEffect` | src/screens/animation.py:181-190 | loading raises exactly when the Cartesian list is None, or the index is inside it and the joint list is None; past either end nothing changes; otherwise the Cartesian entry is shown if set, else the joint entry |
| `Animation.AnimationScreen.constructor` | src/screens/animation.py:19-39 | nothing baked, the cursor at time 0 and frame 0, not playing |
| `Animation.AnimationScreen.OnPreEnter` | src/screens/animation.py:41-54 | with fewer than two keyframes: frame times [0], the lone keyframe (or nothing) as the only frame, keyframe indices [0], duration 0; otherwise the fields hold the bake with the screen's de-duplication (`AsWritten` for the program) |
| `Animation.AnimationScreen.PrecomputeAnimation` | src/screens/animation.py:62-110 | the fields hold the duration, frame times, keyframe indices and the two frame lists that `Baker.Baked` specifies for the screen's de-duplication rule; with `AsWritten` that is the program's bake, including the lost frame of `Baker.AsWrittenLosesFrame` |
| `Animation.AnimationScreen.BakeSegments` | src/screens/animation.py:74-110 | the segment loop produces exactly the lists `Baker.Baked` specifies for the given de-duplication rule |
| `Animation.AnimationScreen.SegmentConfigs` | src/screens/animation.py:78-101 | one loop iteration appends exactly the segment's specified frames |
| `Animation.AnimationScreen.DropRepeatedBoundary` | src/screens/animation.py:103-110 | nothing after the first segment; after a later one, `Baker.Dedup` under the given rule: as written, the entry at `-len(segment_times)` goes when the Cartesian list, or else the joint list, has a value there; corrected, the segment's first entry goes only when it repeats the boundary frame |
| `Animation.AnimationScreen.InterpolateCartesianSegment` | src/screens/animation.py:112-139 | one configuration per time; configuration i is the 18 interpolated numbers at `times[i]`, reshaped and rebuilt |
| `Animation.AnimationScreen.InterpolateJointSegment` | src/screens/animation.py:141-171 | one joint configuration per time; configuration i is the 22 interpolated joint numbers at `times[i]`, rebuilt |
| `Animation.AnimationScreen.Evaluate` | src/screens/animation.py:131 | dispatching on the interpolator's class gives the interpolation result |
| `Animation.AnimationScreen.LoadFrame` | src/screens/animation.py:181-190 | the shown configuration and the raise are those of the load rule |
| `Animation.AnimationScreen.StartPlayback` | src/screens/animation.py:199-204 | playback starts only when there are at least two frame times |
| `Animation.AnimationScreen.PausePlayback` | src/screens/animation.py:206-211 | playback stops |
| `Animation.AnimationScreen.PlayPause` | src/screens/animation.py:192-197 | a playing screen pauses; a paused one starts when it has at least two frames |
| `Animation.AnimationScreen.AdvanceFrame` | src/screens/animation.py:213-225 | time advances by dt and wraps to 0 only when it strictly exceeds the duration; the frame index is `min(searchsorted(frame_times, t), len - 1)` and stays in range; the keyframe index is `searchsorted(keyframe_times, t)` |
| `Animation.AnimationScreen.SeekToTime` | src/screens/animation.py:227-234 | `SeekedTo`: time is clamped into [0, duration]; the frame index is `min(searchsorted(frame_times, t), len - 1)` and so in range; the keyframe index is the search of the clamped time; that frame is loaded, with the load rule's display and raise |
| `Animation.AnimationScreen.SkipToStart` | src/screens/animation.py:236-238 | the full seek to 0 (`SeekedTo`): time 0, the keyframe search and the loaded frame; with frame times starting at 0 or later that frame is frame 0 |
| `Animation.AnimationScreen.SkipToEnd` | src/screens/animation.py:240-242 | the full seek to the duration (`SeekedTo`): time is the duration, frame and keyframe index are the searches, that frame is loaded; on increasing frame times ending at the duration the frame index is the last one |
| `Animation.AnimationScreen.PrevKeyframe` | src/screens/animation.py:244-247 | at keyframe index 0 nothing changes; an index past the list raises; otherwise the full seek (`SeekedTo`) to the previous keyframe time: clamped time, frame and keyframe index, the loaded frame and its raise |
| `Animation.AnimationScreen.NextKeyframe` | src/screens/animation.py:249-252 | at or past the last keyframe index nothing changes; otherwise the full seek (`SeekedTo`) to the next keyframe time: clamped time, frame and keyframe index, the loaded frame and its raise |
| `Animation.Nones` | src/screens/animation.py:95 | `[None] * n` has n entries, all None |
| `Animation.Somes` | src/screens/animation.py:94 | each configuration of the segment appears, in order, as a set entry |
| `Text.NatToString` | src/screens/keyframes.py:309 | `str(n)` is a non-empty string of digits without a leading zero unless n is 0 |
| `Text.ParseInt` | src/screens/keyframes.py:347-350 | `int(text)` succeeds exactly on an optional sign followed by digits; digits alone give their decimal value and a minus sign gives a value <= 0 |
| `Text.ParseNatToString` | src/screens/keyframes.py:309 | `int(str(n)) == n` for every natural n |
| `Text.NatToStringInjective` | src/screens/keyframes.py:309 | distinct numbers have distinct decimal strings |
| `Propagation.PlusMinus` | src/screens/keyframes.py:156-158 | moving a point by the difference to another lands on it, and the difference is zero exactly for equal points |
| `Propagation.Midpoint` | src/widgets/pose_editor.py:122-126 | the foot midpoint is the same distance from each foot |
| `Propagation.FollowStep` | src/widgets/pose_editor.py:141-153 | no move exactly when both gaps are under 0.01; otherwise the pelvis moves by 0.35 of the gap |
| `Propagation.FollowStepShrinksGap` | src/widgets/pose_editor.py:141-153 | a follow step leaves 0.65 of the gap, never overshoots, and strictly closes it on at least one axis |
| `Propagation.MoveHands` | src/widgets/pose_editor.py:238-246 | both hands move by exactly delta and nothing else changes |
| `Propagation.ResyncIsSynced` | src/widgets/pose_editor.py:255-276 | after `Resync` the recorded centres are the current ones, the base is the foot midpoint and the pelvis sits at base plus offset |
| `Propagation.ResyncedFeetAtRest` | src/widgets/pose_editor.py:128-153 | a foot event right after a resync moves nothing |
| `Propagation.SetShoulderRigid` | src/widgets/pose_editor.py:223-236 | `SetShoulder` records the shoulder and keeps each hand's offset from the shoulder; pelvis, feet and the other bookkeeping are untouched |
| `Propagation.SetPelvisRigid` | src/widgets/pose_editor.py:177-206 | `SetPelvis` moves the shoulder and hands rigidly with the pelvis, keeps the feet, keeps everything recorded, and renews the offset only on request |
| `Propagation.FollowFeetRigid` | src/widgets/pose_editor.py:128-153 | a foot event (`FollowFeet`) moves nothing inside the dead zone and otherwise closes 0.35 of the pelvis's gap to the target, carrying the upper body rigidly and leaving the feet |
| `Propagation.PelvisDragCarriesUpperBody` | src/widgets/pose_editor.py:155-175 | a user pelvis move (`PelvisDragged`) with a nonzero delta records the pelvis, renews the offset to pelvis minus foot midpoint and shifts shoulder and both hands by the delta |
| `Propagation.ShoulderDragCarriesHands` | src/widgets/pose_editor.py:208-221 | a user shoulder move (`ShoulderDragged`) shifts both hands by exactly its delta; nothing else moves |
| `Propagation.WithFoot` | src/widgets/pose_editor.py:122-126 | placing one foot moves only that foot |
| `Propagation.FollowFeetKeepsFeet` | src/widgets/pose_editor.py:128-153 | a foot event never moves a foot |
| `Propagation.FollowFeetStep` | src/widgets/pose_editor.py:128-153 | on a synced figure outside the dead zone, a foot event puts the pelvis exactly 0.35 of the way to its target and keeps the feet, the offset and the sync |
| `Propagation.DragFootOneAxis` | src/widgets/pose_editor.py:110-139 | a foot drag that changes at most one coordinate (`DragFoot`) is a single foot event on the placed foot, and no event at all when the foot stays |
| `Propagation.DragFootDiagonal` | src/widgets/pose_editor.py:110-139 | a foot drag that changes both coordinates is a foot event with only x changed, then one with the final centre |
| `Propagation.DragFootTwoAxes` | src/widgets/pose_editor.py:110-153 | feet at (0, 0) and (2, 0), pelvis resting at (1, 5): dragging the left foot to (2, 2) ends with the pelvis at (1.5775, 5.35), while one event for the whole move would give (1.35, 5.35) |
| `Propagation.DragFootRigid` | src/widgets/pose_editor.py:110-153 | a foot drag of a synced figure places that foot, keeps the other, keeps the offset and the upper body's shape, and leaves the state synced |
| `Propagation.PelvisDragComposes` | src/widgets/pose_editor.py:110-175 | the two per-axis pelvis events of a drag (`DragPelvis`) leave the same state as one event for the whole drag |
| `Propagation.ShoulderDragComposes` | src/widgets/pose_editor.py:110-221 | the two per-axis shoulder events of a drag (`DragShoulder`) leave the same state as one event for the whole drag |
| `KeyframeScreen.Total` | src/screens/keyframes.py:307 | `max(1, len(frames))` is at least 1 and equals the count when there are frames |
| `KeyframeScreen.ClampIndex` | src/screens/keyframes.py:321 | the clamped index lies in [0, n - 1], keeps an index already in range, and maps negatives to 0 and overflows to n - 1 |
| `KeyframeScreen.FrameChoices` | src/screens/keyframes.py:309 | one choice per frame (at least one); choice i is `str(i + 1)` |
| `KeyframeScreen.ChoicesReadBack` | src/screens/keyframes.py:309 | the choice at position k parses back to k + 1, and distinct positions carry distinct text |
| `KeyframeScreen.ChosenIndex` | src/screens/keyframes.py:346-353 | a move happens exactly when the text parses to a number in [1, len] whose index is not the current one, and it moves to `int(text) - 1` |
| `KeyframeScreen.ChoosingAListedFrame` | src/screens/keyframes.py:346-353 | choosing listed entry k moves to frame k unless it is current or past the stored frames |
| `KeyframeScreen.KeyframeEditor.constructor` | src/screens/keyframes.py:17-32 | empty frame list, no initial frame, cursor 0, nothing recorded, zero offset, no flag set, label "Frame 1 / 1" and choices ["1"] |
| `KeyframeScreen.KeyframeEditor.MoveHandsBy` | src/screens/keyframes.py:221-229 | nothing while a frame loads; otherwise both hands shift by delta |
| `KeyframeScreen.KeyframeEditor.OnShoulderMoved` | src/screens/keyframes.py:197-207 | when suppressed, with nothing recorded or while a frame loads, the shoulder is only recorded; otherwise a shoulder drag carries the hands |
| `KeyframeScreen.KeyframeEditor.SetShoulderCenter` | src/screens/keyframes.py:209-219 | the shoulder goes to c and is recorded, the hands follow the move from the recorded shoulder, and the suppression flag ends cleared |
| `KeyframeScreen.KeyframeEditor.MoveShouldersBy` | src/screens/keyframes.py:187-195 | nothing while a frame loads; otherwise the shoulder moves by delta, carrying the hands |
| `KeyframeScreen.KeyframeEditor.OnPelvisMoved` | src/screens/keyframes.py:148-167 | nothing while a frame loads; when suppressed or with nothing recorded the pelvis is only recorded; otherwise a pelvis drag |
| `KeyframeScreen.KeyframeEditor.SetPelvisCenter` | src/screens/keyframes.py:169-185 | the pelvis goes to p and is recorded, the offset is renewed on request and the shoulder follows the move from the recorded pelvis |
| `KeyframeScreen.KeyframeEditor.ApplyPelvisFollow` | src/screens/keyframes.py:137-146 | inside the dead zone nothing changes; otherwise the pelvis takes one 0.35 step toward the target |
| `KeyframeScreen.KeyframeEditor.OnFootMoved` | src/screens/keyframes.py:122-135 | nothing while a frame loads; otherwise the pelvis follows the feet |
| `KeyframeScreen.KeyframeEditor.PlaceFoot` | src/screens/keyframes.py:104-107 | one foot takes the new centre and nothing else changes |
| `KeyframeScreen.KeyframeEditor.DragFootTo` | src/screens/keyframes.py:104-135 | while a frame loads only the foot moves; otherwise the figure and its bookkeeping become `DragFoot` of the old ones: one foot event per changed coordinate, x first |
| `KeyframeScreen.KeyframeEditor.InitializeMotionPropagation` | src/screens/keyframes.py:88-101 | the bookkeeping is resynced with the current centres |
| `KeyframeScreen.KeyframeEditor.PlaceWhileLoading` | src/screens/keyframes.py:256-259 | placing a frame's six centres while loading shows that frame and moves nothing else |
| `KeyframeScreen.KeyframeEditor.ApplyFrameToCurrent` | src/screens/keyframes.py:246-275 | the figure becomes the frame, its bookkeeping is resynced and the editor ends idle |
| `KeyframeScreen.KeyframeEditor.ApplyFrameToGhost` | src/screens/keyframes.py:277-304 | the ghost shows the given frame, or nothing |
| `KeyframeScreen.KeyframeEditor.RefreshFrameMeta` | src/screens/keyframes.py:306-311 | the label (`FrameLabel`) is "Frame {index + 1} / {total}" and the choices list 1..total |
| `KeyframeScreen.KeyframeEditor.SaveCurrentToList` | src/screens/keyframes.py:313-316 | with frames, only the current slot changes, to the current figure; without frames nothing changes |
| `KeyframeScreen.KeyframeEditor.LoadFrame` | src/screens/keyframes.py:318-326 | nothing with an empty list; otherwise the clamped frame is shown, with cursor, ghost (the previous frame) and label |
| `KeyframeScreen.KeyframeEditor.AddKeyframe` | src/screens/keyframes.py:328-332 | saves the current pose in its slot, appends a copy of it, grows the list by one and shows the new last frame |
| `KeyframeScreen.KeyframeEditor.NextFrame` | src/screens/keyframes.py:334-338 | at the last frame nothing changes; otherwise save and show the next frame |
| `KeyframeScreen.KeyframeEditor.PrevFrame` | src/screens/keyframes.py:340-344 | at frame 0 nothing changes; otherwise save and show the previous frame |
| `KeyframeScreen.KeyframeEditor.OnFrameChosen` | src/screens/keyframes.py:346-353 | unparsable text, an index outside the list or the current index change nothing; otherwise save and show frame `int(text) - 1` |
| `KeyframeScreen.KeyframeEditor.ClearFrames` | src/screens/keyframes.py:355-357 | exactly one frame remains, the initial one if captured, else the current pose, shown at index 0 |
| `KeyframeScreen.KeyframeEditor.PostInit` | src/screens/keyframes.py:34-42 | the starting pose becomes the initial frame and the only frame, shown at index 0 with resynced bookkeeping |
| `PoseEditing.EffectorIdsDistinct` | src/widgets/pose_editor.py:26-30 | the six effector ids are distinct |
| `PoseEditing.WithEffector` | src/widgets/pose_editor.py:259-261 | setting one effector moves it and leaves the other five |
| `PoseEditing.FigureExt` | src/widgets/pose_editor.py:26-30 | a figure is determined by its six effectors |
| `PoseEditing.PoseOf` | src/widgets/pose_editor.py:248-253 | the captured pose has exactly the six effector ids as keys, each with its effector's position |
| `PoseEditing.Loaded` | src/widgets/pose_editor.py:255-262 | after loading, each effector named in the pose takes its entry and the others stay |
| `PoseEditing.LoadCaptured` | src/widgets/pose_editor.py:248-262 | the captured keys are hand_left, hand_right, foot_left, foot_right, shoulder and pelvis; loading a captured pose reproduces it from any figure; an empty pose changes nothing |
| `PoseEditing.PoseEditor.constructor` | src/widgets/pose_editor.py:32-44 | nothing recorded, zero offset, no flag set, projection mode 0 |
| `PoseEditing.PoseEditor.MoveHandsBy` | src/widgets/pose_editor.py:238-246 | nothing while a pose loads; otherwise both hands shift by delta |
| `PoseEditing.PoseEditor.OnShoulderMoved` | src/widgets/pose_editor.py:208-221 | while loading or suppressed the shoulder is only recorded; with nothing recorded the handler raises and changes nothing; otherwise a shoulder drag carries the hands |
| `PoseEditing.PoseEditor.SetShoulderCenter` | src/widgets/pose_editor.py:223-236 | the shoulder goes to c and is recorded, and the hands follow the move from the recorded shoulder |
| `PoseEditing.PoseEditor.MoveShouldersBy` | src/widgets/pose_editor.py:199-206 | nothing while a pose loads; otherwise the shoulder moves by delta, carrying the hands |
| `PoseEditing.PoseEditor.OnPelvisMoved` | src/widgets/pose_editor.py:155-175 | while loading or suppressed the pelvis is only recorded; with nothing recorded the handler raises and changes nothing; otherwise a pelvis drag |
| `PoseEditing.PoseEditor.SetPelvisCenter` | src/widgets/pose_editor.py:177-197 | the pelvis goes to p and is recorded, the offset is renewed on request and the shoulder follows the move from the recorded pelvis |
| `PoseEditing.PoseEditor.ApplyPelvisFollow` | src/widgets/pose_editor.py:141-153 | inside the dead zone nothing changes; otherwise the pelvis takes one 0.35 step toward the target |
| `PoseEditing.PoseEditor.OnFootMoved` | src/widgets/pose_editor.py:128-139 | nothing while a pose loads; otherwise the pelvis follows the feet |
| `PoseEditing.PoseEditor.PlaceFoot` | src/widgets/pose_editor.py:110-113 | one foot takes the new centre and nothing else changes |
| `PoseEditing.PoseEditor.DragFootTo` | src/widgets/pose_editor.py:110-139 | while a pose loads only the foot moves; otherwise the figure and its bookkeeping become `DragFoot` of the old ones: one foot event per changed coordinate, x first |
| `PoseEditing.PoseEditor.InitializeMotionPropagation` | src/widgets/pose_editor.py:93-108 | the bookkeeping is resynced with the current centres |
| `PoseEditing.PoseEditor.PlaceEffector` | src/widgets/pose_editor.py:259-261 | while loading, placing one effector moves only it; a moved pelvis or shoulder is recorded by its handler |
| `PoseEditing.PoseEditor.CapturePose` | src/widgets/pose_editor.py:248-253 | the editor's pose has the six ids as keys, each with the current position |
| `PoseEditing.PoseEditor.LoadPose` | src/widgets/pose_editor.py:255-276 | the figure becomes the loaded pose, the recorded centres equal the current ones, the offset is pelvis minus foot midpoint and loading ends |
| `PoseEditing.PoseEditor.ApplyProjectionMode` | src/widgets/pose_editor.py:73-78 | while loading, the figure takes the reprojected centres and a moved pelvis or shoulder is recorded |
| `PoseEditing.PoseEditor.OnProjectionMode` | src/widgets/pose_editor.py:80-91 | ignored while loading; otherwise the recorded centres and the foot base are cleared and the view is applied with loading up; only a centre the switch moved is recorded again, and loading ends |
| `PoseEditing.ViewSwitchThenPelvisDrag` | src/widgets/pose_editor.py:80-91 | after a view switch that leaves the pelvis where it was, the next user drag of the pelvis to a different centre raises, because the reset left nothing recorded for it |
| `PoseEditing.PoseEditor.OnProjectionModeResynced` | src/widgets/pose_editor.py:80-108 | corrected view switch: ignored while loading; otherwise the view changes and the bookkeeping is the resync of the reprojected figure |
| `PoseEditing.ViewSwitchResyncedThenPelvisDrag` | src/widgets/pose_editor.py:80-175 | with the corrected switch, the same drag raises nothing and is an ordinary pelvis drag of the resynced figure |

## Left out

- Kivy widgets, property binding, layout and drawing are not modelled. The
  handlers are bound to `center_x` and `center_y` separately, so Kivy runs
  a handler once per changed coordinate, x first. A user drag of a foot is
  modelled that way (`DragFoot`, `DragFootTo`): a diagonal drag takes two
  pelvis-follow steps (`Propagation.DragFootTwoAxes`). For the pelvis and
  the shoulder, one call per drag is modelled, which is the same state
  (`Propagation.PelvisDragComposes`, `Propagation.ShoulderDragComposes`).
  The setters the handlers themselves call assign a whole centre with the
  handler suppressed or the pose loading, where the handler only records
  the centre, so one call stands for both there too.
- The `ids` presence checks of the keyframe editor are not modelled. All
  six effectors are taken as present, as in the shipped layout.
- The pose editor's 3D effector positions (`pos3d`) are identified with
  their 2D centres. The reprojection that a view change applies comes in as
  a parameter (`reprojected`), because the projection of each effector
  lives in layout files that are not part of this model.
- `cart_to_joint_config` is not part of this model; the baker takes it as
  the parameter `toJoint`.
- The shapes of the Sinusoidal cosine curve and of the Elastic curve are not
  modelled: cosine, sine, arcsine and `2^x` are parameters. Only the
  endpoints, the clamps and the bounds that follow from stated identities
  are proved.
- Floating-point rounding is not modelled; everything is over `real`.
- `Baker.Linspace`: the last value is set to `stop` exactly and the rest are
  `i * stop / (n - 1)`, without numpy's rounding.
- `Text.ParseInt`: Python's `int` also accepts surrounding whitespace,
  underscores between digits and non-ASCII digits. The model accepts only
  an optional sign followed by ASCII digits, so text such as " 2" is
  treated as unparsable.
- The playback timer (`Clock.schedule_interval`) is not modelled; frame
  advance takes `dt` as a parameter. `_update_displays`, `on_time_input`,
  `on_leave`, `go_home`, `go_keyframes`, `go_animation` and
  `remove_all_frames` (which only calls `clear_frames`) are screen
  navigation and text formatting, and are not modelled. The frame spinner's
  text is not modelled either.
- The editor and the baker are not connected. The animation screen reads
  `frame_times` and `frame_interps` from the keyframe editor, which never
  defines them, and the editor stores 2D dictionaries rather than Cartesian
  poses. The baker therefore takes its keyframes, times and settings as
  explicit inputs with strictly increasing times from 0 or later.
- `Interpolation.Interpolate` (and `InterpolatePointwise`, `InterpolateElastic`,
  `AnimationScreen.Evaluate`) requires at least one parameter. As written,
  empty end values construct without complaint; evaluating at no time or at
  one time then gives an empty array, and at two or more times
  `p0 + dp * u` (the `np.where` of Constant) raises a numpy broadcast
  `ValueError`. Neither case is modelled; the baker always passes 18 or 22
  parameters.
- `Baker.Keyframes.Valid`: the baker requires strictly increasing keyframe
  times. As written, equal or decreasing times make `create_interpolator`
  raise inside the segment loop, but only for a segment whose mode is not
  None: a None segment never builds an interpolator, so it bakes silently
  (repeating its first keyframe over an empty or reversed time range).
  Neither path is modelled.
- `src/kinematics/inverse_kinematics.py` and `project_points` are not
  modelled. `project_points` calls `project_point` without its required
  window argument, so it raises on every non-empty input.
- `src/kinematics/test_interpolation.py` is not modelled as code. Its
  assertions (exact endpoints, bounds, continuity at 0.5) appear as the
  lemmas above.

## Findings

| source | as written | input that shows it | evidently intended | confidence | as-written member | corrected member |
|---|---|---|---|---|---|---|
| src/screens/animation.py:103-110 | after every segment but the first, the entry at index `-len(segment_times)` is popped whenever one list has a value there, whether or not the segment's first frame time is the boundary keyframe time; for an empty segment it pops index 0 | keyframes at 0, 0.02 and 0.04 s give frame times [0, 0.04]; the second segment [0.02, 0.04] holds only 0.04, which is popped, leaving one configuration for two frame times, so the last frame is never shown | remove only a frame that the previous segment already produced, that is, the segment's first entry when its time equals the boundary keyframe time; then there is exactly one entry per frame time | not executed | `Baker.AsWrittenLosesFrame` | `Baker.BoundaryOnlyCoversEveryFrame` |
| src/widgets/pose_editor.py:80-91 | a view switch clears the recorded pelvis and shoulder; the effectors then move with the loading flag up, which records only a centre that actually changes | a view switch that leaves the pelvis centre where it was (the same projected position), then a user drag of the pelvis: `_on_pelvis_moved` subtracts from `_pelvis_prev`, which is None, and raises TypeError | record the centres again once the view is applied, as loading a pose does, so the next drag carries the upper body | not executed | `PoseEditing.ViewSwitchThenPelvisDrag` | `PoseEditing.ViewSwitchResyncedThenPelvisDrag` |
