/**
  What the animation screen bakes from a keyframe list: the frame count at
  30 frames per second, the evenly spaced frame times, the nearest frame of
  each keyframe, the frames of each segment between two keyframes, and the
  two per-frame lists (Cartesian and joint configurations) after the
  boundary de-duplication.

  The keyframes, their times and their interpolation settings are explicit
  inputs; the Cartesian-to-joint conversion is a parameter.
 */
module Baker {
  import opened RealMath
  import opened Wrappers
  import opened Interpolation
  import opened StickConfig

  /** `TARGET_FPS`. */
  const TargetFps: int := 30

  predicate StrictlyIncreasing(s: seq<real>)
  {
    forall i, j :: 0 <= i < j < |s| ==> s[i] < s[j]
  }

  /** The keyframes handed to the baker, with their times and the settings of the transition into each. */
  datatype Keyframes = Keyframes(poses: seq<CartesianStickConfig>, times: seq<real>, interps: seq<Settings>)
  {
    /** At least two keyframes, one time and one setting each, times increasing from a nonnegative start. */
    predicate Valid()
    {
      |poses| >= 2 && |times| == |poses| && |interps| == |poses|
      && times[0] >= 0.0 && StrictlyIncreasing(times)
    }

    /** `keyframe_times[-1]`. */
    function Duration(): real
      requires |times| > 0
    {
      times[|times| - 1]
    }
  }

  /** `int(x)`: truncation toward zero. */
  function Trunc(x: real): (r: int)
    ensures x >= 0.0 ==> r as real <= x < r as real + 1.0
    ensures x < 0.0 ==> r as real - 1.0 < x <= r as real
  {
    if x >= 0.0 then x.Floor else -((-x).Floor)
  }

  /** `int(duration * TARGET_FPS) + 1`. */
  function FrameCount(duration: real): (n: int)
    requires duration >= 0.0
    ensures n >= 1
    ensures (n - 1) as real <= duration * TargetFps as real < n as real
  {
    Trunc(duration * TargetFps as real) + 1
  }

  /** `np.linspace(0, stop, n)`: n evenly spaced values, the last one set to `stop`. */
  function Linspace(stop: real, n: nat): (s: seq<real>)
    ensures |s| == n
  {
    seq(n, i requires 0 <= i < n =>
      if n == 1 then 0.0
      else if i == n - 1 then stop
      else i as real * (stop / (n - 1) as real))
  }

  /** Linspace starts at 0, ends at `stop`, and consecutive values are `stop / (n - 1)` apart. */
  lemma LinspaceSpacing(stop: real, n: nat)
    requires n >= 1
    ensures Linspace(stop, n)[0] == 0.0
    ensures n >= 2 ==> Linspace(stop, n)[n - 1] == stop
    ensures n >= 2 ==> forall i :: 0 <= i < n - 1 ==>
              Linspace(stop, n)[i + 1] - Linspace(stop, n)[i] == stop / (n - 1) as real
  {
    if n >= 2 {
      var s, step := Linspace(stop, n), stop / (n - 1) as real;
      forall i | 0 <= i < n - 1
        ensures s[i + 1] - s[i] == step
      {
        if i + 1 == n - 1 {
          assert step * (n - 1) as real == stop;
          assert (i + 1) as real * step == stop;
        } else {
          assert (i + 1) as real * step == i as real * step + step;
        }
      }
    }
  }

  /** With at least two values, value i is i steps of `stop / (n - 1)`, the last one included. */
  lemma LinspaceAt(stop: real, n: nat, i: nat)
    requires 2 <= n && i < n
    ensures Linspace(stop, n)[i] == i as real * (stop / (n - 1) as real)
  {
    if i == n - 1 {
      var step := stop / (n - 1) as real;
      assert step * (n - 1) as real == stop;
    }
  }

  /** With a positive stop, a later value is larger. */
  lemma LinspaceOrdered(stop: real, n: nat, i: nat, j: nat)
    requires 2 <= n && stop > 0.0 && i < j < n
    ensures Linspace(stop, n)[i] < Linspace(stop, n)[j]
  {
    var step := stop / (n - 1) as real;
    LinspaceAt(stop, n, i);
    LinspaceAt(stop, n, j);
    MulLeftMono(step, i as real, j as real);
    assert step * i as real == i as real * step;
    assert step * j as real == j as real * step;
  }

  /** With a positive stop, every value lies within [0, stop]. */
  lemma LinspaceBounded(stop: real, n: nat, i: nat)
    requires 2 <= n && stop > 0.0 && i < n
    ensures 0.0 <= Linspace(stop, n)[i] <= stop
  {
    var step := stop / (n - 1) as real;
    LinspaceAt(stop, n, i);
    LinspaceAt(stop, n, n - 1);
    MulLeftMono(step, 0.0, i as real);
    MulLeftMono(step, i as real, (n - 1) as real);
    assert step * i as real == i as real * step;
    assert step * (n - 1) as real == (n - 1) as real * step;
  }

  /** With a positive stop the values rise strictly and stay within [0, stop]. */
  lemma LinspaceIncreasing(stop: real, n: nat)
    requires n >= 1 && stop > 0.0
    ensures StrictlyIncreasing(Linspace(stop, n))
    ensures forall i :: 0 <= i < n ==> 0.0 <= Linspace(stop, n)[i] <= stop
  {
    if n >= 2 {
      forall i, j | 0 <= i < j < n
        ensures Linspace(stop, n)[i] < Linspace(stop, n)[j]
      {
        LinspaceOrdered(stop, n, i, j);
      }
      forall i | 0 <= i < n
        ensures 0.0 <= Linspace(stop, n)[i] <= stop
      {
        LinspaceBounded(stop, n, i);
      }
    }
  }

  /** `np.linspace(0, total_duration, num_frames)` of `_precompute_animation`. */
  function FrameTimes(kf: Keyframes): (ft: seq<real>)
    requires kf.Valid()
    ensures |ft| == FrameCount(kf.Duration())
  {
    Linspace(kf.Duration(), FrameCount(kf.Duration()) as nat)
  }

  /** The last keyframe time is positive, and the frame times rise strictly from 0 to it. */
  lemma FrameTimesShape(kf: Keyframes)
    requires kf.Valid()
    ensures kf.Duration() > 0.0
    ensures var ft := FrameTimes(kf);
            ft[0] == 0.0 && (|ft| >= 2 ==> ft[|ft| - 1] == kf.Duration())
            && StrictlyIncreasing(ft)
            && forall i :: 0 <= i < |ft| ==> 0.0 <= ft[i] <= kf.Duration()
  {
    var n := |kf.times|;
    assert kf.times[0] < kf.times[n - 1];
    var ft := FrameTimes(kf);
    LinspaceSpacing(kf.Duration(), |ft|);
    LinspaceIncreasing(kf.Duration(), |ft|);
  }

  /**
    `argmin |ft[i] - t|` over the frame times: the index of a nearest
    frame time, the first one when several are equally near.
   */
  function NearestIndex(ft: seq<real>, t: real): (i: nat)
    requires |ft| >= 1
    ensures i < |ft|
    ensures forall j :: 0 <= j < |ft| ==> Abs(ft[i] - t) <= Abs(ft[j] - t)
    ensures forall j :: 0 <= j < i ==> Abs(ft[j] - t) > Abs(ft[i] - t)
  {
    if |ft| == 1 then 0
    else
      var front := ft[..|ft| - 1];
      var k := NearestIndex(front, t);
      assert forall j :: 0 <= j < |front| ==> front[j] == ft[j];
      if Abs(ft[|ft| - 1] - t) < Abs(ft[k] - t) then |ft| - 1 else k
  }

  /** `keyframe_indices`: the nearest frame of every keyframe time. */
  function KeyframeIndices(ft: seq<real>, times: seq<real>): (r: seq<nat>)
    requires |ft| >= 1
    ensures |r| == |times|
    ensures forall k :: 0 <= k < |times| ==> r[k] < |ft|
  {
    seq(|times|, k requires 0 <= k < |times| => NearestIndex(ft, times[k]))
  }

  /** The first keyframe sits on frame 0 and the last keyframe on the last frame. */
  lemma KeyframeIndicesEnds(kf: Keyframes)
    requires kf.Valid() && kf.times[0] == 0.0
    ensures var ft := FrameTimes(kf); var ki := KeyframeIndices(ft, kf.times);
            ki[0] == 0 && ki[|ki| - 1] == |ft| - 1
  {
    var ft := FrameTimes(kf);
    FrameTimesShape(kf);
    var last := NearestIndex(ft, kf.Duration());
    if |ft| >= 2 {
      assert Abs(ft[|ft| - 1] - kf.Duration()) == 0.0;
    }
  }

  /** `frame_times[(frame_times >= t0) & (frame_times <= t1)]`, in order. */
  function Segment(ft: seq<real>, t0: real, t1: real): (s: seq<real>)
    ensures |s| <= |ft|
    ensures forall x :: x in s <==> x in ft && t0 <= x <= t1
  {
    if ft == [] then []
    else
      var rest := Segment(ft[1..], t0, t1);
      assert forall x :: x in ft <==> x == ft[0] || x in ft[1..];
      if t0 <= ft[0] <= t1 then [ft[0]] + rest else rest
  }

  /** How often x occurs in s. */
  function Occurrences(s: seq<real>, x: real): nat
  {
    if s == [] then 0 else (if s[0] == x then 1 else 0) + Occurrences(s[1..], x)
  }

  /** Splitting [a, c] at b counts the frames at b twice. */
  lemma {:induction false} SegmentSplit(s: seq<real>, a: real, b: real, c: real)
    requires a <= b <= c
    ensures |Segment(s, a, c)| + Occurrences(s, b) == |Segment(s, a, b)| + |Segment(s, b, c)|
  {
    if s != [] {
      SegmentSplit(s[1..], a, b, c);
    }
  }

  /** In a strictly increasing sequence a value occurs once or not at all. */
  lemma {:induction false} OccurrencesOfIncreasing(s: seq<real>, x: real)
    requires StrictlyIncreasing(s)
    ensures Occurrences(s, x) == if x in s then 1 else 0
  {
    if s != [] {
      assert StrictlyIncreasing(s[1..]);
      OccurrencesOfIncreasing(s[1..], x);
      if s[0] == x {
        assert forall j :: 0 <= j < |s[1..]| ==> s[1..][j] == s[j + 1] > x;
      }
    }
  }

  /**
    In a strictly increasing sequence, b is one of the values exactly when
    the segment [b, c] is not empty and starts at b.
   */
  lemma {:induction false} SegmentStartsAtBoundary(s: seq<real>, b: real, c: real)
    requires StrictlyIncreasing(s) && b <= c
    ensures b in s <==> |Segment(s, b, c)| > 0 && Segment(s, b, c)[0] == b
  {
    if s != [] {
      assert StrictlyIncreasing(s[1..]);
      assert forall x :: x in s <==> x == s[0] || x in s[1..];
      if s[0] < b {
        SegmentStartsAtBoundary(s[1..], b, c);
      } else if s[0] > b {
        assert forall j :: 0 <= j < |s| ==> s[j] >= s[0];
        assert b !in s;
        if s[0] > c {
          SegmentAbove(s[1..], b, c);
        }
      }
    }
  }

  /** A segment below every value is empty. */
  lemma {:induction false} SegmentAbove(s: seq<real>, b: real, c: real)
    requires forall i :: 0 <= i < |s| ==> s[i] > c
    ensures Segment(s, b, c) == []
  {
    if s != [] {
      SegmentAbove(s[1..], b, c);
    }
  }

  /** A segment spanning every value keeps all of them. */
  lemma {:induction false} SegmentOfAll(s: seq<real>, a: real, b: real)
    requires forall i :: 0 <= i < |s| ==> a <= s[i] <= b
    ensures Segment(s, a, b) == s
  {
    if s != [] {
      SegmentOfAll(s[1..], a, b);
    }
  }

  /** `config.to_numpy().flatten()`: the six points, three numbers each. */
  function Flatten(c: CartesianStickConfig): (a: seq<real>)
    ensures |a| == 18
  {
    var r := c.ToNumpy();
    seq(18, k requires 0 <= k < 18 => r[k / 3][k % 3])
  }

  /** `row.reshape(6, 3)`. */
  function Reshape(a: seq<real>): (rows: seq<seq<real>>)
    requires |a| == 18
    ensures PoseRows(rows) && |rows| == 6
    ensures forall i :: 0 <= i < 6 ==> rows[i] == a[3 * i .. 3 * i + 3]
  {
    seq(6, i requires 0 <= i < 6 => a[3 * i .. 3 * i + 3])
  }

  /** Reshaping the flattened pose gives back its rows, and so the pose itself. */
  lemma ReshapeFlatten(c: CartesianStickConfig)
    ensures Reshape(Flatten(c)) == c.ToNumpy()
    ensures CartesianFromNumpy(Reshape(Flatten(c))) == c
  {
    var r, a := c.ToNumpy(), Flatten(c);
    forall i | 0 <= i < 6
      ensures a[3 * i .. 3 * i + 3] == r[i]
    {
      assert (3 * i) / 3 == i && (3 * i) % 3 == 0;
      assert (3 * i + 1) / 3 == i && (3 * i + 1) % 3 == 1;
      assert (3 * i + 2) / 3 == i && (3 * i + 2) % 3 == 2;
      assert a[3 * i .. 3 * i + 3] == [a[3 * i], a[3 * i + 1], a[3 * i + 2]];
      assert r[i] == [r[i][0], r[i][1], r[i][2]];
    }
    CartesianRoundTrip(c, r);
  }

  /** Every mode other than None is one of the factory's names. */
  lemma ModeIsOffered(mode: Mode)
    requires mode != Mode.None
    ensures mode.Value() in InterpolationModes
  {
    ModeList();
  }

  /**
    `create_interpolator(mode.value, t0, t1, p0, p1)` inside the baker, where it
    cannot fail: the mode is not None, the times increase and the vectors match.
   */
  function SegmentInterpolator(mode: Mode, t0: real, t1: real, p0: seq<real>, p1: seq<real>): (it: Interpolator)
    requires mode != Mode.None && t1 > t0 && |p0| == |p1|
    ensures it.Valid() && it.mode == mode && it.t0 == t0 && it.t1 == t1 && it.p0 == p0 && it.p1 == p1
  {
    ModeIsOffered(mode);
    var r := CreateInterpolator(mode.Value(), t0, t1, Array(p0), Array(p1));
    assert r.Ok?;
    assert r.value.mode.Value() == mode.Value();
    r.value
  }

  /** One frame of `_interpolate_cartesian_segment`: interpolate 18 numbers, reshape, rebuild. */
  function CartesianFrame(it: Interpolator, s: real, m: Math): CartesianStickConfig
    requires it.Valid() && |it.p0| == 18
  {
    CartesianFromNumpy(Reshape(Blend(it, s, m)))
  }

  /** One frame of `_interpolate_joint_segment`: interpolate 22 joint numbers, rebuild. */
  function JointFrame(it: Interpolator, s: real, m: Math): JointStickConfig
    requires it.Valid() && |it.p0| == 22
  {
    JointFromNumpy(Blend(it, s, m))
  }

  /** Row i of interpolating the 18 Cartesian numbers over `ts` rebuilds to frame i. */
  lemma CartesianRowAt(it: Interpolator, ts: seq<real>, m: Math, i: nat)
    requires it.Valid() && |it.p0| == 18 && i < |ts|
    ensures Interpolate(it, ts, m).Rows? && |Interpolate(it, ts, m).rows| == |ts|
    ensures |Interpolate(it, ts, m).rows[i]| == 18
    ensures CartesianFromNumpy(Reshape(Interpolate(it, ts, m).rows[i])) == CartesianFrame(it, ts[i], m)
  {
    InterpolatePointwise(it, ts, m, i);
  }

  /** Row i of interpolating the 22 joint numbers over `ts` rebuilds to frame i. */
  lemma JointRowAt(it: Interpolator, ts: seq<real>, m: Math, i: nat)
    requires it.Valid() && |it.p0| == 22 && i < |ts|
    ensures Interpolate(it, ts, m).Rows? && |Interpolate(it, ts, m).rows| == |ts|
    ensures |Interpolate(it, ts, m).rows[i]| == 22
    ensures JointFromNumpy(Interpolate(it, ts, m).rows[i]) == JointFrame(it, ts[i], m)
  {
    InterpolatePointwise(it, ts, m, i);
  }

  /** Appending frame |cs| to a prefix of Cartesian frames over `ts` gives a longer prefix. */
  lemma CartesianFramesExtend(cs: seq<CartesianStickConfig>, it: Interpolator, ts: seq<real>, m: Math,
                              c: CartesianStickConfig)
    requires it.Valid() && |it.p0| == 18 && |cs| < |ts|
    requires forall j :: 0 <= j < |cs| ==> cs[j] == CartesianFrame(it, ts[j], m)
    requires c == CartesianFrame(it, ts[|cs|], m)
    ensures forall j :: 0 <= j < |cs + [c]| ==> (cs + [c])[j] == CartesianFrame(it, ts[j], m)
  {
    forall j | 0 <= j < |cs + [c]|
      ensures (cs + [c])[j] == CartesianFrame(it, ts[j], m)
    {
      if j < |cs| {
        assert (cs + [c])[j] == cs[j];
      }
    }
  }

  /** Appending frame |js| to a prefix of joint frames over `ts` gives a longer prefix. */
  lemma JointFramesExtend(js: seq<JointStickConfig>, it: Interpolator, ts: seq<real>, m: Math,
                          c: JointStickConfig)
    requires it.Valid() && |it.p0| == 22 && |js| < |ts|
    requires forall j :: 0 <= j < |js| ==> js[j] == JointFrame(it, ts[j], m)
    requires c == JointFrame(it, ts[|js|], m)
    ensures forall j :: 0 <= j < |js + [c]| ==> (js + [c])[j] == JointFrame(it, ts[j], m)
  {
    forall j | 0 <= j < |js + [c]|
      ensures (js + [c])[j] == JointFrame(it, ts[j], m)
    {
      if j < |js| {
        assert (js + [c])[j] == js[j];
      }
    }
  }

  /**
    A Cartesian segment starts on its first keyframe and ends on its second;
    a joint segment starts and ends on their joint configurations.
   */
  lemma SegmentFramesAtKeys(mode: Mode, t0: real, t1: real, c0: CartesianStickConfig, c1: CartesianStickConfig,
                            j0: JointStickConfig, j1: JointStickConfig, m: Math)
    requires mode != Mode.None && t1 > t0
    requires mode == Sinusoidal ==> CosEndpoints(m)
    ensures var it := SegmentInterpolator(mode, t0, t1, Flatten(c0), Flatten(c1));
            CartesianFrame(it, t0, m) == c0 && CartesianFrame(it, t1, m) == c1
    ensures var it := SegmentInterpolator(mode, t0, t1, j0.ToNumpy(), j1.ToNumpy());
            JointFrame(it, t0, m) == j0 && JointFrame(it, t1, m) == j1
  {
    var it := SegmentInterpolator(mode, t0, t1, Flatten(c0), Flatten(c1));
    EndpointsExact(it, t0, m);
    EndpointsExact(it, t1, m);
    ReshapeFlatten(c0);
    ReshapeFlatten(c1);
    var jt := SegmentInterpolator(mode, t0, t1, j0.ToNumpy(), j1.ToNumpy());
    EndpointsExact(jt, t0, m);
    EndpointsExact(jt, t1, m);
    JointRoundTrip(j0, []);
    JointRoundTrip(j1, []);
  }

  /** The two per-frame lists: at each frame one of them holds a configuration. */
  datatype Frames = Frames(cart: seq<Option<CartesianStickConfig>>, joint: seq<Option<JointStickConfig>>)
  {
    /** Equal lengths, and each frame is set in exactly one list. */
    predicate WellFormed()
    {
      |cart| == |joint| && forall i :: 0 <= i < |cart| ==> (cart[i].Some? <==> joint[i].None?)
    }
  }

  /** The settings of segment k are those of the transition into keyframe k + 1. */
  function SegmentSettings(kf: Keyframes, k: nat): Settings
    requires kf.Valid() && k + 1 < |kf.poses|
  {
    kf.interps[k + 1]
  }

  /** The frame times of segment k. */
  function SegmentTimes(kf: Keyframes, ft: seq<real>, k: nat): seq<real>
    requires kf.Valid() && k + 1 < |kf.poses|
  {
    Segment(ft, kf.times[k], kf.times[k + 1])
  }

  /**
    What segment k appends to the two lists: the first keyframe repeated for
    mode None, else the interpolated configurations in the list of their space
    and None in the other.
   */
  function SegmentFrames(kf: Keyframes, ft: seq<real>, k: nat, m: Math,
                         toJoint: CartesianStickConfig -> JointStickConfig): (f: Frames)
    requires kf.Valid() && k + 1 < |kf.poses|
    ensures f.WellFormed() && |f.cart| == |SegmentTimes(kf, ft, k)|
    ensures SegmentSettings(kf, k).mode == Mode.None ==>
              forall i :: 0 <= i < |f.cart| ==> f.cart[i] == Some(kf.poses[k])
    ensures SegmentSettings(kf, k).mode != Mode.None && SegmentSettings(kf, k).space == Cartesian ==>
              forall i :: 0 <= i < |f.cart| ==> f.cart[i].Some?
    ensures SegmentSettings(kf, k).mode != Mode.None && SegmentSettings(kf, k).space == Joint ==>
              forall i :: 0 <= i < |f.joint| ==> f.joint[i].Some?
  {
    var t0, t1 := kf.times[k], kf.times[k + 1];
    var seg := SegmentTimes(kf, ft, k);
    var st := SegmentSettings(kf, k);
    var L := |seg|;
    var noJoint: seq<Option<JointStickConfig>> := seq(L, _ => Option.None);
    var noCart: seq<Option<CartesianStickConfig>> := seq(L, _ => Option.None);
    if st.mode == Mode.None then
      Frames(seq(L, _ => Some(kf.poses[k])), noJoint)
    else if st.space == Cartesian then
      var it := SegmentInterpolator(st.mode, t0, t1, Flatten(kf.poses[k]), Flatten(kf.poses[k + 1]));
      Frames(seq(L, i requires 0 <= i < L => Some(CartesianFrame(it, seg[i], m))), noJoint)
    else
      var j0, j1 := toJoint(kf.poses[k]).ToNumpy(), toJoint(kf.poses[k + 1]).ToNumpy();
      var it := SegmentInterpolator(st.mode, t0, t1, j0, j1);
      Frames(noCart, seq(L, i requires 0 <= i < L => Some(JointFrame(it, seg[i], m))))
  }

  /** `list.pop(i)`. */
  function RemoveAt<T>(s: seq<T>, i: nat): (r: seq<T>)
    requires i < |s|
    ensures |r| == |s| - 1
    ensures forall j :: 0 <= j < i ==> r[j] == s[j]
    ensures forall j :: i <= j < |r| ==> r[j] == s[j + 1]
  {
    s[..i] + s[i + 1..]
  }

  /** Which boundary entries are popped. */
  datatype PopRule =
    | AsWritten     // pop index -len(segment_times) whenever one list has an entry there
    | BoundaryOnly  // pop the segment's first entry only when it repeats the boundary frame

  /** The index `-len(segment_times)` in a list of length n; `-0` is index 0. */
  function PopIndex(n: nat, L: nat): (i: nat)
    requires L <= n
    ensures L > 0 ==> i == n - L
    ensures L == 0 ==> i == 0
  {
    if L == 0 then 0 else n - L
  }

  /** The boundary de-duplication after segment k > 0, whose frame times are `seg` and start time t0. */
  function Dedup(f: Frames, seg: seq<real>, t0: real, rule: PopRule): (r: Frames)
    requires f.WellFormed() && |seg| <= |f.cart|
    ensures r.WellFormed()
    ensures |r.cart| == |f.cart| || |r.cart| == |f.cart| - 1
  {
    var L := |seg|;
    match rule
    case AsWritten =>
      var i := PopIndex(|f.cart|, L);
      if |f.cart| > 0 && f.cart[i].Some? then Frames(RemoveAt(f.cart, i), RemoveAt(f.joint, i))
      else if |f.joint| > 0 && f.joint[i].Some? then Frames(RemoveAt(f.cart, i), RemoveAt(f.joint, i))
      else f
    case BoundaryOnly =>
      if L > 0 && seg[0] == t0 then
        var i := |f.cart| - L;
        Frames(RemoveAt(f.cart, i), RemoveAt(f.joint, i))
      else f
  }

  /** The two lists after segments 0 .. k - 1 have been appended and de-duplicated. */
  function Baked(kf: Keyframes, ft: seq<real>, k: nat, m: Math,
                 toJoint: CartesianStickConfig -> JointStickConfig, rule: PopRule): (f: Frames)
    requires kf.Valid() && k < |kf.poses|
    ensures f.WellFormed()
  {
    if k == 0 then Frames([], [])
    else
      var prev := Baked(kf, ft, k - 1, m, toJoint, rule);
      var e := SegmentFrames(kf, ft, k - 1, m, toJoint);
      var appended := Frames(prev.cart + e.cart, prev.joint + e.joint);
      if k - 1 == 0 then appended
      else Dedup(appended, SegmentTimes(kf, ft, k - 1), kf.times[k - 1], rule)
  }

  /** One step of Baked: segment k's frames are appended, then de-duplicated after the first segment. */
  lemma BakedStep(kf: Keyframes, ft: seq<real>, k: nat, m: Math,
                  toJoint: CartesianStickConfig -> JointStickConfig, rule: PopRule)
    requires kf.Valid() && k + 1 < |kf.poses|
    ensures var prev := Baked(kf, ft, k, m, toJoint, rule);
            var e := SegmentFrames(kf, ft, k, m, toJoint);
            var appended := Frames(prev.cart + e.cart, prev.joint + e.joint);
            appended.WellFormed() && |SegmentTimes(kf, ft, k)| <= |appended.cart|
            && Baked(kf, ft, k + 1, m, toJoint, rule)
               == if k == 0 then appended else Dedup(appended, SegmentTimes(kf, ft, k), kf.times[k], rule)
  {
    var prev := Baked(kf, ft, k, m, toJoint, rule);
    var e := SegmentFrames(kf, ft, k, m, toJoint);
    var appended := Frames(prev.cart + e.cart, prev.joint + e.joint);
    forall i | 0 <= i < |appended.cart|
      ensures appended.cart[i].Some? <==> appended.joint[i].None?
    {
      if i < |prev.cart| {
        assert appended.cart[i] == prev.cart[i] && appended.joint[i] == prev.joint[i];
      } else {
        assert appended.cart[i] == e.cart[i - |prev.cart|] && appended.joint[i] == e.joint[i - |prev.cart|];
      }
    }
  }

  /**
    As written, every segment after the first removes exactly one entry
    (when the lists are not empty), at index `-len(segment_times)`; for a
    segment without frames that is index 0, the first frame of the animation.
   */
  lemma AsWrittenPopsOne(kf: Keyframes, ft: seq<real>, k: nat, m: Math, toJoint: CartesianStickConfig -> JointStickConfig)
    requires kf.Valid() && 1 <= k && k + 1 < |kf.poses|
    ensures var prev := Baked(kf, ft, k, m, toJoint, AsWritten);
            var next := Baked(kf, ft, k + 1, m, toJoint, AsWritten);
            var L := |SegmentTimes(kf, ft, k)|;
            |next.cart| == |prev.cart| + L - (if |prev.cart| + L > 0 then 1 else 0)
            && (L == 0 && |prev.cart| > 0 ==> next.cart == prev.cart[1..] && next.joint == prev.joint[1..])
  {
    var prev := Baked(kf, ft, k, m, toJoint, AsWritten);
    var e := SegmentFrames(kf, ft, k, m, toJoint);
    var appended := Frames(prev.cart + e.cart, prev.joint + e.joint);
    assert appended.WellFormed();
    var L := |SegmentTimes(kf, ft, k)|;
    if |appended.cart| > 0 {
      var i := PopIndex(|appended.cart|, L);
      assert appended.cart[i].Some? || appended.joint[i].Some?;
    }
    if L == 0 && |prev.cart| > 0 {
      assert appended == prev;
      var next := Baked(kf, ft, k + 1, m, toJoint, AsWritten);
      assert next.cart == RemoveAt(prev.cart, 0) == prev.cart[1..];
      assert next.joint == RemoveAt(prev.joint, 0) == prev.joint[1..];
    }
  }

  /**
    With the boundary-only rule and strictly increasing frame times, the lists
    after segment k - 1 hold one entry per frame time in [times[0], times[k]].
   */
  lemma {:induction false} BoundaryOnlyCounts(kf: Keyframes, ft: seq<real>, k: nat, m: Math,
                                              toJoint: CartesianStickConfig -> JointStickConfig)
    requires kf.Valid() && 1 <= k < |kf.poses| && StrictlyIncreasing(ft)
    ensures |Baked(kf, ft, k, m, toJoint, BoundaryOnly).cart| == |Segment(ft, kf.times[0], kf.times[k])|
  {
    if k > 1 {
      BoundaryOnlyCounts(kf, ft, k - 1, m, toJoint);
      var a, b, c := kf.times[0], kf.times[k - 1], kf.times[k];
      assert a <= b < c;
      SegmentSplit(ft, a, b, c);
      OccurrencesOfIncreasing(ft, b);
      SegmentStartsAtBoundary(ft, b, c);
    }
  }

  /**
    The corrected baker covers the animation: when the first keyframe is at
    time 0, there is exactly one Cartesian and one joint entry per frame time.
   */
  lemma BoundaryOnlyCoversEveryFrame(kf: Keyframes, m: Math, toJoint: CartesianStickConfig -> JointStickConfig)
    requires kf.Valid() && kf.times[0] == 0.0
    ensures var ft := FrameTimes(kf);
            var f := Baked(kf, ft, |kf.poses| - 1, m, toJoint, BoundaryOnly);
            |f.cart| == |f.joint| == |ft|
  {
    var ft := FrameTimes(kf);
    var f := Baked(kf, ft, |kf.poses| - 1, m, toJoint, BoundaryOnly);
    FrameTimesShape(kf);
    BoundaryOnlyCounts(kf, ft, |kf.poses| - 1, m, toJoint);
    assert |f.cart| == |Segment(ft, 0.0, kf.Duration())|;
    SegmentOfAll(ft, 0.0, kf.Duration());
  }

  /**
    As written, keyframes at 0, 0.02 and 0.04 s give two frame times (0 and
    0.04) but only one entry in each list: the first frame of the second
    segment is popped although 0.02 is not a frame time.
   */
  lemma AsWrittenLosesFrame(c0: CartesianStickConfig, c1: CartesianStickConfig, c2: CartesianStickConfig,
                            m: Math, toJoint: CartesianStickConfig -> JointStickConfig)
    ensures var st := Settings(Mode.None, Joint);
            var kf := Keyframes([c0, c1, c2], [0.0, 0.02, 0.04], [st, st, st]);
            kf.Valid()
            && FrameTimes(kf) == [0.0, 0.04]
            && |Baked(kf, FrameTimes(kf), 2, m, toJoint, AsWritten).cart| == 1
            && |Baked(kf, FrameTimes(kf), 2, m, toJoint, BoundaryOnly).cart| == 2
  {
    var st := Settings(Mode.None, Joint);
    var kf := Keyframes([c0, c1, c2], [0.0, 0.02, 0.04], [st, st, st]);
    assert kf.Valid();
    assert FrameCount(0.04) == 2 by {
      assert 0.04 * 30.0 == 1.2;
      assert (1.2).Floor == 1;
    }
    var ft := FrameTimes(kf);
    assert ft == [0.0, 0.04];
    assert SegmentTimes(kf, ft, 0) == Segment(ft, 0.0, 0.02) == [0.0];
    assert SegmentTimes(kf, ft, 1) == Segment(ft, 0.02, 0.04) == [0.04];
    assert Baked(kf, ft, 0, m, toJoint, AsWritten) == Frames([], []);
    assert Baked(kf, ft, 0, m, toJoint, BoundaryOnly) == Frames([], []);
    assert |Baked(kf, ft, 1, m, toJoint, AsWritten).cart| == 1;
    assert |Baked(kf, ft, 1, m, toJoint, BoundaryOnly).cart| == 1;
  }
}
