/**
  The animation playback screen: it bakes the keyframes into per-frame
  configurations on entry, then moves a playback cursor (time, frame index,
  keyframe index) by timer ticks, seeks, skips and keyframe jumps, loading
  the configuration of the current frame into the viewer.

  The timer (`Clock.schedule_interval`) and the display strings are not
  modelled; a tick is a call of `AdvanceFrame`.
 */
module Animation {
  import opened RealMath
  import opened Wrappers
  import opened Interpolation
  import opened StickConfig
  import opened Baker

  /** `np.searchsorted(a, v)` (side "left"): the first index whose value is at least v. */
  function SearchSortedLeft(a: seq<real>, v: real): (i: nat)
    ensures i <= |a|
    ensures forall j :: 0 <= j < i ==> a[j] < v
    ensures i < |a| ==> a[i] >= v
  {
    if a == [] || a[0] >= v then 0 else 1 + SearchSortedLeft(a[1..], v)
  }

  /** On an increasing sequence the index splits it: values before it are below v, the rest at least v. */
  lemma SearchSortedSplits(a: seq<real>, v: real)
    requires StrictlyIncreasing(a)
    ensures var i := SearchSortedLeft(a, v);
            forall j :: i <= j < |a| ==> a[j] >= v
  {
  }

  /**
    On the baked frame times, any time within [0, duration] has a frame at or
    after it when there are at least two frames, so the clamp to the last index
    changes nothing; with a single frame (a duration under 1/30 s) every
    positive time searches past it and only the clamp brings it back to 0.
   */
  lemma SearchWithinDuration(kf: Keyframes, t: real)
    requires kf.Valid() && 0.0 <= t <= kf.Duration()
    ensures var ft := FrameTimes(kf); var i := SearchSortedLeft(ft, t);
            |ft| >= 2 ==> i < |ft| && ft[i] >= t && (i == 0 || ft[i - 1] < t)
    ensures var ft := FrameTimes(kf);
            |ft| == 1 && t > 0.0 ==> SearchSortedLeft(ft, t) == 1
  {
    FrameTimesShape(kf);
  }

  /** What the stick viewer was last given. */
  datatype Shown = CartShown(cart: CartesianStickConfig) | JointShown(joint: JointStickConfig)

  /**
    `_load_frame(i)`: nothing past the end of either list, otherwise the
    Cartesian configuration if there is one, else the joint one. `len(None)`
    raises: the result's second component says so.
   */
  function LoadEffect(cart: Option<seq<Option<CartesianStickConfig>>>, joint: Option<seq<Option<JointStickConfig>>>,
                      i: nat, shown: Option<Shown>): (r: (Option<Shown>, bool))
    ensures r.1 <==> cart.None? || (i < |cart.value| && joint.None?)
    ensures r.1 || (cart.Some? && i >= |cart.value|) || (joint.Some? && i >= |joint.value|) ==> r.0 == shown
    ensures !r.1 && i < |cart.value| && i < |joint.value| && cart.value[i].Some? ==> r.0 == Some(CartShown(cart.value[i].value))
    ensures !r.1 && i < |cart.value| && i < |joint.value| && cart.value[i].None? && joint.value[i].Some? ==>
              r.0 == Some(JointShown(joint.value[i].value))
  {
    if cart.None? then (shown, true)
    else if i >= |cart.value| then (shown, false)
    else if joint.None? then (shown, true)
    else if i >= |joint.value| then (shown, false)
    else if cart.value[i].Some? then (Some(CartShown(cart.value[i].value)), false)
    else if joint.value[i].Some? then (Some(JointShown(joint.value[i].value)), false)
    else (shown, false)
  }

  class AnimationScreen {
    /** The trigonometry used by the interpolators. */
    const m: Math
    /** `cart_to_joint_config`, which is not part of this model. */
    const toJoint: CartesianStickConfig -> JointStickConfig
    /**
      The boundary de-duplication the bake runs: `AsWritten` is the program's,
      `BoundaryOnly` the corrected one.
     */
    const rule: PopRule

    var currentTime: real
    var currentFrameIndex: nat
    var currentKeyframeIndex: nat
    var isPlaying: bool
    var totalDuration: real

    var frameTimes: Option<seq<real>>
    var frameConfigsCart: Option<seq<Option<CartesianStickConfig>>>
    var frameConfigsJoint: Option<seq<Option<JointStickConfig>>>
    var keyframeIndices: seq<nat>
    var keyframeTimes: seq<real>
    var keyframes: seq<CartesianStickConfig>
    var keyframeInterps: seq<Settings>

    /** The configuration last loaded into the stick viewer. */
    var shown: Option<Shown>

    /** `__init__`: nothing baked, the cursor at 0. */
    constructor(m: Math, toJoint: CartesianStickConfig -> JointStickConfig, rule: PopRule)
      ensures this.m == m && this.toJoint == toJoint && this.rule == rule
      ensures currentTime == 0.0 && currentFrameIndex == 0 && currentKeyframeIndex == 0
      ensures !isPlaying && totalDuration == 0.0
      ensures frameTimes.None? && frameConfigsCart.None? && frameConfigsJoint.None?
      ensures keyframeIndices == [] && keyframeTimes == [] && keyframes == [] && keyframeInterps == []
      ensures shown.None?
    {
      this.m := m;
      this.toJoint := toJoint;
      this.rule := rule;
      currentTime := 0.0;
      currentFrameIndex := 0;
      currentKeyframeIndex := 0;
      isPlaying := false;
      totalDuration := 0.0;
      frameTimes := Option.None;
      frameConfigsCart := Option.None;
      frameConfigsJoint := Option.None;
      keyframeIndices := [];
      keyframeTimes := [];
      keyframes := [];
      keyframeInterps := [];
      shown := Option.None;
    }

    /** The keyframe input as the baker sees it. */
    function Input(): Keyframes
      reads this
    {
      Keyframes(keyframes, keyframeTimes, keyframeInterps)
    }

    /**
      `on_pre_enter`: take the editor's keyframes; with fewer than two, a
      single frame at time 0 holding the lone keyframe (or nothing), else bake.
     */
    method OnPreEnter(poses: seq<CartesianStickConfig>, times: seq<real>, interps: seq<Settings>)
      requires |poses| >= 2 ==> Keyframes(poses, times, interps).Valid()
      modifies this`keyframes, this`keyframeTimes, this`keyframeInterps, this`frameTimes,
               this`frameConfigsCart, this`frameConfigsJoint, this`keyframeIndices, this`totalDuration
      ensures keyframes == poses && keyframeTimes == times && keyframeInterps == interps
      ensures |poses| < 2 ==>
                frameTimes == Some([0.0])
                && frameConfigsCart == Some(if |poses| == 1 then [Some(poses[0])] else [])
                && keyframeIndices == [0] && totalDuration == 0.0
                && frameConfigsJoint == old(frameConfigsJoint)
      ensures |poses| >= 2 ==> HoldsBake(Input())
      ensures totalDuration >= 0.0
      ensures frameTimes.Some? && |frameTimes.value| >= 1
    {
      keyframes := poses;
      keyframeTimes := times;
      keyframeInterps := interps;
      if |poses| < 2 {
        frameTimes := Some([0.0]);
        frameConfigsCart := Some(if |poses| > 0 then [Some(poses[0])] else []);
        keyframeIndices := [0];
        totalDuration := 0.0;
      } else {
        PrecomputeAnimation();
      }
    }

    /** The fields hold what the baker, with this screen's de-duplication, computes from the input. */
    ghost predicate HoldsBake(kf: Keyframes)
      requires kf.Valid()
      reads this
    {
      var ft := FrameTimes(kf);
      var f := Baked(kf, ft, |kf.poses| - 1, m, toJoint, rule);
      totalDuration == kf.Duration()
      && frameTimes == Some(ft)
      && keyframeIndices == KeyframeIndices(ft, kf.times)
      && frameConfigsCart == Some(f.cart) && frameConfigsJoint == Some(f.joint)
    }

    /**
      `_precompute_animation`: frame times at 30 per second, the nearest frame
      of each keyframe, then segment by segment the configurations, each later
      segment followed by the boundary de-duplication.
     */
    method PrecomputeAnimation()
      requires Input().Valid()
      modifies this`frameTimes, this`frameConfigsCart, this`frameConfigsJoint, this`keyframeIndices, this`totalDuration
      ensures HoldsBake(Input())
      ensures totalDuration > 0.0 && |frameTimes.value| >= 1
    {
      var kf := Input();
      var duration := kf.times[|kf.times| - 1];
      var numFrames := FrameCount(duration);
      var ft := Linspace(duration, numFrames as nat);
      assert ft == FrameTimes(kf);
      FrameTimesShape(kf);
      var indices := KeyframeIndices(ft, kf.times);

      var cart, joint := BakeSegments(kf, ft);
      totalDuration := duration;
      frameTimes := Some(ft);
      keyframeIndices := indices;
      frameConfigsCart := Some(cart);
      frameConfigsJoint := Some(joint);
    }

    /** The segment loop of `_precompute_animation`, over the frame times `ft`. */
    method BakeSegments(kf: Keyframes, ft: seq<real>)
      returns (cart: seq<Option<CartesianStickConfig>>, joint: seq<Option<JointStickConfig>>)
      requires kf.Valid()
      ensures Frames(cart, joint) == Baked(kf, ft, |kf.poses| - 1, m, toJoint, rule)
    {
      cart, joint := [], [];
      for segIdx := 0 to |kf.poses| - 1
        invariant Frames(cart, joint) == Baked(kf, ft, segIdx, m, toJoint, rule)
      {
        var addCart, addJoint := SegmentConfigs(kf, ft, segIdx);
        BakedStep(kf, ft, segIdx, m, toJoint, rule);
        cart, joint := DropRepeatedBoundary(kf, ft, segIdx, rule, cart + addCart, joint + addJoint);
      }
    }

    /**
      The body of the segment loop before the de-duplication: what segment
      `segIdx` appends to the Cartesian and to the joint list.
     */
    method SegmentConfigs(kf: Keyframes, ft: seq<real>, segIdx: nat)
      returns (addCart: seq<Option<CartesianStickConfig>>, addJoint: seq<Option<JointStickConfig>>)
      requires kf.Valid() && segIdx + 1 < |kf.poses|
      ensures Frames(addCart, addJoint) == SegmentFrames(kf, ft, segIdx, m, toJoint)
    {
      var t0, t1 := kf.times[segIdx], kf.times[segIdx + 1];
      var settings := kf.interps[segIdx + 1];
      var segmentTimes := Segment(ft, t0, t1);
      ghost var e := SegmentFrames(kf, ft, segIdx, m, toJoint);
      if settings.mode == Mode.None {
        addCart, addJoint := [], [];
        for k := 0 to |segmentTimes|
          invariant |addCart| == |addJoint| == k
          invariant forall i :: 0 <= i < k ==> addCart[i] == Some(kf.poses[segIdx]) && addJoint[i].None?
        {
          addCart := addCart + [Some(kf.poses[segIdx])];
          addJoint := addJoint + [Option.None];
        }
        assert addCart == e.cart && addJoint == e.joint;
      } else if settings.space == Cartesian {
        var configs := InterpolateCartesianSegment(kf.poses[segIdx], kf.poses[segIdx + 1], t0, t1, segmentTimes, settings.mode);
        addCart, addJoint := Somes(configs), Nones(|configs|);
        assert addCart == e.cart && addJoint == e.joint;
      } else {
        var configs := InterpolateJointSegment(kf.poses[segIdx], kf.poses[segIdx + 1], t0, t1, segmentTimes, settings.mode);
        addCart, addJoint := Nones(|configs|), Somes(configs);
        assert addCart == e.cart && addJoint == e.joint;
      }
    }

    /**
      The de-duplication after segment `segIdx > 0` has been appended. As
      written, the entry at `-len(segment_times)` goes whenever the Cartesian
      or else the joint list holds a configuration there; corrected, the
      segment's first entry goes only when its first frame time is the
      segment's start.
     */
    static method DropRepeatedBoundary(kf: Keyframes, ft: seq<real>, segIdx: nat, rule: PopRule,
                                       cart: seq<Option<CartesianStickConfig>>, joint: seq<Option<JointStickConfig>>)
      returns (cart': seq<Option<CartesianStickConfig>>, joint': seq<Option<JointStickConfig>>)
      requires kf.Valid() && segIdx + 1 < |kf.poses|
      requires Frames(cart, joint).WellFormed() && |SegmentTimes(kf, ft, segIdx)| <= |cart|
      ensures Frames(cart', joint') == if segIdx == 0 then Frames(cart, joint)
              else Dedup(Frames(cart, joint), SegmentTimes(kf, ft, segIdx), kf.times[segIdx], rule)
    {
      var t0 := kf.times[segIdx];
      var segmentTimes := Segment(ft, t0, kf.times[segIdx + 1]);
      cart', joint' := cart, joint;
      if segIdx == 0 {
        return;
      }
      match rule
      case AsWritten =>
        var i := if |segmentTimes| == 0 then 0 else |cart| - |segmentTimes|;
        if (|cart| > 0 && cart[i].Some?) || (|joint| > 0 && joint[i].Some?) {
          cart' := cart[..i] + cart[i + 1..];
          joint' := joint[..i] + joint[i + 1..];
        }
      case BoundaryOnly =>
        if |segmentTimes| > 0 && segmentTimes[0] == t0 {
          var i := |cart| - |segmentTimes|;
          cart' := cart[..i] + cart[i + 1..];
          joint' := joint[..i] + joint[i + 1..];
        }
    }

    /**
      `_interpolate_cartesian_segment`: interpolate the 18 flattened numbers
      over the segment's times and rebuild a pose from each row.
     */
    method InterpolateCartesianSegment(config0: CartesianStickConfig, config1: CartesianStickConfig,
                                       t0: real, t1: real, times: seq<real>, mode: Mode)
      returns (configs: seq<CartesianStickConfig>)
      requires mode != Mode.None && t1 > t0
      ensures |configs| == |times|
      ensures var it := SegmentInterpolator(mode, t0, t1, Flatten(config0), Flatten(config1));
              forall i :: 0 <= i < |times| ==> configs[i] == CartesianFrame(it, times[i], m)
    {
      var p0, p1 := Flatten(config0), Flatten(config1);
      var interp := SegmentInterpolator(mode, t0, t1, p0, p1);
      var resultFlat := Evaluate(interp, times);
      configs := [];
      for i := 0 to |times|
        invariant |configs| == i
        invariant forall j :: 0 <= j < i ==> configs[j] == CartesianFrame(interp, times[j], m)
      {
        CartesianRowAt(interp, times, m, i);
        var poseArray := Reshape(resultFlat.rows[i]);
        var config := CartesianFromNumpy(poseArray);
        CartesianFramesExtend(configs, interp, times, m, config);
        configs := configs + [config];
      }
    }

    /**
      `_interpolate_joint_segment`: convert both keyframes to joint space,
      interpolate the 22 numbers and rebuild a joint pose from each row.
     */
    method InterpolateJointSegment(config0: CartesianStickConfig, config1: CartesianStickConfig,
                                   t0: real, t1: real, times: seq<real>, mode: Mode)
      returns (configs: seq<JointStickConfig>)
      requires mode != Mode.None && t1 > t0
      ensures |configs| == |times|
      ensures var it := SegmentInterpolator(mode, t0, t1, toJoint(config0).ToNumpy(), toJoint(config1).ToNumpy());
              forall i :: 0 <= i < |times| ==> configs[i] == JointFrame(it, times[i], m)
    {
      var j0, j1 := toJoint(config0).ToNumpy(), toJoint(config1).ToNumpy();
      var interp := SegmentInterpolator(mode, t0, t1, j0, j1);
      var jointsInterp := Evaluate(interp, times);
      configs := [];
      for i := 0 to |times|
        invariant |configs| == i
        invariant forall j :: 0 <= j < i ==> configs[j] == JointFrame(interp, times[j], m)
      {
        JointRowAt(interp, times, m, i);
        var config := JointFromNumpy(jointsInterp.rows[i]);
        JointFramesExtend(configs, interp, times, m, config);
        configs := configs + [config];
      }
    }

    /** `interp.interpolate(times)`, dispatched on the interpolator's class. */
    method Evaluate(interp: Interpolator, times: seq<real>) returns (out: Output)
      requires interp.Valid() && |interp.p0| >= 1
      ensures out == Interpolate(interp, times, m)
    {
      if interp.mode == Elastic {
        out := InterpolateElastic(interp, times, m);
      } else {
        out := Interpolate(interp, times, m);
      }
    }

    /** `_load_frame(frame_idx)`; `raised` reports the `TypeError` of `len(None)`. */
    method LoadFrame(frameIdx: nat) returns (raised: bool)
      modifies this`shown
      ensures (shown, raised) == LoadEffect(frameConfigsCart, frameConfigsJoint, frameIdx, old(shown))
    {
      raised := false;
      if frameConfigsCart.None? {
        raised := true;
        return;
      }
      if frameIdx >= |frameConfigsCart.value| {
        return;
      }
      if frameConfigsJoint.None? {
        raised := true;
        return;
      }
      if frameIdx >= |frameConfigsJoint.value| {
        return;
      }
      var cart, joint := frameConfigsCart.value, frameConfigsJoint.value;
      if cart[frameIdx].Some? {
        shown := Some(CartShown(cart[frameIdx].value));
      } else if joint[frameIdx].Some? {
        shown := Some(JointShown(joint[frameIdx].value));
      }
    }

    /** `start_playback`: refused without frames or with a single frame. */
    method StartPlayback()
      modifies this`isPlaying
      ensures isPlaying == ((frameTimes.Some? && |frameTimes.value| > 1) || old(isPlaying))
    {
      if frameTimes.None? || |frameTimes.value| <= 1 {
        return;
      }
      isPlaying := true;
    }

    /** `pause_playback`. */
    method PausePlayback()
      modifies this`isPlaying
      ensures !isPlaying
    {
      isPlaying := false;
    }

    /** `play_pause`: pause when playing, otherwise start. */
    method PlayPause()
      modifies this`isPlaying
      ensures old(isPlaying) ==> !isPlaying
      ensures !old(isPlaying) ==> isPlaying == (frameTimes.Some? && |frameTimes.value| > 1)
    {
      if isPlaying {
        PausePlayback();
      } else {
        StartPlayback();
      }
    }

    /**
      `_advance_frame(dt)`: advance the clock, wrapping to 0 only once it is
      strictly past the duration, then pick the frame and keyframe index.
     */
    method AdvanceFrame(dt: real) returns (raised: bool)
      requires frameTimes.Some? && |frameTimes.value| >= 1
      modifies this`currentTime, this`currentFrameIndex, this`currentKeyframeIndex, this`shown
      ensures currentTime == if old(currentTime) + dt > totalDuration then 0.0 else old(currentTime) + dt
      ensures currentFrameIndex == Min(SearchSortedLeft(frameTimes.value, currentTime) as real,
                                       (|frameTimes.value| - 1) as real) as int
      ensures currentFrameIndex < |frameTimes.value|
      ensures currentKeyframeIndex == SearchSortedLeft(keyframeTimes, currentTime)
      ensures (shown, raised) == LoadEffect(frameConfigsCart, frameConfigsJoint, currentFrameIndex, old(shown))
    {
      currentTime := currentTime + dt;
      if currentTime > totalDuration {
        currentTime := 0.0;
      }
      var ft := frameTimes.value;
      var i := SearchSortedLeft(ft, currentTime);
      currentFrameIndex := if i <= |ft| - 1 then i else |ft| - 1;
      currentKeyframeIndex := SearchSortedLeft(keyframeTimes, currentTime);
      raised := LoadFrame(currentFrameIndex);
    }

    /**
      The cursor after `seek_to_time(time)` from a viewer showing `before`:
      the time clamped into [0, duration], the first frame at or after it
      (the last frame if none), the keyframe search of it, and that frame loaded.
     */
    ghost predicate SeekedTo(time: real, before: Option<Shown>, raised: bool)
      requires frameTimes.Some? && totalDuration >= 0.0
      reads this
    {
      currentTime == Clip(time, 0.0, totalDuration)
      && currentFrameIndex == Min(SearchSortedLeft(frameTimes.value, currentTime) as real,
                                  (|frameTimes.value| - 1) as real) as int
      && currentKeyframeIndex == SearchSortedLeft(keyframeTimes, currentTime)
      && (shown, raised) == LoadEffect(frameConfigsCart, frameConfigsJoint, currentFrameIndex, before)
    }

    /** `seek_to_time(time)`: clamp into [0, duration], then pick the frame and keyframe index. */
    method SeekToTime(time: real) returns (raised: bool)
      requires frameTimes.Some? && |frameTimes.value| >= 1 && totalDuration >= 0.0
      modifies this`currentTime, this`currentFrameIndex, this`currentKeyframeIndex, this`shown
      ensures SeekedTo(time, old(shown), raised)
      ensures 0.0 <= currentTime <= totalDuration
      ensures currentFrameIndex < |frameTimes.value|
    {
      currentTime := Clip(time, 0.0, totalDuration);
      var ft := frameTimes.value;
      var i := SearchSortedLeft(ft, currentTime);
      currentFrameIndex := if i <= |ft| - 1 then i else |ft| - 1;
      currentKeyframeIndex := SearchSortedLeft(keyframeTimes, currentTime);
      raised := LoadFrame(currentFrameIndex);
    }

    /**
      `skip_to_start`: seek to 0, which is frame 0 whenever the frame times
      start at 0 or later (as every bake does).
     */
    method SkipToStart() returns (raised: bool)
      requires frameTimes.Some? && |frameTimes.value| >= 1 && totalDuration >= 0.0
      modifies this`currentTime, this`currentFrameIndex, this`currentKeyframeIndex, this`shown
      ensures SeekedTo(0.0, old(shown), raised) && currentTime == 0.0
      ensures frameTimes.value[0] >= 0.0 ==>
                currentFrameIndex == 0
                && (shown, raised) == LoadEffect(frameConfigsCart, frameConfigsJoint, 0, old(shown))
    {
      raised := SeekToTime(0.0);
    }

    /**
      `skip_to_end`: seek to the duration, which on increasing frame times
      ending at the duration is the last frame.
     */
    method SkipToEnd() returns (raised: bool)
      requires frameTimes.Some? && |frameTimes.value| >= 1 && totalDuration >= 0.0
      modifies this`currentTime, this`currentFrameIndex, this`currentKeyframeIndex, this`shown
      ensures SeekedTo(totalDuration, old(shown), raised) && currentTime == totalDuration
      ensures var ft := frameTimes.value;
              StrictlyIncreasing(ft) && ft[|ft| - 1] == totalDuration ==> currentFrameIndex == |ft| - 1
    {
      raised := SeekToTime(totalDuration);
    }

    /**
      `prev_keyframe`: with a keyframe index above 0, seek to the keyframe
      before it; an index past the list raises `IndexError`.
     */
    method PrevKeyframe() returns (raised: bool)
      requires frameTimes.Some? && |frameTimes.value| >= 1 && totalDuration >= 0.0
      modifies this`currentTime, this`currentFrameIndex, this`currentKeyframeIndex, this`shown
      ensures old(currentKeyframeIndex) == 0 ==> !raised && unchanged(this)
      ensures old(currentKeyframeIndex) > |keyframeTimes| ==> raised && unchanged(this)
      ensures 0 < old(currentKeyframeIndex) <= |keyframeTimes| ==>
                SeekedTo(keyframeTimes[old(currentKeyframeIndex) - 1], old(shown), raised)
    {
      raised := false;
      if currentKeyframeIndex > 0 {
        if currentKeyframeIndex - 1 >= |keyframeTimes| {
          raised := true;
          return;
        }
        raised := SeekToTime(keyframeTimes[currentKeyframeIndex - 1]);
      }
    }

    /** `next_keyframe`: below the last keyframe, seek to the next one; otherwise nothing. */
    method NextKeyframe() returns (raised: bool)
      requires frameTimes.Some? && |frameTimes.value| >= 1 && totalDuration >= 0.0
      modifies this`currentTime, this`currentFrameIndex, this`currentKeyframeIndex, this`shown
      ensures old(currentKeyframeIndex) >= |keyframeTimes| - 1 ==> !raised && unchanged(this)
      ensures old(currentKeyframeIndex) < |keyframeTimes| - 1 ==>
                SeekedTo(keyframeTimes[old(currentKeyframeIndex) + 1], old(shown), raised)
    {
      raised := false;
      if currentKeyframeIndex < |keyframeTimes| - 1 {
        raised := SeekToTime(keyframeTimes[currentKeyframeIndex + 1]);
      }
    }
  }

  /** `[None] * n`. */
  function Nones<T>(n: nat): (r: seq<Option<T>>)
    ensures |r| == n && forall i :: 0 <= i < n ==> r[i].None?
  {
    seq(n, _ => Option.None)
  }

  /** Each configuration wrapped as present. */
  function Somes<T>(xs: seq<T>): (r: seq<Option<T>>)
    ensures |r| == |xs| && forall i :: 0 <= i < |xs| ==> r[i] == Some(xs[i])
  {
    seq(|xs|, i requires 0 <= i < |xs| => Some(xs[i]))
  }
}
