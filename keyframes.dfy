/**
  The keyframe editor screen: a list of stored frames with a cursor, and an
  editable figure whose handlers propagate drags from the feet to the pelvis,
  from the pelvis to the shoulder and from the shoulder to the hands.
 */
module KeyframeScreen {
  import opened Wrappers
  import opened Text
  import opened Propagation

  /** `max(1, len(frames))`: the label and the chooser always show one frame at least. */
  function Total(n: nat): (t: nat)
    ensures t >= 1 && t >= n && (n >= 1 ==> t == n)
  {
    if n < 1 then 1 else n
  }

  /** `max(0, min(index, n - 1))`. */
  function ClampIndex(index: int, n: nat): (i: nat)
    requires n > 0
    ensures i < n
    ensures 0 <= index < n ==> i == index
    ensures index < 0 ==> i == 0
    ensures index >= n ==> i == n - 1
  {
    if index < 0 then 0 else if index > n - 1 then n - 1 else index
  }

  /** `"Frame {current_index + 1} / {max(1, len(frames))}"`. */
  function FrameLabel(index: nat, n: nat): string
  {
    "Frame " + NatToString(index + 1) + " / " + NatToString(Total(n))
  }

  /** `[str(i + 1) for i in range(max(1, len(frames)))]`. */
  function FrameChoices(n: nat): (choices: seq<string>)
    ensures |choices| == Total(n)
    ensures forall i :: 0 <= i < |choices| ==> choices[i] == NatToString(i + 1)
  {
    seq(Total(n), i requires 0 <= i < Total(n) => NatToString(i + 1))
  }

  /** The choice at position k reads back as frame number k + 1, and the choices are distinct. */
  lemma ChoicesReadBack(n: nat, k: nat, j: nat)
    requires k < Total(n) && j < Total(n)
    ensures ParseInt(FrameChoices(n)[k]) == Some(k + 1)
    ensures FrameChoices(n)[k] == FrameChoices(n)[j] ==> k == j
  {
    ParseNatToString(k + 1);
    NatToStringInjective(k + 1, j + 1);
  }

  /**
    The frame `on_frame_chosen(text)` moves to: `int(text) - 1` when the text
    parses, names a stored frame and is not the current one; `None` leaves the
    editor as it is.
   */
  function ChosenIndex(text: string, n: nat, current: nat): (r: Option<nat>)
    ensures r.Some? <==> ParseInt(text).Some? && 1 <= ParseInt(text).value <= n
                         && ParseInt(text).value - 1 != current
    ensures r.Some? ==> ParseInt(text) == Some(r.value + 1) && r.value < n && r.value != current
  {
    match ParseInt(text)
    case None => None
    case Some(v) => if 0 <= v - 1 < n && v - 1 != current then Some(v - 1) else None
  }

  /**
    Choosing the k-th entry the chooser offers moves to frame k exactly when
    it is another stored frame.
   */
  lemma ChoosingAListedFrame(n: nat, current: nat, k: nat)
    requires k < Total(n)
    ensures ChosenIndex(FrameChoices(n)[k], n, current) == if k < n && k != current then Some(k) else None
  {
    ChoicesReadBack(n, k, k);
  }

  class KeyframeEditor {
    // Centres of the editable figure's effectors.
    var handLeft: Point2
    var handRight: Point2
    var footLeft: Point2
    var footRight: Point2
    var shoulder: Point2
    var pelvis: Point2

    var frames: seq<Figure>
    var initialFrame: Option<Figure>
    var currentIndex: nat

    var pelvisPrev: Option<Point2>
    var shoulderPrev: Option<Point2>
    var footMidpointBase: Option<Point2>
    var pelvisOffsetFromFeet: Point2
    var suppressPelvisEvent: bool
    var suppressShoulderEvent: bool
    var loadingFrame: bool

    var frameLabel: string
    var frameChoices: seq<string>
    /** What the ghost layer shows: the previous frame, or nothing (opacity 0). */
    var ghostFrame: Option<Figure>

    /** `__init__`, with the effector centres the layout places. */
    constructor(layout: Figure)
      ensures Current() == layout
      ensures frames == [] && initialFrame.None? && currentIndex == 0
      ensures pelvisPrev.None? && shoulderPrev.None? && footMidpointBase.None? && pelvisOffsetFromFeet == Zero
      ensures !suppressPelvisEvent && !suppressShoulderEvent && !loadingFrame
      ensures frameLabel == "Frame 1 / 1" && frameChoices == ["1"] && ghostFrame.None?
      ensures Valid()
    {
      handLeft, handRight := layout.handLeft, layout.handRight;
      footLeft, footRight := layout.footLeft, layout.footRight;
      shoulder, pelvis := layout.shoulder, layout.pelvis;
      frames := [];
      initialFrame := None;
      currentIndex := 0;
      pelvisPrev, shoulderPrev, footMidpointBase := None, None, None;
      pelvisOffsetFromFeet := Zero;
      suppressPelvisEvent, suppressShoulderEvent := false, false;
      loadingFrame := false;
      frameLabel := "Frame 1 / 1";
      frameChoices := ["1"];
      ghostFrame := None;
    }

    /** No frame is loading and no handler is suppressed. */
    predicate Idle()
      reads this
    {
      !loadingFrame && !suppressPelvisEvent && !suppressShoulderEvent
    }

    /** Between two UI events: idle, with the cursor on a stored frame when there are any. */
    predicate Valid()
      reads this
    {
      Idle() && (|frames| > 0 ==> currentIndex < |frames|)
    }

    /** `_capture_current_frame`: the six centres. */
    function Current(): Figure
      reads this
    {
      Figure(handLeft, handRight, footLeft, footRight, shoulder, pelvis)
    }

    /** The figure with its propagation bookkeeping. */
    function Layer(): State
      reads this
    {
      State(Current(), pelvisPrev, shoulderPrev, footMidpointBase, pelvisOffsetFromFeet)
    }

    /** `_move_hands_by(delta)`: nothing while a frame loads. */
    method MoveHandsBy(d: Point2)
      modifies this`handLeft, this`handRight
      ensures Layer() == if loadingFrame then old(Layer()) else MoveHands(old(Layer()), d)
    {
      if loadingFrame {
        return;
      }
      handLeft := handLeft.Plus(d);
      handRight := handRight.Plus(d);
    }

    /**
      `_on_shoulder_moved`: under suppression or without a recorded shoulder,
      only record it; otherwise carry the hands by the move. This handler
      does not look at the loading flag, but the hands then stay put.
     */
    method OnShoulderMoved()
      modifies this`shoulderPrev, this`handLeft, this`handRight
      ensures suppressShoulderEvent || old(shoulderPrev).None? || loadingFrame ==>
                Layer() == old(Layer()).(shoulderPrev := Some(shoulder))
      ensures !suppressShoulderEvent && old(shoulderPrev).Some? && !loadingFrame ==>
                Layer() == ShoulderDragged(old(Layer()))
    {
      if suppressShoulderEvent || shoulderPrev.None? {
        shoulderPrev := Some(shoulder);
        return;
      }
      var newCenter := shoulder;
      var delta := newCenter.Minus(shoulderPrev.value);
      shoulderPrev := Some(newCenter);
      if delta != Zero {
        MoveHandsBy(delta);
      }
    }

    /**
      `_set_shoulder_center(c)`: move the shoulder with its handler suppressed
      (Kivy runs the bound handler when the centre changes), record it, then
      carry the hands by the move from the recorded shoulder.
     */
    method SetShoulderCenter(c: Point2)
      modifies this`shoulder, this`shoulderPrev, this`suppressShoulderEvent, this`handLeft, this`handRight
      ensures !suppressShoulderEvent
      ensures !loadingFrame ==> Layer() == SetShoulder(old(Layer()), c)
      ensures loadingFrame ==> Layer() == old(Layer()).(fig := old(Current()).(shoulder := c), shoulderPrev := Some(c))
    {
      var prev := shoulderPrev;
      suppressShoulderEvent := true;
      if c != shoulder {
        shoulder := c;
        OnShoulderMoved();
      }
      suppressShoulderEvent := false;
      shoulderPrev := Some(c);
      if prev.Some? {
        var delta := c.Minus(prev.value);
        if delta != Zero {
          MoveHandsBy(delta);
        }
      }
    }

    /** `_move_shoulders_by(delta)`: nothing while a frame loads. */
    method MoveShouldersBy(d: Point2)
      modifies this`shoulder, this`shoulderPrev, this`suppressShoulderEvent, this`handLeft, this`handRight
      ensures suppressShoulderEvent == (old(suppressShoulderEvent) && loadingFrame)
      ensures Layer() == if loadingFrame then old(Layer()) else MoveShoulders(old(Layer()), d)
    {
      if loadingFrame {
        return;
      }
      SetShoulderCenter(shoulder.Plus(d));
    }

    /**
      `_on_pelvis_moved`: nothing while a frame loads; under suppression or
      without a recorded pelvis only record it; otherwise record it and, when
      it moved, renew the offset from the feet and carry the shoulder.
     */
    method OnPelvisMoved()
      modifies this`pelvisPrev, this`pelvisOffsetFromFeet, this`shoulder, this`shoulderPrev,
               this`suppressShoulderEvent, this`handLeft, this`handRight
      ensures loadingFrame ==> Layer() == old(Layer()) && suppressShoulderEvent == old(suppressShoulderEvent)
      ensures !loadingFrame && (suppressPelvisEvent || old(pelvisPrev).None?) ==>
                Layer() == old(Layer()).(pelvisPrev := Some(pelvis))
                && suppressShoulderEvent == old(suppressShoulderEvent)
      ensures !loadingFrame && !suppressPelvisEvent && old(pelvisPrev).Some? ==>
                Layer() == PelvisDragged(old(Layer()))
                && suppressShoulderEvent == (old(suppressShoulderEvent) && pelvis == old(pelvisPrev).value)
    {
      if loadingFrame {
        return;
      }
      if suppressPelvisEvent || pelvisPrev.None? {
        pelvisPrev := Some(pelvis);
        return;
      }
      var newCenter := pelvis;
      var delta := newCenter.Minus(pelvisPrev.value);
      pelvisPrev := Some(newCenter);
      if delta == Zero {
        return;
      }
      pelvisOffsetFromFeet := newCenter.Minus(FootMidpoint(Current()));
      MoveShouldersBy(delta);
    }

    /**
      `_set_pelvis_center(p, update_offset)`: move the pelvis with its handler
      suppressed, record it, renew the offset on request, then carry the
      shoulder by the move from the recorded pelvis.
     */
    method SetPelvisCenter(p: Point2, updateOffset: bool)
      modifies this`pelvis, this`pelvisPrev, this`pelvisOffsetFromFeet, this`suppressPelvisEvent,
               this`shoulder, this`shoulderPrev, this`suppressShoulderEvent, this`handLeft, this`handRight
      ensures !suppressPelvisEvent
      ensures !loadingFrame ==> Layer() == SetPelvis(old(Layer()), p, updateOffset)
      ensures !loadingFrame && old(pelvisPrev).Some? && p != old(pelvisPrev).value ==> !suppressShoulderEvent
      ensures loadingFrame ==>
                Layer() == old(Layer()).(fig := old(Current()).(pelvis := p), pelvisPrev := Some(p),
                                         offset := if updateOffset then p.Minus(FootMidpoint(old(Current())))
                                                   else old(pelvisOffsetFromFeet))
    {
      var prev := pelvisPrev;
      suppressPelvisEvent := true;
      if p != pelvis {
        pelvis := p;
        OnPelvisMoved();
      }
      suppressPelvisEvent := false;
      pelvisPrev := Some(p);
      if updateOffset {
        pelvisOffsetFromFeet := p.Minus(FootMidpoint(Current()));
      }
      if prev.Some? {
        var delta := p.Minus(prev.value);
        if delta != Zero {
          MoveShouldersBy(delta);
        }
      }
    }

    /** `_apply_pelvis_follow(target)`: one follow step, unless the target is in the dead zone. */
    method ApplyPelvisFollow(target: Point2)
      modifies this`pelvis, this`pelvisPrev, this`pelvisOffsetFromFeet, this`suppressPelvisEvent,
               this`shoulder, this`shoulderPrev, this`suppressShoulderEvent, this`handLeft, this`handRight
      ensures FollowStep(old(pelvis), target).None? ==> unchanged(this)
      ensures FollowStep(old(pelvis), target).Some? && !loadingFrame ==>
                Layer() == SetPelvis(old(Layer()), FollowStep(old(pelvis), target).value, false)
    {
      match FollowStep(pelvis, target)
      case None =>
        return;
      case Some(p) =>
        SetPelvisCenter(p, false);
    }

    /** `_on_foot_moved`: nothing while a frame loads; otherwise let the pelvis follow the feet. */
    method OnFootMoved()
      modifies this`pelvis, this`pelvisPrev, this`pelvisOffsetFromFeet, this`suppressPelvisEvent,
               this`shoulder, this`shoulderPrev, this`suppressShoulderEvent, this`handLeft, this`handRight
      ensures loadingFrame ==> unchanged(this)
      ensures !loadingFrame ==> Layer() == FollowFeet(old(Layer()))
    {
      if loadingFrame {
        return;
      }
      if pelvisPrev.None? {
        return;
      }
      var footMid := FootMidpoint(Current());
      ApplyPelvisFollow(footMid.Plus(pelvisOffsetFromFeet));
    }

    /** Assigns one foot's centre, with no handler run. */
    method PlaceFoot(side: Side, p: Point2)
      modifies this`footLeft, this`footRight
      ensures Current() == WithFoot(old(Current()), side, p)
    {
      match side
      case Left => footLeft := p;
      case Right => footRight := p;
    }

    /**
      A foot dragged to c, as Kivy dispatches the new centre (`pos` assigned by the effector widget):
      x first, then y, each coordinate that changes running `_on_foot_moved`.
     */
    method DragFootTo(side: Side, c: Point2)
      modifies this`footLeft, this`footRight, this`pelvis, this`pelvisPrev, this`pelvisOffsetFromFeet,
               this`suppressPelvisEvent, this`shoulder, this`shoulderPrev, this`suppressShoulderEvent,
               this`handLeft, this`handRight
      ensures loadingFrame ==> Layer() == old(Layer()).(fig := WithFoot(old(Current()), side, c))
      ensures !loadingFrame ==> Layer() == DragFoot(old(Layer()), side, c)
    {
      var from := FootOf(Current(), side);
      if c.x != from.x {
        PlaceFoot(side, Point2(c.x, from.y));
        OnFootMoved();
      }
      if c.y != from.y {
        PlaceFoot(side, c);
        OnFootMoved();
      }
    }

    /**
      `_initialize_motion_propagation` (without the handler bindings): record
      the centres and measure the pelvis offset from the feet.
     */
    method InitializeMotionPropagation()
      modifies this`pelvisPrev, this`shoulderPrev, this`footMidpointBase, this`pelvisOffsetFromFeet
      ensures Layer() == Resync(old(Layer()))
    {
      pelvisPrev := Some(pelvis);
      shoulderPrev := Some(shoulder);
      footMidpointBase := Some(FootMidpoint(Current()));
      pelvisOffsetFromFeet := pelvis.Minus(footMidpointBase.value);
    }

    /**
      The placing loop of `_apply_frame_to_current`: each effector goes to its
      place in the frame, and the handlers bound to the feet, the shoulder and
      the pelvis run (Kivy dispatches when a centre changes) but, with the
      loading flag up, at most record centres.
     */
    method PlaceWhileLoading(frame: Figure)
      requires loadingFrame && !suppressPelvisEvent && !suppressShoulderEvent
      modifies this`handLeft, this`handRight, this`footLeft, this`footRight, this`shoulder, this`pelvis,
               this`pelvisPrev, this`shoulderPrev, this`pelvisOffsetFromFeet, this`suppressPelvisEvent,
               this`suppressShoulderEvent
      ensures Current() == frame
      ensures footMidpointBase == old(footMidpointBase) && pelvisOffsetFromFeet == old(pelvisOffsetFromFeet)
      ensures !suppressPelvisEvent && !suppressShoulderEvent
    {
      handLeft := frame.handLeft;
      handRight := frame.handRight;
      if footLeft != frame.footLeft {
        footLeft := frame.footLeft;
        OnFootMoved();
      }
      if footRight != frame.footRight {
        footRight := frame.footRight;
        OnFootMoved();
      }
      assert Current() == frame.(shoulder := shoulder, pelvis := pelvis);
      if shoulder != frame.shoulder {
        shoulder := frame.shoulder;
        OnShoulderMoved();
      }
      assert Current() == frame.(pelvis := pelvis);
      if pelvis != frame.pelvis {
        pelvis := frame.pelvis;
        OnPelvisMoved();
      }
    }

    /**
      `_apply_frame_to_current(frame)`: with the loading flag up, place the six
      effectors (their bound handlers run and propagate nothing), then resync.
     */
    method ApplyFrameToCurrent(frame: Figure)
      requires Idle()
      modifies this`loadingFrame, this`handLeft, this`handRight, this`footLeft, this`footRight,
               this`shoulder, this`pelvis, this`pelvisPrev, this`shoulderPrev, this`footMidpointBase,
               this`pelvisOffsetFromFeet, this`suppressPelvisEvent, this`suppressShoulderEvent
      ensures Idle()
      ensures Layer() == Resync(old(Layer()).(fig := frame))
    {
      loadingFrame := true;
      PlaceWhileLoading(frame);
      pelvisPrev := Some(pelvis);
      shoulderPrev := Some(shoulder);
      footMidpointBase := Some(FootMidpoint(Current()));
      pelvisOffsetFromFeet := pelvisPrev.value.Minus(footMidpointBase.value);
      loadingFrame := false;
    }

    /** `_apply_frame_to_ghost(frame)`: show the frame, or hide the ghost layer for none. */
    method ApplyFrameToGhost(frame: Option<Figure>)
      modifies this`ghostFrame
      ensures ghostFrame == frame
    {
      ghostFrame := frame;
    }

    /** `_refresh_frame_meta`: the label and the chooser's entries. */
    method RefreshFrameMeta()
      modifies this`frameLabel, this`frameChoices
      ensures frameLabel == FrameLabel(currentIndex, |frames|)
      ensures frameChoices == FrameChoices(|frames|)
    {
      frameLabel := FrameLabel(currentIndex, |frames|);
      frameChoices := FrameChoices(|frames|);
    }

    /** `_save_current_to_list`: store the figure in the current slot, if there are frames. */
    method SaveCurrentToList()
      requires Valid()
      modifies this`frames
      ensures frames == if |old(frames)| == 0 then old(frames) else old(frames)[currentIndex := Current()]
      ensures Valid()
    {
      if |frames| == 0 {
        return;
      }
      frames := frames[currentIndex := Current()];
    }

    /** The editor shows stored frame i: figure, cursor, ghost and label. */
    ghost predicate Shows(i: nat, before: State)
      reads this
    {
      i < |frames| && currentIndex == i
      && Layer() == Resync(before.(fig := frames[i]))
      && ghostFrame == (if i > 0 then Some(frames[i - 1]) else None)
      && frameLabel == FrameLabel(i, |frames|) && frameChoices == FrameChoices(|frames|)
    }

    /**
      `_load_frame(index)`: with no frames nothing happens; otherwise clamp the
      index, show that frame with the previous one as ghost, refresh the label.
     */
    method LoadFrame(index: int)
      requires Idle()
      modifies this`loadingFrame, this`handLeft, this`handRight, this`footLeft, this`footRight,
               this`shoulder, this`pelvis, this`pelvisPrev, this`shoulderPrev, this`footMidpointBase,
               this`pelvisOffsetFromFeet, this`suppressPelvisEvent, this`suppressShoulderEvent,
               this`currentIndex, this`ghostFrame, this`frameLabel, this`frameChoices
      ensures |frames| > 0 ==> Valid()
      ensures |frames| == 0 ==> unchanged(this)
      ensures |frames| > 0 ==> Shows(ClampIndex(index, |frames|), old(Layer()))
    {
      if |frames| == 0 {
        return;
      }
      var i := ClampIndex(index, |frames|);
      currentIndex := i;
      ApplyFrameToCurrent(frames[i]);
      var prevFrame := if i > 0 then Some(frames[i - 1]) else None;
      ApplyFrameToGhost(prevFrame);
      RefreshFrameMeta();
    }

    /**
      `add_keyframe`: save the figure into the current slot, append a copy of
      it and show the new last frame.
     */
    method AddKeyframe()
      requires Valid()
      modifies this
      ensures Valid()
      ensures |frames| == |old(frames)| + 1
      ensures frames[..|old(frames)|] == if |old(frames)| == 0 then [] else old(frames)[old(currentIndex) := old(Current())]
      ensures frames[|frames| - 1] == old(Current())
      ensures Shows(|frames| - 1, old(Layer())) && Layer() == Resync(old(Layer()))
      ensures initialFrame == old(initialFrame)
    {
      SaveCurrentToList();
      var newFrame := if |frames| > 0 then frames[currentIndex] else Current();
      frames := frames + [newFrame];
      LoadFrame(|frames| - 1);
    }

    /** `next_frame`: at the last frame nothing happens; else save and show the next one. */
    method NextFrame()
      requires Valid()
      modifies this
      ensures Valid()
      ensures |old(frames)| == 0 || old(currentIndex) >= |old(frames)| - 1 ==> unchanged(this)
      ensures |old(frames)| > 0 && old(currentIndex) < |old(frames)| - 1 ==>
                frames == old(frames)[old(currentIndex) := old(Current())]
                && Shows(old(currentIndex) + 1, old(Layer()))
      ensures initialFrame == old(initialFrame)
    {
      if |frames| == 0 || currentIndex >= |frames| - 1 {
        return;
      }
      SaveCurrentToList();
      LoadFrame(currentIndex + 1);
    }

    /** `prev_frame`: at frame 0 nothing happens; else save and show the previous one. */
    method PrevFrame()
      requires Valid()
      modifies this
      ensures Valid()
      ensures |old(frames)| == 0 || old(currentIndex) == 0 ==> unchanged(this)
      ensures |old(frames)| > 0 && old(currentIndex) > 0 ==>
                frames == old(frames)[old(currentIndex) := old(Current())]
                && Shows(old(currentIndex) - 1, old(Layer()))
      ensures initialFrame == old(initialFrame)
    {
      if |frames| == 0 || currentIndex <= 0 {
        return;
      }
      SaveCurrentToList();
      LoadFrame(currentIndex - 1);
    }

    /**
      `on_frame_chosen(text)`: move to frame `int(text) - 1` when it is another
      stored frame, saving the figure first; any other text changes nothing.
     */
    method OnFrameChosen(text: string)
      requires Valid()
      modifies this
      ensures Valid()
      ensures ChosenIndex(text, |old(frames)|, old(currentIndex)).None? ==> unchanged(this)
      ensures ChosenIndex(text, |old(frames)|, old(currentIndex)).Some? ==>
                frames == old(frames)[old(currentIndex) := old(Current())]
                && Shows(ChosenIndex(text, |old(frames)|, old(currentIndex)).value, old(Layer()))
      ensures initialFrame == old(initialFrame)
    {
      var parsed := ParseInt(text);
      if parsed.None? {
        return;
      }
      var idx := parsed.value - 1;
      if 0 <= idx < |frames| && currentIndex != idx {
        SaveCurrentToList();
        LoadFrame(idx);
      }
    }

    /**
      `clear_frames`: keep one frame, the initial pose when it was captured
      (else the current figure), and show it.
     */
    method ClearFrames()
      requires Valid()
      modifies this
      ensures Valid()
      ensures frames == [if old(initialFrame).Some? then old(initialFrame).value else old(Current())]
      ensures Shows(0, old(Layer()))
      ensures frameLabel == "Frame 1 / 1" && frameChoices == ["1"] && ghostFrame.None?
      ensures initialFrame == old(initialFrame)
    {
      frames := [if initialFrame.Some? then initialFrame.value else Current()];
      LoadFrame(0);
      assert NatToString(1) == "1";
    }

    /**
      `_post_init` (without the handler bindings): record the centres, capture
      the starting figure as the initial frame and the only stored frame, show it.
     */
    method PostInit()
      requires Valid()
      modifies this
      ensures Valid()
      ensures initialFrame == Some(old(Current())) && frames == [old(Current())]
      ensures Shows(0, old(Layer())) && Layer() == Resync(old(Layer()))
    {
      InitializeMotionPropagation();
      initialFrame := Some(Current());
      frames := [Current()];
      RefreshFrameMeta();
      LoadFrame(0);
    }
  }
}
