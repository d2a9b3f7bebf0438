/**
  The pose editor widget: six draggable effectors with the same motion
  propagation as the keyframe editor, plus capturing and loading a pose and
  the reset on a change of view angle.
 */
module PoseEditing {
  import opened Wrappers
  import opened Propagation

  /** `EFFECTOR_IDS` flattened in its order: hands, feet, joints. */
  const EffectorIds: seq<string> := ["hand_left", "hand_right", "foot_left", "foot_right", "shoulder", "pelvis"]

  /** The six names are distinct. */
  lemma EffectorIdsDistinct()
    ensures |EffectorIds| == 6
    ensures forall i, j :: 0 <= i < j < 6 ==> EffectorIds[i] != EffectorIds[j]
  {
    assert EffectorIds[0][5] != EffectorIds[1][5];
    assert EffectorIds[2][5] != EffectorIds[3][5];
    assert |EffectorIds[0]| == 9 && |EffectorIds[1]| == 10 && |EffectorIds[2]| == 9 && |EffectorIds[3]| == 10;
    assert |EffectorIds[4]| == 8 && |EffectorIds[5]| == 6;
    assert EffectorIds[0][0] == 'h' && EffectorIds[2][0] == 'f';
    assert EffectorIds[1][0] == 'h' && EffectorIds[3][0] == 'f';
  }

  /** The centre of the effector with that id. */
  function Effector(f: Figure, id: string): Point2
    requires id in EffectorIds
  {
    if id == "hand_left" then f.handLeft
    else if id == "hand_right" then f.handRight
    else if id == "foot_left" then f.footLeft
    else if id == "foot_right" then f.footRight
    else if id == "shoulder" then f.shoulder
    else f.pelvis
  }

  /** The figure with the effector `id` moved to p. */
  function WithEffector(f: Figure, id: string, p: Point2): (g: Figure)
    requires id in EffectorIds
    ensures Effector(g, id) == p
    ensures forall other :: other in EffectorIds && other != id ==> Effector(g, other) == Effector(f, other)
  {
    if id == "hand_left" then f.(handLeft := p)
    else if id == "hand_right" then f.(handRight := p)
    else if id == "foot_left" then f.(footLeft := p)
    else if id == "foot_right" then f.(footRight := p)
    else if id == "shoulder" then f.(shoulder := p)
    else f.(pelvis := p)
  }

  /** Two figures whose six effectors agree are equal. */
  lemma FigureExt(a: Figure, b: Figure)
    requires forall j :: 0 <= j < 6 ==> Effector(a, EffectorIds[j]) == Effector(b, EffectorIds[j])
    ensures a == b
  {
    assert Effector(a, EffectorIds[0]) == Effector(b, EffectorIds[0]);
    assert Effector(a, EffectorIds[1]) == Effector(b, EffectorIds[1]);
    assert Effector(a, EffectorIds[2]) == Effector(b, EffectorIds[2]);
    assert Effector(a, EffectorIds[3]) == Effector(b, EffectorIds[3]);
    assert Effector(a, EffectorIds[4]) == Effector(b, EffectorIds[4]);
    assert Effector(a, EffectorIds[5]) == Effector(b, EffectorIds[5]);
  }

  /** `capture_pose` of a figure: each effector id with its position. */
  function PoseOf(f: Figure): (pose: map<string, Point2>)
    ensures pose.Keys == set id | id in EffectorIds
    ensures forall id :: id in EffectorIds ==> pose[id] == Effector(f, id)
  {
    map id | id in EffectorIds :: Effector(f, id)
  }

  /** The entry of `pose` for `id`, or `current` when the pose has none. */
  function Entry(pose: map<string, Point2>, id: string, current: Point2): Point2
  {
    if id in pose then pose[id] else current
  }

  /** The figure after `load_pose(pose)`: every effector named in the pose takes its entry. */
  function Loaded(f: Figure, pose: map<string, Point2>): (g: Figure)
    ensures forall id :: id in EffectorIds ==> Effector(g, id) == Entry(pose, id, Effector(f, id))
  {
    Figure(Entry(pose, "hand_left", f.handLeft), Entry(pose, "hand_right", f.handRight),
           Entry(pose, "foot_left", f.footLeft), Entry(pose, "foot_right", f.footRight),
           Entry(pose, "shoulder", f.shoulder), Entry(pose, "pelvis", f.pelvis))
  }

  /**
    A captured pose has exactly the six effector keys, and loading it over
    any figure restores the captured one; an empty pose moves nothing.
   */
  lemma LoadCaptured(f: Figure, g: Figure)
    ensures PoseOf(f).Keys == {"hand_left", "hand_right", "foot_left", "foot_right", "shoulder", "pelvis"}
    ensures Loaded(g, PoseOf(f)) == f
    ensures Loaded(g, map[]) == g
  {
    var pose := PoseOf(f);
    assert pose.Keys == {"hand_left", "hand_right", "foot_left", "foot_right", "shoulder", "pelvis"} by {
      forall id ensures id in pose.Keys <==> id in {"hand_left", "hand_right", "foot_left", "foot_right", "shoulder", "pelvis"} {
      }
    }
    FigureExt(Loaded(g, pose), f);
  }

  class PoseEditor {
    var handLeft: Point2
    var handRight: Point2
    var footLeft: Point2
    var footRight: Point2
    var shoulder: Point2
    var pelvis: Point2

    var projectionMode: real
    var pelvisPrev: Option<Point2>
    var shoulderPrev: Option<Point2>
    var footMidpointBase: Option<Point2>
    var pelvisOffsetFromFeet: Point2
    var suppressPelvisEvent: bool
    var suppressShoulderEvent: bool
    var loadingPose: bool

    /** `__init__`, with the effector centres the layout places. */
    constructor(layout: Figure)
      ensures Current() == layout && projectionMode == 0.0
      ensures pelvisPrev.None? && shoulderPrev.None? && footMidpointBase.None? && pelvisOffsetFromFeet == Zero
      ensures Idle()
    {
      handLeft, handRight := layout.handLeft, layout.handRight;
      footLeft, footRight := layout.footLeft, layout.footRight;
      shoulder, pelvis := layout.shoulder, layout.pelvis;
      projectionMode := 0.0;
      pelvisPrev, shoulderPrev, footMidpointBase := None, None, None;
      pelvisOffsetFromFeet := Zero;
      suppressPelvisEvent, suppressShoulderEvent := false, false;
      loadingPose := false;
    }

    /** No pose is loading and no handler is suppressed. */
    predicate Idle()
      reads this
    {
      !loadingPose && !suppressPelvisEvent && !suppressShoulderEvent
    }

    function Current(): Figure
      reads this
    {
      Figure(handLeft, handRight, footLeft, footRight, shoulder, pelvis)
    }

    /** The figure with its propagation bookkeeping. */
    function Layer(): State
      reads this
    {
      State(Current(), pelvisPrev, shoulderPrev, footMidpointBase, pelvisOffsetFromFeet)
    }

    /** `_move_hands_by(delta)`: nothing while a pose loads, else each hand shifts by delta. */
    method MoveHandsBy(d: Point2)
      modifies this`handLeft, this`handRight
      ensures Layer() == if loadingPose then old(Layer()) else MoveHands(old(Layer()), d)
    {
      if loadingPose {
        return;
      }
      handLeft := handLeft.Plus(d);
      handRight := handRight.Plus(d);
    }

    /**
      `_on_shoulder_moved`: while loading or suppressed only record the
      shoulder; with no recorded shoulder `raised` is the `TypeError` of
      indexing None; otherwise record it and carry the hands by the move.
     */
    method OnShoulderMoved() returns (raised: bool)
      modifies this`shoulderPrev, this`handLeft, this`handRight
      ensures raised <==> !loadingPose && !suppressShoulderEvent && old(shoulderPrev).None?
      ensures raised ==> unchanged(this)
      ensures loadingPose || suppressShoulderEvent ==> Layer() == old(Layer()).(shoulderPrev := Some(shoulder))
      ensures !loadingPose && !suppressShoulderEvent && old(shoulderPrev).Some? ==> Layer() == ShoulderDragged(old(Layer()))
    {
      raised := false;
      if loadingPose || suppressShoulderEvent {
        shoulderPrev := Some(shoulder);
        return;
      }
      if shoulderPrev.None? {
        raised := true;
        return;
      }
      var newCenter := shoulder;
      var delta := newCenter.Minus(shoulderPrev.value);
      shoulderPrev := Some(newCenter);
      if delta != Zero {
        MoveHandsBy(delta);
      }
    }

    /**
      `_set_shoulder_center(c)`: move the shoulder with its handler suppressed,
      record it, then carry the hands by the move from the recorded shoulder.
     */
    method SetShoulderCenter(c: Point2)
      modifies this`shoulder, this`shoulderPrev, this`suppressShoulderEvent, this`handLeft, this`handRight
      ensures !suppressShoulderEvent
      ensures !loadingPose ==> Layer() == SetShoulder(old(Layer()), c)
      ensures loadingPose ==> Layer() == old(Layer()).(fig := old(Current()).(shoulder := c), shoulderPrev := Some(c))
    {
      var prev := shoulderPrev;
      suppressShoulderEvent := true;
      if c != shoulder {
        shoulder := c;
        var _ := OnShoulderMoved();
      }
      suppressShoulderEvent := false;
      shoulderPrev := Some(c);
      if prev.Some? {
        var delta := c.Minus(prev.value);
        if delta != Zero {
          MoveHandsBy(delta);
        }
      }
    }

    /** `_move_shoulders_by(delta)`: nothing while a pose loads. */
    method MoveShouldersBy(d: Point2)
      modifies this`shoulder, this`shoulderPrev, this`suppressShoulderEvent, this`handLeft, this`handRight
      ensures suppressShoulderEvent == (old(suppressShoulderEvent) && loadingPose)
      ensures Layer() == if loadingPose then old(Layer()) else MoveShoulders(old(Layer()), d)
    {
      if loadingPose {
        return;
      }
      SetShoulderCenter(shoulder.Plus(d));
    }

    /**
      `_on_pelvis_moved`: while loading or suppressed only record the pelvis;
      with no recorded pelvis `raised` is the `TypeError` of indexing None;
      otherwise record it and, when it moved, renew the offset from the feet
      and carry the shoulder.
     */
    method OnPelvisMoved() returns (raised: bool)
      modifies this`pelvisPrev, this`pelvisOffsetFromFeet, this`shoulder, this`shoulderPrev,
               this`suppressShoulderEvent, this`handLeft, this`handRight
      ensures raised <==> !loadingPose && !suppressPelvisEvent && old(pelvisPrev).None?
      ensures raised ==> unchanged(this)
      ensures loadingPose || suppressPelvisEvent ==>
                Layer() == old(Layer()).(pelvisPrev := Some(pelvis))
                && suppressShoulderEvent == old(suppressShoulderEvent)
      ensures !loadingPose && !suppressPelvisEvent && old(pelvisPrev).Some? ==>
                Layer() == PelvisDragged(old(Layer()))
                && suppressShoulderEvent == (old(suppressShoulderEvent) && pelvis == old(pelvisPrev).value)
    {
      raised := false;
      if loadingPose || suppressPelvisEvent {
        pelvisPrev := Some(pelvis);
        return;
      }
      if pelvisPrev.None? {
        raised := true;
        return;
      }
      var newCenter := pelvis;
      var delta := newCenter.Minus(pelvisPrev.value);
      pelvisPrev := Some(newCenter);
      if delta == Zero {
        return;
      }
      pelvisOffsetFromFeet := newCenter.Minus(FootMidpoint(Current()));
      MoveShouldersBy(delta);
    }

    /**
      `_set_pelvis_center(p, update_offset)`: move the pelvis with its handler
      suppressed, record it, renew the offset on request, then carry the
      shoulder by the move from the recorded pelvis.
     */
    method SetPelvisCenter(p: Point2, updateOffset: bool)
      modifies this`pelvis, this`pelvisPrev, this`pelvisOffsetFromFeet, this`suppressPelvisEvent,
               this`shoulder, this`shoulderPrev, this`suppressShoulderEvent, this`handLeft, this`handRight
      ensures !suppressPelvisEvent
      ensures !loadingPose ==> Layer() == SetPelvis(old(Layer()), p, updateOffset)
      ensures loadingPose ==>
                Layer() == old(Layer()).(fig := old(Current()).(pelvis := p), pelvisPrev := Some(p),
                                         offset := if updateOffset then p.Minus(FootMidpoint(old(Current())))
                                                   else old(pelvisOffsetFromFeet))
    {
      var prev := pelvisPrev;
      suppressPelvisEvent := true;
      if p != pelvis {
        pelvis := p;
        var _ := OnPelvisMoved();
      }
      suppressPelvisEvent := false;
      pelvisPrev := Some(p);
      if updateOffset {
        pelvisOffsetFromFeet := p.Minus(FootMidpoint(Current()));
      }
      if prev.Some? {
        var delta := p.Minus(prev.value);
        if delta != Zero {
          MoveShouldersBy(delta);
        }
      }
    }

    /** `_apply_pelvis_follow(target)`: one follow step, unless the target is in the dead zone. */
    method ApplyPelvisFollow(target: Point2)
      modifies this`pelvis, this`pelvisPrev, this`pelvisOffsetFromFeet, this`suppressPelvisEvent,
               this`shoulder, this`shoulderPrev, this`suppressShoulderEvent, this`handLeft, this`handRight
      ensures FollowStep(old(pelvis), target).None? ==> unchanged(this)
      ensures FollowStep(old(pelvis), target).Some? && !loadingPose ==>
                Layer() == SetPelvis(old(Layer()), FollowStep(old(pelvis), target).value, false)
    {
      match FollowStep(pelvis, target)
      case None =>
        return;
      case Some(p) =>
        SetPelvisCenter(p, false);
    }

    /** `_on_foot_moved`: nothing while a pose loads; otherwise let the pelvis follow the feet. */
    method OnFootMoved()
      modifies this`pelvis, this`pelvisPrev, this`pelvisOffsetFromFeet, this`suppressPelvisEvent,
               this`shoulder, this`shoulderPrev, this`suppressShoulderEvent, this`handLeft, this`handRight
      ensures loadingPose ==> unchanged(this)
      ensures !loadingPose ==> Layer() == FollowFeet(old(Layer()))
    {
      if loadingPose {
        return;
      }
      var footMid := FootMidpoint(Current());
      if pelvisPrev.None? {
        return;
      }
      ApplyPelvisFollow(footMid.Plus(pelvisOffsetFromFeet));
    }

    /** Assigns one foot's centre, with no handler run. */
    method PlaceFoot(side: Side, p: Point2)
      modifies this`footLeft, this`footRight
      ensures Current() == WithFoot(old(Current()), side, p)
    {
      match side
      case Left => footLeft := p;
      case Right => footRight := p;
    }

    /**
      A foot dragged to c, as Kivy dispatches the new centre (`pos` assigned by the effector widget):
      x first, then y, each coordinate that changes running `_on_foot_moved`.
     */
    method DragFootTo(side: Side, c: Point2)
      modifies this`footLeft, this`footRight, this`pelvis, this`pelvisPrev, this`pelvisOffsetFromFeet,
               this`suppressPelvisEvent, this`shoulder, this`shoulderPrev, this`suppressShoulderEvent,
               this`handLeft, this`handRight
      ensures loadingPose ==> Layer() == old(Layer()).(fig := WithFoot(old(Current()), side, c))
      ensures !loadingPose ==> Layer() == DragFoot(old(Layer()), side, c)
    {
      var from := FootOf(Current(), side);
      if c.x != from.x {
        PlaceFoot(side, Point2(c.x, from.y));
        OnFootMoved();
      }
      if c.y != from.y {
        PlaceFoot(side, c);
        OnFootMoved();
      }
    }

    /**
      `_initialize_motion_propagation` (without the handler bindings): record
      the centres and measure the pelvis offset from the feet.
     */
    method InitializeMotionPropagation()
      modifies this`pelvisPrev, this`shoulderPrev, this`footMidpointBase, this`pelvisOffsetFromFeet
      ensures Layer() == Resync(old(Layer()))
    {
      pelvisPrev := Some(pelvis);
      shoulderPrev := Some(shoulder);
      footMidpointBase := Some(FootMidpoint(Current()));
      pelvisOffsetFromFeet := pelvisPrev.value.Minus(footMidpointBase.value);
    }

    /**
      Moving effector `id` to p while a pose loads: when its centre changes,
      the handler Kivy has bound to it runs, which at most records the
      pelvis or the shoulder centre.
     */
    method PlaceEffector(id: string, p: Point2)
      requires id in EffectorIds && loadingPose && !suppressPelvisEvent && !suppressShoulderEvent
      modifies this`handLeft, this`handRight, this`footLeft, this`footRight, this`shoulder, this`pelvis,
               this`pelvisPrev, this`shoulderPrev, this`pelvisOffsetFromFeet, this`suppressPelvisEvent,
               this`suppressShoulderEvent
      ensures Current() == WithEffector(old(Current()), id, p)
      ensures pelvisPrev == if id == "pelvis" && p != old(pelvis) then Some(p) else old(pelvisPrev)
      ensures shoulderPrev == if id == "shoulder" && p != old(shoulder) then Some(p) else old(shoulderPrev)
      ensures footMidpointBase == old(footMidpointBase) && pelvisOffsetFromFeet == old(pelvisOffsetFromFeet)
      ensures !suppressPelvisEvent && !suppressShoulderEvent
    {
      if Effector(Current(), id) == p {
        return;
      }
      if id == "hand_left" {
        handLeft := p;
      } else if id == "hand_right" {
        handRight := p;
      } else if id == "foot_left" {
        footLeft := p;
        OnFootMoved();
      } else if id == "foot_right" {
        footRight := p;
        OnFootMoved();
      } else if id == "shoulder" {
        shoulder := p;
        var _ := OnShoulderMoved();
      } else {
        pelvis := p;
        var _ := OnPelvisMoved();
      }
    }

    /**
      `capture_pose`: the position of each of the six effectors by id (the
      effector's position is its centre here).
     */
    function CapturePose(): (pose: map<string, Point2>)
      reads this
      ensures pose.Keys == set id | id in EffectorIds
      ensures forall id :: id in EffectorIds ==> pose[id] == Effector(Current(), id)
    {
      PoseOf(Current())
    }

    /**
      `load_pose(pose)`: with the loading flag up, move every effector the pose
      names (propagating nothing), then record the centres and measure the
      pelvis offset from the feet.
     */
    method LoadPose(pose: map<string, Point2>)
      requires Idle()
      modifies this
      ensures Idle() && projectionMode == old(projectionMode)
      ensures Layer() == Resync(old(Layer()).(fig := Loaded(old(Current()), pose)))
    {
      loadingPose := true;
      EffectorIdsDistinct();
      for k := 0 to 6
        invariant loadingPose && !suppressPelvisEvent && !suppressShoulderEvent
        invariant projectionMode == old(projectionMode)
        invariant forall j :: 0 <= j < 6 ==>
                    Effector(Current(), EffectorIds[j])
                    == if j < k then Entry(pose, EffectorIds[j], Effector(old(Current()), EffectorIds[j]))
                       else Effector(old(Current()), EffectorIds[j])
      {
        var id := EffectorIds[k];
        if id in pose {
          PlaceEffector(id, pose[id]);
        }
      }
      FigureExt(Current(), Loaded(old(Current()), pose));
      pelvisPrev := Some(pelvis);
      shoulderPrev := Some(shoulder);
      footMidpointBase := Some(FootMidpoint(Current()));
      pelvisOffsetFromFeet := pelvisPrev.value.Minus(footMidpointBase.value);
      loadingPose := false;
    }

    /**
      `_apply_projection_mode`: each effector takes the new view, which places
      it at its centre in `reprojected`; the handlers only record centres.
     */
    method ApplyProjectionMode(reprojected: Figure)
      requires loadingPose && !suppressPelvisEvent && !suppressShoulderEvent
      modifies this`handLeft, this`handRight, this`footLeft, this`footRight, this`shoulder, this`pelvis,
               this`pelvisPrev, this`shoulderPrev, this`pelvisOffsetFromFeet, this`suppressPelvisEvent,
               this`suppressShoulderEvent
      ensures Current() == reprojected
      ensures pelvisPrev == if reprojected.pelvis != old(pelvis) then Some(reprojected.pelvis) else old(pelvisPrev)
      ensures shoulderPrev == if reprojected.shoulder != old(shoulder) then Some(reprojected.shoulder) else old(shoulderPrev)
      ensures footMidpointBase == old(footMidpointBase) && pelvisOffsetFromFeet == old(pelvisOffsetFromFeet)
      ensures !suppressPelvisEvent && !suppressShoulderEvent
    {
      EffectorIdsDistinct();
      for k := 0 to 6
        invariant !suppressPelvisEvent && !suppressShoulderEvent
        invariant footMidpointBase == old(footMidpointBase) && pelvisOffsetFromFeet == old(pelvisOffsetFromFeet)
        invariant forall j :: 0 <= j < 6 ==>
                    Effector(Current(), EffectorIds[j])
                    == if j < k then Effector(reprojected, EffectorIds[j]) else Effector(old(Current()), EffectorIds[j])
        invariant pelvisPrev == if k == 6 && reprojected.pelvis != old(pelvis) then Some(reprojected.pelvis) else old(pelvisPrev)
        invariant shoulderPrev == if k >= 5 && reprojected.shoulder != old(shoulder) then Some(reprojected.shoulder) else old(shoulderPrev)
      {
        var id := EffectorIds[k];
        PlaceEffector(id, Effector(reprojected, id));
      }
      FigureExt(Current(), reprojected);
    }

    /**
      `on_projection_mode(value)`: ignored while a pose loads; otherwise forget
      the recorded pelvis, shoulder and foot midpoint, then switch the view
      with the loading flag up. A centre the switch leaves in place stays
      unrecorded.
     */
    method OnProjectionMode(value: real, reprojected: Figure)
      requires !suppressPelvisEvent && !suppressShoulderEvent
      modifies this
      ensures old(loadingPose) ==> unchanged(this)
      ensures !old(loadingPose) ==>
                Idle() && projectionMode == value && Current() == reprojected
                && pelvisPrev == (if reprojected.pelvis != old(pelvis) then Some(reprojected.pelvis) else None)
                && shoulderPrev == (if reprojected.shoulder != old(shoulder) then Some(reprojected.shoulder) else None)
                && footMidpointBase.None? && pelvisOffsetFromFeet == old(pelvisOffsetFromFeet)
    {
      if loadingPose {
        return;
      }
      pelvisPrev := None;
      shoulderPrev := None;
      footMidpointBase := None;
      loadingPose := true;
      projectionMode := value;
      ApplyProjectionMode(reprojected);
      loadingPose := false;
    }

    /**
      The view switch with the centres recorded again once the effectors
      have moved: the propagation state is resynchronised with the
      reprojected figure, as after loading a pose.
     */
    method OnProjectionModeResynced(value: real, reprojected: Figure)
      requires !suppressPelvisEvent && !suppressShoulderEvent
      modifies this
      ensures old(loadingPose) ==> unchanged(this)
      ensures !old(loadingPose) ==>
                Idle() && projectionMode == value && Layer() == Resync(old(Layer()).(fig := reprojected))
    {
      if loadingPose {
        return;
      }
      OnProjectionMode(value, reprojected);
      InitializeMotionPropagation();
    }
  }

  /**
    After a view switch that leaves the pelvis in place, a user drag of the
    pelvis raises: the reset recorded nothing for it.
   */
  method ViewSwitchThenPelvisDrag(e: PoseEditor, value: real, reprojected: Figure, dragged: Point2)
      returns (raised: bool)
    requires e.Idle() && reprojected.pelvis == e.pelvis && dragged != reprojected.pelvis
    modifies e
    ensures raised
  {
    e.OnProjectionMode(value, reprojected);
    e.pelvis := dragged;
    raised := e.OnPelvisMoved();
  }

  /**
    With the resynchronising view switch, the same drag after a switch that
    leaves the pelvis in place raises nothing: it carries the upper body.
   */
  method ViewSwitchResyncedThenPelvisDrag(e: PoseEditor, value: real, reprojected: Figure, dragged: Point2)
      returns (raised: bool)
    requires e.Idle() && reprojected.pelvis == e.pelvis && dragged != reprojected.pelvis
    modifies e
    ensures !raised
    ensures e.Layer() == PelvisDragged(Resync(old(e.Layer()).(fig := reprojected)).(fig := reprojected.(pelvis := dragged)))
  {
    e.OnProjectionModeResynced(value, reprojected);
    e.pelvis := dragged;
    raised := e.OnPelvisMoved();
  }
}
