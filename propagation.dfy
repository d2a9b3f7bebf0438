/**
  Motion propagation of the pose editors, on values: the feet pull the pelvis
  toward them, the pelvis carries the shoulder and the shoulder carries the
  hands. Both editor classes are proved against these functions, which give
  the net effect of each handler when no pose is being loaded.
 */
module Propagation {
  import opened Wrappers
  import opened RealMath

  /** `PELVIS_FOLLOW_FACTOR`: the share of the gap the pelvis closes per step. */
  const PelvisFollowFactor: real := 0.35
  /** Gaps under this on both axes leave the pelvis where it is. */
  const DeadZone: real := 0.01

  /** A 2D widget centre, or a displacement between two of them. */
  datatype Point2 = Point2(x: real, y: real)
  {
    function Plus(d: Point2): Point2
    {
      Point2(x + d.x, y + d.y)
    }

    function Minus(o: Point2): Point2
    {
      Point2(x - o.x, y - o.y)
    }

    function Scale(k: real): Point2
    {
      Point2(k * x, k * y)
    }
  }

  /** The zero displacement `(0, 0)`. */
  const Zero: Point2 := Point2(0.0, 0.0)

  /** Displacing by the difference of two points lands on the other point, and back. */
  lemma PlusMinus(p: Point2, q: Point2, d: Point2)
    ensures p.Plus(q.Minus(p)) == q
    ensures p.Plus(d).Minus(p) == d
    ensures q.Minus(p) == Zero <==> p == q
  {
  }

  /** Componentwise average of two points. */
  function Midpoint(a: Point2, b: Point2): (m: Point2)
    ensures m.Minus(a) == b.Minus(m)
  {
    Point2((a.x + b.x) / 2.0, (a.y + b.y) / 2.0)
  }

  /**
    One pelvis-follow step from `current` toward `target`: `None` inside the
    dead zone, otherwise the point 0.35 of the way there.
   */
  function FollowStep(current: Point2, target: Point2): (r: Option<Point2>)
    ensures r.None? <==> Abs(target.x - current.x) < DeadZone && Abs(target.y - current.y) < DeadZone
    ensures r.Some? ==> r.value.Minus(current) == target.Minus(current).Scale(PelvisFollowFactor)
  {
    var dx, dy := target.x - current.x, target.y - current.y;
    if Abs(dx) < DeadZone && Abs(dy) < DeadZone then None
    else Some(Point2(current.x + dx * PelvisFollowFactor, current.y + dy * PelvisFollowFactor))
  }

  /** A step leaves 0.65 of the gap, so the pelvis never overshoots its target. */
  lemma FollowStepShrinksGap(current: Point2, target: Point2)
    requires FollowStep(current, target).Some?
    ensures var p := FollowStep(current, target).value;
            target.Minus(p) == target.Minus(current).Scale(1.0 - PelvisFollowFactor)
    ensures var p := FollowStep(current, target).value;
            Abs(target.x - p.x) <= Abs(target.x - current.x) && Abs(target.y - p.y) <= Abs(target.y - current.y)
    ensures var p := FollowStep(current, target).value;
            Abs(target.x - p.x) < Abs(target.x - current.x) || Abs(target.y - p.y) < Abs(target.y - current.y)
  {
    var p := FollowStep(current, target).value;
    assert p.x - current.x == PelvisFollowFactor * (target.x - current.x);
    assert p.y - current.y == PelvisFollowFactor * (target.y - current.y);
  }

  /** The six draggable centres of the editable figure (also one stored frame). */
  datatype Figure = Figure(handLeft: Point2, handRight: Point2, footLeft: Point2, footRight: Point2,
                           shoulder: Point2, pelvis: Point2)

  /** `_current_foot_midpoint`. */
  function FootMidpoint(f: Figure): Point2
  {
    Midpoint(f.footLeft, f.footRight)
  }

  /**
    The figure plus the propagation bookkeeping: the last seen pelvis and
    shoulder centres, the foot midpoint base and the pelvis offset from the feet.
   */
  datatype State = State(fig: Figure, pelvisPrev: Option<Point2>, shoulderPrev: Option<Point2>,
                         footMidpointBase: Option<Point2>, offset: Point2)

  /** The recorded previous centres are the current ones. */
  predicate Synced(s: State)
  {
    s.pelvisPrev == Some(s.fig.pelvis) && s.shoulderPrev == Some(s.fig.shoulder)
  }

  /** The upper body's shape: shoulder from pelvis and each hand from the shoulder. */
  function UpperBody(f: Figure): (Point2, Point2, Point2)
  {
    (f.shoulder.Minus(f.pelvis), f.handLeft.Minus(f.shoulder), f.handRight.Minus(f.shoulder))
  }

  /** `_move_hands_by(delta)`: both hands shift by delta. */
  function MoveHands(s: State, d: Point2): (r: State)
    ensures r.fig.handLeft.Minus(s.fig.handLeft) == d && r.fig.handRight.Minus(s.fig.handRight) == d
    ensures r == s.(fig := r.fig) && r.fig == s.fig.(handLeft := r.fig.handLeft, handRight := r.fig.handRight)
  {
    s.(fig := s.fig.(handLeft := s.fig.handLeft.Plus(d), handRight := s.fig.handRight.Plus(d)))
  }

  /**
    `_set_shoulder_center(c)`: the shoulder goes to c and is recorded; the
    hands follow the move from the recorded shoulder when there was one.
   */
  function SetShoulder(s: State, c: Point2): State
  {
    var moved := s.(fig := s.fig.(shoulder := c), shoulderPrev := Some(c));
    if s.shoulderPrev.Some? && c.Minus(s.shoulderPrev.value) != Zero then
      MoveHands(moved, c.Minus(s.shoulderPrev.value))
    else moved
  }

  /** `_move_shoulders_by(delta)`. */
  function MoveShoulders(s: State, d: Point2): State
  {
    SetShoulder(s, s.fig.shoulder.Plus(d))
  }

  /**
    `_set_pelvis_center(p, update_offset)`: the pelvis goes to p and is
    recorded, the offset from the feet is renewed on request, and the
    shoulder follows the move from the recorded pelvis when there was one.
   */
  function SetPelvis(s: State, p: Point2, updateOffset: bool): State
  {
    var moved := s.(fig := s.fig.(pelvis := p), pelvisPrev := Some(p),
                    offset := if updateOffset then p.Minus(FootMidpoint(s.fig)) else s.offset);
    if s.pelvisPrev.Some? && p.Minus(s.pelvisPrev.value) != Zero then
      MoveShoulders(moved, p.Minus(s.pelvisPrev.value))
    else moved
  }

  /** The pelvis target: the feet midpoint plus the remembered offset. */
  function PelvisTarget(s: State): Point2
  {
    FootMidpoint(s.fig).Plus(s.offset)
  }

  /**
    `_on_foot_moved`: with a recorded pelvis, take one follow step toward the
    target unless it lies in the dead zone.
   */
  function FollowFeet(s: State): State
  {
    if s.pelvisPrev.None? then s
    else match FollowStep(s.fig.pelvis, PelvisTarget(s))
      case None => s
      case Some(p) => SetPelvis(s, p, false)
  }

  /**
    `_on_pelvis_moved` after the user dragged the pelvis away from the
    recorded centre: record it, renew the offset and carry the shoulder.
   */
  function PelvisDragged(s: State): State
    requires s.pelvisPrev.Some?
  {
    var delta := s.fig.pelvis.Minus(s.pelvisPrev.value);
    var recorded := s.(pelvisPrev := Some(s.fig.pelvis));
    if delta == Zero then recorded
    else MoveShoulders(recorded.(offset := s.fig.pelvis.Minus(FootMidpoint(s.fig))), delta)
  }

  /** `_on_shoulder_moved` after the user dragged the shoulder: record it and carry the hands. */
  function ShoulderDragged(s: State): State
    requires s.shoulderPrev.Some?
  {
    var delta := s.fig.shoulder.Minus(s.shoulderPrev.value);
    var recorded := s.(shoulderPrev := Some(s.fig.shoulder));
    if delta != Zero then MoveHands(recorded, delta) else recorded
  }

  /**
    What loading a pose and `_initialize_motion_propagation` leave behind:
    the current centres recorded, the foot midpoint as base and the pelvis
    offset measured from it.
   */
  function Resync(s: State): State
  {
    var base := FootMidpoint(s.fig);
    s.(pelvisPrev := Some(s.fig.pelvis), shoulderPrev := Some(s.fig.shoulder),
       footMidpointBase := Some(base), offset := s.fig.pelvis.Minus(base))
  }

  /** After a resync nothing is pending: the bookkeeping matches the figure. */
  lemma ResyncIsSynced(s: State)
    ensures var r := Resync(s);
            Synced(r) && r.fig == s.fig && r.footMidpointBase == Some(FootMidpoint(s.fig))
            && r.fig.pelvis == FootMidpoint(s.fig).Plus(r.offset)
  {
  }

  /** Right after a resync, a foot event finds the pelvis on target and moves nothing. */
  lemma ResyncedFeetAtRest(s: State)
    ensures FollowFeet(Resync(s)) == Resync(s)
  {
    var r := Resync(s);
    PlusMinus(FootMidpoint(s.fig), s.fig.pelvis, Zero);
    assert PelvisTarget(r) == r.fig.pelvis;
  }

  /**
    Moving a synced shoulder carries both hands rigidly: the hands keep their
    offsets from the shoulder, the state stays synced, nothing else moves.
   */
  lemma SetShoulderRigid(s: State, c: Point2)
    requires s.shoulderPrev == Some(s.fig.shoulder)
    ensures var r := SetShoulder(s, c);
            r.fig.shoulder == c && r.shoulderPrev == Some(c)
            && r.fig.handLeft.Minus(c) == s.fig.handLeft.Minus(s.fig.shoulder)
            && r.fig.handRight.Minus(c) == s.fig.handRight.Minus(s.fig.shoulder)
            && r.fig.pelvis == s.fig.pelvis && r.fig.footLeft == s.fig.footLeft && r.fig.footRight == s.fig.footRight
            && r.pelvisPrev == s.pelvisPrev && r.offset == s.offset && r.footMidpointBase == s.footMidpointBase
  {
    var r := SetShoulder(s, c);
    var d := c.Minus(s.fig.shoulder);
    if d == Zero {
      PlusMinus(s.fig.shoulder, c, Zero);
      assert c == s.fig.shoulder;
    } else {
      assert r.fig.handLeft == s.fig.handLeft.Plus(d);
      assert r.fig.handRight == s.fig.handRight.Plus(d);
    }
  }

  /**
    Moving a synced pelvis carries the whole upper body rigidly: shoulder and
    hands shift by the pelvis move, the feet stay, the state stays synced,
    and the offset is renewed exactly when asked.
   */
  lemma SetPelvisRigid(s: State, p: Point2, updateOffset: bool)
    requires Synced(s)
    ensures var r := SetPelvis(s, p, updateOffset);
            Synced(r) && r.fig.pelvis == p
            && UpperBody(r.fig) == UpperBody(s.fig)
            && r.fig.footLeft == s.fig.footLeft && r.fig.footRight == s.fig.footRight
            && r.footMidpointBase == s.footMidpointBase
            && r.offset == (if updateOffset then p.Minus(FootMidpoint(s.fig)) else s.offset)
  {
    var d := p.Minus(s.fig.pelvis);
    var moved := s.(fig := s.fig.(pelvis := p), pelvisPrev := Some(p),
                    offset := if updateOffset then p.Minus(FootMidpoint(s.fig)) else s.offset);
    if d == Zero {
      PlusMinus(s.fig.pelvis, p, Zero);
      assert p == s.fig.pelvis;
    } else {
      var c := s.fig.shoulder.Plus(d);
      SetShoulderRigid(moved, c);
      assert c.Minus(p) == s.fig.shoulder.Minus(s.fig.pelvis);
    }
  }

  /**
    A foot event keeps a synced figure's upper body rigid and the feet where
    they are; the pelvis stays inside the dead zone and otherwise closes 35%
    of its gap to the target.
   */
  lemma FollowFeetRigid(s: State)
    requires Synced(s)
    ensures var r := FollowFeet(s);
            Synced(r) && UpperBody(r.fig) == UpperBody(s.fig)
            && r.fig.footLeft == s.fig.footLeft && r.fig.footRight == s.fig.footRight
            && r.offset == s.offset && r.footMidpointBase == s.footMidpointBase
    ensures var r := FollowFeet(s); var t := PelvisTarget(s);
            if Abs(t.x - s.fig.pelvis.x) < DeadZone && Abs(t.y - s.fig.pelvis.y) < DeadZone then r == s
            else r.fig.pelvis.Minus(s.fig.pelvis) == t.Minus(s.fig.pelvis).Scale(PelvisFollowFactor)
  {
    match FollowStep(s.fig.pelvis, PelvisTarget(s))
    case None =>
    case Some(p) => SetPelvisRigid(s, p, false);
  }

  /**
    A user drag of the pelvis away from its recorded centre (the rest synced)
    records it, measures the new offset from the feet and shifts the shoulder
    and both hands by the same displacement.
   */
  lemma PelvisDragCarriesUpperBody(s: State)
    requires s.pelvisPrev.Some? && s.shoulderPrev == Some(s.fig.shoulder)
    requires s.fig.pelvis != s.pelvisPrev.value
    ensures var r := PelvisDragged(s); var d := s.fig.pelvis.Minus(s.pelvisPrev.value);
            Synced(r) && r.fig.pelvis == s.fig.pelvis
            && r.fig.shoulder == s.fig.shoulder.Plus(d)
            && r.fig.handLeft == s.fig.handLeft.Plus(d) && r.fig.handRight == s.fig.handRight.Plus(d)
            && r.fig.footLeft == s.fig.footLeft && r.fig.footRight == s.fig.footRight
            && r.offset == s.fig.pelvis.Minus(FootMidpoint(s.fig))
  {
    var d := s.fig.pelvis.Minus(s.pelvisPrev.value);
    PlusMinus(s.pelvisPrev.value, s.fig.pelvis, Zero);
    var recorded := s.(pelvisPrev := Some(s.fig.pelvis), offset := s.fig.pelvis.Minus(FootMidpoint(s.fig)));
    var c := s.fig.shoulder.Plus(d);
    SetShoulderRigid(recorded, c);
    PlusMinus(s.fig.shoulder, c, d);
    assert s.fig.handLeft.Plus(d).Minus(c) == s.fig.handLeft.Minus(s.fig.shoulder);
    assert s.fig.handRight.Plus(d).Minus(c) == s.fig.handRight.Minus(s.fig.shoulder);
  }

  /**
    A user drag of the shoulder shifts both hands by exactly the drag and
    records the new shoulder; nothing else moves.
   */
  lemma ShoulderDragCarriesHands(s: State)
    requires s.shoulderPrev.Some?
    ensures var r := ShoulderDragged(s); var d := s.fig.shoulder.Minus(s.shoulderPrev.value);
            r.shoulderPrev == Some(s.fig.shoulder)
            && r.fig == s.fig.(handLeft := s.fig.handLeft.Plus(d), handRight := s.fig.handRight.Plus(d))
            && r.pelvisPrev == s.pelvisPrev && r.offset == s.offset && r.footMidpointBase == s.footMidpointBase
  {
    var d := s.fig.shoulder.Minus(s.shoulderPrev.value);
    if d == Zero {
      assert s.fig.handLeft.Plus(d) == s.fig.handLeft && s.fig.handRight.Plus(d) == s.fig.handRight;
    }
  }

  /** Which foot a drag moves. */
  datatype Side = Left | Right

  /** The centre of one foot. */
  function FootOf(f: Figure, side: Side): Point2
  {
    match side
    case Left => f.footLeft
    case Right => f.footRight
  }

  /** The figure with one foot placed at c and every other centre kept. */
  function WithFoot(f: Figure, side: Side, c: Point2): (r: Figure)
    ensures FootOf(r, side) == c
    ensures r.handLeft == f.handLeft && r.handRight == f.handRight
    ensures r.shoulder == f.shoulder && r.pelvis == f.pelvis
    ensures side.Left? ==> r.footRight == f.footRight
    ensures side.Right? ==> r.footLeft == f.footLeft
  {
    match side
    case Left => f.(footLeft := c)
    case Right => f.(footRight := c)
  }

  /**
    A foot dragged to c. Kivy assigns the centre's x and then its y, and each
    assignment that changes its coordinate runs `_on_foot_moved`; a move
    along both axes therefore takes two follow steps, the first toward the
    target seen halfway.
   */
  function DragFoot(s: State, side: Side, c: Point2): State
  {
    var from := FootOf(s.fig, side);
    var half := s.(fig := WithFoot(s.fig, side, Point2(c.x, from.y)));
    var afterX := if c.x != from.x then FollowFeet(half) else half;
    var placed := afterX.(fig := WithFoot(afterX.fig, side, c));
    if c.y != from.y then FollowFeet(placed) else placed
  }

  /** A follow step moves neither foot. */
  lemma FollowFeetKeepsFeet(s: State)
    ensures FollowFeet(s).fig.footLeft == s.fig.footLeft && FollowFeet(s).fig.footRight == s.fig.footRight
  {
  }

  /**
    A drag along one axis (or none) is one foot event on the placed foot:
    there the per-axis dispatch agrees with moving the foot at once.
   */
  lemma DragFootOneAxis(s: State, side: Side, c: Point2)
    requires c.x == FootOf(s.fig, side).x || c.y == FootOf(s.fig, side).y
    ensures DragFoot(s, side, c) == if c == FootOf(s.fig, side) then s
                                    else FollowFeet(s.(fig := WithFoot(s.fig, side, c)))
  {
    var from := FootOf(s.fig, side);
    if c.x != from.x {
      var half := s.(fig := WithFoot(s.fig, side, Point2(c.x, from.y)));
      FollowFeetKeepsFeet(half);
      assert Point2(c.x, from.y) == c;
      assert WithFoot(FollowFeet(half).fig, side, c) == FollowFeet(half).fig;
    } else {
      assert Point2(c.x, from.y) == from;
      assert WithFoot(s.fig, side, from) == s.fig;
    }
  }

  /**
    A diagonal drag is not one foot event: with the feet at (0, 0) and
    (2, 0) and the pelvis resting 5 above their midpoint, dragging the left
    foot to (2, 2) leaves the pelvis at (1.5775, 5.35), where one follow step
    toward the final target puts it at (1.35, 5.35).
   */
  lemma DragFootTwoAxes(s: State)
    requires Synced(s) && s.fig.footLeft == Point2(0.0, 0.0) && s.fig.footRight == Point2(2.0, 0.0)
    requires s.fig.pelvis == Point2(1.0, 5.0) && s.offset == Point2(0.0, 5.0)
    ensures DragFoot(s, Left, Point2(2.0, 2.0)).fig.pelvis == Point2(1.5775, 5.35)
    ensures FollowFeet(s.(fig := WithFoot(s.fig, Left, Point2(2.0, 2.0)))).fig.pelvis == Point2(1.35, 5.35)
  {
    DragFootDiagonal(s, Left, Point2(2.0, 2.0));
    var half := s.(fig := WithFoot(s.fig, Left, Point2(2.0, 0.0)));
    FollowFeetStep(half, Point2(1.0, 5.0), Point2(2.0, 5.0), Point2(1.35, 5.0));
    var afterX := FollowFeet(half);
    var placed := afterX.(fig := WithFoot(afterX.fig, Left, Point2(2.0, 2.0)));
    FollowFeetStep(placed, Point2(1.35, 5.0), Point2(2.0, 6.0), Point2(1.5775, 5.35));
    var once := s.(fig := WithFoot(s.fig, Left, Point2(2.0, 2.0)));
    FollowFeetStep(once, Point2(1.0, 5.0), Point2(2.0, 6.0), Point2(1.35, 5.35));
  }

  /** A drag along both axes is a foot event at the halfway point, then one at the end. */
  lemma DragFootDiagonal(s: State, side: Side, c: Point2)
    requires c.x != FootOf(s.fig, side).x && c.y != FootOf(s.fig, side).y
    ensures var afterX := FollowFeet(s.(fig := WithFoot(s.fig, side, Point2(c.x, FootOf(s.fig, side).y))));
            DragFoot(s, side, c) == FollowFeet(afterX.(fig := WithFoot(afterX.fig, side, c)))
  {
  }

  /**
    One foot event on a synced figure whose pelvis sits at `current` and
    whose target is `target`, outside the dead zone: the pelvis lands at p,
    35% of the way, and the feet and the offset stay.
   */
  lemma FollowFeetStep(s: State, current: Point2, target: Point2, p: Point2)
    requires Synced(s) && s.fig.pelvis == current && PelvisTarget(s) == target
    requires Abs(target.x - current.x) >= DeadZone || Abs(target.y - current.y) >= DeadZone
    requires p.x == current.x + (target.x - current.x) * PelvisFollowFactor
    requires p.y == current.y + (target.y - current.y) * PelvisFollowFactor
    ensures var r := FollowFeet(s);
            Synced(r) && r.fig.pelvis == p && r.offset == s.offset
            && r.fig.footLeft == s.fig.footLeft && r.fig.footRight == s.fig.footRight
  {
    assert FollowStep(current, target) == Some(p);
    SetPelvisRigid(s, p, false);
  }

  /**
    Dragging a foot of a synced figure places that foot, keeps the other
    foot, the offset and the upper body's shape, and leaves the state synced.
   */
  lemma DragFootRigid(s: State, side: Side, c: Point2)
    requires Synced(s)
    ensures var r := DragFoot(s, side, c);
            Synced(r) && UpperBody(r.fig) == UpperBody(s.fig)
            && r.fig.footLeft == WithFoot(s.fig, side, c).footLeft
            && r.fig.footRight == WithFoot(s.fig, side, c).footRight
            && r.offset == s.offset && r.footMidpointBase == s.footMidpointBase
  {
    var from := FootOf(s.fig, side);
    var half := s.(fig := WithFoot(s.fig, side, Point2(c.x, from.y)));
    FollowFeetRigid(half);
    var afterX := if c.x != from.x then FollowFeet(half) else half;
    var placed := afterX.(fig := WithFoot(afterX.fig, side, c));
    FollowFeetRigid(placed);
  }

  /**
    A pelvis dragged to q: the x assignment runs `_on_pelvis_moved` when it
    changes the x coordinate, then the y assignment when it changes y.
   */
  function DragPelvis(s: State, q: Point2): State
    requires s.pelvisPrev.Some?
  {
    var half := s.(fig := s.fig.(pelvis := Point2(q.x, s.fig.pelvis.y)));
    var afterX := if q.x != s.fig.pelvis.x then PelvisDragged(half) else half;
    var placed := afterX.(fig := afterX.fig.(pelvis := q));
    if q.y != s.fig.pelvis.y then PelvisDragged(placed) else placed
  }

  /**
    The pelvis handler composes: on a synced figure, the two per-axis events
    of a drag to q leave the same state as one event for the whole drag.
   */
  lemma PelvisDragComposes(s: State, q: Point2)
    requires Synced(s) && q != s.fig.pelvis
    ensures DragPelvis(s, q) == PelvisDragged(s.(fig := s.fig.(pelvis := q)))
  {
    var p := s.fig.pelvis;
    var whole := s.(fig := s.fig.(pelvis := q));
    PelvisDragCarriesUpperBody(whole);
    var half := s.(fig := s.fig.(pelvis := Point2(q.x, p.y)));
    if q.x != p.x {
      PelvisDragCarriesUpperBody(half);
      var afterX := PelvisDragged(half);
      var placed := afterX.(fig := afterX.fig.(pelvis := q));
      if q.y != p.y {
        PelvisDragCarriesUpperBody(placed);
      } else {
        assert q == Point2(q.x, p.y);
      }
    } else {
      assert half == s;
    }
  }

  /**
    A shoulder dragged to q: the x assignment runs `_on_shoulder_moved` when
    it changes the x coordinate, then the y assignment when it changes y.
   */
  function DragShoulder(s: State, q: Point2): State
    requires s.shoulderPrev.Some?
  {
    var half := s.(fig := s.fig.(shoulder := Point2(q.x, s.fig.shoulder.y)));
    var afterX := if q.x != s.fig.shoulder.x then ShoulderDragged(half) else half;
    var placed := afterX.(fig := afterX.fig.(shoulder := q));
    if q.y != s.fig.shoulder.y then ShoulderDragged(placed) else placed
  }

  /**
    The shoulder handler composes: with the shoulder recorded, the two
    per-axis events of a drag to q leave the same state as one event.
   */
  lemma ShoulderDragComposes(s: State, q: Point2)
    requires s.shoulderPrev == Some(s.fig.shoulder)
    ensures DragShoulder(s, q) == ShoulderDragged(s.(fig := s.fig.(shoulder := q)))
  {
    var c := s.fig.shoulder;
    var whole := s.(fig := s.fig.(shoulder := q));
    ShoulderDragCarriesHands(whole);
    var half := s.(fig := s.fig.(shoulder := Point2(q.x, c.y)));
    ShoulderDragCarriesHands(half);
    var afterX := if q.x != c.x then ShoulderDragged(half) else half;
    var placed := afterX.(fig := afterX.fig.(shoulder := q));
    ShoulderDragCarriesHands(placed);
    if q.x == c.x {
      assert half == s;
    }
    if q.y == c.y {
      assert q == Point2(q.x, c.y);
    }
  }
}
