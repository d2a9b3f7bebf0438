/**
  The interpolator family of the keyframe animation engine: the seven
  interpolation modes, the construction checks of the base interpolator,
  time normalisation, the closed-form easing weight of each mode, vectorised
  evaluation over a sequence of times and the factory that maps a mode name
  to an interpolator.
 */
module Interpolation {
  import opened RealMath
  import opened Wrappers

  datatype Mode = None | Constant | Linear | Sinusoidal | Quadratic | Cubic | Elastic
  {
    /** The enum member's string value. */
    function Value(): string
    {
      match this
      case None => "None"
      case Constant => "Constant"
      case Linear => "Linear"
      case Sinusoidal => "Sinusoidal"
      case Quadratic => "Quadratic"
      case Cubic => "Cubic"
      case Elastic => "Elastic"
    }
  }

  datatype Space = Joint | Cartesian
  {
    function Value(): string
    {
      match this
      case Joint => "Joint"
      case Cartesian => "Cartesian"
    }
  }

  /** The interpolation applied on the transition into a keyframe. */
  datatype Settings = Settings(mode: Mode, space: Space)

  /** `InterpolationSettings()` with its default arguments. */
  const DefaultSettings: Settings := Settings(Linear, Joint)

  /** The members of the mode enum in declaration order. */
  const AllModes: seq<Mode> := [Mode.None, Constant, Linear, Sinusoidal, Quadratic, Cubic, Elastic]

  /** The string values of the given modes, leaving out None, in order. */
  function NamesExceptNone(ms: seq<Mode>): (r: seq<string>)
    ensures |r| <= |ms|
    ensures Mode.None.Value() !in r
  {
    if ms == [] then []
    else
      var rest := NamesExceptNone(ms[1..]);
      if ms[0] == Mode.None then rest else [ms[0].Value()] + rest
  }

  /** The mode names offered to the user: every mode value except "None". */
  const InterpolationModes: seq<string> := NamesExceptNone(AllModes)

  /** The space names offered to the user. */
  const InterpolationSpaces: seq<string> := [Joint.Value(), Cartesian.Value()]

  /** The name table of the factory. */
  const Interpolators: map<string, Mode> := map[
    "Constant" := Constant,
    "Linear" := Linear,
    "Sinusoidal" := Sinusoidal,
    "Quadratic" := Quadratic,
    "Cubic" := Cubic,
    "Elastic" := Elastic]

  /** A parameter value: a scalar, or a one-dimensional array. */
  datatype Param = Scalar(x: real) | Array(xs: seq<real>)

  /** `np.atleast_1d`: a scalar becomes a one-element array. */
  function AtLeast1d(p: Param): seq<real>
  {
    match p
    case Scalar(x) => [x]
    case Array(xs) => xs
  }

  /**
    Why construction through the factory fails (all `ValueError` in the
    source): an unknown name, end values numpy cannot broadcast against each
    other in `p1 - p0`, a time range that does not increase, or end values of
    different shape.
   */
  datatype Error = UnknownMode(name: string) | BroadcastMismatch | NonIncreasingTime | ShapeMismatch

  /** numpy broadcasting of two one-dimensional shapes: equal, or either of length one. */
  predicate Broadcastable(n0: nat, n1: nat)
  {
    n0 == n1 || n0 == 1 || n1 == 1
  }

  /** A constructed interpolator: its mode, time range, end values and scalar flag. */
  datatype Interpolator = Interpolator(mode: Mode, t0: real, t1: real, p0: seq<real>, p1: seq<real>, isScalar: bool)
  {
    /** What construction guarantees. */
    predicate Valid()
    {
      mode != Mode.None && t1 > t0 && |p0| == |p1|
    }

    /** The switching time of the Constant mode. */
    function TMid(): real
    {
      (t0 + t1) / 2.0
    }
  }

  /**
    `BaseInterpolator.__init__` for the given concrete mode: the difference
    `p1 - p0` is taken before either check, so unbroadcastable end values fail
    first, then the time range, then the shapes.
   */
  function Construct(mode: Mode, t0: real, t1: real, p0: Param, p1: Param): (r: Result<Interpolator, Error>)
    requires mode != Mode.None
    ensures r.Ok? <==> t1 > t0 && |AtLeast1d(p0)| == |AtLeast1d(p1)|
    ensures !Broadcastable(|AtLeast1d(p0)|, |AtLeast1d(p1)|) <==> r == Err(BroadcastMismatch)
    ensures Broadcastable(|AtLeast1d(p0)|, |AtLeast1d(p1)|) && t1 <= t0 ==> r == Err(NonIncreasingTime)
    ensures r == Err(ShapeMismatch) <==>
              t1 > t0 && |AtLeast1d(p0)| != |AtLeast1d(p1)| && Broadcastable(|AtLeast1d(p0)|, |AtLeast1d(p1)|)
    ensures r.Ok? ==> r.value.Valid() && r.value.mode == mode
                      && r.value.t0 == t0 && r.value.t1 == t1
                      && r.value.p0 == AtLeast1d(p0) && r.value.p1 == AtLeast1d(p1)
                      && (r.value.isScalar <==> p0.Scalar?)
  {
    var a0 := AtLeast1d(p0);
    var a1 := AtLeast1d(p1);
    if !Broadcastable(|a0|, |a1|) then Err(BroadcastMismatch)
    else if t1 - t0 <= 0.0 then Err(NonIncreasingTime)
    else if |a0| != |a1| then Err(ShapeMismatch)
    else Ok(Interpolator(mode, t0, t1, a0, a1, p0.Scalar?))
  }

  /** `create_interpolator`: look the name up, then construct. */
  function CreateInterpolator(name: string, t0: real, t1: real, p0: Param, p1: Param): (r: Result<Interpolator, Error>)
    ensures r == Err(UnknownMode(name)) <==> name !in InterpolationModes
    ensures r.Ok? <==> name in InterpolationModes && t1 > t0 && |AtLeast1d(p0)| == |AtLeast1d(p1)|
    ensures name in InterpolationModes && !Broadcastable(|AtLeast1d(p0)|, |AtLeast1d(p1)|) ==> r == Err(BroadcastMismatch)
    ensures name in InterpolationModes && Broadcastable(|AtLeast1d(p0)|, |AtLeast1d(p1)|) && t1 <= t0 ==>
              r == Err(NonIncreasingTime)
    ensures r.Ok? ==> r.value.Valid() && r.value.mode.Value() == name
                      && r.value.t0 == t0 && r.value.t1 == t1
                      && r.value.p0 == AtLeast1d(p0) && r.value.p1 == AtLeast1d(p1)
                      && (r.value.isScalar <==> p0.Scalar?)
  {
    ModeNames();
    if name !in Interpolators then Err(UnknownMode(name))
    else Construct(Interpolators[name], t0, t1, p0, p1)
  }

  /** The offered names, in enum order. */
  lemma ModeList()
    ensures InterpolationModes == ["Constant", "Linear", "Sinusoidal", "Quadratic", "Cubic", "Elastic"]
  {
    assert NamesExceptNone(AllModes[6..]) == ["Elastic"];
    assert NamesExceptNone(AllModes[5..]) == ["Cubic", "Elastic"];
    assert NamesExceptNone(AllModes[4..]) == ["Quadratic", "Cubic", "Elastic"];
    assert NamesExceptNone(AllModes[3..]) == ["Sinusoidal", "Quadratic", "Cubic", "Elastic"];
    assert NamesExceptNone(AllModes[2..]) == ["Linear", "Sinusoidal", "Quadratic", "Cubic", "Elastic"];
    assert NamesExceptNone(AllModes[1..]) == ["Constant", "Linear", "Sinusoidal", "Quadratic", "Cubic", "Elastic"];
  }

  /** The offered names are exactly the factory's keys, "None" is not among them. */
  lemma ModeNames()
    ensures InterpolationModes == ["Constant", "Linear", "Sinusoidal", "Quadratic", "Cubic", "Elastic"]
    ensures forall n :: n in InterpolationModes <==> n in Interpolators
    ensures forall n :: n in Interpolators ==> Interpolators[n].Value() == n && Interpolators[n] != Mode.None
    ensures Mode.None.Value() !in InterpolationModes
  {
    ModeList();
    forall n ensures n in InterpolationModes <==> n in Interpolators {
    }
    forall n | n in Interpolators ensures Interpolators[n].Value() == n && Interpolators[n] != Mode.None {
    }
  }

  /** `_normalize_time`: `clip((t - t0) / dt, 0, 1)`. */
  function NormalizeTime(it: Interpolator, t: real): (u: real)
    requires it.t1 > it.t0
    ensures 0.0 <= u <= 1.0
    ensures t <= it.t0 ==> u == 0.0
    ensures t >= it.t1 ==> u == 1.0
    ensures it.t0 <= t <= it.t1 ==> u * (it.t1 - it.t0) == t - it.t0
  {
    var dt := it.t1 - it.t0;
    var q := (t - it.t0) / dt;
    QuotientBounds(t - it.t0, dt);
    Clip(q, 0.0, 1.0)
  }

  const ElasticAmplitude: real := 1.5
  const ElasticPeriod: real := 0.3

  /** The phase shift `period / (2 pi) * asin(1 / amplitude)` of the Elastic mode. */
  function ElasticPhase(m: Math): real
  {
    ElasticPeriod / (2.0 * PI) * m.asin(1.0 / ElasticAmplitude)
  }

  /** The damped oscillation used strictly inside (0, 1). */
  function ElasticCurve(u: real, m: Math): real
  {
    ElasticAmplitude * m.exp2(-10.0 * u) * m.sin((u - ElasticPhase(m)) * (2.0 * PI) / ElasticPeriod) + 1.0
  }

  /** The Elastic weight of one normalised time, clamped to 0 and 1 outside (0, 1). */
  function ElasticWeight(u: real, m: Math): real
  {
    if u <= 0.0 then 0.0 else if u >= 1.0 then 1.0 else ElasticCurve(u, m)
  }

  /** The easing weight of every mode but None and Constant. */
  function Weight(mode: Mode, u: real, m: Math): real
    requires mode != Mode.None && mode != Constant
  {
    match mode
    case Linear => u
    case Sinusoidal => (1.0 - m.cos(PI * u)) / 2.0
    case Quadratic => QuadraticWeight(u)
    case Cubic => CubicWeight(u)
    case Elastic => ElasticWeight(u, m)
  }

  /** Quadratic ease-in-out: 2u^2 before u = 0.5, 1 - 2(1-u)^2 from there. */
  function QuadraticWeight(u: real): real
  {
    if u < 0.5 then 2.0 * u * u else 1.0 - 2.0 * (1.0 - u) * (1.0 - u)
  }

  /** Cubic ease-in-out: 4u^3 before u = 0.5, 1 - 4(1-u)^3 from there. */
  function CubicWeight(u: real): real
  {
    if u < 0.5 then 4.0 * u * u * u else 1.0 - 4.0 * (1.0 - u) * (1.0 - u) * (1.0 - u)
  }

  /** `p0 + (p1 - p0) * w`, componentwise. */
  function Lerp(p0: seq<real>, p1: seq<real>, w: real): (r: seq<real>)
    requires |p0| == |p1|
    ensures |r| == |p0|
  {
    seq(|p0|, k requires 0 <= k < |p0| => p0[k] + (p1[k] - p0[k]) * w)
  }

  /** The value of the interpolator at one time. */
  function Blend(it: Interpolator, t: real, m: Math): (r: seq<real>)
    requires it.Valid()
    ensures |r| == |it.p0|
  {
    if it.mode == Constant then
      if t < it.TMid() then it.p0 else it.p1
    else
      Lerp(it.p0, it.p1, Weight(it.mode, NormalizeTime(it, t), m))
  }

  /** The three result shapes of `interpolate`. */
  datatype Output = Single(value: real) | Flat(values: seq<real>) | Rows(rows: seq<seq<real>>)

  /**
    `interpolate` over a sequence of times: n rows of p values when p > 1,
    otherwise n values, and a bare scalar for a scalar p0 and a single time.
   */
  function Interpolate(it: Interpolator, ts: seq<real>, m: Math): (out: Output)
    requires it.Valid() && |it.p0| >= 1
    ensures |it.p0| > 1 ==> out.Rows? && |out.rows| == |ts|
                            && forall i :: 0 <= i < |ts| ==> |out.rows[i]| == |it.p0|
    ensures |it.p0| == 1 && it.isScalar && |ts| == 1 ==> out.Single?
    ensures |it.p0| == 1 && !(it.isScalar && |ts| == 1) ==> out.Flat? && |out.values| == |ts|
  {
    if |it.p0| > 1 then
      Rows(seq(|ts|, i requires 0 <= i < |ts| => Blend(it, ts[i], m)))
    else
      var values := seq(|ts|, i requires 0 <= i < |ts| => Blend(it, ts[i], m)[0]);
      if it.isScalar && |ts| == 1 then Single(values[0]) else Flat(values)
  }

  /** Row i of a vector result, or value i of a flat one, is the interpolator at ts[i]. */
  lemma InterpolatePointwise(it: Interpolator, ts: seq<real>, m: Math, i: nat)
    requires it.Valid() && |it.p0| >= 1 && i < |ts|
    ensures var out := Interpolate(it, ts, m);
            (out.Rows? ==> out.rows[i] == Blend(it, ts[i], m))
            && (out.Flat? ==> out.values[i] == Blend(it, ts[i], m)[0])
            && (out.Single? ==> out.value == Blend(it, ts[i], m)[0])
  {
  }

  /**
    `ElasticInterpolator.interpolate`'s weight array: start from ones, write
    the curve where 0 < u < 1, then 0 where u <= 0 and 1 where u >= 1.
   */
  method ElasticWeights(u: seq<real>, m: Math) returns (w: seq<real>)
    ensures |w| == |u|
    ensures forall i :: 0 <= i < |u| ==> w[i] == ElasticWeight(u[i], m)
  {
    var a := new real[|u|](_ => 1.0);
    for i := 0 to |u|
      invariant forall j :: 0 <= j < i ==> a[j] == if 0.0 < u[j] < 1.0 then ElasticCurve(u[j], m) else 1.0
      invariant forall j :: i <= j < |u| ==> a[j] == 1.0
    {
      if 0.0 < u[i] < 1.0 {
        a[i] := ElasticCurve(u[i], m);
      }
    }
    for i := 0 to |u|
      invariant forall j :: 0 <= j < i ==> a[j] == if u[j] <= 0.0 then 0.0 else if u[j] < 1.0 then ElasticCurve(u[j], m) else 1.0
      invariant forall j :: i <= j < |u| ==> a[j] == if 0.0 < u[j] < 1.0 then ElasticCurve(u[j], m) else 1.0
    {
      if u[i] <= 0.0 {
        a[i] := 0.0;
      }
    }
    for i := 0 to |u|
      invariant forall j :: 0 <= j < i ==> a[j] == ElasticWeight(u[j], m)
      invariant forall j :: i <= j < |u| ==> a[j] == if u[j] <= 0.0 then 0.0 else if u[j] < 1.0 then ElasticCurve(u[j], m) else 1.0
    {
      if u[i] >= 1.0 {
        a[i] := 1.0;
      }
    }
    w := a[..];
  }

  /** `ElasticInterpolator.interpolate`, computed through the masked weight array. */
  method InterpolateElastic(it: Interpolator, ts: seq<real>, m: Math) returns (out: Output)
    requires it.Valid() && it.mode == Elastic && |it.p0| >= 1
    ensures out == Interpolate(it, ts, m)
  {
    var u := seq(|ts|, i requires 0 <= i < |ts| => NormalizeTime(it, ts[i]));
    var w := ElasticWeights(u, m);
    var rows := seq(|ts|, i requires 0 <= i < |ts| => Lerp(it.p0, it.p1, w[i]));
    assert forall i :: 0 <= i < |ts| ==> rows[i] == Blend(it, ts[i], m);
    if |it.p0| > 1 {
      out := Rows(rows);
    } else {
      var values := seq(|ts|, i requires 0 <= i < |ts| => rows[i][0]);
      out := if it.isScalar && |ts| == 1 then Single(values[0]) else Flat(values);
    }
  }

  /**
    Every mode returns p0 at (and before) t0 and p1 at (and after) t1; the
    Sinusoidal mode needs cos 0 = 1 and cos pi = -1.
   */
  lemma {:induction false} EndpointsExact(it: Interpolator, t: real, m: Math)
    requires it.Valid()
    requires it.mode == Sinusoidal ==> CosEndpoints(m)
    ensures t <= it.t0 ==> Blend(it, t, m) == it.p0
    ensures t >= it.t1 ==> Blend(it, t, m) == it.p1
  {
    if it.mode != Constant {
      var u := NormalizeTime(it, t);
      if t <= it.t0 {
        assert u == 0.0;
        assert PI * u == 0.0;
        assert Weight(it.mode, u, m) == 0.0;
        assert Lerp(it.p0, it.p1, 0.0) == it.p0;
      }
      if t >= it.t1 {
        assert u == 1.0;
        assert PI * u == PI;
        assert Weight(it.mode, u, m) == 1.0;
        assert Lerp(it.p0, it.p1, 1.0) == it.p1;
      }
    }
  }

  /** The Constant mode is a step at the midpoint: it never produces a third value. */
  lemma ConstantIsStep(it: Interpolator, t: real, m: Math)
    requires it.Valid() && it.mode == Constant
    ensures t < (it.t0 + it.t1) / 2.0 ==> Blend(it, t, m) == it.p0
    ensures t >= (it.t0 + it.t1) / 2.0 ==> Blend(it, t, m) == it.p1
    ensures Blend(it, t, m) == it.p0 || Blend(it, t, m) == it.p1
  {
  }

  /**
    The weights of the polynomial and cosine modes stay in [0, 1] on [0, 1];
    the Quadratic and Cubic weights are below 0.5 before u = 0.5 and above after.
   */
  lemma WeightInUnit(mode: Mode, u: real, m: Math)
    requires mode in {Linear, Sinusoidal, Quadratic, Cubic}
    requires 0.0 <= u <= 1.0
    requires mode == Sinusoidal ==> OnUnitCircle(m, PI * u)
    ensures 0.0 <= Weight(mode, u, m) <= 1.0
    ensures mode in {Quadratic, Cubic} && u < 0.5 ==> Weight(mode, u, m) <= 0.5
    ensures mode in {Quadratic, Cubic} && u >= 0.5 ==> Weight(mode, u, m) >= 0.5
  {
    match mode
    case Linear =>
    case Sinusoidal =>
      SquareAtMostOne(m.cos(PI * u), m.sin(PI * u));
    case Quadratic =>
      if u < 0.5 {
        PowerBounds(u, 0.5);
        assert 2.0 * u * u == 2.0 * (u * u);
      } else {
        var v := 1.0 - u;
        PowerBounds(v, 0.5);
        assert 2.0 * (1.0 - u) * (1.0 - u) == 2.0 * (v * v);
      }
    case Cubic =>
      if u < 0.5 {
        PowerBounds(u, 0.5);
        assert 4.0 * u * u * u == 4.0 * (u * u * u);
      } else {
        var v := 1.0 - u;
        PowerBounds(v, 0.5);
        assert 4.0 * (1.0 - u) * (1.0 - u) * (1.0 - u) == 4.0 * (v * v * v);
      }
  }

  /** A weight in [0, 1] keeps every component between the two end values. */
  lemma LerpBetween(p0: seq<real>, p1: seq<real>, w: real)
    requires |p0| == |p1| && 0.0 <= w <= 1.0
    ensures forall k :: 0 <= k < |p0| ==> Min(p0[k], p1[k]) <= Lerp(p0, p1, w)[k] <= Max(p0[k], p1[k])
  {
    forall k | 0 <= k < |p0|
      ensures Min(p0[k], p1[k]) <= Lerp(p0, p1, w)[k] <= Max(p0[k], p1[k])
    {
      var d := p1[k] - p0[k];
      assert Lerp(p0, p1, w)[k] == p0[k] + d * w;
      if d >= 0.0 {
        MulLeftMono(d, 0.0, w);
        MulLeftMono(d, w, 1.0);
      } else {
        MulLeftMono(-d, 0.0, w);
        MulLeftMono(-d, w, 1.0);
        assert (-d) * w == -(d * w);
      }
    }
  }

  /**
    Constant, Linear, Sinusoidal, Quadratic and Cubic outputs stay between p0
    and p1 componentwise (Elastic may overshoot).
   */
  lemma BlendBetween(it: Interpolator, t: real, m: Math)
    requires it.Valid() && it.mode in {Constant, Linear, Sinusoidal, Quadratic, Cubic}
    requires it.mode == Sinusoidal ==> OnUnitCircle(m, PI * NormalizeTime(it, t))
    ensures forall k :: 0 <= k < |it.p0| ==> Min(it.p0[k], it.p1[k]) <= Blend(it, t, m)[k] <= Max(it.p0[k], it.p1[k])
  {
    if it.mode != Constant {
      var u := NormalizeTime(it, t);
      WeightInUnit(it.mode, u, m);
      LerpBetween(it.p0, it.p1, Weight(it.mode, u, m));
    }
  }

  /** Normalised time is nondecreasing in time. */
  lemma NormalizeMonotone(it: Interpolator, t: real, t': real)
    requires it.t1 > it.t0 && t <= t'
    ensures NormalizeTime(it, t) <= NormalizeTime(it, t')
  {
    var dt := it.t1 - it.t0;
    assert (t - it.t0) / dt <= (t' - it.t0) / dt;
  }

  /** The Quadratic weight is nondecreasing on [0, 1]. */
  lemma QuadraticMonotone(u: real, v: real)
    requires 0.0 <= u <= v <= 1.0
    ensures QuadraticWeight(u) <= QuadraticWeight(v)
  {
    if v < 0.5 {
      PowersMonotone(u, v);
      assert 2.0 * u * u == 2.0 * (u * u) && 2.0 * v * v == 2.0 * (v * v);
    } else if 0.5 <= u {
      var a, b := 1.0 - v, 1.0 - u;
      PowersMonotone(a, b);
      assert 2.0 * (1.0 - u) * (1.0 - u) == 2.0 * (b * b) && 2.0 * (1.0 - v) * (1.0 - v) == 2.0 * (a * a);
    } else {
      PowerBounds(u, 0.5);
      PowerBounds(1.0 - v, 0.5);
      assert 2.0 * u * u == 2.0 * (u * u);
      assert 2.0 * (1.0 - v) * (1.0 - v) == 2.0 * ((1.0 - v) * (1.0 - v));
    }
  }

  /** The Cubic weight is nondecreasing on [0, 1]. */
  lemma CubicMonotone(u: real, v: real)
    requires 0.0 <= u <= v <= 1.0
    ensures CubicWeight(u) <= CubicWeight(v)
  {
    if v < 0.5 {
      PowersMonotone(u, v);
      assert 4.0 * u * u * u == 4.0 * (u * u * u) && 4.0 * v * v * v == 4.0 * (v * v * v);
    } else if 0.5 <= u {
      var a, b := 1.0 - v, 1.0 - u;
      PowersMonotone(a, b);
      assert 4.0 * (1.0 - u) * (1.0 - u) * (1.0 - u) == 4.0 * (b * b * b);
      assert 4.0 * (1.0 - v) * (1.0 - v) * (1.0 - v) == 4.0 * (a * a * a);
    } else {
      var a := 1.0 - v;
      PowerBounds(u, 0.5);
      PowerBounds(a, 0.5);
      assert u * u * u <= 0.125;
      assert a * a * a <= 0.125;
      assert 4.0 * u * u * u == 4.0 * (u * u * u);
      assert 4.0 * (1.0 - v) * (1.0 - v) * (1.0 - v) == 4.0 * (a * a * a);
    }
  }

  /** The Linear, Quadratic and Cubic weights are nondecreasing on [0, 1]. */
  lemma WeightMonotone(mode: Mode, u: real, v: real, m: Math)
    requires mode in {Linear, Quadratic, Cubic}
    requires 0.0 <= u <= v <= 1.0
    ensures Weight(mode, u, m) <= Weight(mode, v, m)
  {
    match mode
    case Linear =>
    case Quadratic => QuadraticMonotone(u, v);
    case Cubic => CubicMonotone(u, v);
  }

  /** A larger weight moves each component further from p0 toward p1. */
  lemma LerpMonotone(p0: seq<real>, p1: seq<real>, w: real, w': real, k: nat)
    requires |p0| == |p1| && k < |p0| && w <= w'
    ensures p0[k] <= p1[k] ==> Lerp(p0, p1, w)[k] <= Lerp(p0, p1, w')[k]
    ensures p0[k] >= p1[k] ==> Lerp(p0, p1, w)[k] >= Lerp(p0, p1, w')[k]
  {
    var d := p1[k] - p0[k];
    if d >= 0.0 {
      MulLeftMono(d, w, w');
    } else {
      MulLeftMono(-d, w, w');
      assert (-d) * w == -(d * w) && (-d) * w' == -(d * w');
    }
  }

  /**
    For the Linear, Quadratic and Cubic modes each component moves
    monotonically from p0 to p1 as time increases.
   */
  lemma BlendMonotone(it: Interpolator, t: real, t': real, m: Math, k: nat)
    requires it.Valid() && it.mode in {Linear, Quadratic, Cubic}
    requires t <= t' && k < |it.p0|
    ensures it.p0[k] <= it.p1[k] ==> Blend(it, t, m)[k] <= Blend(it, t', m)[k]
    ensures it.p0[k] >= it.p1[k] ==> Blend(it, t, m)[k] >= Blend(it, t', m)[k]
  {
    var u, u' := NormalizeTime(it, t), NormalizeTime(it, t');
    NormalizeMonotone(it, t, t');
    WeightMonotone(it.mode, u, u', m);
    LerpMonotone(it.p0, it.p1, Weight(it.mode, u, m), Weight(it.mode, u', m), k);
  }

  /** The two branches of the Quadratic and Cubic weights meet at u = 0.5, at 0.5. */
  lemma EaseBranchesMeet(m: Math)
    ensures 2.0 * 0.5 * 0.5 == 1.0 - 2.0 * (1.0 - 0.5) * (1.0 - 0.5) == Weight(Quadratic, 0.5, m) == 0.5
    ensures 4.0 * 0.5 * 0.5 * 0.5 == 1.0 - 4.0 * (1.0 - 0.5) * (1.0 - 0.5) * (1.0 - 0.5) == Weight(Cubic, 0.5, m) == 0.5
  {
  }
}
