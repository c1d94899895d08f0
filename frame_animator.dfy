/**
 * The flip_and_grow frame transform of YugiohVideoMaker.create_video: for the
 * elapsed time t it decides the card image's resized dimensions and, when
 * the flip axis is "z", an in-plane rotation. The timeline has two phases:
 * a flip (t <= T_flip) at fixed magnification, then a linear zoom.
 *
 * Arithmetic is exact (real); Python's int() truncates toward zero, and the
 * value |cos(radians(angle))| is supplied by the caller as `absCos`.
 *
 * The arithmetic functions carry few postconditions of their own: their
 * properties are lemmas, so that the solver meets the arithmetic only where
 * a proof uses it.
 */
module FrameAnimator {
  import opened Common

  /** The values the transform closes over. */
  datatype Timeline = Timeline(
    duration: real,       // T: the narration's duration in seconds
    flipDuration: real,   // T_flip
    rotationStart: real,  // degrees
    rotationEnd: real,    // degrees
    startScale: real,
    endScale: real,
    flipAxis: string)

  /** create_video's timeline: T_flip = T * flip_duration_ratio. */
  function MakeTimeline(duration: real, flipRatio: real, rotationStart: real, rotationEnd: real,
                        startScale: real, endScale: real, flipAxis: string): (tl: Timeline)
    ensures tl.duration == duration && tl.flipAxis == flipAxis
    ensures tl.startScale == startScale && tl.endScale == endScale
    ensures tl.rotationStart == rotationStart && tl.rotationEnd == rotationEnd
    ensures flipRatio == 0.0 || duration == 0.0 <==> tl.flipDuration == 0.0
  {
    FlipDurationBounds(duration, flipRatio);
    Timeline(duration, duration * flipRatio, rotationStart, rotationEnd, startScale, endScale, flipAxis)
  }

  /** T * ratio is zero exactly when a factor is, and lies strictly inside (0, T) for a ratio in (0, 1). */
  lemma FlipDurationBounds(duration: real, flipRatio: real)
    ensures flipRatio == 0.0 || duration == 0.0 <==> duration * flipRatio == 0.0
    ensures 0.0 < duration && 0.0 < flipRatio < 1.0 ==> 0.0 < duration * flipRatio < duration
  {
    if 0.0 < duration && 0.0 < flipRatio < 1.0 {
      MulPositive(duration, flipRatio);
      MulLeftStrict(duration, flipRatio, 1.0);
    }
  }

  /** create_video's default arguments for a narration of the given duration. */
  function DefaultTimeline(duration: real): (tl: Timeline)
    ensures tl.flipAxis == "x" && tl.rotationStart == 90.0 && tl.rotationEnd == 0.0
    ensures tl.startScale == 0.4 && tl.endScale == 0.7
    ensures tl.duration == duration && tl.flipDuration == duration * 0.03
  {
    MakeTimeline(duration, 0.03, 90.0, 0.0, 0.4, 0.7, "x")
  }

  /** getRotationMatrix2D(center, angle, 1.0), recorded rather than applied. */
  datatype Rotation = Rotation(angle: real, centerX: int, centerY: int)

  /** The transformed frame's size and rotation, or the exception the transform raised. */
  datatype FrameResult =
    | Frame(width: int, height: int, rotation: Option<Rotation>)
    | Raised(error: Exception)

  // ---------------------------------------------------------------------------
  // Pixel sizes

  /** int(x) on a float: truncation toward zero. */
  function Trunc(x: real): int
  {
    if x >= 0.0 then x.Floor else -((-x).Floor)
  }

  /** int(x) rounds toward zero: down for a non-negative x, up for a negative one. */
  lemma TruncTowardZero(x: real)
    ensures 0.0 <= x ==> Trunc(x) as real <= x < Trunc(x) as real + 1.0
    ensures x < 0.0 ==> Trunc(x) as real - 1.0 < x <= Trunc(x) as real
  {
  }

  /** max(int(x), 1): a pixel count floored to at least one pixel. */
  function PixelSize(x: real): (n: int)
    ensures n >= 1
  {
    var k := Trunc(x);
    if k > 1 then k else 1
  }

  /** A size of at least one pixel keeps the whole pixels it holds; a smaller one becomes one pixel. */
  lemma PixelSizeBounds(x: real)
    ensures x >= 1.0 ==> PixelSize(x) as real <= x < PixelSize(x) as real + 1.0
    ensures x < 1.0 ==> PixelSize(x) == 1
  {
    TruncTowardZero(x);
  }

  /** A larger real size never gives fewer pixels. */
  lemma PixelSizeMonotone(x: real, y: real)
    requires x <= y
    ensures PixelSize(x) <= PixelSize(y)
  {
  }

  /** max(int(size * k), 1): one frame dimension resized by the factor k. */
  function Scaled(size: nat, k: real): int
  {
    PixelSize(size as real * k)
  }

  /** A larger factor never gives fewer pixels. */
  lemma ScaledMonotone(size: nat, a: real, b: real)
    requires a <= b
    ensures Scaled(size, a) <= Scaled(size, b)
  {
    MulLeftMonotone(size as real, a, b);
    PixelSizeMonotone(size as real * a, size as real * b);
  }

  // ---------------------------------------------------------------------------
  // The timeline

  /** Linear interpolation from a (at f = 0) to b (at f = 1). */
  function Lerp(a: real, b: real, f: real): real
  {
    a + f * (b - a)
  }

  /** rotation_start + (t / T_flip) * (rotation_end - rotation_start) */
  function FlipAngle(t: real, tFlip: real, from: real, to: real): real
    requires tFlip != 0.0
  {
    Lerp(from, to, t / tFlip)
  }

  /** The (flip_scale_x, flip_scale_y) foreshortening for the axis, given |cos(angle)|. */
  function Foreshortening(axis: string, absCos: real): (real, real)
  {
    if axis == "y" then (absCos, 1.0)
    else if axis == "x" then (1.0, absCos)
    else if axis == "z" then (1.0, 1.0)
    else (absCos, 1.0)
  }

  /** "x" foreshortens the height, "z" nothing, and "y" or any other axis the width. */
  lemma ForeshorteningByAxis(axis: string, c: real)
    ensures axis == "x" ==> Foreshortening(axis, c) == (1.0, c)
    ensures axis == "z" ==> Foreshortening(axis, c) == (1.0, 1.0)
    ensures axis != "x" && axis != "z" ==> Foreshortening(axis, c) == (c, 1.0)
  {
  }

  /** (t - T_flip) / (T - T_flip), or 1.0 when the zoom phase has no length. */
  function ZoomFraction(t: real, duration: real, tFlip: real): real
  {
    if duration - tFlip > 0.0 then (t - tFlip) / (duration - tFlip) else 1.0
  }

  /** The zoom fraction lies in (0, 1] during the zoom phase, and is 1 at its end or when it has no length. */
  lemma ZoomFractionInUnit(t: real, duration: real, tFlip: real)
    ensures duration - tFlip <= 0.0 ==> ZoomFraction(t, duration, tFlip) == 1.0
    ensures tFlip < t <= duration ==> 0.0 < ZoomFraction(t, duration, tFlip) <= 1.0
    ensures t == duration ==> ZoomFraction(t, duration, tFlip) == 1.0
  {
    if duration - tFlip > 0.0 {
      QuotientInUnit(t - tFlip, duration - tFlip);
    }
  }

  /** start_scale + fraction_zoom * (end_scale - start_scale) */
  function ZoomFactor(t: real, tl: Timeline): real
  {
    Lerp(tl.startScale, tl.endScale, ZoomFraction(t, tl.duration, tl.flipDuration))
  }

  /** The magnification applied at time t: start_scale throughout the flip, the zoom factor after it. */
  function Magnification(t: real, tl: Timeline): real
  {
    if t <= tl.flipDuration then tl.startScale else ZoomFactor(t, tl)
  }

  // ---------------------------------------------------------------------------
  // The transform

  /**
   * The flip branch: the frame foreshortened about the axis at magnification
   * start_scale (size * flip_scale * current_scale, in exact arithmetic the
   * same as size * (flip_scale * current_scale)).
   */
  function FlipFrame(t: real, tl: Timeline, frameWidth: nat, frameHeight: nat, absCos: real -> real): FrameResult
    requires tl.flipDuration != 0.0
  {
    var angle := FlipAngle(t, tl.flipDuration, tl.rotationStart, tl.rotationEnd);
    var scale := Foreshortening(tl.flipAxis, absCos(angle));
    var currentScale := tl.startScale;
    var newWidth := Scaled(frameWidth, scale.0 * currentScale);
    var newHeight := Scaled(frameHeight, scale.1 * currentScale);
    if tl.flipAxis == "z" then
      Frame(newWidth, newHeight, Some(Rotation(angle, newWidth / 2, newHeight / 2)))
    else
      Frame(newWidth, newHeight, None)
  }

  /** The zoom branch: the whole frame scaled by the zoom factor. */
  function ZoomFrame(t: real, tl: Timeline, frameWidth: nat, frameHeight: nat): FrameResult
  {
    var zoom := ZoomFactor(t, tl);
    Frame(Scaled(frameWidth, zoom), Scaled(frameHeight, zoom), None)
  }

  /**
   * flip_and_grow(get_frame, t) for a frame of the given width (shape[1]) and
   * height (shape[0]). With T_flip == 0 the flip branch still runs at t <= 0
   * and divides by zero: there is no guard in the code.
   */
  function FlipAndGrow(t: real, tl: Timeline, frameWidth: nat, frameHeight: nat, absCos: real -> real): (r: FrameResult)
    ensures r.Raised? <==> t <= tl.flipDuration && tl.flipDuration == 0.0
    ensures r.Raised? ==> r.error == ZeroDivisionError
    ensures r.Frame? ==> r.width >= 1 && r.height >= 1
    ensures r.Frame? ==> (r.rotation.Some? <==> t <= tl.flipDuration && tl.flipAxis == "z")
    ensures r.Frame? && r.rotation.Some? ==>
              r.rotation.value.centerX == r.width / 2 && r.rotation.value.centerY == r.height / 2
  {
    if t <= tl.flipDuration then
      if tl.flipDuration == 0.0 then Raised(ZeroDivisionError)
      else FlipFrame(t, tl, frameWidth, frameHeight, absCos)
    else ZoomFrame(t, tl, frameWidth, frameHeight)
  }

  // ---------------------------------------------------------------------------
  // Arithmetic facts

  /** The product of two positive reals is positive. */
  lemma MulPositive(x: real, y: real)
    requires 0.0 < x && 0.0 < y
    ensures 0.0 < x * y
  {
  }

  /** x * z <= y * z when x <= y and z >= 0. */
  lemma MulRightMonotone(x: real, y: real, z: real)
    requires x <= y && 0.0 <= z
    ensures x * z <= y * z
  {
    assert y * z - x * z == (y - x) * z;
  }

  /** k * x <= k * y when x <= y and k >= 0. */
  lemma MulLeftMonotone(k: real, x: real, y: real)
    requires x <= y && 0.0 <= k
    ensures k * x <= k * y
  {
    assert k * y - k * x == k * (y - x);
  }

  /** k * x < k * y when x < y and k > 0. */
  lemma MulLeftStrict(k: real, x: real, y: real)
    requires x < y && 0.0 < k
    ensures k * x < k * y
  {
    MulPositive(k, y - x);
    assert k * y - k * x == k * (y - x);
  }

  /** a / b lies in (0, 1] when 0 < a <= b, and is 1 when a == b. */
  lemma QuotientInUnit(a: real, b: real)
    requires 0.0 < b
    ensures 0.0 < a <= b ==> 0.0 < a / b <= 1.0
    ensures a == b ==> a / b == 1.0
  {
    var inv := 1.0 / b;
    assert inv > 0.0;
    assert a / b == a * inv;
    if 0.0 < a <= b {
      MulRightMonotone(a, b, inv);
      assert b * inv == 1.0;
      assert 0.0 < a * inv by { MulPositive(a, inv); }
    }
  }

  /** a1 / b <= a2 / b when a1 <= a2 and b > 0. */
  lemma QuotientMonotone(a1: real, a2: real, b: real)
    requires a1 <= a2 && 0.0 < b
    ensures a1 / b <= a2 / b
  {
    var inv := 1.0 / b;
    assert inv > 0.0;
    assert a1 / b == a1 * inv && a2 / b == a2 * inv;
    MulRightMonotone(a1, a2, inv);
  }

  /** A convex combination of two values lies between them. */
  lemma LerpBetween(a: real, b: real, f: real)
    requires 0.0 <= f <= 1.0
    ensures a <= b ==> a <= Lerp(a, b, f) <= b
    ensures b <= a ==> b <= Lerp(a, b, f) <= a
  {
    var d := b - a;
    var p := f * d;
    assert Lerp(a, b, f) == a + p;
    if a <= b {
      MulRightMonotone(0.0, f, d);
      MulRightMonotone(f, 1.0, d);
      assert 0.0 <= p <= d;
    } else {
      var e := a - b;
      MulRightMonotone(0.0, f, e);
      MulRightMonotone(f, 1.0, e);
      assert p == -(f * e);
      assert 0.0 <= f * e <= e;
    }
  }

  /** Interpolating with a larger fraction moves further towards b, when a <= b. */
  lemma LerpMonotone(a: real, b: real, f1: real, f2: real)
    requires a <= b && f1 <= f2
    ensures Lerp(a, b, f1) <= Lerp(a, b, f2)
  {
    MulRightMonotone(f1, f2, b - a);
  }

  // ---------------------------------------------------------------------------
  // Properties of the timeline

  /** The flip angle starts at rotation_start and ends at rotation_end. */
  lemma FlipAngleEndpoints(tFlip: real, from: real, to: real)
    requires tFlip != 0.0
    ensures FlipAngle(0.0, tFlip, from, to) == from
    ensures FlipAngle(tFlip, tFlip, from, to) == to
  {
  }

  /** During the flip the angle stays between rotation_start and rotation_end. */
  lemma FlipAngleBetween(t: real, tFlip: real, from: real, to: real)
    requires 0.0 < tFlip && 0.0 <= t <= tFlip
    ensures from <= to ==> from <= FlipAngle(t, tFlip, from, to) <= to
    ensures to <= from ==> to <= FlipAngle(t, tFlip, from, to) <= from
  {
    QuotientInUnit(t, tFlip);
    LerpBetween(from, to, t / tFlip);
  }

  /**
   * A frame of the flip phase depends only on T_flip, the axis, the rotation
   * endpoints and start_scale: neither end_scale nor the duration T has any
   * influence on it.
   */
  lemma FlipPhaseIgnoresEndScale(t: real, tl1: Timeline, tl2: Timeline, w: nat, h: nat, absCos: real -> real)
    requires t <= tl1.flipDuration && tl1.flipDuration != 0.0
    requires tl2.flipDuration == tl1.flipDuration && tl2.flipAxis == tl1.flipAxis
    requires tl2.rotationStart == tl1.rotationStart && tl2.rotationEnd == tl1.rotationEnd
    requires tl2.startScale == tl1.startScale
    ensures FlipAndGrow(t, tl1, w, h, absCos) == FlipAndGrow(t, tl2, w, h, absCos)
  {
    assert AngleAt(t, tl1) == AngleAt(t, tl2);
    assert FlipFrame(t, tl1, w, h, absCos) == FlipFrame(t, tl2, w, h, absCos);
  }

  /**
   * Continuity at the end of the flip: the zoom formula, evaluated at T_flip,
   * gives start_scale, and after T_flip the magnification differs from
   * start_scale by the zoom fraction times (end_scale - start_scale).
   */
  lemma MagnificationContinuousAtFlipEnd(t: real, tl: Timeline)
    requires tl.flipDuration < tl.duration
    requires tl.flipDuration < t
    ensures ZoomFactor(tl.flipDuration, tl) == tl.startScale
    ensures Magnification(t, tl) - tl.startScale ==
            (t - tl.flipDuration) / (tl.duration - tl.flipDuration) * (tl.endScale - tl.startScale)
  {
  }

  /** In the zoom phase (T_flip < t <= T) the zoom factor lies between start_scale and end_scale. */
  lemma ZoomFactorBetween(t: real, tl: Timeline)
    requires tl.flipDuration < t <= tl.duration
    ensures tl.startScale <= tl.endScale ==> tl.startScale <= ZoomFactor(t, tl) <= tl.endScale
    ensures tl.endScale <= tl.startScale ==> tl.endScale <= ZoomFactor(t, tl) <= tl.startScale
  {
    ZoomFractionInUnit(t, tl.duration, tl.flipDuration);
    LerpBetween(tl.startScale, tl.endScale, ZoomFraction(t, tl.duration, tl.flipDuration));
  }

  /** The zoom reaches end_scale at t = T, and everywhere when the zoom phase has no length. */
  lemma ZoomEndsAtEndScale(t: real, tl: Timeline)
    requires t == tl.duration || tl.duration - tl.flipDuration <= 0.0
    ensures ZoomFactor(t, tl) == tl.endScale
  {
    ZoomFractionInUnit(t, tl.duration, tl.flipDuration);
  }

  /** When start_scale <= end_scale the zoom never shrinks the card as time advances. */
  lemma ZoomMonotone(t1: real, t2: real, tl: Timeline)
    requires t1 <= t2
    requires tl.startScale <= tl.endScale
    ensures ZoomFactor(t1, tl) <= ZoomFactor(t2, tl)
  {
    var d := tl.duration - tl.flipDuration;
    if d > 0.0 {
      QuotientMonotone(t1 - tl.flipDuration, t2 - tl.flipDuration, d);
    }
    LerpMonotone(tl.startScale, tl.endScale,
                 ZoomFraction(t1, tl.duration, tl.flipDuration), ZoomFraction(t2, tl.duration, tl.flipDuration));
  }

  // ---------------------------------------------------------------------------
  // Properties of the transform

  /** |cos| of every angle lies in [0, 1]. */
  ghost predicate IsAbsCosine(absCos: real -> real)
  {
    forall a :: 0.0 <= absCos(a) <= 1.0
  }

  /** The flip angle at time t of the timeline. */
  function AngleAt(t: real, tl: Timeline): real
    requires tl.flipDuration != 0.0
  {
    FlipAngle(t, tl.flipDuration, tl.rotationStart, tl.rotationEnd)
  }

  /** Axis "x" foreshortens only the height, at magnification start_scale. */
  lemma FlipAboutX(t: real, tl: Timeline, w: nat, h: nat, absCos: real -> real)
    requires t <= tl.flipDuration && tl.flipDuration != 0.0 && tl.flipAxis == "x"
    ensures FlipAndGrow(t, tl, w, h, absCos) ==
            Frame(Scaled(w, tl.startScale), Scaled(h, absCos(AngleAt(t, tl)) * tl.startScale), None)
  {
    ForeshorteningByAxis(tl.flipAxis, absCos(AngleAt(t, tl)));
    assert 1.0 * tl.startScale == tl.startScale;
  }

  /** Axis "z" foreshortens nothing and rotates by the flip angle about the centre of the resized frame. */
  lemma FlipAboutZ(t: real, tl: Timeline, w: nat, h: nat, absCos: real -> real)
    requires t <= tl.flipDuration && tl.flipDuration != 0.0 && tl.flipAxis == "z"
    ensures FlipAndGrow(t, tl, w, h, absCos) ==
            Frame(Scaled(w, tl.startScale), Scaled(h, tl.startScale),
                  Some(Rotation(AngleAt(t, tl), Scaled(w, tl.startScale) / 2, Scaled(h, tl.startScale) / 2)))
  {
    ForeshorteningByAxis(tl.flipAxis, absCos(AngleAt(t, tl)));
    assert 1.0 * tl.startScale == tl.startScale;
  }

  /** Axis "y", and any axis other than "x" and "z", foreshortens only the width. */
  lemma FlipAboutY(t: real, tl: Timeline, w: nat, h: nat, absCos: real -> real)
    requires t <= tl.flipDuration && tl.flipDuration != 0.0 && tl.flipAxis != "x" && tl.flipAxis != "z"
    ensures FlipAndGrow(t, tl, w, h, absCos) ==
            Frame(Scaled(w, absCos(AngleAt(t, tl)) * tl.startScale), Scaled(h, tl.startScale), None)
  {
    ForeshorteningByAxis(tl.flipAxis, absCos(AngleAt(t, tl)));
    assert 1.0 * tl.startScale == tl.startScale;
  }

  /**
   * For axis "z" the rotation runs from rotation_start at t = 0 to
   * rotation_end at t = T_flip.
   */
  lemma RotationEndpoints(tl: Timeline, w: nat, h: nat, absCos: real -> real)
    requires tl.flipAxis == "z" && 0.0 < tl.flipDuration
    ensures var r := FlipAndGrow(0.0, tl, w, h, absCos);
            r.Frame? && r.rotation.Some? && r.rotation.value.angle == tl.rotationStart
    ensures var r := FlipAndGrow(tl.flipDuration, tl, w, h, absCos);
            r.Frame? && r.rotation.Some? && r.rotation.value.angle == tl.rotationEnd
  {
    FlipAngleEndpoints(tl.flipDuration, tl.rotationStart, tl.rotationEnd);
    FlipAboutZ(0.0, tl, w, h, absCos);
    FlipAboutZ(tl.flipDuration, tl, w, h, absCos);
  }

  /** Foreshortening by a factor c in [0, 1] never gives more pixels. */
  lemma ForeshortenedSize(size: nat, c: real, s: real)
    requires 0.0 <= c <= 1.0 && 0.0 <= s
    ensures Scaled(size, c * s) <= Scaled(size, s)
  {
    MulRightMonotone(c, 1.0, s);
    ScaledMonotone(size, c * s, s);
  }

  /** Foreshortening never makes the flipping card larger than the start-scaled frame. */
  lemma FlipPhaseNeverEnlarges(t: real, tl: Timeline, w: nat, h: nat, absCos: real -> real)
    requires IsAbsCosine(absCos) && 0.0 <= tl.startScale
    requires t <= tl.flipDuration && tl.flipDuration != 0.0
    ensures FlipAndGrow(t, tl, w, h, absCos).width <= Scaled(w, tl.startScale)
    ensures FlipAndGrow(t, tl, w, h, absCos).height <= Scaled(h, tl.startScale)
  {
    var c := absCos(AngleAt(t, tl));
    assert 0.0 <= c <= 1.0;
    if tl.flipAxis == "x" {
      FlipAboutXNeverEnlarges(t, tl, w, h, absCos);
    } else if tl.flipAxis == "z" {
      FlipAboutZ(t, tl, w, h, absCos);
    } else {
      FlipAboutYNeverEnlarges(t, tl, w, h, absCos);
    }
  }

  lemma FlipAboutXNeverEnlarges(t: real, tl: Timeline, w: nat, h: nat, absCos: real -> real)
    requires t <= tl.flipDuration && tl.flipDuration != 0.0 && tl.flipAxis == "x"
    requires 0.0 <= absCos(AngleAt(t, tl)) <= 1.0 && 0.0 <= tl.startScale
    ensures FlipAndGrow(t, tl, w, h, absCos).width == Scaled(w, tl.startScale)
    ensures FlipAndGrow(t, tl, w, h, absCos).height <= Scaled(h, tl.startScale)
  {
    FlipAboutX(t, tl, w, h, absCos);
    ForeshortenedSize(h, absCos(AngleAt(t, tl)), tl.startScale);
  }

  lemma FlipAboutYNeverEnlarges(t: real, tl: Timeline, w: nat, h: nat, absCos: real -> real)
    requires t <= tl.flipDuration && tl.flipDuration != 0.0 && tl.flipAxis != "x" && tl.flipAxis != "z"
    requires 0.0 <= absCos(AngleAt(t, tl)) <= 1.0 && 0.0 <= tl.startScale
    ensures FlipAndGrow(t, tl, w, h, absCos).width <= Scaled(w, tl.startScale)
    ensures FlipAndGrow(t, tl, w, h, absCos).height == Scaled(h, tl.startScale)
  {
    FlipAboutY(t, tl, w, h, absCos);
    ForeshortenedSize(w, absCos(AngleAt(t, tl)), tl.startScale);
  }

  /** After the flip the frame is the whole image scaled by the magnification, without rotation. */
  lemma ZoomPhaseFrame(t: real, tl: Timeline, w: nat, h: nat, absCos: real -> real)
    requires tl.flipDuration < t
    ensures FlipAndGrow(t, tl, w, h, absCos) ==
            Frame(Scaled(w, Magnification(t, tl)), Scaled(h, Magnification(t, tl)), None)
  {
  }

  /**
   * In the zoom phase (T_flip < t <= T) with start_scale <= end_scale, each
   * dimension lies between its start-scaled and its end-scaled size.
   */
  lemma ZoomPhaseSizeBetween(t: real, tl: Timeline, w: nat, h: nat, absCos: real -> real)
    requires tl.flipDuration < t <= tl.duration
    requires tl.startScale <= tl.endScale
    ensures Scaled(w, tl.startScale) <= FlipAndGrow(t, tl, w, h, absCos).width <= Scaled(w, tl.endScale)
    ensures Scaled(h, tl.startScale) <= FlipAndGrow(t, tl, w, h, absCos).height <= Scaled(h, tl.endScale)
  {
    var z := ZoomFactor(t, tl);
    ZoomFactorBetween(t, tl);
    ScaledMonotone(w, tl.startScale, z);
    ScaledMonotone(w, z, tl.endScale);
    ScaledMonotone(h, tl.startScale, z);
    ScaledMonotone(h, z, tl.endScale);
  }

  /** When start_scale <= end_scale the card never shrinks from one zoom-phase frame to a later one. */
  lemma ZoomPhaseGrows(t1: real, t2: real, tl: Timeline, w: nat, h: nat, absCos: real -> real)
    requires tl.flipDuration < t1 <= t2
    requires tl.startScale <= tl.endScale
    ensures FlipAndGrow(t1, tl, w, h, absCos).width <= FlipAndGrow(t2, tl, w, h, absCos).width
    ensures FlipAndGrow(t1, tl, w, h, absCos).height <= FlipAndGrow(t2, tl, w, h, absCos).height
  {
    ZoomMonotone(t1, t2, tl);
    ScaledMonotone(w, ZoomFactor(t1, tl), ZoomFactor(t2, tl));
    ScaledMonotone(h, ZoomFactor(t1, tl), ZoomFactor(t2, tl));
  }

  /**
   * With flip_duration_ratio == 0 there is no flip phase, yet every frame at
   * t <= 0 still takes the flip branch and raises ZeroDivisionError; every
   * later frame is a zoom frame.
   */
  lemma ZeroFlipRaisesAtStart(duration: real, rotationStart: real, rotationEnd: real, startScale: real,
                              endScale: real, flipAxis: string, t: real, w: nat, h: nat, absCos: real -> real)
    ensures var tl := MakeTimeline(duration, 0.0, rotationStart, rotationEnd, startScale, endScale, flipAxis);
            FlipAndGrow(t, tl, w, h, absCos).Raised? <==> t <= 0.0
  {
  }

  /**
   * With the default arguments and |cos 90| = 0, |cos 0| = 1, the card starts
   * edge-on (one pixel high, at start_scale width), is upright at T_flip, and
   * ends at 0.7 of the frame size.
   */
  lemma DefaultRevealSizes(duration: real, w: nat, h: nat, absCos: real -> real)
    requires duration > 0.0
    requires absCos(90.0) == 0.0 && absCos(0.0) == 1.0
    ensures FlipAndGrow(0.0, DefaultTimeline(duration), w, h, absCos) ==
            Frame(Scaled(w, 0.4), 1, None)
    ensures FlipAndGrow(duration * 0.03, DefaultTimeline(duration), w, h, absCos) ==
            Frame(Scaled(w, 0.4), Scaled(h, 0.4), None)
    ensures FlipAndGrow(duration, DefaultTimeline(duration), w, h, absCos) ==
            Frame(Scaled(w, 0.7), Scaled(h, 0.7), None)
  {
    var tl := DefaultTimeline(duration);
    FlipDurationBounds(duration, 0.03);
    FlipAngleEndpoints(tl.flipDuration, 90.0, 0.0);
    FlipAboutX(0.0, tl, w, h, absCos);
    FlipAboutX(tl.flipDuration, tl, w, h, absCos);
    assert Scaled(h, 0.0 * 0.4) == 1 by { PixelSizeBounds(h as real * (0.0 * 0.4)); }
    assert 1.0 * 0.4 == 0.4;
    ZoomEndsAtEndScale(duration, tl);
    ZoomPhaseFrame(duration, tl, w, h, absCos);
  }
}
