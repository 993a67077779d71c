/** Swipe gestures: what src/input/swipegesture.cpp says about one gesture. */
module SwipeGesture {
  import opened Prelude

  datatype Direction = Invalid | Down | Left | Up | Right

  datatype Axis = Horizontal | Vertical | NoAxis

  /** A minimum delta. The touchpad gestures all use (200, 200). */
  type Threshold = p: Point | p.x != 0.0 && p.y != 0.0 witness Point(200.0, 200.0)

  /** Which callbacks a gesture was registered with: the forward pair drives a
      toggle's progress, the backward pair its regress. */
  datatype Feedback = NoFeedback | Forward(toggle: nat) | Backward(toggle: nat)

  /** Finger counts and threshold are `None` while their "relevant" flag is unset. */
  datatype Gesture = Gesture(
    direction: Direction,
    minFingers: Option<nat>,
    maxFingers: Option<nat>,
    threshold: Option<Threshold>,
    feedback: Feedback)

  const ORIGIN := Point(0.0, 0.0)
  const TOUCHPAD_THRESHOLD: Threshold := Point(200.0, 200.0)

  function Plus(p: Point, q: Point): Point {
    Point(p.x + q.x, p.y + q.y)
  }

  function Opposite(d: Direction): Direction {
    match d
    case Invalid => Invalid
    case Down => Up
    case Up => Down
    case Left => Right
    case Right => Left
  }

  function AxisOf(d: Direction): Axis {
    match d
    case Invalid => NoAxis
    case Down => Vertical
    case Up => Vertical
    case Left => Horizontal
    case Right => Horizontal
  }

  /** The displacement along the axis of direction `d`. */
  function Along(d: Direction, p: Point): real {
    if AxisOf(d) == Vertical then p.y else p.x
  }

  predicate Admits(g: Gesture, fingers: nat) {
    && (g.minFingers.Some? ==> g.minFingers.value <= fingers)
    && (g.maxFingers.Some? ==> fingers <= g.maxFingers.value)
  }

  function DeltaToProgress(g: Gesture, delta: Point): (progress: real)
    requires g.direction != Invalid
    ensures 0.0 <= progress <= 1.0
  {
    if g.threshold.None? then 1.0
    else
      var ratio := Abs(Along(g.direction, delta)) / Abs(Along(g.direction, g.threshold.value));
      if ratio < 1.0 then ratio else 1.0
  }

  predicate MinimumDeltaReached(g: Gesture, delta: Point)
    requires g.direction != Invalid
  {
    DeltaToProgress(g, delta) >= 1.0
  }

  /** The gesture `registerTouchpadSwipe` builds. */
  function TouchpadSwipe(d: Direction, fingers: nat, feedback: Feedback): Gesture {
    Gesture(d, Some(fingers), Some(fingers), Some(TOUCHPAD_THRESHOLD), feedback)
  }

  /** Half way along a touchpad threshold is exactly 100 units of travel. */
  lemma {:induction false} HalfwayIsHundred(g: Gesture, delta: Point)
    requires g.direction != Invalid && g.threshold == Some(TOUCHPAD_THRESHOLD)
    ensures DeltaToProgress(g, delta) > 0.5 <==> Abs(Along(g.direction, delta)) > 100.0
    ensures MinimumDeltaReached(g, delta) <==> Abs(Along(g.direction, delta)) >= 200.0
  {
    var travel := Abs(Along(g.direction, delta));
    assert travel / 200.0 > 0.5 <==> travel > 100.0;
  }

  lemma {:induction false} OppositeIsAnInvolution(d: Direction)
    ensures Opposite(Opposite(d)) == d && AxisOf(Opposite(d)) == AxisOf(d)
    ensures Opposite(d) == d <==> d == Invalid
  {
  }
}
