/** Keeping windows reachable and moving them between outputs: the geometry of
    src/core/rootsurfacecontainer.cpp, over exact reals. */
module Placement {
  import opened Prelude

  /** A QRectF. */
  datatype Rect = Rect(x: real, y: real, width: real, height: real) {
    function Right(): real { x + width }
    function Bottom(): real { y + height }
    function Center(): Point { Point(x + width / 2.0, y + height / 2.0) }
    predicate Empty() { width <= 0.0 || height <= 0.0 }

    /** QRectF::contains for a rectangle of non-negative size: all edges belong to it. */
    predicate Contains(p: Point)
      requires width >= 0.0 && height >= 0.0
    {
      width > 0.0 && height > 0.0 && x <= p.x <= Right() && y <= p.y <= Bottom()
    }

    /** The intersection with `r` is not empty. */
    predicate Meets(r: Rect) {
      !Empty() && !r.Empty() && x < r.Right() && r.x < Right() && y < r.Bottom() && r.y < Bottom()
    }
  }

  function Min(a: real, b: real): real {
    if b < a then b else a
  }

  function Max(a: real, b: real): real {
    if a < b then b else a
  }

  // ----- the nearest area --------------------------------------------------------------

  /** pointToRectMinDistance: the distance to the nearest of the four edge lines. */
  function EdgeDistance(p: Point, r: Rect): (d: real)
    requires !r.Empty()
    ensures d >= 0.0
    ensures r.Contains(p) ==> d == 0.0
    ensures d <= Abs(r.x - p.x) && d <= Abs(r.y - p.y) && d <= Abs(r.Right() - p.x) && d <= Abs(r.Bottom() - p.y)
  {
    if r.Contains(p) then 0.0
    else Min(Min(Abs(r.x - p.x), Abs(r.y - p.y)), Min(Abs(r.Right() - p.x), Abs(r.Bottom() - p.y)))
  }

  /** Outside it is the distance to one of the four edge lines. */
  lemma {:induction false} EdgeDistanceIsToALine(p: Point, r: Rect)
    requires !r.Empty() && !r.Contains(p)
    ensures var d := EdgeDistance(p, r);
            || d == Abs(r.x - p.x) || d == Abs(r.y - p.y)
            || d == Abs(r.x + r.width - p.x) || d == Abs(r.y + r.height - p.y)
  {
  }

  ghost predicate AllSolid(areas: seq<Rect>) {
    forall i :: 0 <= i < |areas| ==> !areas[i].Empty()
  }

  /** `k` is the first area of least distance. */
  ghost predicate FirstNearest(p: Point, areas: seq<Rect>, k: nat)
    requires AllSolid(areas)
  {
    && k < |areas|
    && (forall i :: 0 <= i < k ==> EdgeDistance(p, areas[k]) < EdgeDistance(p, areas[i]))
    && (forall i :: k <= i < |areas| ==> EdgeDistance(p, areas[k]) <= EdgeDistance(p, areas[i]))
  }

  /** How far a coordinate must move to lie between `low` and `high`. */
  function Into(v: real, low: real, high: real): real {
    if v < low then low - v else if v > high then high - v else 0.0
  }

  function Moved(r: Rect, dx: real, dy: real): Rect {
    r.(x := r.x + dx, y := r.y + dy)
  }

  function Shift(p: Point, area: Rect): Point {
    Point(Into(p.x, area.x, area.Right()), Into(p.y, area.y, area.Bottom()))
  }

  /** The shift brings the point into the area, and no translation does it with less. */
  lemma {:induction false} ShiftIsLeast(p: Point, area: Rect, dx: real, dy: real)
    requires !area.Empty()
    ensures var d := Shift(p, area);
            && area.Contains(Point(p.x + d.x, p.y + d.y))
            && (area.Contains(Point(p.x + dx, p.y + dy)) ==> Abs(d.x) <= Abs(dx) && Abs(d.y) <= Abs(dy))
            && (d == Point(0.0, 0.0) <==> area.Contains(p))
  {
  }

  ghost predicate Visible(p: Point, areas: seq<Rect>)
    requires AllSolid(areas)
  {
    exists i :: 0 <= i < |areas| && areas[i].Contains(p)
  }

  /** The rectangle `adjusted` is `geo` with its size, unmoved if `p` was visible and otherwise
      moved with `p` into the first nearest area, by the least shift that does. */
  ghost predicate Reached(geo: Rect, p: Point, areas: seq<Rect>, at: nat, adjusted: Rect)
    requires AllSolid(areas)
  {
    && at < |areas| && adjusted == Moved(geo, Shift(p, areas[at]).x, Shift(p, areas[at]).y)
    && areas[at].Contains(Point(p.x + adjusted.x - geo.x, p.y + adjusted.y - geo.y))
    && (if Visible(p, areas) then adjusted == geo else FirstNearest(p, areas, at))
  }

  lemma {:induction false} AlreadyReached(rect: Rect, p: Point, areas: seq<Rect>, at: nat)
    requires AllSolid(areas) && at < |areas| && areas[at].Contains(p)
    ensures Reached(rect, p, areas, at, rect) && Visible(p, areas)
  {
    ShiftIsLeast(p, areas[at], 0.0, 0.0);
  }

  /** adjustRectToMakePointVisible */
  method AdjustRectToMakePointVisible(inputRect: Rect, p: Point, areas: seq<Rect>) returns (r: Rect, ghost at: nat)
    requires !inputRect.Empty() && inputRect.Contains(p)
    requires areas != [] && AllSolid(areas)
    ensures Reached(inputRect, p, areas, at, r)
    ensures r.width == inputRect.width && r.height == inputRect.height && (Visible(p, areas) ==> r == inputRect)
    ensures Visible(Point(p.x + r.x - inputRect.x, p.y + r.y - inputRect.y), areas)
  {
    var target := areas[0];
    var distance := 0.0;
    at := 0;
    for i := 0 to |areas|
      invariant forall j :: 0 <= j < i ==> !areas[j].Contains(p)
      invariant at < |areas| && target == areas[at]
      invariant i > 0 ==> at < i && distance == EdgeDistance(p, target)
      invariant forall j :: 0 <= j < at && at < i ==> distance < EdgeDistance(p, areas[j])
      invariant forall j :: at <= j < i ==> distance <= EdgeDistance(p, areas[j])
    {
      if areas[i].Contains(p) {
        AlreadyReached(inputRect, p, areas, i);
        return inputRect, i;
      }
      var d := EdgeDistance(p, areas[i]);
      if i == 0 || d < distance {
        distance := d;
        target := areas[i];
        at := i;
      }
    }
    r := MovePointInto(inputRect, p, target);
  }

  /** The shift at the end of adjustRectToMakePointVisible. */
  method MovePointInto(rect: Rect, p: Point, target: Rect) returns (r: Rect)
    requires !target.Empty()
    ensures r == Moved(rect, Shift(p, target).x, Shift(p, target).y)
    ensures target.Contains(Point(p.x + r.x - rect.x, p.y + r.y - rect.y))
    ensures target.Contains(p) ==> r == rect
  {
    ShiftIsLeast(p, target, 0.0, 0.0);
    r := rect;
    if p.x < target.x {
      r := r.(x := r.x + target.x - p.x);
    } else if p.x > target.Right() {
      r := r.(x := r.Right() + target.Right() - p.x - r.width);
    }
    if p.y < target.y {
      r := r.(y := r.y + target.y - p.y);
    } else if p.y > target.Bottom() {
      r := r.(y := r.Bottom() + target.Bottom() - p.y - r.height);
    }
  }

  /** The longer of the two displacements that bring the point into the area. */
  function Needed(p: Point, area: Rect): real {
    Max(Abs(Shift(p, area).x), Abs(Shift(p, area).y))
  }

  /** Off a corner the point is equally far along both axes; beside an edge it is no nearer to
      the lines of the two edges across than to the area. */
  predicate Faithful(p: Point, area: Rect) {
    var d := Shift(p, area);
    && (d.x != 0.0 && d.y != 0.0 ==> Abs(d.x) == Abs(d.y))
    && (d.x != 0.0 && d.y == 0.0 ==> Abs(d.x) <= Abs(area.y - p.y) && Abs(d.x) <= Abs(area.Bottom() - p.y))
    && (d.x == 0.0 && d.y != 0.0 ==> Abs(d.y) <= Abs(area.x - p.x) && Abs(d.y) <= Abs(area.Right() - p.x))
  }

  /** The edge distance never exceeds a displacement that is needed, and says exactly what is
      needed if and only if the point is placed faithfully. */
  lemma {:induction false} EdgeDistanceIsNeeded(p: Point, area: Rect)
    requires !area.Empty()
    ensures Shift(p, area).x != 0.0 ==> EdgeDistance(p, area) <= Abs(Shift(p, area).x)
    ensures Shift(p, area).y != 0.0 ==> EdgeDistance(p, area) <= Abs(Shift(p, area).y)
    ensures EdgeDistance(p, area) <= Needed(p, area)
    ensures EdgeDistance(p, area) == Needed(p, area) <==> Faithful(p, area)
  {
    ShiftIsLeast(p, area, 0.0, 0.0);
  }

  /** When the chosen area is placed faithfully, no other area needs a smaller shift. */
  lemma {:induction false} FaithfulChoiceIsBest(p: Point, areas: seq<Rect>, k: nat, i: nat)
    requires AllSolid(areas) && FirstNearest(p, areas, k) && Faithful(p, areas[k]) && i < |areas|
    ensures Needed(p, areas[k]) <= Needed(p, areas[i])
  {
    EdgeDistanceIsNeeded(p, areas[k]);
    EdgeDistanceIsNeeded(p, areas[i]);
  }

  /** Otherwise it can be far less: level with an edge of a remote area the distance is 0, so
      that area is preferred to one right next to the point. */
  lemma {:induction false} RemoteAreaCanWin()
    ensures var p, far, near := Point(0.0, 0.0), Rect(1000.0, 0.0, 10.0, 10.0), Rect(1.0, 1.0, 10.0, 10.0);
            && FirstNearest(p, [near, far], 1) && !Faithful(p, far)
            && Needed(p, far) == 1000.0 && Needed(p, near) == 1.0
  {
  }

  // ----- a window's normal position ---------------------------------------------------------

  function Leftmost(areas: seq<Rect>): real
    requires areas != []
  {
    if |areas| == 1 then areas[0].x else Min(Leftmost(areas[..|areas| - 1]), areas[|areas| - 1].x)
  }

  /** The point of the window that must stay visible. */
  function MustVisible(geo: Rect, leftmost: real): Point {
    Point(if geo.x < leftmost then Max(geo.x, geo.Right() - 20.0) else Min(geo.Right(), geo.x + 20.0),
          Min(geo.Bottom(), geo.y + 20.0))
  }

  /** The must-visible point is 20 below the top, and 20 from the left edge, or from the right edge
      of a window that begins left of every output; at the far edge of a smaller window. */
  lemma {:induction false} MustVisibleDepth(geo: Rect, leftmost: real)
    requires !geo.Empty()
    ensures var p := MustVisible(geo, leftmost);
            && (geo.height >= 20.0 ==> p.y == geo.y + 20.0) && (geo.height < 20.0 ==> p.y == geo.y + geo.height)
            && (geo.width >= 20.0 && geo.x >= leftmost ==> p.x == geo.x + 20.0)
            && (geo.width < 20.0 && geo.x >= leftmost ==> p.x == geo.x + geo.width)
            && (geo.width >= 20.0 && geo.x < leftmost ==> p.x == geo.x + geo.width - 20.0)
            && (geo.width < 20.0 && geo.x < leftmost ==> p.x == geo.x)
  {
  }

  lemma {:induction false} MustVisibleIsInside(geo: Rect, leftmost: real)
    requires !geo.Empty()
    ensures geo.Contains(MustVisible(geo, leftmost))
  {
  }

  /** The top edge of an output goes through the title bar. */
  predicate Cuts(area: Rect, titlebar: Rect) {
    area.Meets(titlebar) && titlebar.y < area.y
  }

  /** The first output that cuts the title bar, or the number of outputs. */
  function FirstCut(titlebar: Rect, areas: seq<Rect>): (k: nat)
    ensures k <= |areas| && (k < |areas| ==> Cuts(areas[k], titlebar))
    ensures forall i :: 0 <= i < k ==> !Cuts(areas[i], titlebar)
  {
    if areas == [] then 0
    else
      var k := FirstCut(titlebar, areas[..|areas| - 1]);
      if k < |areas| - 1 || Cuts(areas[|areas| - 1], titlebar) then k else k + 1
  }

  /** Where the title-bar step puts the top edge of `rect`. */
  function Lowered(rect: Rect, bar: Rect, areas: seq<Rect>): (y: real)
    ensures y != rect.y ==> rect.y < y < rect.y + bar.height
  {
    var k := FirstCut(Moved(bar, rect.x, rect.y), areas);
    if k < |areas| then areas[k].y - bar.y else rect.y
  }

  /** ensureSurfaceNormalPositionValid for a window of normal geometry `geo` whose title bar
      has the geometry `bar` within it: the new top-left corner. */
  method EnsureNormalPositionValid(geo: Rect, bar: Rect, areas: seq<Rect>)
    returns (pos: Point, ghost at: nat, ghost adjusted: Rect)
    requires areas != [] && AllSolid(areas)
    ensures geo.Empty() ==> pos == Point(geo.x, geo.y)
    // First the least shift that makes the must-visible point visible in area `at` ...
    ensures !geo.Empty() ==> Reached(geo, MustVisible(geo, Leftmost(areas)), areas, at, adjusted)
    // ... then a move down onto the first output that cuts the title bar, if there is one.
    ensures !geo.Empty() ==> pos == Point(adjusted.x, Lowered(adjusted, bar, areas))
    // At the end the point is still in that area exactly if no output cuts the title bar or the
    // area reaches down to where the cutting one puts the point.
    ensures !geo.Empty() ==>
              var k := FirstCut(Moved(bar, adjusted.x, adjusted.y), areas);
              areas[at].Contains(PointOf(geo, pos, areas))
              <==> (k < |areas| ==> areas[k].y - bar.y + Min(geo.height, 20.0) <= areas[at].Bottom())
  {
    pos, at, adjusted := Point(geo.x, geo.y), 0, geo;
    if geo.Empty() {
      return;
    }
    var p := MustVisiblePoint(geo, areas);
    var rect, where := AdjustRectToMakePointVisible(geo, p, areas);
    adjusted, at := rect, where;
    var y := BelowTheTop(rect, bar, areas);
    pos := Point(rect.x, y);
    PointAtTheEnd(geo, bar, areas, at, adjusted);
  }

  /** The must-visible point of `geo` once its top-left corner is at `pos`. */
  function PointOf(geo: Rect, pos: Point, areas: seq<Rect>): Point
    requires areas != []
  {
    var p := MustVisible(geo, Leftmost(areas));
    Point(p.x + pos.x - geo.x, p.y + pos.y - geo.y)
  }

  lemma {:induction false} PointAtTheEnd(geo: Rect, bar: Rect, areas: seq<Rect>, at: nat, adjusted: Rect)
    requires !geo.Empty() && areas != [] && AllSolid(areas)
    requires Reached(geo, MustVisible(geo, Leftmost(areas)), areas, at, adjusted)
    ensures var k := FirstCut(Moved(bar, adjusted.x, adjusted.y), areas);
            areas[at].Contains(PointOf(geo, Point(adjusted.x, Lowered(adjusted, bar, areas)), areas))
            <==> (k < |areas| ==> areas[k].y - bar.y + Min(geo.height, 20.0) <= areas[at].Bottom())
  {
    var q := PointOf(geo, Point(adjusted.x, adjusted.y), areas);
    assert q.y == adjusted.y + Min(geo.height, 20.0);
    if FirstCut(Moved(bar, adjusted.x, adjusted.y), areas) < |areas| {
      PointAfterTitlebarStep(q, adjusted, bar, areas, at);
    }
  }

  /** The title-bar step. */
  method BelowTheTop(rect: Rect, bar: Rect, areas: seq<Rect>) returns (y: real)
    ensures y == Lowered(rect, bar, areas)
  {
    var titlebar := Moved(bar, rect.x, rect.y);
    ghost var first := FirstCut(titlebar, areas);
    if titlebar.Empty() {
      return rect.y;
    }
    for k := 0 to |areas|
      invariant k <= first
    {
      if !areas[k].Meets(titlebar) {
        continue;
      }
      if titlebar.y < areas[k].y {
        return rect.y + areas[k].y - titlebar.y;
      }
    }
    y := rect.y;
  }

  /** Whether area `a` holds a point at height `y` on the vertical line through `x`. */
  predicate Spans(a: Rect, x: real, y: real) {
    a.x <= x <= a.Right() && a.y <= y <= a.Bottom()
  }

  /** What the title-bar step does to a visible point `q` at depth `depth` below the top of the
      title bar: the step puts it at that depth below the top of the cutting output `k`. It
      stays in its area exactly when that area reaches so far down, and is visible exactly
      when some area spans the place; the cutting output does when it is below `q` and deep
      enough. */
  lemma {:induction false} PointAfterTitlebarStep(q: Point, rect: Rect, bar: Rect, areas: seq<Rect>, at: nat)
    requires AllSolid(areas) && at < |areas| && areas[at].Contains(q)
    requires FirstCut(Moved(bar, rect.x, rect.y), areas) < |areas|
    ensures var k := FirstCut(Moved(bar, rect.x, rect.y), areas);
            var depth := q.y - (rect.y + bar.y);
            var moved := Point(q.x, q.y + (Lowered(rect, bar, areas) - rect.y));
            && (areas[at].Contains(moved) <==> areas[k].y + depth <= areas[at].Bottom())
            && (Visible(moved, areas) <==> exists i :: 0 <= i < |areas| && Spans(areas[i], q.x, areas[k].y + depth))
            && (areas[k].x <= q.x <= areas[k].Right() && 0.0 <= depth <= areas[k].height ==> areas[k].Contains(moved))
  {
    var k := FirstCut(Moved(bar, rect.x, rect.y), areas);
    var place := Point(q.x, areas[k].y + (q.y - (rect.y + bar.y)));
    assert place == Point(q.x, q.y + (Lowered(rect, bar, areas) - rect.y));
    VisibleMeansSpanned(place, areas);
    assert areas[k].y > rect.y + bar.y;
  }

  lemma {:induction false} VisibleMeansSpanned(p: Point, areas: seq<Rect>)
    requires AllSolid(areas)
    ensures Visible(p, areas) <==> exists i :: 0 <= i < |areas| && Spans(areas[i], p.x, p.y)
  {
    assert forall i :: 0 <= i < |areas| ==> (areas[i].Contains(p) <==> Spans(areas[i], p.x, p.y));
  }

  /** How the step hides a reachable window: its point is visible in `a` only, the title bar
      reaches into the lower output `b`, and moving below the top of `b` takes the point out of
      `a` without bringing it into `b`. */
  predicate Trap(q: Point, rect: Rect, bar: Rect, a: Rect, b: Rect) {
    var titlebar := Moved(bar, rect.x, rect.y);
    && !a.Empty() && !b.Empty() && a.Contains(q)
    && !Cuts(a, titlebar) && Cuts(b, titlebar)
    && b.y + (q.y - titlebar.y) > a.Bottom() && !(b.x <= q.x <= b.Right())
  }

  lemma {:induction false} TrapHides(q: Point, rect: Rect, bar: Rect, a: Rect, b: Rect)
    requires Trap(q, rect, bar, a, b)
    ensures AllSolid([a, b]) && Visible(q, [a, b])
    ensures !Visible(Point(q.x, q.y + (Lowered(rect, bar, [a, b]) - rect.y)), [a, b])
  {
    var areas := [a, b];
    assert areas[0] == a && areas[1] == b;
    assert Lowered(rect, bar, areas) == b.y - bar.y;
  }

  /** There is such a window. */
  lemma {:induction false} TitlebarStepCanHide(geo: Rect, bar: Rect, a: Rect, b: Rect)
    requires geo == Rect(0.0, 75.0, 300.0, 200.0) && bar == Rect(0.0, 0.0, 300.0, 40.0)
    requires a == Rect(0.0, 0.0, 100.0, 100.0) && b == Rect(200.0, 100.0, 200.0, 200.0)
    ensures Trap(MustVisible(geo, a.x), geo, bar, a, b)
  {
    var titlebar := Rect(0.0, 75.0, 300.0, 40.0);
    assert Moved(bar, geo.x, geo.y) == titlebar;
    assert MustVisible(geo, a.x) == Point(20.0, 95.0);
    assert !Cuts(a, titlebar) && Cuts(b, titlebar);
  }

  method MustVisiblePoint(geo: Rect, areas: seq<Rect>) returns (p: Point)
    requires !geo.Empty() && areas != []
    ensures p == MustVisible(geo, Leftmost(areas)) && geo.Contains(p)
  {
    var leftmost := LeftmostOf(areas);
    p := Point(Min(geo.Right(), geo.x + 20.0), Min(geo.Bottom(), geo.y + 20.0));
    if geo.x < leftmost {
      p := p.(x := Max(geo.x, geo.Right() - 20.0));
    }
    MustVisibleIsInside(geo, leftmost);
  }

  method LeftmostOf(areas: seq<Rect>) returns (least: real)
    requires areas != []
    ensures least == Leftmost(areas)
    ensures forall i :: 0 <= i < |areas| ==> least <= areas[i].x
    ensures exists i :: 0 <= i < |areas| && areas[i].x == least
  {
    least := areas[0].x;
    assert areas[..1] == [areas[0]];
    for i := 1 to |areas|
      invariant least == Leftmost(areas[..i])
      invariant forall j :: 0 <= j < i ==> least <= areas[j].x
      invariant exists j :: 0 <= j < i && areas[j].x == least
    {
      assert areas[..i + 1][..i] == areas[..i];
      least := Min(least, areas[i].x);
    }
    assert areas[..|areas|] == areas;
  }

  // ----- moving surfaces between outputs -----------------------------------------------------

  function ClampAxis(v: real, size: real, low: real, high: real): real {
    var w := if v + size > high then high - size else v;
    if w < low then low else w
  }

  function Clamped(pos: Point, width: real, height: real, target: Rect): Point {
    Point(ClampAxis(pos.x, width, target.x, target.Right()), ClampAxis(pos.y, height, target.y, target.Bottom()))
  }

  /** The same place relative to the centre of another output. */
  function Recentred(pos: Point, source: Rect, target: Rect): Point {
    Point(target.Center().x + (pos.x - source.Center().x), target.Center().y + (pos.y - source.Center().y))
  }

  predicate FitsAt(pos: Point, width: real, height: real, target: Rect) {
    target.x <= pos.x && target.y <= pos.y && pos.x + width <= target.Right() && pos.y + height <= target.Bottom()
  }

  /** A surface keeps its offset from the centre of its output. */
  lemma {:induction false} CentreOffsetKept(pos: Point, source: Rect, target: Rect)
    ensures var r := Recentred(pos, source, target);
            && r.x - (target.x + target.width / 2.0) == pos.x - (source.x + source.width / 2.0)
            && r.y - (target.y + target.height / 2.0) == pos.y - (source.y + source.height / 2.0)
  {
  }

  /** Along each axis a surface that fits stops at the nearest place inside, and one that does not
      fit at the near edge. */
  lemma {:induction false} ClampStopsAtNearest(v: real, size: real, low: real, high: real, x: real)
    ensures var r := ClampAxis(v, size, low, high);
            if size <= high - low
            then low <= r <= high - size && (low <= x <= high - size ==> Abs(r - v) <= Abs(x - v))
            else r == low
  {
  }

  /** A clamped surface starts inside the target, is fully inside when it fits, is untouched
      when it already was, and clamping again changes nothing. */
  lemma {:induction false} ClampingKeepsInside(pos: Point, width: real, height: real, target: Rect)
    ensures var c := Clamped(pos, width, height, target);
            && target.x <= c.x && target.y <= c.y
            && (width <= target.width ==> c.x + width <= target.Right())
            && (height <= target.height ==> c.y + height <= target.Bottom())
            && Clamped(c, width, height, target) == c
            && (FitsAt(pos, width, height, target) ==> c == pos)
            && (c == pos && width <= target.width && height <= target.height ==> FitsAt(pos, width, height, target))
  {
  }

  /** Moving to another output and back restores the position when no clamp applies. */
  lemma {:induction false} ThereAndBack(pos: Point, width: real, height: real, source: Rect, target: Rect)
    requires FitsAt(pos, width, height, source) && FitsAt(Recentred(pos, source, target), width, height, target)
    ensures var there := Clamped(Recentred(pos, source, target), width, height, target);
            && there == Recentred(pos, source, target)
            && Clamped(Recentred(there, target, source), width, height, source) == pos
  {
    ClampingKeepsInside(Recentred(pos, source, target), width, height, target);
    ClampingKeepsInside(pos, width, height, source);
  }

  class Output {
    const geometry: Rect

    constructor (geometry: Rect)
      ensures this.geometry == geometry
    {
      this.geometry := geometry;
    }
  }

  class SurfaceWrapper {
    var position: Point
    var ownsOutput: Output?
    const width: real
    const height: real

    constructor (position: Point, width: real, height: real, ownsOutput: Output?)
      ensures this.position == position && this.width == width && this.height == height && this.ownsOutput == ownsOutput
    {
      this.position, this.width, this.height, this.ownsOutput := position, width, height, ownsOutput;
    }

    /** Where the surface goes when it moves to `target`. */
    function Destination(target: Output, source: Output?): Point
      reads this
      requires ownsOutput != target && source == null ==> ownsOutput != null
    {
      Clamped(if ownsOutput == target then position
              else Recentred(position,
                             if source != null then source.geometry else ownsOutput.geometry,
                             target.geometry),
              width, height, target.geometry)
    }

    method MoveTo(target: Output, source: Output?)
      requires ownsOutput != target && source == null ==> ownsOutput != null
      modifies this
      ensures ownsOutput == target && position == old(Destination(target, source))
      ensures position == Clamped(position, width, height, target.geometry)
      // The offset is taken from the source output if one is given, else from the owner.
      ensures old(ownsOutput) != target && source != null ==>
                position == Clamped(Recentred(old(position), source.geometry, target.geometry), width, height,
                                    target.geometry)
      ensures old(ownsOutput) != target && source == null ==>
                position == Clamped(Recentred(old(position), old(ownsOutput).geometry, target.geometry), width, height,
                                    target.geometry)
      ensures old(ownsOutput) == target ==> position == Clamped(old(position), width, height, target.geometry)
    {
      var geo := target.geometry;
      var pos := position;
      if ownsOutput != target {
        var from := if source != null then source.geometry else ownsOutput.geometry;
        var relative := Point(position.x - from.Center().x, position.y - from.Center().y);
        pos := Point(geo.Center().x + relative.x, geo.Center().y + relative.y);
        ownsOutput := target;
      }
      ClampingKeepsInside(pos, width, height, geo);
      if pos.x + width > geo.Right() {
        pos := pos.(x := geo.Right() - width);
      }
      if pos.x < geo.x {
        pos := pos.(x := geo.x);
      }
      if pos.y + height > geo.Bottom() {
        pos := pos.(y := geo.Bottom() - height);
      }
      if pos.y < geo.y {
        pos := pos.(y := geo.y);
      }
      position := pos;
    }
  }

  /** moveSurfacesToOutput: nulls are skipped, and a surface listed twice moves once. */
  method MoveSurfacesToOutput(surfaces: seq<SurfaceWrapper?>, target: Output?, source: Output?)
    requires target != null ==>
               forall s :: s in surfaces && s != null && s.ownsOutput != target && source == null
                   ==> s.ownsOutput != null
    modifies set s | s in surfaces && s != null
    ensures target == null ==> forall s :: s in surfaces && s != null ==> unchanged(s)
    ensures target != null ==>
              forall s :: s in surfaces && s != null ==>
                && s.ownsOutput == target
                && s.position == old(s.Destination(target, source))
                && target.geometry.x <= s.position.x && target.geometry.y <= s.position.y
                && (s.width <= target.geometry.width ==> s.position.x + s.width <= target.geometry.Right())
                && (s.height <= target.geometry.height ==> s.position.y + s.height <= target.geometry.Bottom())
  {
    if surfaces == [] || target == null {
      return;
    }
    for i := 0 to |surfaces|
      invariant forall s :: s in surfaces[..i] && s != null ==>
                  && s.ownsOutput == target && s.position == old(s.Destination(target, source))
                  && s.position == Clamped(s.position, s.width, s.height, target.geometry)
      invariant forall s :: s in surfaces && s != null && s !in surfaces[..i] ==> unchanged(s)
    {
      var s := surfaces[i];
      if s == null {
        continue;
      }
      // A surface seen before is already clamped, and stays where it is.
      s.MoveTo(target, source);
    }
    forall s | s in surfaces && s != null
      ensures s.ownsOutput == target && s.position == old(s.Destination(target, source))
      ensures target.geometry.x <= s.position.x && target.geometry.y <= s.position.y
      ensures s.width <= target.geometry.width ==> s.position.x + s.width <= target.geometry.Right()
      ensures s.height <= target.geometry.height ==> s.position.y + s.height <= target.geometry.Bottom()
    {
      assert s in surfaces[..|surfaces|];
      ClampingKeepsInside(s.position, s.width, s.height, target.geometry);
    }
  }
}
