/** The swipe half of src/input/gesturerecognizer.cpp. */
module GestureRecognizer {
  import opened Prelude
  import opened SwipeGesture

  const SWIPE_MINIMUM_DELTA := 5.0

  datatype Signal =
    | Started(g: Gesture)
    | Progress(g: Gesture, progress: real)
    | DeltaProgress(g: Gesture, delta: Point)
    | Triggered(g: Gesture)
    | Cancelled(g: Gesture)

  // ----- what a swipe's displacement means ---------------------------------

  /** Accumulated displacement and the axis it was locked to. */
  datatype Track = Track(delta: Point, axis: Axis)

  predicate Reaches(p: Point) {
    Abs(p.x) >= SWIPE_MINIMUM_DELTA || Abs(p.y) >= SWIPE_MINIMUM_DELTA
  }

  function Dominant(p: Point): Axis {
    if Abs(p.x) >= Abs(p.y) then Horizontal else Vertical
  }

  function Advance(t: Track, d: Point): Track {
    var sum := Plus(t.delta, d);
    Track(sum, if t.axis == NoAxis && Reaches(sum) then Dominant(sum) else t.axis)
  }

  function HeadingOn(axis: Axis, p: Point): Direction {
    match axis
    case NoAxis => Invalid
    case Vertical => if p.y < 0.0 then Up else Down
    case Horizontal => if p.x < 0.0 then Left else Right
  }

  function Heading(t: Track): Direction {
    HeadingOn(t.axis, t.delta)
  }

  function Follow(ds: seq<Point>): Track {
    if ds == [] then Track(ORIGIN, NoAxis)
    else Advance(Follow(ds[..|ds| - 1]), ds[|ds| - 1])
  }

  function Sum(ds: seq<Point>): Point {
    if ds == [] then ORIGIN else Plus(Sum(ds[..|ds| - 1]), ds[|ds| - 1])
  }

  /** The running sum `p` is still short of 5 along both axes. */
  predicate Small(p: Point) {
    Abs(p.x) < 5.0 && Abs(p.y) < 5.0
  }

  /** `k` is the first update whose running sum is 5 or more along some axis. */
  predicate LocksAt(ds: seq<Point>, k: nat) {
    1 <= k <= |ds| && !Small(Sum(ds[..k])) && forall j :: 0 <= j < k ==> Small(Sum(ds[..j]))
  }

  lemma {:induction false} DeltaIsSum(ds: seq<Point>)
    ensures Follow(ds).delta == Sum(ds)
  {
    if ds != [] {
      DeltaIsSum(ds[..|ds| - 1]);
    }
  }

  lemma {:induction false} UnlockedWhileSmall(ds: seq<Point>)
    ensures Follow(ds).axis == NoAxis <==> forall j :: 0 <= j <= |ds| ==> Small(Sum(ds[..j]))
  {
    assert ds[..|ds|] == ds;
    if ds == [] {
      assert forall j :: 0 <= j <= |ds| ==> ds[..j] == ds;
    } else {
      var prior := ds[..|ds| - 1];
      UnlockedWhileSmall(prior);
      DeltaIsSum(prior);
      assert forall j :: 0 <= j <= |prior| ==> prior[..j] == ds[..j];
      assert Small(Sum(ds)) <==> !Reaches(Sum(ds));
      if Follow(ds).axis == NoAxis {
        forall j | 0 <= j <= |ds|
          ensures Small(Sum(ds[..j]))
        {
          if j <= |prior| {
            assert Small(Sum(prior[..j]));
          }
        }
      } else if Follow(prior).axis != NoAxis {
        var j :| 0 <= j <= |prior| && !Small(Sum(prior[..j]));
        assert !Small(Sum(ds[..j]));
      } else {
        assert !Small(Sum(ds[..|ds|]));
      }
    }
  }

  lemma {:induction false} LocksAtPrefix(ds: seq<Point>, k: nat)
    requires ds != [] && k < |ds|
    ensures LocksAt(ds, k) <==> LocksAt(ds[..|ds| - 1], k)
    ensures ds[..|ds| - 1][..k] == ds[..k]
  {
    var prior := ds[..|ds| - 1];
    assert forall j :: 0 <= j <= |prior| ==> prior[..j] == ds[..j];
    if LocksAt(prior, k) {
      assert forall j :: 0 <= j < k ==> Small(Sum(prior[..j]));
    }
  }

  lemma {:induction false} LockedTo(ds: seq<Point>, k: nat)
    requires LocksAt(ds, k)
    ensures Follow(ds).axis == if Abs(Sum(ds[..k]).x) >= Abs(Sum(ds[..k]).y) then Horizontal else Vertical
    decreases |ds|
  {
    var prior := ds[..|ds| - 1];
    if k < |ds| {
      LocksAtPrefix(ds, k);
      LockedTo(prior, k);
    } else {
      assert ds[..k] == ds;
      DeltaIsSum(prior);
      UnlockedWhileSmall(prior);
      assert forall j :: 0 <= j <= |prior| ==> prior[..j] == ds[..j];
    }
  }

  /** The axis stays unlocked exactly while every running sum is below 5 along both axes. It is
      locked to the dominant axis of the first one that is not, horizontal when both are equal,
      and later updates never change it. */
  lemma {:induction false} AxisLocksOnce(ds: seq<Point>)
    ensures Follow(ds).delta == Sum(ds)
    ensures Follow(ds).axis == NoAxis
            <==> forall j :: 0 <= j <= |ds| ==> Abs(Sum(ds[..j]).x) < 5.0 && Abs(Sum(ds[..j]).y) < 5.0
    ensures forall k: nat :: LocksAt(ds, k) ==>
              Follow(ds).axis == if Abs(Sum(ds[..k]).x) >= Abs(Sum(ds[..k]).y) then Horizontal else Vertical
  {
    DeltaIsSum(ds);
    UnlockedWhileSmall(ds);
    assert forall j :: 0 <= j <= |ds| ==>
             (Small(Sum(ds[..j])) <==> Abs(Sum(ds[..j]).x) < 5.0 && Abs(Sum(ds[..j]).y) < 5.0);
    forall k: nat | LocksAt(ds, k) {
      LockedTo(ds, k);
    }
  }

  /** A locked axis was locked by some update. */
  lemma {:induction false} SomeUpdateLocks(ds: seq<Point>) returns (k: nat)
    requires Follow(ds).axis != NoAxis
    ensures LocksAt(ds, k)
  {
    var prior := ds[..|ds| - 1];
    if Follow(prior).axis != NoAxis {
      k := SomeUpdateLocks(prior);
      LocksAtPrefix(ds, k);
    } else {
      k := |ds|;
      assert ds[..k] == ds;
      DeltaIsSum(prior);
      UnlockedWhileSmall(prior);
      assert forall j :: 0 <= j <= |prior| ==> prior[..j] == ds[..j];
    }
  }

  /** What a heading says of the displacement: its sign along the heading's axis, and, at the
      update that locks the axis, at least the minimum delta and no less than across it. */
  lemma {:induction false} HeadingMeansDisplacement(ds: seq<Point>)
    requires Follow(ds).axis != NoAxis
    ensures var h := Heading(Follow(ds));
            && AxisOf(h) == Follow(ds).axis
            && (h == Up || h == Left <==> Along(h, Sum(ds)) < 0.0)
            && (LocksAt(ds, |ds|) ==>
                  && Abs(Along(h, Sum(ds))) >= 5.0
                  && Abs(Along(h, Sum(ds))) >= Abs(Sum(ds).x) && Abs(Along(h, Sum(ds))) >= Abs(Sum(ds).y))
  {
    AxisLocksOnce(ds);
    assert ds[..|ds|] == ds;
  }

  // ----- which gestures are active ------------------------------------------

  /** Registered gestures, in order, that admit the fingers and head `dir`. */
  function Matching(gs: seq<Gesture>, fingers: nat, dir: Direction): seq<Gesture> {
    if gs == [] then []
    else
      var rest := Matching(gs[..|gs| - 1], fingers, dir);
      var g := gs[|gs| - 1];
      if Admits(g, fingers) && g.direction == dir then rest + [g] else rest
  }

  /** What a (re)start collects: admitted gestures of either direction on the locked axis. */
  function OnAxis(gs: seq<Gesture>, fingers: nat, axis: Axis): seq<Gesture> {
    if gs == [] then []
    else
      var rest := OnAxis(gs[..|gs| - 1], fingers, axis);
      var g := gs[|gs| - 1];
      if Admits(g, fingers) && axis != NoAxis && AxisOf(g.direction) == axis then rest + [g] else rest
  }

  function WithDirection(gs: seq<Gesture>, dir: Direction): seq<Gesture> {
    if gs == [] then []
    else
      var rest := WithDirection(gs[..|gs| - 1], dir);
      var g := gs[|gs| - 1];
      if g.direction == dir then rest + [g] else rest
  }

  /** The active list that belongs to a track: empty until an axis is locked. */
  function ActiveFor(gs: seq<Gesture>, fingers: nat, t: Track): seq<Gesture> {
    if t.axis == NoAxis then [] else Matching(gs, fingers, Heading(t))
  }

  lemma {:induction false} MatchingMembers(gs: seq<Gesture>, fingers: nat, dir: Direction)
    ensures forall g :: g in Matching(gs, fingers, dir) <==> g in gs && Admits(g, fingers) && g.direction == dir
  {
    if gs != [] {
      MatchingMembers(gs[..|gs| - 1], fingers, dir);
      assert gs == gs[..|gs| - 1] + [gs[|gs| - 1]];
    }
  }

  lemma {:induction false} MatchingGrows(gs: seq<Gesture>, g: Gesture, fingers: nat, dir: Direction)
    ensures Matching(gs + [g], fingers, dir)
            == if Admits(g, fingers) && g.direction == dir then Matching(gs, fingers, dir) + [g]
               else Matching(gs, fingers, dir)
  {
    assert (gs + [g])[..|gs + [g]| - 1] == gs;
  }

  /** Pruning a fresh start to one direction of its axis leaves the plain filter. */
  lemma {:induction false} PruneFresh(gs: seq<Gesture>, fingers: nat, dir: Direction)
    requires dir != Invalid
    ensures WithDirection(OnAxis(gs, fingers, AxisOf(dir)), dir) == Matching(gs, fingers, dir)
  {
    if gs != [] {
      var all := OnAxis(gs, fingers, AxisOf(dir));
      var rest := OnAxis(gs[..|gs| - 1], fingers, AxisOf(dir));
      PruneFresh(gs[..|gs| - 1], fingers, dir);
      if all != rest {
        assert all[..|all| - 1] == rest;
      }
    }
  }

  /** Pruning an already matching list keeps it or, after a reversal, empties it. */
  lemma {:induction false} PruneActive(gs: seq<Gesture>, fingers: nat, was: Direction, dir: Direction)
    ensures WithDirection(Matching(gs, fingers, was), dir) == if was == dir then Matching(gs, fingers, was) else []
  {
    if gs != [] {
      var all := Matching(gs, fingers, was);
      var rest := Matching(gs[..|gs| - 1], fingers, was);
      PruneActive(gs[..|gs| - 1], fingers, was, dir);
      if all != rest {
        assert all[..|all| - 1] == rest;
      }
    }
  }

  lemma {:induction false} NothingOffAxis(gs: seq<Gesture>, fingers: nat)
    ensures OnAxis(gs, fingers, NoAxis) == []
  {
    if gs != [] {
      NothingOffAxis(gs[..|gs| - 1], fingers);
    }
  }

  lemma {:induction false} RemoveCommutes(gs: seq<Gesture>, fingers: nat, dir: Direction, g: Gesture)
    ensures Matching(RemoveOne(gs, g), fingers, dir) == RemoveOne(Matching(gs, fingers, dir), g)
  {
    if gs != [] {
      var prior, last := gs[..|gs| - 1], gs[|gs| - 1];
      RemoveCommutes(prior, fingers, dir, g);
      MatchingMembers(prior, fingers, dir);
      var all := Matching(gs, fingers, dir);
      var rest := Matching(prior, fingers, dir);
      if all != rest {
        assert all[..|all| - 1] == rest;
      }
      if g in prior {
        assert RemoveOne(gs, g)[..|RemoveOne(gs, g)| - 1] == RemoveOne(prior, g);
      }
    }
  }

  // ----- signals -------------------------------------------------------------

  function Starts(gs: seq<Gesture>): seq<Signal> {
    if gs == [] then [] else Starts(gs[..|gs| - 1]) + [Started(gs[|gs| - 1])]
  }

  predicate Directed(gs: seq<Gesture>) {
    forall g :: g in gs ==> g.direction != Invalid
  }

  function ProgressSignals(gs: seq<Gesture>, delta: Point): seq<Signal>
    requires Directed(gs)
  {
    if gs == [] then []
    else
      var g := gs[|gs| - 1];
      ProgressSignals(gs[..|gs| - 1], delta) + [Progress(g, DeltaToProgress(g, delta)), DeltaProgress(g, delta)]
  }

  function EndSignals(gs: seq<Gesture>, delta: Point): seq<Signal>
    requires Directed(gs)
  {
    if gs == [] then []
    else
      var g := gs[|gs| - 1];
      EndSignals(gs[..|gs| - 1], delta) + [if MinimumDeltaReached(g, delta) then Triggered(g) else Cancelled(g)]
  }

  function CancelSignals(gs: seq<Gesture>): seq<Signal> {
    if gs == [] then [] else CancelSignals(gs[..|gs| - 1]) + [Cancelled(gs[|gs| - 1])]
  }

  /** The `started` signals of one update: a start happens whenever a pass of the
      pruning loop finds the active list empty. */
  function RestartSignals(gs: seq<Gesture>, fingers: nat, before: Track, after: Track): seq<Signal> {
    var collected := OnAxis(gs, fingers, after.axis);
    var was := ActiveFor(gs, fingers, before);
    (if was == [] then Starts(collected) else [])
    + (if ActiveFor(gs, fingers, after) == [] || (was != [] && Heading(before) != Heading(after))
       then Starts(collected) else [])
  }

  lemma {:induction false} ActiveIsDirected(gs: seq<Gesture>, fingers: nat, t: Track)
    ensures Directed(ActiveFor(gs, fingers, t))
  {
    MatchingMembers(gs, fingers, Heading(t));
  }

  /** Every active gesture learns the displacement, and nothing else is reported. */
  lemma {:induction false} ProgressAnnounces(gs: seq<Gesture>, delta: Point, g: Gesture, p: Point)
    requires Directed(gs)
    ensures DeltaProgress(g, p) in ProgressSignals(gs, delta) <==> g in gs && p == delta
  {
    if gs != [] {
      ProgressAnnounces(gs[..|gs| - 1], delta, g, p);
      assert gs == gs[..|gs| - 1] + [gs[|gs| - 1]];
    }
  }

  /** At the end an active touchpad gesture is triggered from 200 units of travel on, and
      cancelled below. */
  lemma {:induction false} EndTriggersFrom200(gs: seq<Gesture>, delta: Point, g: Gesture)
    requires Directed(gs) && g.direction != Invalid && g.threshold == Some(TOUCHPAD_THRESHOLD)
    ensures Triggered(g) in EndSignals(gs, delta) <==> g in gs && Abs(Along(g.direction, delta)) >= 200.0
    ensures Cancelled(g) in EndSignals(gs, delta) <==> g in gs && Abs(Along(g.direction, delta)) < 200.0
  {
    HalfwayIsHundred(g, delta);
    if gs != [] {
      EndTriggersFrom200(gs[..|gs| - 1], delta, g);
      assert gs == gs[..|gs| - 1] + [gs[|gs| - 1]];
    }
  }

  lemma {:induction false} StartsAnnounce(gs: seq<Gesture>, g: Gesture)
    ensures Started(g) in Starts(gs) <==> g in gs
  {
    if gs != [] {
      StartsAnnounce(gs[..|gs| - 1], g);
      assert gs == gs[..|gs| - 1] + [gs[|gs| - 1]];
    }
  }

  lemma {:induction false} OnAxisMembers(gs: seq<Gesture>, fingers: nat, axis: Axis)
    ensures forall g :: g in OnAxis(gs, fingers, axis)
                        <==> g in gs && Admits(g, fingers) && axis != NoAxis && AxisOf(g.direction) == axis
  {
    if gs != [] {
      OnAxisMembers(gs[..|gs| - 1], fingers, axis);
      assert gs == gs[..|gs| - 1] + [gs[|gs| - 1]];
    }
  }

  /** The update that locks the axis announces exactly the registered gestures along it that
      admit the fingers, in either direction; one that keeps the heading of a gesture announces
      none. */
  lemma {:induction false} StartedAnnouncements(gs: seq<Gesture>, fingers: nat, before: Track, after: Track, g: Gesture)
    ensures before.axis == NoAxis && after.axis != NoAxis ==>
              (Started(g) in RestartSignals(gs, fingers, before, after)
               <==> g in gs && Admits(g, fingers) && AxisOf(g.direction) == after.axis)
    ensures before.axis == after.axis && Heading(before) == Heading(after) && ActiveFor(gs, fingers, after) != [] ==>
              RestartSignals(gs, fingers, before, after) == []
  {
    var collected := OnAxis(gs, fingers, after.axis);
    OnAxisMembers(gs, fingers, after.axis);
    StartsAnnounce(collected, g);
  }

  function UpdateSignals(gs: seq<Gesture>, fingers: nat, before: Track, after: Track): seq<Signal> {
    ActiveIsDirected(gs, fingers, after);
    RestartSignals(gs, fingers, before, after) + ProgressSignals(ActiveFor(gs, fingers, after), after.delta)
  }

  function FinishSignals(gs: seq<Gesture>, fingers: nat, t: Track, cancelled: bool): seq<Signal> {
    ActiveIsDirected(gs, fingers, t);
    if cancelled then CancelSignals(ActiveFor(gs, fingers, t)) else EndSignals(ActiveFor(gs, fingers, t), t.delta)
  }

  /** A finished swipe triggers an active touchpad gesture from 200 units of travel on and cancels
      it below; a cancelled one cancels it in any case. Other gestures hear nothing. */
  lemma {:induction false} FinishAnnounces(gs: seq<Gesture>, fingers: nat, t: Track, cancelled: bool, g: Gesture)
    requires g.direction != Invalid && g.threshold == Some(TOUCHPAD_THRESHOLD)
    ensures var far := Abs(Along(g.direction, t.delta)) >= 200.0;
            var heard := FinishSignals(gs, fingers, t, cancelled);
            && (Triggered(g) in heard <==> g in ActiveFor(gs, fingers, t) && !cancelled && far)
            && (Cancelled(g) in heard <==> g in ActiveFor(gs, fingers, t) && (cancelled || !far))
  {
    ActiveIsDirected(gs, fingers, t);
    EndTriggersFrom200(ActiveFor(gs, fingers, t), t.delta, g);
    CancelsAnnounce(ActiveFor(gs, fingers, t), g);
  }

  lemma {:induction false} CancelsAnnounce(gs: seq<Gesture>, g: Gesture)
    ensures Cancelled(g) in CancelSignals(gs) <==> g in gs
    ensures Triggered(g) !in CancelSignals(gs)
  {
    if gs != [] {
      CancelsAnnounce(gs[..|gs| - 1], g);
      assert gs == gs[..|gs| - 1] + [gs[|gs| - 1]];
    }
  }

  // ----- the recogniser -----------------------------------------------------

  class Recognizer {
    var gestures: seq<Gesture>
    var active: seq<Gesture>
    var delta: Point
    var fingers: nat
    var axis: Axis

    constructor ()
      ensures Valid() && Idle() && gestures == []
    {
      gestures, active, delta, fingers, axis := [], [], ORIGIN, 0, NoAxis;
    }

    function Tracked(): Track
      reads this
    {
      Track(delta, axis)
    }

    /** The active list is always the plain filter for the current track. */
    ghost predicate Valid()
      reads this
    {
      active == ActiveFor(gestures, fingers, Tracked())
    }

    predicate Idle()
      reads this
    {
      active == [] && delta == ORIGIN && axis == NoAxis
    }

    /** Registering is safe between swipes; in mid-swipe it leaves a matching gesture out
        of the active list. */
    method RegisterSwipeGesture(g: Gesture)
      modifies this`gestures
      ensures gestures == old(gestures) + [g]
      ensures old(Valid()) ==> (Valid() <==> !Takes(g))
    {
      MatchingGrows(gestures, g, fingers, Heading(Tracked()));
      gestures := gestures + [g];
    }

    /** The swipe under way would have `g` active. */
    predicate Takes(g: Gesture)
      reads this
    {
      axis != NoAxis && Admits(g, fingers) && g.direction == Heading(Tracked())
    }

    /** Unregistering is safe at any time and cancels the gesture if it was active. */
    method UnregisterSwipeGesture(g: Gesture) returns (emitted: seq<Signal>)
      requires Valid()
      modifies this`gestures, this`active
      ensures Valid() && gestures == RemoveOne(old(gestures), g)
      ensures emitted == if g in old(active) then [Cancelled(g)] else []
    {
      RemoveCommutes(gestures, fingers, Heading(Tracked()), g);
      emitted := if g in active then [Cancelled(g)] else [];
      gestures, active := RemoveOne(gestures, g), RemoveOne(active, g);
    }

    method StartSwipeGesture(count: nat) returns (started: nat, emitted: seq<Signal>)
      modifies this`fingers, this`active
      ensures fingers == count
      ensures old(active) != [] ==> active == old(active) && started == 0 && emitted == []
      ensures old(active) == [] ==>
                active == OnAxis(gestures, count, axis) && started == |active| && emitted == Starts(active)
    {
      fingers, started, emitted := count, 0, [];
      if active != [] {
        return;
      }
      for i := 0 to |gestures|
        invariant active == OnAxis(gestures[..i], count, axis)
        invariant started == |active| && emitted == Starts(active)
        invariant fingers == count
      {
        var g := gestures[i];
        assert gestures[..i + 1][..i] == gestures[..i];
        if Admits(g, count) && axis != NoAxis && g.direction != Invalid && AxisOf(g.direction) == axis {
          assert (active + [g])[..|active|] == active;
          active := active + [g];
          started := started + 1;
          emitted := emitted + [Started(g)];
        }
      }
      assert gestures[..|gestures|] == gestures;
    }

    /** The erase/remove_if of one pruning pass. */
    method EraseOtherDirections(direction: Direction)
      modifies this`active
      ensures active == WithDirection(old(active), direction)
    {
      var kept := [];
      for i := 0 to |active|
        invariant kept == WithDirection(active[..i], direction)
        invariant active == old(active)
      {
        assert active[..i + 1][..i] == active[..i];
        if active[i].direction == direction {
          kept := kept + [active[i]];
        }
      }
      assert active[..|active|] == active;
      active := kept;
    }

    /** One pass of the pruning loop: restart when empty, then drop other directions. */
    method PrunePass(direction: Direction) returns (emitted: seq<Signal>)
      modifies this`active, this`fingers
      ensures fingers == old(fingers)
      ensures active == WithDirection(if old(active) == [] then OnAxis(gestures, fingers, axis)
                                      else old(active), direction)
      ensures emitted == if old(active) == [] then Starts(OnAxis(gestures, fingers, axis)) else []
    {
      emitted := [];
      if active == [] {
        var _, starts := StartSwipeGesture(fingers);
        emitted := starts;
      }
      EraseOtherDirections(direction);
    }

    /** Two passes turn the list of the previous track into the list of the current one. */
    method RebuildActive(direction: Direction, ghost before: Track) returns (emitted: seq<Signal>)
      requires active == ActiveFor(gestures, fingers, before)
      requires direction != Invalid
      requires axis == NoAxis ==> before.axis == NoAxis
      requires axis != NoAxis ==> direction == Heading(Tracked())
      modifies this`active, this`fingers
      ensures Valid() && fingers == old(fingers)
      ensures emitted == RestartSignals(gestures, fingers, before, Tracked())
    {
      PruneFacts(before, direction);
      var first := PrunePass(direction);
      var second := PrunePass(direction);
      emitted := first + second;
    }

    method EmitProgress() returns (emitted: seq<Signal>)
      requires Directed(active)
      ensures emitted == ProgressSignals(active, delta)
    {
      emitted := [];
      for i := 0 to |active|
        invariant emitted == ProgressSignals(active[..i], delta)
      {
        assert active[..i + 1][..i] == active[..i];
        emitted := emitted + [Progress(active[i], DeltaToProgress(active[i], delta)), DeltaProgress(active[i], delta)];
      }
      assert active[..|active|] == active;
    }

    method UpdateSwipeGesture(d: Point) returns (emitted: seq<Signal>)
      requires Valid()
      modifies this`delta, this`axis, this`active, this`fingers
      ensures Valid()
      ensures Tracked() == Advance(old(Tracked()), d) && fingers == old(fingers)
      ensures emitted == UpdateSignals(gestures, fingers, old(Tracked()), Tracked())
    {
      delta := Plus(delta, d);
      var swipeAxis := axis;
      if axis == NoAxis {
        swipeAxis := if Abs(delta.x) >= Abs(delta.y) then Horizontal else Vertical;
        if Abs(delta.x) >= SWIPE_MINIMUM_DELTA || Abs(delta.y) >= SWIPE_MINIMUM_DELTA {
          axis := swipeAxis;
        }
      }
      var direction := if swipeAxis == Vertical then (if delta.y < 0.0 then Up else Down)
                       else (if delta.x < 0.0 then Left else Right);
      var restarts := RebuildActive(direction, old(Tracked()));
      ActiveIsDirected(gestures, fingers, Tracked());
      var progress := EmitProgress();
      emitted := restarts + progress;
    }

    lemma {:induction false} PruneFacts(before: Track, dir: Direction)
      requires dir != Invalid
      requires axis != NoAxis ==> dir == Heading(Tracked())
      ensures axis == NoAxis ==> OnAxis(gestures, fingers, axis) == []
      ensures axis != NoAxis ==> AxisOf(dir) == axis
                                 && WithDirection(OnAxis(gestures, fingers, axis), dir)
                                    == Matching(gestures, fingers, dir)
      ensures WithDirection(ActiveFor(gestures, fingers, before), dir)
              == if Heading(before) == dir then ActiveFor(gestures, fingers, before) else []
      ensures WithDirection(Matching(gestures, fingers, dir), dir) == Matching(gestures, fingers, dir)
    {
      NothingOffAxis(gestures, fingers);
      PruneFresh(gestures, fingers, dir);
      PruneActive(gestures, fingers, Heading(before), dir);
      PruneActive(gestures, fingers, dir, dir);
    }

    method EndSwipeGesture() returns (emitted: seq<Signal>)
      requires Valid()
      modifies this
      ensures gestures == old(gestures) && Valid() && Idle() && fingers == 0
      ensures emitted == FinishSignals(gestures, old(fingers), old(Tracked()), false)
    {
      ActiveIsDirected(gestures, fingers, Tracked());
      emitted := [];
      for i := 0 to |active|
        invariant emitted == EndSignals(active[..i], delta)
        invariant active == old(active) && delta == old(delta) && gestures == old(gestures)
      {
        assert active[..i + 1][..i] == active[..i];
        emitted := emitted + [if MinimumDeltaReached(active[i], delta) then Triggered(active[i])
                              else Cancelled(active[i])];
      }
      assert active[..|active|] == active;
      active, fingers, delta, axis := [], 0, ORIGIN, NoAxis;
    }

    method CancelSwipeGesture() returns (emitted: seq<Signal>)
      requires Valid()
      modifies this
      ensures gestures == old(gestures) && Valid() && Idle() && fingers == 0
      ensures emitted == FinishSignals(gestures, old(fingers), old(Tracked()), true)
    {
      emitted := [];
      for i := 0 to |active|
        invariant emitted == CancelSignals(active[..i])
        invariant active == old(active) && gestures == old(gestures)
      {
        assert active[..i + 1][..i] == active[..i];
        emitted := emitted + [Cancelled(active[i])];
      }
      assert active[..|active|] == active;
      active, fingers, delta, axis := [], 0, ORIGIN, NoAxis;
    }
  }
}
