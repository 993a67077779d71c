/** src/input/gesturemanager.cpp: the finger gate, the callback wiring, and what a
    complete swipe does to a toggle. */
module GestureManager {
  import opened Prelude
  import opened SwipeGesture
  import opened GestureRecognizer
  import opened TogglableGesture

  const MIN_SWIPE_FINGERS := 3

  // ----- signal delivery ----------------------------------------------------

  /** How toggle `i` reacts to one signal. Both `triggered` and `cancelled` reach the
      action callback, which ignores its boolean argument. */
  function Deliver(i: nat, s: Signal, t: Toggle): Toggle {
    match s
    case Progress(g, p) =>
      if g.feedback == Forward(i) then Progressed(t, p)
      else if g.feedback == Backward(i) then Regressed(t, p)
      else t
    case Triggered(g) => Settle(i, g, t)
    case Cancelled(g) => Settle(i, g, t)
    case Started(_) => t
    case DeltaProgress(_, _) => t
  }

  function Settle(i: nat, g: Gesture, t: Toggle): Toggle {
    if g.feedback == Forward(i) then ActiveSettled(t)
    else if g.feedback == Backward(i) then DeactivateSettled(t)
    else t
  }

  function DeliverAll(i: nat, signals: seq<Signal>, t: Toggle): Toggle {
    if signals == [] then t
    else Deliver(i, signals[|signals| - 1], DeliverAll(i, signals[..|signals| - 1], t))
  }

  lemma {:induction false} DeliverAppend(i: nat, a: seq<Signal>, b: seq<Signal>, t: Toggle)
    ensures DeliverAll(i, a + b, t) == DeliverAll(i, b, DeliverAll(i, a, t))
  {
    if b == [] {
      assert a + b == a;
    } else {
      assert (a + b)[..|a + b| - 1] == a + b[..|b| - 1];
      DeliverAppend(i, a, b[..|b| - 1], t);
    }
  }

  // ----- a complete swipe as a function --------------------------------------

  /** Toggle `i` after the updates `ds` of a swipe with `n` fingers. */
  function AfterUpdates(gs: seq<Gesture>, n: nat, ds: seq<Point>, i: nat, t: Toggle): Toggle {
    if ds == [] then t
    else
      var prior := ds[..|ds| - 1];
      DeliverAll(i, UpdateSignals(gs, n, Follow(prior), Follow(ds)), AfterUpdates(gs, n, prior, i, t))
  }

  /** Toggle `i` after start(n), the updates `ds`, and end or cancel. */
  function CompleteSwipe(gs: seq<Gesture>, n: nat, ds: seq<Point>, cancelled: bool, i: nat, t: Toggle): Toggle {
    if n < MIN_SWIPE_FINGERS then t
    else DeliverAll(i, FinishSignals(gs, n, Follow(ds), cancelled), AfterUpdates(gs, n, ds, i, t))
  }

  // ----- the manager --------------------------------------------------------

  class Manager {
    const recognizer: Recognizer
    const toggles: seq<TogglableGesture>
    var touchpadFingerCount: nat

    constructor (toggles: seq<TogglableGesture>)
      requires forall i, j :: 0 <= i < j < |toggles| ==> toggles[i] != toggles[j]
      ensures Valid() && this.toggles == toggles && fresh(recognizer)
      ensures recognizer.Idle() && recognizer.gestures == []
    {
      this.recognizer := new Recognizer();
      this.toggles := toggles;
      touchpadFingerCount := 0;
    }

    ghost predicate Valid()
      reads this, recognizer
    {
      && recognizer.Valid()
      && forall i, j :: 0 <= i < j < |toggles| ==> toggles[i] != toggles[j]
    }

    /** The active list stays the filter unless the swipe under way would have the gesture. */
    method RegisterTouchpadSwipe(direction: Direction, fingers: nat, feedback: Feedback)
      modifies recognizer`gestures
      ensures recognizer.gestures == old(recognizer.gestures) + [TouchpadSwipe(direction, fingers, feedback)]
      ensures old(Valid()) ==> (Valid() <==> !recognizer.Takes(TouchpadSwipe(direction, fingers, feedback)))
    {
      recognizer.RegisterSwipeGesture(TouchpadSwipe(direction, fingers, feedback));
    }

    method AddTouchpadSwipeGesture(i: nat, direction: Direction, fingers: nat)
      modifies recognizer`gestures
      ensures recognizer.gestures == old(recognizer.gestures)
                                     + if direction == Invalid then []
                                       else [ForwardOf(i, direction, fingers), BackwardOf(i, direction, fingers)]
      ensures old(Valid()) ==>
                (Valid() <==> direction == Invalid
                              || !(recognizer.Takes(ForwardOf(i, direction, fingers))
                                   || recognizer.Takes(BackwardOf(i, direction, fingers))))
    {
      if direction == Invalid {
        return;
      }
      ghost var gs, heading := recognizer.gestures, Heading(recognizer.Tracked());
      ghost var forward, backward := ForwardOf(i, direction, fingers), BackwardOf(i, direction, fingers);
      MatchingGrows(gs, forward, recognizer.fingers, heading);
      MatchingGrows(gs + [forward], backward, recognizer.fingers, heading);
      RegisterTouchpadSwipe(direction, fingers, Forward(i));
      RegisterTouchpadSwipe(Opposite(direction), fingers, Backward(i));
    }

    method DeliverTo(i: nat, s: Signal)
      requires i < |toggles|
      modifies toggles[i]
      ensures toggles[i].Value() == Deliver(i, s, old(toggles[i].Value()))
    {
      match s
      case Progress(g, p) =>
        if g.feedback == Forward(i) {
          toggles[i].SetProgress(p);
        } else if g.feedback == Backward(i) {
          toggles[i].SetRegress(p);
        }
      case Triggered(g) =>
        if g.feedback == Forward(i) {
          toggles[i].ActiveTriggered();
        } else if g.feedback == Backward(i) {
          toggles[i].DeactivateTriggered();
        }
      case Cancelled(g) =>
        if g.feedback == Forward(i) {
          toggles[i].ActiveTriggered();
        } else if g.feedback == Backward(i) {
          toggles[i].DeactivateTriggered();
        }
      case _ =>
    }

    /** Signals are synchronous and no toggle calls back into the recogniser, so each
        toggle can consume its signals in order on its own. */
    method DispatchTo(i: nat, signals: seq<Signal>)
      requires i < |toggles|
      modifies toggles[i]
      ensures toggles[i].Value() == DeliverAll(i, signals, old(toggles[i].Value()))
    {
      for k := 0 to |signals|
        invariant toggles[i].Value() == DeliverAll(i, signals[..k], old(toggles[i].Value()))
      {
        DeliverTo(i, signals[k]);
        assert signals[..k + 1][..k] == signals[..k];
      }
      assert signals[..|signals|] == signals;
    }

    method Dispatch(signals: seq<Signal>)
      requires Valid()
      modifies toggles
      ensures Valid()
      ensures forall i :: 0 <= i < |toggles| ==>
                toggles[i].Value() == DeliverAll(i, signals, old(toggles[i].Value()))
    {
      for j := 0 to |toggles|
        invariant forall i :: 0 <= i < j ==>
                    toggles[i].Value() == DeliverAll(i, signals, old(toggles[i].Value()))
        invariant forall i :: j <= i < |toggles| ==> toggles[i].Value() == old(toggles[i].Value())
      {
        DispatchTo(j, signals);
      }
    }

    /** A start in the middle of a swipe changes the finger count under its active gestures. */
    method ProcessSwipeStart(finger: nat)
      modifies this`touchpadFingerCount, recognizer`fingers, recognizer`active
      ensures touchpadFingerCount == finger
      ensures finger < MIN_SWIPE_FINGERS ==> unchanged(recognizer)
      ensures finger >= MIN_SWIPE_FINGERS ==>
                && recognizer.fingers == finger
                && recognizer.active == if old(recognizer.active) != [] then old(recognizer.active)
                                        else OnAxis(recognizer.gestures, finger, recognizer.axis)
      ensures old(Valid() && recognizer.Idle()) ==> Valid() && recognizer.Idle()
    {
      touchpadFingerCount := finger;
      if touchpadFingerCount >= MIN_SWIPE_FINGERS {
        NothingOffAxis(recognizer.gestures, finger);
        var _, _ := recognizer.StartSwipeGesture(finger);
      }
    }

    method ProcessSwipeUpdate(delta: Point)
      requires Valid()
      modifies recognizer, toggles
      ensures Valid() && recognizer.gestures == old(recognizer.gestures)
              && recognizer.fingers == old(recognizer.fingers)
      ensures touchpadFingerCount < MIN_SWIPE_FINGERS ==> unchanged(recognizer) && unchanged(toggles)
      ensures touchpadFingerCount >= MIN_SWIPE_FINGERS ==>
                && recognizer.Tracked() == Advance(old(recognizer.Tracked()), delta)
                && forall i :: 0 <= i < |toggles| ==>
                     toggles[i].Value()
                     == DeliverAll(i, UpdateSignals(recognizer.gestures, recognizer.fingers, old(recognizer.Tracked()),
                                                    recognizer.Tracked()),
                                   old(toggles[i].Value()))
    {
      if touchpadFingerCount >= MIN_SWIPE_FINGERS {
        var emitted := recognizer.UpdateSwipeGesture(delta);
        Dispatch(emitted);
      }
    }

    /** processSwipeEnd and processSwipeCancel. */
    method ProcessSwipeFinish(cancelled: bool)
      requires Valid()
      modifies recognizer, toggles
      ensures Valid() && recognizer.gestures == old(recognizer.gestures)
      ensures touchpadFingerCount < MIN_SWIPE_FINGERS ==> unchanged(recognizer) && unchanged(toggles)
      ensures touchpadFingerCount >= MIN_SWIPE_FINGERS ==>
                && recognizer.Idle()
                && forall i :: 0 <= i < |toggles| ==>
                     toggles[i].Value()
                     == DeliverAll(i, FinishSignals(recognizer.gestures, old(recognizer.fingers),
                                                    old(recognizer.Tracked()), cancelled),
                                   old(toggles[i].Value()))
    {
      if touchpadFingerCount >= MIN_SWIPE_FINGERS {
        var emitted;
        if cancelled {
          emitted := recognizer.CancelSwipeGesture();
        } else {
          emitted := recognizer.EndSwipeGesture();
        }
        Dispatch(emitted);
      }
    }

    /** The updates of a swipe that has just started. */
    method ProcessUpdates(ds: seq<Point>)
      requires Valid() && recognizer.Idle()
      modifies recognizer, toggles
      ensures Valid() && recognizer.gestures == old(recognizer.gestures)
              && recognizer.fingers == old(recognizer.fingers)
      ensures touchpadFingerCount < MIN_SWIPE_FINGERS ==>
                recognizer.Idle() && forall i :: 0 <= i < |toggles| ==> toggles[i].Value() == old(toggles[i].Value())
      ensures touchpadFingerCount >= MIN_SWIPE_FINGERS ==>
                && recognizer.Tracked() == Follow(ds)
                && forall i :: 0 <= i < |toggles| ==>
                     toggles[i].Value()
                     == AfterUpdates(recognizer.gestures, recognizer.fingers, ds, i, old(toggles[i].Value()))
    {
      ghost var gs, n := recognizer.gestures, recognizer.fingers;
      for k := 0 to |ds|
        invariant Valid() && recognizer.gestures == gs && recognizer.fingers == n
        invariant touchpadFingerCount < MIN_SWIPE_FINGERS ==>
                    && recognizer.Idle()
                    && forall i :: 0 <= i < |toggles| ==> toggles[i].Value() == old(toggles[i].Value())
        invariant touchpadFingerCount >= MIN_SWIPE_FINGERS ==>
                    && recognizer.Tracked() == Follow(ds[..k])
                    && forall i :: 0 <= i < |toggles| ==>
                         toggles[i].Value() == AfterUpdates(gs, n, ds[..k], i, old(toggles[i].Value()))
      {
        assert ds[..k + 1][..k] == ds[..k];
        ProcessSwipeUpdate(ds[k]);
      }
      assert ds[..|ds|] == ds;
    }

    /** The events of one complete swipe, driven through the objects above. */
    method Swipe(n: nat, ds: seq<Point>, cancelled: bool)
      requires Valid() && recognizer.Idle()
      modifies this, recognizer, toggles
      ensures Valid() && recognizer.Idle() && recognizer.gestures == old(recognizer.gestures)
      ensures forall i :: 0 <= i < |toggles| ==>
                toggles[i].Value()
                == CompleteSwipe(recognizer.gestures, n, ds, cancelled, i, old(toggles[i].Value()))
    {
      ProcessSwipeStart(n);
      ProcessUpdates(ds);
      ProcessSwipeFinish(cancelled);
    }
  }

  // ----- the outcome of a swipe ---------------------------------------------

  function ForwardOf(i: nat, d: Direction, f: nat): Gesture {
    TouchpadSwipe(d, f, Forward(i))
  }

  function BackwardOf(i: nat, d: Direction, f: nat): Gesture {
    TouchpadSwipe(Opposite(d), f, Backward(i))
  }

  /** The only gestures bound to toggle `i` are its pair for direction `d` and `f` fingers. */
  ghost predicate Bound(gs: seq<Gesture>, i: nat, d: Direction, f: nat) {
    forall g :: g in gs ==>
      && (g.feedback == Forward(i) ==> g == ForwardOf(i, d, f))
      && (g.feedback == Backward(i) ==> g == BackwardOf(i, d, f))
  }

  /** Toggle `i` is registered, and only registered, for direction `d` with `f` fingers. */
  ghost predicate Wired(gs: seq<Gesture>, i: nat, d: Direction, f: nat) {
    d != Invalid && ForwardOf(i, d, f) in gs && BackwardOf(i, d, f) in gs && Bound(gs, i, d, f)
  }

  /** AddTouchpadSwipeGesture wires a toggle nobody else is bound to. */
  lemma {:induction false} AddingWires(gs: seq<Gesture>, i: nat, d: Direction, f: nat)
    requires d != Invalid
    requires forall g :: g in gs ==> g.feedback != Forward(i) && g.feedback != Backward(i)
    ensures Wired(gs + [ForwardOf(i, d, f), BackwardOf(i, d, f)], i, d, f)
  {
    var all := gs + [ForwardOf(i, d, f), BackwardOf(i, d, f)];
    assert all[|gs|] == ForwardOf(i, d, f) && all[|gs| + 1] == BackwardOf(i, d, f);
  }

  /** After `k` updates the recogniser's axis is locked and its heading is `d`. */
  predicate Heads(ds: seq<Point>, k: nat, d: Direction) {
    k <= |ds| && d != Invalid && Heading(Follow(ds[..k])) == d
  }

  /** The direction of the displacement `now` along the axis on which `first` is the longer. */
  function Side(first: Point, now: Point): Direction {
    if Abs(first.x) >= Abs(first.y) then (if now.x < 0.0 then Left else Right)
    else (if now.y < 0.0 then Up else Down)
  }

  /** After `k` updates the swipe points in direction `d`: some earlier displacement was the
      first to be 5 long along an axis, and along its longer axis the displacement is now on the
      side of `d`. */
  ghost predicate Toward(ds: seq<Point>, k: nat, d: Direction) {
    k <= |ds| && exists l: nat :: l <= k && LocksAt(ds, l) && Side(Sum(ds[..l]), Sum(ds[..k])) == d
  }

  lemma {:induction false} LocksAtPart(ds: seq<Point>, k: nat, l: nat)
    requires l <= k <= |ds|
    ensures LocksAt(ds, l) <==> LocksAt(ds[..k], l)
    ensures ds[..k][..l] == ds[..l]
  {
    var part := ds[..k];
    assert forall j :: 0 <= j <= k ==> part[..j] == ds[..j];
    if LocksAt(part, l) {
      assert forall j :: 0 <= j < l ==> Small(Sum(part[..j]));
    }
  }

  /** The heading is where the displacement points. */
  lemma {:induction false} HeadsToward(ds: seq<Point>, k: nat, d: Direction)
    ensures Heads(ds, k, d) <==> Toward(ds, k, d)
  {
    if k <= |ds| {
      var part := ds[..k];
      AxisLocksOnce(part);
      if Heads(ds, k, d) {
        var l := SomeUpdateLocks(part);
        LocksAtPart(ds, k, l);
      } else if Toward(ds, k, d) {
        var l: nat :| l <= k && LocksAt(ds, l) && Side(Sum(ds[..l]), Sum(ds[..k])) == d;
        LocksAtPart(ds, k, l);
      }
    }
  }

  function Travel(ds: seq<Point>, d: Direction): real {
    Abs(Along(d, Sum(ds)))
  }

  /** The progress a touchpad gesture of direction `d` reports after `ds`. */
  function ProgressOf(ds: seq<Point>, d: Direction): real {
    if Travel(ds, d) < 200.0 then Travel(ds, d) / 200.0 else 1.0
  }

  lemma {:induction false} StartsAreSilent(i: nat, gs: seq<Gesture>, t: Toggle)
    ensures DeliverAll(i, Starts(gs), t) == t
  {
    if gs != [] {
      StartsAreSilent(i, gs[..|gs| - 1], t);
      assert Starts(gs)[..|Starts(gs)| - 1] == Starts(gs[..|gs| - 1]);
    }
  }

  lemma {:induction false} DeliverOne(i: nat, signals: seq<Signal>, a: Signal, t: Toggle)
    ensures DeliverAll(i, signals + [a], t) == Deliver(i, a, DeliverAll(i, signals, t))
  {
    assert (signals + [a])[..|signals + [a]| - 1] == signals;
  }

  lemma {:induction false} DeliverTwo(i: nat, signals: seq<Signal>, a: Signal, b: Signal, t: Toggle)
    ensures DeliverAll(i, signals + [a, b], t) == Deliver(i, b, Deliver(i, a, DeliverAll(i, signals, t)))
  {
    var all := signals + [a, b];
    assert all[..|all| - 1] == signals + [a];
    assert (signals + [a])[..|signals|] == signals;
  }

  /** Delivering the progress of a one-direction active list, however often the toggle's
      gesture occurs in it. */
  lemma {:induction false} ProgressReaches(gs: seq<Gesture>, i: nat, d: Direction, f: nat, h: Direction, delta: Point,
                                           t: Toggle)
    requires d != Invalid && h != Invalid && Bound(gs, i, d, f)
    requires forall g :: g in gs ==> g.direction == h
    ensures DeliverAll(i, ProgressSignals(gs, delta), t)
            == if h == d && ForwardOf(i, d, f) in gs then Progressed(t, DeltaToProgress(ForwardOf(i, d, f), delta))
               else if h == Opposite(d) && BackwardOf(i, d, f) in gs
                    then Regressed(t, DeltaToProgress(BackwardOf(i, d, f), delta))
               else t
  {
    OppositeIsAnInvolution(d);
    if gs != [] {
      var prior, g := gs[..|gs| - 1], gs[|gs| - 1];
      assert gs == prior + [g];
      ProgressReaches(prior, i, d, f, h, delta, t);
      DeliverTwo(i, ProgressSignals(prior, delta), Progress(g, DeltaToProgress(g, delta)), DeltaProgress(g, delta), t);
    }
  }

  lemma {:induction false} CancelReaches(gs: seq<Gesture>, i: nat, d: Direction, f: nat, h: Direction, t: Toggle)
    requires d != Invalid && Bound(gs, i, d, f)
    requires forall g :: g in gs ==> g.direction == h
    ensures DeliverAll(i, CancelSignals(gs), t)
            == if h == d && ForwardOf(i, d, f) in gs then ActiveSettled(t)
               else if h == Opposite(d) && BackwardOf(i, d, f) in gs then DeactivateSettled(t)
               else t
  {
    OppositeIsAnInvolution(d);
    if gs != [] {
      var prior, g := gs[..|gs| - 1], gs[|gs| - 1];
      assert gs == prior + [g];
      CancelReaches(prior, i, d, f, h, t);
      assert CancelSignals(gs)[..|CancelSignals(gs)| - 1] == CancelSignals(prior);
    }
  }

  /** `triggered` and `cancelled` are the same to a toggle. */
  lemma {:induction false} EndActsLikeCancel(gs: seq<Gesture>, i: nat, delta: Point, t: Toggle)
    requires Directed(gs)
    ensures DeliverAll(i, EndSignals(gs, delta), t) == DeliverAll(i, CancelSignals(gs), t)
  {
    if gs != [] {
      var prior, g := gs[..|gs| - 1], gs[|gs| - 1];
      EndActsLikeCancel(prior, i, delta, t);
      DeliverOne(i, CancelSignals(prior), Cancelled(g), t);
      DeliverOne(i, EndSignals(prior, delta), if MinimumDeltaReached(g, delta) then Triggered(g) else Cancelled(g), t);
    }
  }

  lemma {:induction false} RestartsAreSilent(i: nat, gs: seq<Gesture>, n: nat, before: Track, after: Track, t: Toggle)
    ensures DeliverAll(i, RestartSignals(gs, n, before, after), t) == t
  {
    var collected := OnAxis(gs, n, after.axis);
    StartsAreSilent(i, collected, t);
    DeliverAppend(i, Starts(collected), Starts(collected), t);
    assert [] + Starts(collected) == Starts(collected) == Starts(collected) + [];
  }

  /** Which of the toggle's gestures are active on a track. */
  lemma {:induction false} ActivePair(gs: seq<Gesture>, n: nat, track: Track, i: nat, d: Direction, f: nat)
    requires Wired(gs, i, d, f)
    ensures var active := ActiveFor(gs, n, track);
            && Bound(active, i, d, f)
            && (forall g :: g in active ==> g.direction == Heading(track))
            && (ForwardOf(i, d, f) in active <==> n == f && Heading(track) == d)
            && (BackwardOf(i, d, f) in active <==> n == f && Heading(track) == Opposite(d))
  {
    OppositeIsAnInvolution(d);
    MatchingMembers(gs, n, Heading(track));
  }

  /** One update as the toggle sees it. */
  lemma {:induction false} UpdateReaches(gs: seq<Gesture>, n: nat, ds: seq<Point>, i: nat, d: Direction, f: nat,
                                         t: Toggle)
    requires Wired(gs, i, d, f) && ds != []
    ensures DeliverAll(i, UpdateSignals(gs, n, Follow(ds[..|ds| - 1]), Follow(ds)), t)
            == if n == f && Heads(ds, |ds|, d) then Progressed(t, ProgressOf(ds, d))
               else if n == f && Heads(ds, |ds|, Opposite(d)) then Regressed(t, ProgressOf(ds, Opposite(d)))
               else t
  {
    var before, after := Follow(ds[..|ds| - 1]), Follow(ds);
    assert ds[..|ds|] == ds;
    AxisLocksOnce(ds);
    OppositeIsAnInvolution(d);
    var active := ActiveFor(gs, n, after);
    ActiveIsDirected(gs, n, after);
    ActivePair(gs, n, after, i, d, f);
    DeliverAppend(i, RestartSignals(gs, n, before, after), ProgressSignals(active, after.delta), t);
    RestartsAreSilent(i, gs, n, before, after, t);
    if after.axis != NoAxis {
      ProgressReaches(active, i, d, f, Heading(after), after.delta, t);
      ProgressValue(ForwardOf(i, d, f), ds);
      ProgressValue(BackwardOf(i, d, f), ds);
    }
  }

  lemma {:induction false} ProgressValue(g: Gesture, ds: seq<Point>)
    requires g.direction != Invalid && g.threshold == Some(TOUCHPAD_THRESHOLD)
    ensures DeltaToProgress(g, Sum(ds)) == ProgressOf(ds, g.direction)
    ensures ProgressOf(ds, g.direction) > 0.5 <==> Travel(ds, g.direction) > 100.0
  {
    HalfwayIsHundred(g, Sum(ds));
  }

  /** After the updates the toggle holds the progress of the last update that pointed its way. */
  lemma {:induction false} UpdatesReach(gs: seq<Gesture>, n: nat, ds: seq<Point>, i: nat, d: Direction, f: nat,
                                        t: Toggle)
    requires Wired(gs, i, d, f)
    ensures n != f ==> AfterUpdates(gs, n, ds, i, t) == t
    ensures n == f ==> Tracks(ds, d, t, AfterUpdates(gs, n, ds, i, t))
  {
    if ds != [] {
      var prior := ds[..|ds| - 1];
      UpdatesReach(gs, n, prior, i, d, f, t);
      UpdateReaches(gs, n, ds, i, d, f, AfterUpdates(gs, n, prior, i, t));
      if n == f {
        TracksStep(ds, d, t, AfterUpdates(gs, n, prior, i, t), AfterUpdates(gs, n, ds, i, t));
      }
    }
  }

  /** The direction that moves a toggle in status `s`: `d` while off, its opposite while on. */
  function Moving(s: Status, d: Direction): Direction {
    if s.Inactive? || s.Activating? then d else if s.Stopped? then Invalid else Opposite(d)
  }

  /** How far a swipe in the moving direction has taken a toggle. */
  function Moved(s: Status, progress: real): Toggle {
    if s.Inactive? || s.Activating? then Toggle(Activating, true, progress)
    else Toggle(Deactivating, true, 1.0 - progress)
  }

  ghost predicate Tracks(ds: seq<Point>, d: Direction, t: Toggle, now: Toggle) {
    var m := Moving(t.status, d);
    && ((forall k: nat :: !Heads(ds, k, m)) ==> now == t)
    && (forall k: nat :: Heads(ds, k, m) && (forall j: nat :: Heads(ds, j, m) ==> j <= k)
                         ==> now == Moved(t.status, ProgressOf(ds[..k], m)))
  }

  lemma {:induction false} LastToward(ds: seq<Point>, m: Direction) returns (k: nat)
    requires exists k: nat :: Heads(ds, k, m)
    ensures Heads(ds, k, m) && forall j: nat :: Heads(ds, j, m) ==> j <= k
  {
    k := |ds|;
    while !Heads(ds, k, m)
      invariant k <= |ds|
      invariant forall j: nat :: Heads(ds, j, m) ==> j <= k
      decreases k
    {
      var w: nat :| Heads(ds, w, m);
      k := k - 1;
    }
  }

  /** A toggle stays in the family of statuses it started in. */
  lemma {:induction false} TracksFamily(ds: seq<Point>, d: Direction, t: Toggle, now: Toggle)
    requires d != Invalid && Tracks(ds, d, t, now)
    ensures Moving(now.status, d) == Moving(t.status, d)
    ensures forall progress :: Moved(now.status, progress) == Moved(t.status, progress)
  {
    var m := Moving(t.status, d);
    if exists k: nat :: Heads(ds, k, m) {
      var k := LastToward(ds, m);
      assert now == Moved(t.status, ProgressOf(ds[..k], m));
    }
  }

  /** What one update does to a toggle, in terms of its moving direction. */
  lemma {:induction false} OneMove(ds: seq<Point>, d: Direction, was: Toggle, now: Toggle)
    requires d != Invalid
    requires now == if Heads(ds, |ds|, d) then Progressed(was, ProgressOf(ds, d))
                    else if Heads(ds, |ds|, Opposite(d)) then Regressed(was, ProgressOf(ds, Opposite(d)))
                    else was
    ensures var m := Moving(was.status, d);
            now == if Heads(ds, |ds|, m) then Moved(was.status, ProgressOf(ds, m)) else was
  {
    OppositeIsAnInvolution(d);
  }

  lemma {:induction false} TowardOnPrefix(ds: seq<Point>, m: Direction, k: nat)
    requires ds != [] && k < |ds|
    ensures ds[..|ds| - 1][..k] == ds[..k]
    ensures Heads(ds[..|ds| - 1], k, m) <==> Heads(ds, k, m)
  {
    assert ds[..|ds| - 1][..k] == ds[..k];
  }

  lemma {:induction false} TracksStep(ds: seq<Point>, d: Direction, t: Toggle, was: Toggle, now: Toggle)
    requires ds != [] && d != Invalid
    requires Tracks(ds[..|ds| - 1], d, t, was)
    requires now == if Heads(ds, |ds|, d) then Progressed(was, ProgressOf(ds, d))
                    else if Heads(ds, |ds|, Opposite(d)) then Regressed(was, ProgressOf(ds, Opposite(d)))
                    else was
    ensures Tracks(ds, d, t, now)
  {
    var prior := ds[..|ds| - 1];
    var m := Moving(t.status, d);
    TracksFamily(prior, d, t, was);
    OneMove(ds, d, was, now);
    if Heads(ds, |ds|, m) {
      assert ds[..|ds|] == ds;
    } else {
      assert now == was;
      forall k: nat
        ensures Heads(prior, k, m) <==> Heads(ds, k, m)
        ensures Heads(ds, k, m) ==> prior[..k] == ds[..k]
      {
        if k < |ds| {
          TowardOnPrefix(ds, m, k);
        }
      }
    }
  }

  /** The outcome in terms of the recogniser's headings. */
  lemma {:induction false} HeadingOutcome(gs: seq<Gesture>, n: nat, ds: seq<Point>, cancelled: bool, i: nat,
                                          d: Direction, f: nat,
                       t: Toggle)
    requires Wired(gs, i, d, f)
    ensures var m := Moving(t.status, d);
            var after := CompleteSwipe(gs, n, ds, cancelled, i, t);
            if n != f || n < 3 || (forall k: nat :: !Heads(ds, k, m)) then after == t
            else if Heads(ds, |ds|, m) then
              after == if (Travel(ds, m) > 100.0) == (m == d) then Toggle(Active, false, 1.0)
                       else Toggle(Inactive, false, 0.0)
            else
              after.inProgress && after.status == (if m == d then Activating else Deactivating)
  {
    if n >= MIN_SWIPE_FINGERS {
      var m := Moving(t.status, d);
      var now := AfterUpdates(gs, n, ds, i, t);
      UpdatesReach(gs, n, ds, i, d, f, t);
      FinishReaches(gs, n, ds, cancelled, i, d, f, now);
      OppositeIsAnInvolution(d);
      assert ds[..|ds|] == ds;
      if exists k: nat :: Heads(ds, k, m) {
        var k := LastToward(ds, m);
        ProgressValue(TouchpadSwipe(m, f, NoFeedback), ds);
      } else {
        assert !Heads(ds, |ds|, m);
      }
    }
  }

  /** End-to-end outcome of a complete swipe, for every starting status, in terms of the
      displacements alone.

      Finishing in the moving direction settles the toggle on the side that half of
      the 200 threshold decides. Finishing anywhere else sends no settling callback, so
      the toggle is left in mid-progress exactly when some update pointed its way. */
  lemma {:induction false} SwipeOutcome(gs: seq<Gesture>, n: nat, ds: seq<Point>, cancelled: bool, i: nat, d: Direction,
                                        f: nat,
                     t: Toggle)
    requires Wired(gs, i, d, f)
    ensures var m := Moving(t.status, d);
            var after := CompleteSwipe(gs, n, ds, cancelled, i, t);
            if n != f || n < 3 || (forall k: nat :: !Toward(ds, k, m)) then
              // Activating (or Deactivating) toggles that nothing points at stay stuck.
              after == t
            else if Toward(ds, |ds|, m) then
              after == if (Travel(ds, m) > 100.0) == (m == d) then Toggle(Active, false, 1.0)
                       else Toggle(Inactive, false, 0.0)
            else
              after.inProgress && after.status == (if m == d then Activating else Deactivating)
  {
    HeadingOutcome(gs, n, ds, cancelled, i, d, f, t);
    forall k: nat
      ensures Heads(ds, k, Moving(t.status, d)) <==> Toward(ds, k, Moving(t.status, d))
    {
      HeadsToward(ds, k, Moving(t.status, d));
    }
  }

  lemma {:induction false} FinishReaches(gs: seq<Gesture>, n: nat, ds: seq<Point>, cancelled: bool, i: nat,
                                         d: Direction, f: nat,
                      now: Toggle)
    requires Wired(gs, i, d, f)
    ensures DeliverAll(i, FinishSignals(gs, n, Follow(ds), cancelled), now)
            == if n == f && Heads(ds, |ds|, d) then ActiveSettled(now)
               else if n == f && Heads(ds, |ds|, Opposite(d)) then DeactivateSettled(now)
               else now
  {
    assert ds[..|ds|] == ds;
    var track := Follow(ds);
    var active := ActiveFor(gs, n, track);
    ActiveIsDirected(gs, n, track);
    ActivePair(gs, n, track, i, d, f);
    OppositeIsAnInvolution(d);
    CancelReaches(active, i, d, f, Heading(track), now);
    EndActsLikeCancel(active, i, track.delta, now);
  }

  /** Ending and cancelling a swipe leave every toggle in the same state. */
  lemma {:induction false} EndEqualsCancel(gs: seq<Gesture>, n: nat, ds: seq<Point>, i: nat, t: Toggle)
    ensures CompleteSwipe(gs, n, ds, true, i, t) == CompleteSwipe(gs, n, ds, false, i, t)
  {
    ActiveIsDirected(gs, n, Follow(ds));
    EndActsLikeCancel(ActiveFor(gs, n, Follow(ds)), i, Follow(ds).delta, AfterUpdates(gs, n, ds, i, t));
  }

  // ----- whole sessions -------------------------------------------------------

  datatype SwipeInput = SwipeInput(fingers: nat, updates: seq<Point>, cancelled: bool)

  function Session(gs: seq<Gesture>, swipes: seq<SwipeInput>, i: nat, t: Toggle): Toggle {
    if swipes == [] then t
    else
      var s := swipes[|swipes| - 1];
      CompleteSwipe(gs, s.fingers, s.updates, s.cancelled, i, Session(gs, swipes[..|swipes| - 1], i, t))
  }

  predicate On(t: Toggle) {
    t.status.Active? || t.status.Deactivating?
  }

  /** A swipe that flips a switch standing at `on`: right fingers, finishing in the
      direction that leaves that side, more than half of the threshold. */
  ghost predicate Flips(s: SwipeInput, d: Direction, f: nat, on: bool) {
    var m := if on then Opposite(d) else d;
    s.fingers == f && f >= 3 && Toward(s.updates, |s.updates|, m) && Travel(s.updates, m) > 100.0
  }

  /** The plain on/off switch a toggle is meant to be. */
  ghost function Switch(swipes: seq<SwipeInput>, d: Direction, f: nat, on: bool): bool {
    if swipes == [] then on
    else
      var was := Switch(swipes[..|swipes| - 1], d, f, on);
      if Flips(swipes[|swipes| - 1], d, f, was) then !was else was
  }

  /** Over any session, and whatever progress is left dangling in between, the
      five-state toggle refines the on/off switch. */
  lemma {:induction false} SessionRefinesSwitch(gs: seq<Gesture>, swipes: seq<SwipeInput>, i: nat, d: Direction, f: nat,
                                                t: Toggle)
    requires Wired(gs, i, d, f)
    requires !t.status.Stopped? && (t.inProgress <==> t.status.Activating? || t.status.Deactivating?)
    ensures var after := Session(gs, swipes, i, t);
            && On(after) == Switch(swipes, d, f, On(t))
            && !after.status.Stopped?
            && (after.inProgress <==> after.status.Activating? || after.status.Deactivating?)
  {
    if swipes != [] {
      var s := swipes[|swipes| - 1];
      var before := Session(gs, swipes[..|swipes| - 1], i, t);
      SessionRefinesSwitch(gs, swipes[..|swipes| - 1], i, d, f, t);
      SwipeOutcome(gs, s.fingers, s.updates, s.cancelled, i, d, f, before);
      OppositeIsAnInvolution(d);
      var m := Moving(before.status, d);
      if forall k: nat :: !Toward(s.updates, k, m) {
        assert !Toward(s.updates, |s.updates|, m);
      }
    }
  }

  /** Reversing out of a swipe strands the toggle: it stays in mid-progress through every
      later session in which no update points its way. */
  lemma {:induction false} ReversalStrands(gs: seq<Gesture>, swipes: seq<SwipeInput>, i: nat, d: Direction, f: nat,
                                           t: Toggle)
    requires Wired(gs, i, d, f)
    requires t.status.Activating? || t.status.Deactivating?
    requires forall s: SwipeInput, k: nat :: s in swipes ==> !Toward(s.updates, k, Moving(t.status, d))
    ensures Session(gs, swipes, i, t) == t
  {
    if swipes != [] {
      var prior, s := swipes[..|swipes| - 1], swipes[|swipes| - 1];
      assert swipes == prior + [s];
      ReversalStrands(gs, prior, i, d, f, t);
      SwipeOutcome(gs, s.fingers, s.updates, s.cancelled, i, d, f, t);
    }
  }
}
