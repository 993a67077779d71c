/** The multitask view driving modes and focus together (src/plugins/multitaskview), and what
    stays safe in stretches of blocked modes. */
module MultitaskView {
  import opened Prelude
  import DesktopMode
  import opened Focus
  import opened FocusController

  datatype Desktop = Desktop(desk: DesktopMode.State, focus: Focus.State)

  /** `Seats` are requests to activate, force-activate and inactivate. `Desk` are the events of
      modes and view, with the surface chosen in the view and the surfaces as they are once
      a forced activation restored what it unminimises. */
  datatype Input =
    | Desk(e: DesktopMode.Event, chosen: Option<Surface>, restored: Env)
    | Seats(s: Focus.Event)

  /** An event and the surfaces as they are when it comes. */
  datatype Moment = Moment(env: Env, event: Input)

  // ----- the events as functions ------------------------------------------------------

  /** What an exiting view gives the focus to. */
  function Successor(f: Focus.State, chosen: Option<Surface>): Option<Surface> {
    if chosen.Some? then chosen else Latest(f.history)
  }

  function Handover(env: Env, restored: Env, f: Focus.State, chosen: Option<Surface>): (after: Focus.State)
    requires Valid(f)
    ensures |after.seats| == |f.seats| && after.primary == f.primary && after.blocked == f.blocked
  {
    if Successor(f, chosen).None? then f else Forced(env, restored, f, Successor(f, chosen), f.primary)
  }

  /** The view hands the focus on when it exits, unless it exits because the focus moved. */
  predicate HandsOver(d: DesktopMode.State, e: DesktopMode.Event) {
    DesktopMode.Exits(d, e) && !e.FocusMoves?
  }

  predicate Enters(d: DesktopMode.State, e: DesktopMode.Event) {
    e.Toggle? && !DesktopMode.Exits(d, e)
  }

  /** finishLockScreenTransition on the seats. */
  function Refocused(env: Env, f: Focus.State): (after: Focus.State)
    requires Valid(f)
    ensures |after.seats| == |f.seats| && after.primary == f.primary && after.blocked == f.blocked
  {
    var held := f.seats[f.primary].activated;
    if held.Some? && env(held.value).hasFocusCapability then Requested(env, f, held, f.primary) else f
  }

  function FocusAfter(m: Moment, s: Desktop): (after: Focus.State)
    requires m.event.Desk? && Valid(s.focus)
    ensures |after.seats| == |s.focus.seats| && after.primary == s.focus.primary
  {
    var Desk(e, chosen, restored) := m.event;
    if HandsOver(s.desk, e)
    then Handover(m.env, restored, s.focus.(blocked := false), if e.Choose? then chosen else None)
    else if Enters(s.desk, e) then Activation(m.env, s.focus.(showingDesktop := false), None, s.focus.primary)
    else if e.Unlock? then Refocused(m.env, s.focus)
    else s.focus
  }

  function Next(m: Moment, s: Desktop): (after: Desktop)
    requires Valid(s.focus)
    ensures |after.focus.seats| == |s.focus.seats| && after.focus.primary == s.focus.primary
  {
    match m.event
    case Desk(e, _, _) =>
      var desk := DesktopMode.Step(s.desk, e);
      Desktop(desk, FocusAfter(m, s).(blocked := desk.blocked))
    case Seats(e) => s.(focus := SeatStep(m.env, s.focus, e))
  }

  function SeatStep(env: Env, f: Focus.State, e: Focus.Event): (after: Focus.State)
    ensures |after.seats| == |f.seats| && after.primary == f.primary && after.blocked == f.blocked
  {
    Focus.Step(env, f, e)
  }

  function Run(s: Desktop, moments: seq<Moment>): (after: Desktop)
    requires Valid(s.focus)
    ensures |after.focus.seats| == |s.focus.seats| && after.focus.primary == s.focus.primary
  {
    if moments == [] then s else Next(moments[|moments| - 1], Run(s, moments[..|moments| - 1]))
  }

  // ----- stretches of blocked modes ---------------------------------------------------------

  /** Only surfaces in `locks` are lock-screen surfaces at this moment. */
  ghost predicate LocksKnown(m: Moment, locks: set<Surface>) {
    && LocksAre(m.env, locks)
    && (m.event.Desk? ==> LocksAre(m.event.restored, locks))
    && (m.event.Seats? && m.event.s.Force? ==> LocksAre(m.event.s.restored, locks))
  }

  predicate Synced(s: Desktop) {
    Valid(s.focus) && s.focus.blocked == s.desk.blocked
  }

  /** The block is on, and every seat's activated surface is the one held on entry, none, or a
      lock-screen surface. */
  predicate Secure(was: seq<Seat>, s: Desktop, locks: set<Surface>) {
    s.focus.blocked && Guarded(was, s.focus.seats, locks)
  }

  /** The exiting view would activate a surface that is neither the one held on entry nor a
      lock screen. */
  predicate Intrudes(was: seq<Seat>, m: Moment, s: Desktop, locks: set<Surface>)
    requires m.event.Desk? && s.focus.primary < |was|
  {
    var Desk(e, chosen, restored) := m.event;
    var landing := Landing(m.env, restored, Successor(s.focus, if e.Choose? then chosen else None));
    HandsOver(s.desk, e) && landing.Some? && landing.value !in locks && landing != was[s.focus.primary].activated
  }

  /** An event that a blocked mode survives: no view exits in it, and one that exits on the way
      from the task switcher to the lock screen brings no other window up. */
  predicate Calm(was: seq<Seat>, m: Moment, s: Desktop, locks: set<Surface>)
    requires s.focus.primary < |was|
  {
    m.event.Desk? ==> DesktopMode.Orderly(s.desk, m.event.e) && !Intrudes(was, m, s, locks)
  }

  lemma {:induction false} HandoverLands(m: Moment, s: Desktop, j: nat)
    requires Valid(s.focus) && j < |s.focus.seats| && m.event.Desk? && HandsOver(s.desk, m.event.e)
    ensures var landing := Landing(m.env, m.event.restored,
                                   Successor(s.focus, if m.event.e.Choose? then m.event.chosen else None));
            FocusAfter(m, s).seats[j].activated
            == if j == s.focus.primary && landing.Some? then landing else s.focus.seats[j].activated
  {
    var target := Successor(s.focus, if m.event.e.Choose? then m.event.chosen else None);
    ForceLands(m.env, m.event.restored, s.focus.(blocked := false), target, s.focus.primary, j);
  }

  /** Without a handover no event of modes and view activates anything. */
  lemma {:induction false} OthersActivateNothing(m: Moment, s: Desktop, j: nat)
    requires Valid(s.focus) && j < |s.focus.seats| && m.event.Desk? && !HandsOver(s.desk, m.event.e)
    ensures var now := FocusAfter(m, s).seats[j].activated; now == s.focus.seats[j].activated || now.None?
  {
    if Enters(s.desk, m.event.e) {
      GrantMovesOneSeat(m.env, s.focus.(showingDesktop := false), None, s.focus.primary, j);
    }
  }

  /** An event of modes and view keeps the guard exactly when it does not intrude. */
  lemma {:induction false} DeskStepGuards(was: seq<Seat>, m: Moment, s: Desktop, locks: set<Surface>)
    requires Valid(s.focus) && m.event.Desk? && Guarded(was, s.focus.seats, locks)
    ensures Guarded(was, FocusAfter(m, s).seats, locks) <==> !Intrudes(was, m, s, locks)
  {
    forall j | 0 <= j < |was|
      ensures j != s.focus.primary || !Intrudes(was, m, s, locks)
              ==> SeatGuarded(was[j], FocusAfter(m, s).seats[j], locks)
    {
      assert SeatGuarded(was[j], s.focus.seats[j], locks);
      if HandsOver(s.desk, m.event.e) {
        HandoverLands(m, s, j);
      } else {
        OthersActivateNothing(m, s, j);
      }
    }
    if Intrudes(was, m, s, locks) {
      HandoverLands(m, s, s.focus.primary);
      assert !SeatGuarded(was[s.focus.primary], FocusAfter(m, s).seats[s.focus.primary], locks);
    }
  }

  /** From one blocked mode to the next, a step is secure if and only if it is calm. */
  lemma {:induction false} SecureStepIffCalm(was: seq<Seat>, m: Moment, s: Desktop, locks: set<Surface>)
    requires Synced(s) && Secure(was, s, locks) && LocksKnown(m, locks)
    requires DesktopMode.Blocks(s.desk.mode) && DesktopMode.Blocks(Next(m, s).desk.mode)
    ensures Synced(Next(m, s))
    ensures Secure(was, Next(m, s), locks) <==> Calm(was, m, s, locks)
  {
    if m.event.Desk? {
      DesktopMode.AgreementNeedsOrder(s.desk, m.event.e);
      DeskStepGuards(was, m, s, locks);
    } else {
      StepGuards(m.env, was, s.focus, m.event.s, locks);
    }
  }

  /** Every state of the run has a mode that blocks. */
  predicate BlockedThroughout(s: Desktop, moments: seq<Moment>)
    requires Valid(s.focus)
  {
    DesktopMode.Blocks(Run(s, moments).desk.mode) && (moments == [] || BlockedThroughout(s, moments[..|moments| - 1]))
  }

  predicate SecureThroughout(was: seq<Seat>, s: Desktop, moments: seq<Moment>, locks: set<Surface>)
    requires Valid(s.focus)
  {
    Secure(was, Run(s, moments), locks) && (moments == [] || SecureThroughout(was, s, moments[..|moments| - 1], locks))
  }

  predicate CalmThroughout(was: seq<Seat>, s: Desktop, moments: seq<Moment>, locks: set<Surface>)
    requires Valid(s.focus) && |was| == |s.focus.seats|
  {
    moments == []
    || (CalmThroughout(was, s, moments[..|moments| - 1], locks)
        && Calm(was, moments[|moments| - 1], Run(s, moments[..|moments| - 1]), locks))
  }

  /** Throughout any stretch of blocked modes, under any mode changes, view events, activations,
      force-activations and inactivations and however the surfaces change, the block stays on
      and each seat's activated surface is the one held on entry, none or a lock screen, if
      and only if every event is calm. */
  lemma {:induction false} BlockedStretchIsSafe(s: Desktop, moments: seq<Moment>, locks: set<Surface>)
    requires Synced(s) && s.focus.blocked && BlockedThroughout(s, moments)
    requires forall k :: 0 <= k < |moments| ==> LocksKnown(moments[k], locks)
    ensures SecureThroughout(s.focus.seats, s, moments, locks) <==> CalmThroughout(s.focus.seats, s, moments, locks)
    ensures SecureThroughout(s.focus.seats, s, moments, locks) ==> Synced(Run(s, moments))
  {
    if moments != [] {
      var prior, m := moments[..|moments| - 1], moments[|moments| - 1];
      BlockedStretchIsSafe(s, prior, locks);
      if SecureThroughout(s.focus.seats, s, prior, locks) {
        SecureStepIffCalm(s.focus.seats, m, Run(s, prior), locks);
      }
    }
  }

  // ----- what an exit can do --------------------------------------------------------------

  /** A plain window that can be activated. */
  predicate Ordinary(a: Attr) {
    && a.kind == Toplevel && !a.imCandidatePanel && a.acceptKeyboardFocus && a.hasActiveCapability
    && a.modal.None? && a.hasShellSurface && a.mapped
  }

  /** A view that opens ends a shown desktop and takes activation and focus from the primary seat. */
  lemma {:induction false} EnteringClears(m: Moment, s: Desktop)
    requires Valid(s.focus) && m.event.Desk? && m.event.e.Toggle?
    requires s.desk.view.None? || s.desk.view.value.exited != (m.event.e.reason == DesktopMode.Gesture)
    ensures !Next(m, s).focus.showingDesktop && Next(m, s).focus.seats[s.focus.primary] == Seat(None, None)
    ensures Next(m, s).focus.history == s.focus.history
  {
  }

  /** A click on `w` in the view activates `w` on the primary seat if it can land, whatever the
      history; every other exit that hands over does so for the head of the history. */
  lemma {:induction false} ClickActivates(m: Moment, s: Desktop, w: Surface)
    requires Valid(s.focus) && s.desk.view.Some? && m.event.Desk?
    ensures m.event.e == DesktopMode.Choose && m.event.chosen == Some(w)
            && Landing(m.env, m.event.restored, Some(w)).Some? ==>
              Next(m, s).focus.seats[s.focus.primary].activated == Landing(m.env, m.event.restored, Some(w))
    ensures m.event.e == DesktopMode.PrepareLock(true) && s.focus.history != [] && s.focus.history[0] == w
            && Landing(m.env, m.event.restored, Some(w)).Some? ==>
              Next(m, s).focus.seats[s.focus.primary].activated == Landing(m.env, m.event.restored, Some(w))
  {
    if HandsOver(s.desk, m.event.e) {
      HandoverLands(m, s, s.focus.primary);
    }
  }

  /** A plain window that is clicked is activated. */
  lemma {:induction false} ClickOnPlainWindow(m: Moment, s: Desktop, w: Surface)
    requires Valid(s.focus) && s.desk.view.Some? && m.event.Desk? && m.event.e == DesktopMode.Choose
    requires m.event.chosen == Some(w) && Ordinary(m.env(w)) && Ordinary(m.event.restored(w))
    ensures Next(m, s).focus.seats[s.focus.primary].activated == Some(w)
  {
    ClickActivates(m, s, w);
  }

  /** Unlocking gives the focus of the primary seat to its activated window if that can have it,
      unless a surface of higher priority holds it, and leaves it alone otherwise. */
  lemma {:induction false} UnlockRefocuses(m: Moment, s: Desktop, v: Surface)
    requires Valid(s.focus) && m.event.Desk? && m.event.e == DesktopMode.Unlock
    requires s.focus.seats[s.focus.primary].activated == Some(v) && !m.env(v).kind.Popup?
    ensures var held := s.focus.seats[s.focus.primary].focus;
            Next(m, s).focus.seats[s.focus.primary]
            == Seat(Some(v), if m.env(v).hasFocusCapability
                                && (held.None? || m.env(held.value).priority <= m.env(v).priority)
                             then Some(v) else held)
  {
  }

  /** Locking the screen while the task switcher is up over a view activates the latest window
      in between, although both modes block. */
  lemma {:induction false} LockOverViewIntrudes(m: Moment, s: Desktop, w: Surface)
    requires Synced(s) && s.desk.mode == DesktopMode.WindowSwitch && s.desk.blocked && s.desk.view.Some?
    requires m.event.Desk? && m.event.e == DesktopMode.PrepareLock(false)
    requires Latest(s.focus.history) == Some(w) && Ordinary(m.env(w)) && Ordinary(m.event.restored(w))
    ensures var after := Next(m, s);
            && after.desk.mode == DesktopMode.LockScreen && after.focus.blocked
            && after.focus.seats[s.focus.primary].activated == Some(w)
  {
    HandoverLands(m, s, s.focus.primary);
  }

  /** Once an exit has lifted the block, any plain window can be activated although the mode
      still blocks. */
  lemma {:induction false} UnblockedModeAdmits(m: Moment, s: Desktop, w: Surface)
    requires Valid(s.focus) && !s.focus.blocked && Ordinary(m.env(w))
    requires m.event == Seats(Activate(Some(w), s.focus.primary))
    ensures Next(m, s).focus.seats[s.focus.primary].activated == Some(w) && Next(m, s).desk == s.desk
  {
    GrantLands(m.env, s.focus, w, s.focus.primary, s.focus.primary);
  }

  /** A view that a gesture began to open, with the task switcher over it: nothing is active. */
  lemma {:induction false} SwitcherOverView(env: Env, f: Focus.State)
    requires Valid(f) && !f.blocked
    ensures var s := Next(Moment(env, Desk(DesktopMode.StartTaskSwitch, None, env)),
                          Next(Moment(env, Desk(DesktopMode.Toggle(DesktopMode.Gesture), None, env)),
                               Desktop(DesktopMode.START, f)));
            && Synced(s) && s.desk.mode == DesktopMode.WindowSwitch && s.desk.blocked
            && s.desk.view.Some? && DesktopMode.Notices(s.desk.view.value)
            && s.focus.history == f.history && s.focus.primary == f.primary
            && s.focus.seats[f.primary].activated == None
  {
    ActivatedMovesOneSeat(env, f.(showingDesktop := false), None, f.primary, f.primary);
  }

  /** Both happen to a compositor that just started: with the switcher over the view, locking
      brings the latest window up behind the lock screen, and the switcher taking the focus
      lets any window be activated in the switcher's mode. */
  lemma {:induction false} ExitsBreakTheGuard(env: Env, f: Focus.State, w: Surface)
    requires Valid(f) && !f.blocked && Latest(f.history) == Some(w) && Ordinary(env(w))
    ensures var s := Next(Moment(env, Desk(DesktopMode.StartTaskSwitch, None, env)),
                          Next(Moment(env, Desk(DesktopMode.Toggle(DesktopMode.Gesture), None, env)),
                               Desktop(DesktopMode.START, f)));
            var locked := Next(Moment(env, Desk(DesktopMode.PrepareLock(false), None, env)), s);
            var moved := Next(Moment(env, Desk(DesktopMode.FocusMoves, None, env)), s);
            var raised := Next(Moment(env, Seats(Activate(Some(w), f.primary))), moved);
            && s.focus.seats[f.primary].activated == None
            && locked.desk.mode == DesktopMode.LockScreen && locked.focus.seats[f.primary].activated == Some(w)
            && raised.desk.mode == DesktopMode.WindowSwitch && raised.focus.seats[f.primary].activated == Some(w)
  {
    SwitcherOverView(env, f);
    var s := Next(Moment(env, Desk(DesktopMode.StartTaskSwitch, None, env)),
                  Next(Moment(env, Desk(DesktopMode.Toggle(DesktopMode.Gesture), None, env)),
                       Desktop(DesktopMode.START, f)));
    LockOverViewIntrudes(Moment(env, Desk(DesktopMode.PrepareLock(false), None, env)), s, w);
    var moved := Next(Moment(env, Desk(DesktopMode.FocusMoves, None, env)), s);
    UnblockedModeAdmits(Moment(env, Seats(Activate(Some(w), f.primary))), moved, w);
  }

  // ----- the objects ------------------------------------------------------------------------

  class Plugin {
    const controller: Controller
    var view: Option<DesktopMode.View>

    constructor (controller: Controller)
      ensures this.controller == controller && view.None?
    {
      this.controller, view := controller, None;
    }

    function Now(): Desktop
      reads this, controller, controller.server
    {
      Desktop(controller.server.With(view), controller.View())
    }

    ghost predicate Ready()
      reads this, controller
    {
      controller.primary < |controller.seats|
    }

    /** cancelShowDesktop, then nothing is activated, then the mode. */
    method Enter(env: Env, reason: DesktopMode.Reason)
      requires Ready() && view.Some?
      modifies this, controller, controller.server
      ensures Ready()
      ensures var was := old(Now());
              var desk := DesktopMode.Entered(was.desk, was.desk.view.value, reason);
              Now() == Desktop(desk, Activation(env, was.focus.(showingDesktop := false), None,
                                                was.focus.primary).(blocked := desk.blocked))
    {
      controller.showingDesktop := false;
      controller.ActivateSurface(env, None, controller.primary);
      if reason == DesktopMode.ShortcutKey {
        controller.server.SetCurrentMode(DesktopMode.Multitaskview);
      }
      view := Some(view.value.(exited := false, watching := true));
    }

    method HandFocusOver(env: Env, restored: Env, surface: Option<Surface>)
      requires Ready()
      modifies controller
      ensures Ready() && controller.View() == Handover(env, restored, old(controller.View()), surface)
    {
      var target := if surface.Some? then surface else Latest(controller.history);
      if target.Some? {
        controller.ForceActivateSurface(env, restored, target, controller.primary);
      }
    }

    /** Lifts the block, hands the focus over, and only then leaves the mode. */
    method Exit(env: Env, restored: Env, surface: Option<Surface>, immediately: bool, restoreFocus: bool)
      requires Ready() && view.Some?
      modifies this, controller, controller.server
      ensures Ready()
      ensures var was := old(Now());
              var desk := DesktopMode.Left(was.desk, was.desk.view.value, immediately);
              var open := was.focus.(blocked := false);
              Now() == Desktop(desk, (if restoreFocus then Handover(env, restored, open, surface)
                                      else open).(blocked := desk.blocked))
    {
      controller.server.SetBlockActivateSurface(false);
      if restoreFocus {
        HandFocusOver(env, restored, surface);
      }
      CloseView(immediately);
    }

    method CloseView(immediately: bool)
      requires view.Some?
      modifies this`view, controller.server
      ensures controller.server.With(view)
              == DesktopMode.Closed(old(controller.server.With(view)), old(view.value), immediately)
    {
      view := Some(view.value.(watching := false));
      if controller.server.currentMode == DesktopMode.Multitaskview {
        controller.server.SetCurrentMode(DesktopMode.Normal);
      }
      if immediately {
        view := Some(view.value.(visible := false));
      } else {
        view := Some(view.value.(exited := true));
      }
    }

    method ToggleMultitaskView(env: Env, restored: Env, reason: DesktopMode.Reason)
      requires Ready()
      modifies this, controller, controller.server
      ensures Ready() && Now() == Next(Moment(env, Desk(DesktopMode.Toggle(reason), None, restored)), old(Now()))
    {
      if view.None? {
        view := Some(DesktopMode.NEW_VIEW);
        Enter(env, reason);
      } else if reason == DesktopMode.Gesture {
        if view.value.exited {
          Exit(env, restored, None, false, true);
        } else {
          Enter(env, reason);
        }
      } else {
        if view.value.exited {
          Enter(env, reason);
        } else {
          Exit(env, restored, None, false, true);
        }
      }
    }

    method OnActiveFocusItemChanged(env: Env, restored: Env)
      requires Ready()
      modifies this, controller, controller.server
      ensures Ready() && Now() == Next(Moment(env, Desk(DesktopMode.FocusMoves, None, restored)), old(Now()))
    {
      if view.Some? && view.value.watching {
        if view.value.exited || !view.value.visible {
          return;
        }
        Exit(env, restored, None, false, false);
      }
    }

    method CommitGesture(env: Env, restored: Env, triggered: bool)
      requires Ready()
      modifies this, controller.server
      ensures Ready() && Now() == Next(Moment(env, Desk(DesktopMode.CommitGesture(triggered), None, restored)),
                                       old(Now()))
    {
      if view.Some? {
        if view.value.committed == triggered {
          return;
        }
        view := Some(view.value.(committed := triggered));
        if triggered {
          controller.server.SetCurrentMode(DesktopMode.Multitaskview);
        } else if controller.server.currentMode == DesktopMode.Multitaskview {
          controller.server.SetCurrentMode(DesktopMode.Normal);
        }
      }
    }

    method PrepareLockScreenTransition(env: Env, restored: Env, isShutdown: bool)
      requires Ready()
      modifies this, controller, controller.server
      ensures Ready() && Now() == Next(Moment(env, Desk(DesktopMode.PrepareLock(isShutdown), None, restored)),
                                       old(Now()))
    {
      if view.Some? {
        Exit(env, restored, None, true, true);
      }
      controller.server.DeleteTaskSwitch();
      if isShutdown {
        return;
      }
      controller.server.SetCurrentMode(DesktopMode.LockScreen);
    }

    method FinishLockScreenTransition(env: Env, restored: Env)
      requires Ready()
      modifies controller, controller.server
      ensures Ready() && Now() == Next(Moment(env, Desk(DesktopMode.Unlock, None, restored)), old(Now()))
    {
      controller.server.SetCurrentMode(DesktopMode.Normal);
      var surface := controller.seats[controller.primary].activated;
      if surface.Some? && env(surface.value).hasFocusCapability {
        controller.RequestKeyboardFocus(env, surface, controller.primary);
      }
    }
  }
}
