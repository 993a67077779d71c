/** Desktop modes, the activation block and the multitask view that also writes the block:
    src/core/waylandserver.cpp and src/plugins/multitaskview. */
module DesktopMode {
  import opened Prelude

  datatype Mode = Normal | LockScreen | WindowSwitch | Multitaskview

  datatype Reason = ShortcutKey | Gesture

  /** The view object. A view that is not visible is about to be deleted. `exited` is its
      status, `committed` its m_gestureCommitted, and `watching` whether it is connected to
      changes of the focused item. */
  datatype View = View(exited: bool, visible: bool, committed: bool, watching: bool)

  datatype State = State(mode: Mode, blocked: bool, view: Option<View>)

  const START := State(Normal, false, None)
  const NEW_VIEW := View(false, true, false, false)

  predicate Blocks(mode: Mode) {
    mode != Normal && mode != Multitaskview
  }

  /** The block flag is what the mode says. */
  predicate Agrees(s: State) {
    s.blocked == Blocks(s.mode)
  }

  // ----- what writes mode and block -------------------------------------------------

  function Switched(s: State, mode: Mode): State {
    if s.mode == mode then s else s.(mode := mode, blocked := Blocks(mode))
  }

  /** deleteTaskSwitch */
  function TaskSwitchDeleted(s: State): State {
    if s.mode == WindowSwitch then Switched(s, Normal) else s
  }

  /** Multitaskview::enter */
  function Entered(s: State, view: View, reason: Reason): State {
    var shown := s.(view := Some(view.(exited := false, watching := true)));
    if reason == ShortcutKey then Switched(shown, Multitaskview) else shown
  }

  /** Multitaskview::exit: lifts the block in whatever mode it finds. */
  function Left(s: State, view: View, immediately: bool): State {
    Closed(s.(blocked := false), view, immediately)
  }

  /** The end of exit, once the focus is handed over. */
  function Closed(s: State, view: View, immediately: bool): State {
    var gone := if immediately then view.(visible := false, watching := false)
                else view.(exited := true, watching := false);
    var left := s.(view := Some(gone));
    if s.mode == Multitaskview then Switched(left, Normal) else left
  }

  function Toggled(s: State, reason: Reason): State {
    match s.view
    case None => Entered(s, NEW_VIEW, reason)
    case Some(view) => if view.exited == (reason == Gesture) then Left(s, view, false) else Entered(s, view, reason)
  }

  function Committed(s: State, triggered: bool): State {
    if s.view.None? || s.view.value.committed == triggered then s
    else
      var done := s.(view := Some(s.view.value.(committed := triggered)));
      if triggered then Switched(done, Multitaskview)
      else if s.mode == Multitaskview then Switched(done, Normal)
      else done
  }

  predicate Notices(view: View) {
    view.watching && !view.exited && view.visible
  }

  /** prepareLockScreenTransition */
  function LockPrepared(s: State, isShutdown: bool): State {
    var left := if s.view.Some? then Left(s, s.view.value, true) else s;
    var alone := TaskSwitchDeleted(left);
    if isShutdown then alone else Switched(alone, LockScreen)
  }

  // ----- runs ---------------------------------------------------------------------

  /** `Toggle` with the shortcut reason is also what a shell client may ask for in any mode.
      `Choose` is a click that leaves the view, `FocusMoves` focus going to an item outside
      it, `Hide` the end of its animation and `Delete` its deferred deletion. */
  datatype Event =
    | StartTaskSwitch
    | EndTaskSwitch
    | Toggle(reason: Reason)
    | SetStatus(exited: bool)
    | CommitGesture(triggered: bool)
    | FocusMoves
    | Choose
    | PrepareLock(isShutdown: bool)
    | Unlock
    | Hide
    | Delete

  /** What the callers check. Shortcuts and gestures need a mode that does not block, and so
      does the shutdown menu. */
  predicate Enabled(s: State, e: Event) {
    match e
    case StartTaskSwitch => s.mode == Normal || s.mode == WindowSwitch
    case Toggle(reason) => reason == Gesture ==> !Blocks(s.mode)
    case SetStatus(_) => !Blocks(s.mode)
    case CommitGesture(_) => !Blocks(s.mode)
    case PrepareLock(isShutdown) => isShutdown ==> !Blocks(s.mode)
    case Choose => s.view.Some? && s.view.value.visible
    case Hide => s.view.Some? && s.view.value.visible
    case Delete => s.view.Some? && !s.view.value.visible
    case _ => true
  }

  function Step(s: State, e: Event): State {
    match e
    case StartTaskSwitch => Switched(s, WindowSwitch)
    case EndTaskSwitch => TaskSwitchDeleted(s)
    case Toggle(reason) => Toggled(s, reason)
    case SetStatus(exited) => if s.view.Some? then s.(view := Some(s.view.value.(exited := exited))) else s
    case CommitGesture(triggered) => Committed(s, triggered)
    case FocusMoves => if s.view.Some? && Notices(s.view.value) then Left(s, s.view.value, false) else s
    case Choose => if s.view.Some? then Left(s, s.view.value, false) else s
    case PrepareLock(isShutdown) => LockPrepared(s, isShutdown)
    case Unlock => Switched(s, Normal)
    case Hide => if s.view.Some? then s.(view := Some(s.view.value.(visible := false))) else s
    case Delete => s.(view := None)
  }

  function Run(s: State, events: seq<Event>): State {
    if events == [] then s else Step(Run(s, events[..|events| - 1]), events[|events| - 1])
  }

  predicate Legal(s: State, events: seq<Event>) {
    events == [] || (Legal(s, events[..|events| - 1]) && Enabled(Run(s, events[..|events| - 1]), events[|events| - 1]))
  }

  // ----- flag and mode ---------------------------------------------------------------

  /** The event makes a view exit. */
  predicate Exits(s: State, e: Event) {
    s.view.Some?
    && match e
       case Toggle(reason) => s.view.value.exited == (reason == Gesture)
       case FocusMoves => Notices(s.view.value)
       case Choose => true
       case PrepareLock(_) => true
       case _ => false
  }

  /** No view exits in a blocking mode, except on the way from the task switcher to the lock
      screen or the shutdown menu, where the mode changes afterwards. */
  predicate Orderly(s: State, e: Event) {
    Exits(s, e) && Blocks(s.mode) ==> e.PrepareLock? && s.mode == WindowSwitch
  }

  /** A step keeps flag and mode in agreement if and only if it is orderly. */
  lemma {:induction false} AgreementNeedsOrder(s: State, e: Event)
    requires Agrees(s)
    ensures Agrees(Step(s, e)) <==> Orderly(s, e)
  {
  }

  predicate AgreesThroughout(s: State, events: seq<Event>) {
    Agrees(Run(s, events)) && (events == [] || AgreesThroughout(s, events[..|events| - 1]))
  }

  predicate AllOrderly(s: State, events: seq<Event>) {
    events == [] || (AllOrderly(s, events[..|events| - 1])
                     && Orderly(Run(s, events[..|events| - 1]), events[|events| - 1]))
  }

  /** Throughout a run the block flag holds exactly in the blocking modes if and only if every
      event is orderly. */
  lemma {:induction false} FlagFollowsMode(s: State, events: seq<Event>)
    requires Agrees(s)
    ensures AgreesThroughout(s, events) <==> AllOrderly(s, events)
  {
    if events != [] {
      var prior := events[..|events| - 1];
      FlagFollowsMode(s, prior);
      if AgreesThroughout(s, prior) {
        AgreementNeedsOrder(Run(s, prior), events[|events| - 1]);
      }
    }
  }

  /** Any change of mode repairs the flag: activation is blocked exactly while the screen is locked
      or the task switcher is up. */
  lemma {:induction false} ModeChangeRepairs(s: State, mode: Mode)
    requires s.mode != mode
    ensures Agrees(Switched(s, mode))
    ensures Switched(s, mode).blocked <==> mode == LockScreen || mode == WindowSwitch
    ensures Switched(s, s.mode) == s
  {
  }

  /** A view that a gesture began to open leaves the mode Normal, so the task switcher can
      start over it; when the switcher takes the focus the view exits and lifts the block. */
  lemma {:induction false} SwitcherCanBeUnblocked()
    ensures var events := [Toggle(Gesture), StartTaskSwitch, FocusMoves];
            && Legal(START, events)
            && Run(START, events).mode == WindowSwitch && !Run(START, events).blocked
  {
    var events := [Toggle(Gesture), StartTaskSwitch, FocusMoves];
    assert events[..2] == [Toggle(Gesture), StartTaskSwitch] && events[..2][..1] == [Toggle(Gesture)]
           && events[..1][..0] == [];
    assert Legal(START, [Toggle(Gesture)])
           && Run(START, [Toggle(Gesture)]) == State(Normal, false, Some(View(false, true, false, true)));
    assert Legal(START, events[..2])
           && Run(START, events[..2]) == State(WindowSwitch, true, Some(View(false, true, false, true)));
  }

  /** The mode a view leaves behind when it exits. */
  function AfterExit(mode: Mode): Mode {
    if mode == Multitaskview then Normal else mode
  }

  /** Where every event leads: which mode is in force afterwards. */
  lemma {:induction false} ModeAfter(s: State, e: Event)
    ensures e.StartTaskSwitch? ==> Step(s, e).mode == WindowSwitch
    ensures e.EndTaskSwitch? ==> Step(s, e).mode == if s.mode == WindowSwitch then Normal else s.mode
    ensures e.Unlock? ==> Step(s, e).mode == Normal
    ensures e == PrepareLock(false) ==> Step(s, e).mode == LockScreen
    ensures e == PrepareLock(true) ==>
              Step(s, e).mode == if s.mode == WindowSwitch then Normal
                                 else if s.view.Some? then AfterExit(s.mode) else s.mode
    ensures e.Toggle? ==>
              Step(s, e).mode == if s.view.Some? && s.view.value.exited == (e.reason == Gesture) then AfterExit(s.mode)
                                 else if e.reason == ShortcutKey then Multitaskview else s.mode
    ensures e.CommitGesture? && s.view.Some? && s.view.value.committed != e.triggered ==>
              Step(s, e).mode == if e.triggered then Multitaskview else AfterExit(s.mode)
    ensures e.CommitGesture? && (s.view.None? || s.view.value.committed == e.triggered) ==> Step(s, e) == s
    ensures e.Choose? && s.view.Some? ==> Step(s, e).mode == AfterExit(s.mode)
    ensures e.FocusMoves? ==>
              Step(s, e).mode == if Exits(s, e) then AfterExit(s.mode) else s.mode
    ensures e.SetStatus? || e.Hide? || e.Delete? ==> Step(s, e).mode == s.mode && Step(s, e).blocked == s.blocked
  {
  }

  /** What becomes of the view: a toggle creates it, a lock hides it, an exit marks it, a change of
      focus makes it exit only while it is open, shown and watching, and it goes by its deletion
      alone. */
  lemma {:induction false} ViewAfter(s: State, e: Event)
    ensures Step(s, e).view.None? <==> e.Delete? || (s.view.None? && !e.Toggle?)
    ensures e.Toggle? && s.view.None? ==>
              Step(s, e).view == Some(View(exited := false, visible := true, committed := false, watching := true))
    ensures s.view.Some? && (e.PrepareLock? || e.Hide?) ==> !Step(s, e).view.value.visible
    ensures s.view.Some? && Exits(s, e) ==> !Step(s, e).view.value.watching
    ensures s.view.Some? && Exits(s, e) && !e.PrepareLock? ==>
              Step(s, e).view.value.exited && Step(s, e).view.value.visible == s.view.value.visible
    ensures e.FocusMoves? ==>
              (Exits(s, e) <==> s.view.Some? && s.view.value.watching && !s.view.value.exited && s.view.value.visible)
    ensures s.view.Some? && e.SetStatus? ==> Step(s, e).view == Some(s.view.value.(exited := e.exited))
  {
  }

  // ----- the lock screen -----------------------------------------------------------------

  /** While the screen is locked, a view still around is hidden and waits for its deletion. */
  predicate ViewGone(s: State) {
    s.mode == LockScreen && s.view.Some? ==> !s.view.value.visible
  }

  lemma {:induction false} LockHidesTheView(events: seq<Event>)
    requires Legal(START, events)
    ensures ViewGone(Run(START, events))
  {
    if events != [] {
      LockHidesTheView(events[..|events| - 1]);
    }
  }

  /** In every legal run that agreed so far, flag and mode of a locked screen stop agreeing
      exactly when its hidden view is not yet deleted and is toggled or hidden once more. */
  lemma {:induction false} LockedFlagAgrees(events: seq<Event>, e: Event)
    requires Legal(START, events + [e]) && AgreesThroughout(START, events)
    requires Run(START, events).mode == LockScreen
    ensures var s := Run(START, events);
            Agrees(Step(s, e))
            <==> s.view.None? || !(e.PrepareLock? || (e == Toggle(ShortcutKey) && !s.view.value.exited))
  {
    assert (events + [e])[..|events + [e]| - 1] == events;
    LockHidesTheView(events);
    AgreementNeedsOrder(Run(START, events), e);
  }

  /** What lifts the block of a locked screen, and what ends its mode: besides unlocking, a
      shell client's toggle always lifts the block, and ends the mode too unless it makes a
      hidden view exit; a repeated lock lifts the block while the hidden view is there. */
  lemma {:induction false} LockEndsExactlyBy(events: seq<Event>, e: Event)
    requires Legal(START, events + [e]) && AgreesThroughout(START, events)
    requires Run(START, events).mode == LockScreen
    ensures var s := Run(START, events);
            Step(s, e).blocked <==> !(e.Unlock? || e == Toggle(ShortcutKey) || (e.PrepareLock? && s.view.Some?))
    ensures var s := Run(START, events);
            Step(s, e).mode == LockScreen
            <==> !(e.Unlock? || (e == Toggle(ShortcutKey) && (s.view.None? || s.view.value.exited)))
  {
    assert (events + [e])[..|events + [e]| - 1] == events;
    LockHidesTheView(events);
  }

  /** The toggle needs no view: right after a lock it creates one, takes the locked screen into
      the multitask mode and lifts the block, with flag and mode agreeing all the way. */
  lemma {:induction false} ToggleEndsTheLock()
    ensures var events := [PrepareLock(false), Toggle(ShortcutKey)];
            && Legal(START, events) && AgreesThroughout(START, events)
            && Run(START, events[..1]) == State(LockScreen, true, None)
            && Run(START, events).mode == Multitaskview && !Run(START, events).blocked
  {
    var events := [PrepareLock(false), Toggle(ShortcutKey)];
    assert events[..1] == [PrepareLock(false)] && events[..1][..0] == [];
    assert Legal(START, [PrepareLock(false)]) && Run(START, [PrepareLock(false)]) == State(LockScreen, true, None);
  }

  /** A shell client that toggles the view between the lock and the deletion does lift it. */
  lemma {:induction false} LateToggleUnblocksTheLock()
    ensures var events := [Toggle(ShortcutKey), PrepareLock(false), Toggle(ShortcutKey)];
            && Legal(START, events)
            && Run(START, events).mode == LockScreen && !Run(START, events).blocked
  {
    var events := [Toggle(ShortcutKey), PrepareLock(false), Toggle(ShortcutKey)];
    assert events[..2] == [Toggle(ShortcutKey), PrepareLock(false)] && events[..2][..1] == [Toggle(ShortcutKey)]
           && events[..1][..0] == [];
    assert Legal(START, [Toggle(ShortcutKey)])
           && Run(START, [Toggle(ShortcutKey)]) == State(Multitaskview, false, Some(View(false, true, false, true)));
    assert Legal(START, events[..2])
           && Run(START, events[..2]) == State(LockScreen, true, Some(View(false, false, false, false)));
  }

  // ----- the server's fields ---------------------------------------------------------------

  class Server {
    var currentMode: Mode
    var blockActivateSurface: bool

    constructor ()
      ensures currentMode == Normal && !blockActivateSurface
    {
      currentMode, blockActivateSurface := Normal, false;
    }

    /** The server's part of the state, with the plugin's view. */
    function With(view: Option<View>): State
      reads this
    {
      State(currentMode, blockActivateSurface, view)
    }

    method SetBlockActivateSurface(block: bool)
      modifies this`blockActivateSurface
      ensures blockActivateSurface == block
    {
      if block == blockActivateSurface {
        return;
      }
      blockActivateSurface := block;
    }

    method SetCurrentMode(mode: Mode)
      modifies this
      ensures forall view :: With(view) == Switched(old(With(view)), mode)
    {
      if currentMode == mode {
        return;
      }
      SetBlockActivateSurface(mode != Normal && mode != Multitaskview);
      currentMode := mode;
    }

    method DeleteTaskSwitch()
      modifies this
      ensures forall view :: With(view) == TaskSwitchDeleted(old(With(view)))
    {
      if currentMode == WindowSwitch {
        SetCurrentMode(Normal);
      }
    }
  }
}
