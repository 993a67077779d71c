/** Activation and keyboard focus across seats: what src/core/focuscontroller.cpp,
    src/surface/seatsurfacemanager.cpp and the inactivation handler of
    src/core/shellhandler.cpp do to the seats, as functions. */
module Focus {
  import opened Prelude

  /** Surfaces are numbered in order of creation. */
  type Surface = nat

  datatype Kind = Toplevel | Layer | LockScreen | Popup(grabbed: bool, parent: Option<Surface>)

  /** What the rest of the compositor knows of a surface; `modal` is findModal. */
  datatype Attr = Attr(
    kind: Kind,
    imCandidatePanel: bool,
    acceptKeyboardFocus: bool,
    hasActiveCapability: bool,
    hasFocusCapability: bool,
    modal: Option<Surface>,
    minimized: bool,
    hasShellSurface: bool,
    mapped: bool,
    priority: int)

  type Env = Surface -> Attr

  datatype Seat = Seat(activated: Option<Surface>, focus: Option<Surface>)

  /** `flagged`: surfaces whose own isActivated flag is set. */
  datatype State = State(
    seats: seq<Seat>,
    primary: nat,
    history: seq<Surface>,
    blocked: bool,
    showingDesktop: bool,
    flagged: set<Surface>)

  predicate Valid(s: State) {
    s.primary < |s.seats|
  }

  // ----- history ----------------------------------------------------------------

  function Without(history: seq<Surface>, w: Surface): seq<Surface> {
    if history == [] then []
    else
      var rest := Without(history[..|history| - 1], w);
      if history[|history| - 1] == w then rest else rest + [history[|history| - 1]]
  }

  function Pushed(env: Env, history: seq<Surface>, w: Surface): seq<Surface> {
    if env(w).kind.Popup? then history else [w] + Without(history, w)
  }

  function Latest(history: seq<Surface>): Option<Surface> {
    if history == [] then None else Some(history[0])
  }

  // ----- one seat ------------------------------------------------------------------

  /** SeatSurfaceManager::setKeyboardFocusSurface: a surface of lower priority is refused,
      clearing never is. */
  function Focused(env: Env, seat: Seat, target: Option<Surface>): Seat {
    if seat.focus.Some? && target.Some? && env(seat.focus.value).priority > env(target.value).priority then seat
    else seat.(focus := target)
  }

  /** The surface a focus request ends at: popups without a grab pass it to their parent. */
  function Climbed(env: Env, w: Surface): Option<Surface> {
    match env(w).kind
    case Popup(false, None) => None
    case Popup(false, Some(p)) => if p < w then Climbed(env, p) else None
    case _ => Some(w)
  }

  function WithSeat(s: State, i: nat, seat: Seat): State
    requires i < |s.seats|
  {
    s.(seats := s.seats[i := seat])
  }

  /** requestKeyboardFocus */
  function Requested(env: Env, s: State, target: Option<Surface>, i: nat): State
    requires i < |s.seats|
  {
    if target.None? then WithSeat(s, i, Focused(env, s.seats[i], None))
    else match Climbed(env, target.value)
      case None => s
      case Some(w) => if env(w).hasFocusCapability then WithSeat(s, i, Focused(env, s.seats[i], Some(w))) else s
  }

  /** SeatSurfaceManager::restoreShowDesktopFocus on one seat. */
  function Restored(env: Env, seat: Seat): Seat {
    if seat.activated.Some? && env(seat.activated.value).hasFocusCapability then Focused(env, seat, seat.activated)
    else seat
  }

  function RestoredAll(env: Env, seats: seq<Seat>): (after: seq<Seat>)
    ensures |after| == |seats|
  {
    if seats == [] then [] else RestoredAll(env, seats[..|seats| - 1]) + [Restored(env, seats[|seats| - 1])]
  }

  lemma {:induction false} RestoredAt(env: Env, seats: seq<Seat>, j: nat)
    requires j < |seats|
    ensures RestoredAll(env, seats)[j] == Restored(env, seats[j])
  {
    if j < |seats| - 1 {
      RestoredAt(env, seats[..|seats| - 1], j);
    }
  }

  function Unflagged(s: State, w: Option<Surface>): State {
    if w.Some? then s.(flagged := s.flagged - {w.value}) else s
  }

  /** setActivatedSurface */
  function Activated(env: Env, s: State, target: Option<Surface>, i: nat): State
    requires i < |s.seats|
  {
    if s.seats[i].activated == target then s
    else
      var cleared := if i == s.primary then Unflagged(s, s.seats[i].activated) else s;
      match target
      case None => WithSeat(cleared, i, s.seats[i].(activated := None))
      case Some(w) =>
        var seated := if env(w).acceptKeyboardFocus then s.seats[i := s.seats[i].(activated := target)] else s.seats;
        cleared.(history := Pushed(env, s.history, w),
                 showingDesktop := false,
                 seats := if s.showingDesktop then RestoredAll(env, seated) else seated,
                 flagged := if i == s.primary then cleared.flagged + {w} else cleared.flagged)
  }

  // ----- activation ----------------------------------------------------------------

  /** The surface an activation ends at, or None when it is refused outright. */
  function Redirected(env: Env, w: Surface): Option<Surface> {
    if env(w).imCandidatePanel || !env(w).acceptKeyboardFocus then None
    else if env(w).modal.Some? && env(w).modal.value != w
    then if env(env(w).modal.value).minimized then None else env(w).modal
    else Some(w)
  }

  predicate Withheld(env: Env, s: State, w: Surface) {
    s.blocked && !env(w).kind.LockScreen?
  }

  /** The end of activateSurface, after refusals and redirection. */
  function Granted(env: Env, s: State, target: Option<Surface>, i: nat): (after: State)
    requires i < |s.seats|
    ensures |after.seats| == |s.seats| && after.primary == s.primary && after.blocked == s.blocked
  {
    var s1 := if target.None? || env(target.value).hasActiveCapability then Activated(env, s, target, i) else s;
    if target.None? || env(target.value).hasFocusCapability then Requested(env, s1, target, i) else s1
  }

  /** activateSurface */
  function Activation(env: Env, s: State, target: Option<Surface>, i: nat): (after: State)
    requires i < |s.seats|
    ensures |after.seats| == |s.seats| && after.primary == s.primary && after.blocked == s.blocked
  {
    if target.None? then Granted(env, s, None, i)
    else match Redirected(env, target.value)
      case None => s
      case Some(w) =>
        if Withheld(env, s, w)
        then if env(w).hasActiveCapability then s.(history := Pushed(env, s.history, w)) else s
        else Granted(env, s, Some(w), i)
  }

  function DesktopRestored(env: Env, s: State): State {
    if s.showingDesktop then s.(showingDesktop := false, seats := RestoredAll(env, s.seats)) else s
  }

  /** forceActivateSurface; `after` are the surfaces once those it unminimises are restored. */
  function Forced(env: Env, restored: Env, s: State, target: Option<Surface>, i: nat): (after: State)
    requires i < |s.seats|
    ensures |after.seats| == |s.seats| && after.primary == s.primary && after.blocked == s.blocked
  {
    if target.None? || !env(target.value).hasShellSurface then s
    else
      var w := if env(target.value).modal.Some? then env(target.value).modal.value else target.value;
      var shown := DesktopRestored(restored, s);
      if restored(w).mapped then Activation(restored, shown, Some(w), i) else shown
  }

  // ----- inactivation ---------------------------------------------------------------

  /** What the inactivation handler does for seat `i`. */
  function SeatInactivated(env: Env, s: State, w: Surface, i: nat): (after: State)
    requires i < |s.seats|
    ensures |after.seats| == |s.seats| && after.primary == s.primary && after.blocked == s.blocked
  {
    if s.seats[i].focus == Some(w) then
      var off := Activated(env, s, None, i);
      var fallen := if i == s.primary then Activation(env, off, Latest(off.history), i)
                    else Requested(env, off, None, i);
      if fallen.seats[i].focus == Some(w) then Requested(env, fallen, None, i) else fallen
    else if s.seats[i].activated == Some(w) then Activated(env, s, None, i)
    else s
  }

  function SeatsInactivated(env: Env, s: State, w: Surface, n: nat): (after: State)
    requires n <= |s.seats|
    ensures |after.seats| == |s.seats| && after.primary == s.primary && after.blocked == s.blocked
  {
    if n == 0 then s else SeatInactivated(env, SeatsInactivated(env, s, w, n - 1), w, n - 1)
  }

  /** onSurfaceInactivationRequested */
  function Inactivated(env: Env, s: State, w: Surface): State {
    var forgotten := if env(w).kind.Layer? then s else s.(history := Without(s.history, w));
    SeatsInactivated(env, forgotten, w, |s.seats|)
  }

  // ----- no seat keeps an inactivated surface ------------------------------------------

  predicate Free(seat: Seat, w: Surface) {
    seat.activated != Some(w) && seat.focus != Some(w)
  }

  /** Changing a seat's activated surface touches no other seat's, and gives focus only to
      activated surfaces. */
  lemma {:induction false} ActivatedMovesOneSeat(env: Env, s: State, target: Option<Surface>, i: nat, j: nat)
    requires i < |s.seats| && j < |s.seats|
    ensures var after := Activated(env, s, target, i);
            && |after.seats| == |s.seats|
            && after.seats[j].activated
               == (if j == i && (target.None? || env(target.value).acceptKeyboardFocus) then target
                   else s.seats[j].activated)
            && (after.seats[j].focus == s.seats[j].focus || after.seats[j].focus == after.seats[j].activated)
  {
    RestoredAt(env, s.seats, j);
    RestoredAt(env, s.seats[i := s.seats[i].(activated := target)], j);
  }

  lemma {:induction false} RequestKeepsActivated(env: Env, s: State, target: Option<Surface>, i: nat, j: nat)
    requires i < |s.seats| && j < |s.seats|
    ensures var after := Requested(env, s, target, i);
            |after.seats| == |s.seats| && after.seats[j].activated == s.seats[j].activated
                && (j != i ==> after.seats[j] == s.seats[j])
  {
  }

  /** A granted activation never gives a seat an activated surface without the capability,
      and touches the focus of other seats only to give it to their activated surface. */
  lemma {:induction false} GrantSpares(env: Env, s: State, target: Option<Surface>, i: nat, w: Surface, j: nat)
    requires i < |s.seats| && j < |s.seats| && !env(w).hasActiveCapability
    requires if j == i then s.seats[j].activated != Some(w) else Free(s.seats[j], w)
    ensures var now := Granted(env, s, target, i).seats[j];
            if j == i then now.activated != Some(w) else Free(now, w)
  {
    var s1 := if target.None? || env(target.value).hasActiveCapability then Activated(env, s, target, i) else s;
    ActivatedMovesOneSeat(env, s, target, i, j);
    RequestKeepsActivated(env, s1, target, i, j);
  }

  lemma {:induction false} ActivationSpares(env: Env, s: State, target: Option<Surface>, i: nat, w: Surface, j: nat)
    requires i < |s.seats| && j < |s.seats| && !env(w).hasActiveCapability
    requires if j == i then s.seats[j].activated != Some(w) else Free(s.seats[j], w)
    ensures var now := Activation(env, s, target, i).seats[j];
            if j == i then now.activated != Some(w) else Free(now, w)
  {
    GrantSpares(env, s, if target.None? then None else Redirected(env, target.value), i, w, j);
  }

  lemma {:induction false} SeatIsFreed(env: Env, s: State, w: Surface, i: nat, j: nat)
    requires i < |s.seats| && j < |s.seats| && !env(w).hasActiveCapability
    requires j == i || Free(s.seats[j], w)
    ensures Free(SeatInactivated(env, s, w, i).seats[j], w)
  {
    if s.seats[i].focus == Some(w) {
      var off := Activated(env, s, None, i);
      ActivationSpares(env, off, Latest(off.history), i, w, j);
    }
  }

  lemma {:induction false} SeatsAreFreed(env: Env, s: State, w: Surface, n: nat, j: nat)
    requires j < n <= |s.seats| && !env(w).hasActiveCapability
    ensures Free(SeatsInactivated(env, s, w, n).seats[j], w)
  {
    var mid := SeatsInactivated(env, s, w, n - 1);
    if j < n - 1 {
      SeatsAreFreed(env, s, w, n - 1, j);
    }
    NextSeatIsFreed(env, mid, w, n - 1, j, SeatsInactivated(env, s, w, n));
  }

  lemma {:induction false} NextSeatIsFreed(env: Env, s: State, w: Surface, i: nat, j: nat, after: State)
    requires i < |s.seats| && j < |s.seats| && !env(w).hasActiveCapability && (j == i || Free(s.seats[j], w))
    requires after == SeatInactivated(env, s, w, i)
    ensures Free(after.seats[j], w)
  {
    SeatIsFreed(env, s, w, i, j);
  }

  /** For any number of seats and any state of theirs, after the handler ran for a surface
      that lost its active capability no seat has it activated or focused, even when the
      fallback is refused, is blocked, or leads back to the surface. */
  lemma {:induction false} NoSeatKeepsInactivated(env: Env, s: State, w: Surface)
    requires !env(w).hasActiveCapability
    ensures var after := Inactivated(env, s, w);
            |after.seats| == |s.seats| && forall j :: 0 <= j < |s.seats| ==> Free(after.seats[j], w)
  {
    var forgotten := if env(w).kind.Layer? then s else s.(history := Without(s.history, w));
    forall j | 0 <= j < |s.seats| {
      SeatsAreFreed(env, forgotten, w, |s.seats|, j);
    }
  }

  /** Without a shown desktop an activation touches its own seat only. */
  lemma {:induction false} ActivationIsLocal(env: Env, s: State, target: Option<Surface>, i: nat, j: nat)
    requires i < |s.seats| && j < |s.seats| && i != j && !s.showingDesktop
    ensures Activation(env, s, target, i).seats[j] == s.seats[j] && !Activation(env, s, target, i).showingDesktop
  {
  }

  lemma {:induction false} InactivationIsLocal(env: Env, s: State, w: Surface, i: nat, j: nat, after: State)
    requires i < |s.seats| && j < |s.seats| && !s.showingDesktop && Free(s.seats[j], w)
    requires after == SeatInactivated(env, s, w, i)
    ensures after.seats[j] == s.seats[j] && !after.showingDesktop
  {
    if i != j && s.seats[i].focus == Some(w) {
      var off := Activated(env, s, None, i);
      ActivationIsLocal(env, off, Latest(off.history), i, j);
    }
  }

  /** A seat that does not hold the surface is left alone, unless the desktop is shown. */
  lemma {:induction false} OtherSeatsUntouched(env: Env, s: State, w: Surface, n: nat, j: nat)
    requires n <= |s.seats| && j < |s.seats| && !s.showingDesktop && Free(s.seats[j], w)
    ensures SeatsInactivated(env, s, w, n).seats[j] == s.seats[j] && !SeatsInactivated(env, s, w, n).showingDesktop
  {
    if n > 0 {
      OtherSeatsUntouched(env, s, w, n - 1, j);
      InactivationIsLocal(env, SeatsInactivated(env, s, w, n - 1), w, n - 1, j, SeatsInactivated(env, s, w, n));
    }
  }

  /** A granted activation of a capable window settles it on its seat, unless the focus held
      there has a higher priority. */
  lemma {:induction false} GrantSettles(env: Env, s: State, next: Surface, i: nat)
    requires i < |s.seats| && s.seats[i].activated != Some(next)
    requires env(next).acceptKeyboardFocus && env(next).hasActiveCapability && env(next).hasFocusCapability
    requires !env(next).kind.Popup?
    requires s.seats[i].focus.Some? ==> env(s.seats[i].focus.value).priority <= env(next).priority
    ensures Granted(env, s, Some(next), i).seats[i] == Seat(Some(next), Some(next))
  {
    RestoredAt(env, s.seats[i := s.seats[i].(activated := Some(next))], i);
  }

  /** When the primary seat loses its focused surface, the head of the history takes over, if it
      is not redirected and can be activated and focused: it is activated and focused. */
  lemma {:induction false} FallbackTakesOver(env: Env, s: State, w: Surface, next: Surface)
    requires Valid(s) && s.seats[s.primary].focus == Some(w) && !s.blocked
    requires s.history != [] && s.history[0] == next && next != w
    requires Redirected(env, next) == Some(next) && env(next).hasActiveCapability && env(next).hasFocusCapability
             && !env(next).kind.Popup?
    requires env(w).priority <= env(next).priority
    ensures SeatInactivated(env, s, w, s.primary).seats[s.primary] == Seat(Some(next), Some(next))
  {
    var off := Activated(env, s, None, s.primary);
    assert off.seats[off.primary] == Seat(None, Some(w)) && off.history == s.history;
    GrantSettles(env, off, next, s.primary);
    assert Activation(env, off, Some(next), s.primary) == Granted(env, off, Some(next), s.primary);
  }

  // ----- blocked modes ---------------------------------------------------------------

  /** Each seat still has what it had, or nothing, or a lock-screen surface. */
  predicate Guarded(was: seq<Seat>, now: seq<Seat>, locks: set<Surface>) {
    |now| == |was| && forall i :: 0 <= i < |was| ==> SeatGuarded(was[i], now[i], locks)
  }

  predicate SeatGuarded(was: Seat, now: Seat, locks: set<Surface>) {
    now.activated == was.activated || now.activated.None? || now.activated.value in locks
  }

  datatype Event =
    | Activate(target: Option<Surface>, seat: nat)
    | Force(target: Option<Surface>, seat: nat, restored: Env)
    | Inactivate(w: Surface)

  function Step(env: Env, s: State, e: Event): (after: State)
    ensures |after.seats| == |s.seats| && after.blocked == s.blocked
  {
    match e
    case Activate(target, i) => if i < |s.seats| then Activation(env, s, target, i) else s
    case Force(target, i, restored) => if i < |s.seats| then Forced(env, restored, s, target, i) else s
    case Inactivate(w) => Inactivated(env, s, w)
  }

  /** Only surfaces in `locks` are lock-screen surfaces. */
  ghost predicate LocksAre(env: Env, locks: set<Surface>) {
    forall w: Surface :: env(w).kind.LockScreen? ==> w in locks
  }

  lemma {:induction false} GrantMovesOneSeat(env: Env, s: State, target: Option<Surface>, i: nat, j: nat)
    requires i < |s.seats| && j < |s.seats|
    ensures var now := Granted(env, s, target, i).seats[j].activated;
            now == s.seats[j].activated || (j == i && now == target)
  {
    ActivatedMovesOneSeat(env, s, target, i, j);
    RequestKeepsActivated(env, s, target, i, j);
    RequestKeepsActivated(env, Activated(env, s, target, i), target, i, j);
  }

  lemma {:induction false} ActivationGuards(env: Env, s: State, target: Option<Surface>, i: nat, locks: set<Surface>,
                                            j: nat)
    requires i < |s.seats| && j < |s.seats| && s.blocked && LocksAre(env, locks)
    ensures SeatGuarded(s.seats[j], Activation(env, s, target, i).seats[j], locks)
  {
    GrantMovesOneSeat(env, s, if target.None? then None else Redirected(env, target.value), i, j);
  }

  lemma {:induction false} SeatInactivationGuards(env: Env, s: State, w: Surface, i: nat, locks: set<Surface>, j: nat,
                                                  after: State)
    requires i < |s.seats| && j < |s.seats| && s.blocked && LocksAre(env, locks)
    requires after == SeatInactivated(env, s, w, i)
    ensures SeatGuarded(s.seats[j], after.seats[j], locks)
  {
    if s.seats[i].focus == Some(w) {
      var off := Activated(env, s, None, i);
      ActivationGuards(env, off, Latest(off.history), i, locks, j);
    }
  }

  lemma {:induction false} InactivationGuards(env: Env, s: State, w: Surface, n: nat, locks: set<Surface>, j: nat)
    requires n <= |s.seats| && j < |s.seats| && s.blocked && LocksAre(env, locks)
    ensures SeatGuarded(s.seats[j], SeatsInactivated(env, s, w, n).seats[j], locks)
  {
    if n > 0 {
      InactivationGuards(env, s, w, n - 1, locks, j);
      SeatInactivationGuards(env, SeatsInactivated(env, s, w, n - 1), w, n - 1, locks, j,
                             SeatsInactivated(env, s, w, n));
    }
  }

  lemma {:induction false} SeatStepGuards(env: Env, s: State, e: Event, locks: set<Surface>, j: nat)
    requires s.blocked && LocksAre(env, locks) && (e.Force? ==> LocksAre(e.restored, locks)) && j < |s.seats|
    ensures SeatGuarded(s.seats[j], Step(env, s, e).seats[j], locks)
  {
    match e
    case Activate(target, i) =>
      if i < |s.seats| {
        ActivationGuards(env, s, target, i, locks, j);
      }
    case Force(target, i, restored) =>
      if i < |s.seats| && target.Some? && env(target.value).hasShellSurface {
        var w := if env(target.value).modal.Some? then env(target.value).modal.value else target.value;
        RestoredAt(restored, s.seats, j);
        ActivationGuards(restored, DesktopRestored(restored, s), Some(w), i, locks, j);
      }
    case Inactivate(w) =>
      var forgotten := if env(w).kind.Layer? then s else s.(history := Without(s.history, w));
      InactivationGuards(env, forgotten, w, |s.seats|, locks, j);
  }

  lemma {:induction false} StepGuards(env: Env, was: seq<Seat>, s: State, e: Event, locks: set<Surface>)
    requires s.blocked && LocksAre(env, locks) && (e.Force? ==> LocksAre(e.restored, locks))
    requires Guarded(was, s.seats, locks)
    ensures Guarded(was, Step(env, s, e).seats, locks)
  {
    forall j | 0 <= j < |was|
      ensures SeatGuarded(was[j], Step(env, s, e).seats[j], locks)
    {
      SeatStepGuards(env, s, e, locks, j);
    }
  }

  // ----- without the block ---------------------------------------------------------

  /** The surface that force-activation makes a seat's activated one when nothing blocks. */
  function Landing(env: Env, restored: Env, target: Option<Surface>): Option<Surface> {
    if target.None? || !env(target.value).hasShellSurface then None
    else
      var w := if env(target.value).modal.Some? then env(target.value).modal.value else target.value;
      if !restored(w).mapped then None
      else match Redirected(restored, w)
        case None => None
        case Some(v) => if restored(v).hasActiveCapability && restored(v).acceptKeyboardFocus then Some(v) else None
  }

  /** Without the block a granted activation lands exactly on a surface that can be activated
      and accepts keyboard focus. */
  lemma {:induction false} GrantLands(env: Env, s: State, v: Surface, i: nat, j: nat)
    requires i < |s.seats| && j < |s.seats|
    ensures Granted(env, s, Some(v), i).seats[j].activated
            == if j == i && env(v).hasActiveCapability && env(v).acceptKeyboardFocus then Some(v)
               else s.seats[j].activated
  {
    var s1 := if env(v).hasActiveCapability then Activated(env, s, Some(v), i) else s;
    ActivatedMovesOneSeat(env, s, Some(v), i, j);
    RequestKeepsActivated(env, s1, Some(v), i, j);
  }

  lemma {:induction false} ForceLands(env: Env, restored: Env, s: State, target: Option<Surface>, i: nat, j: nat)
    requires i < |s.seats| && j < |s.seats| && !s.blocked
    ensures Forced(env, restored, s, target, i).seats[j].activated
            == if j == i && Landing(env, restored, target).Some? then Landing(env, restored, target)
               else s.seats[j].activated
  {
    if target.Some? && env(target.value).hasShellSurface {
      var w := if env(target.value).modal.Some? then env(target.value).modal.value else target.value;
      RestoredAt(restored, s.seats, j);
      var shown := DesktopRestored(restored, s);
      if Redirected(restored, w).Some? {
        GrantLands(restored, shown, Redirected(restored, w).value, i, j);
      }
    }
  }

  // ----- the activation flag ----------------------------------------------------------

  /** Exactly the primary seat's activated surface carries the flag. */
  predicate FlagsAgree(s: State) {
    Valid(s) && s.flagged == match s.seats[s.primary].activated case None => {} case Some(w) => {w}
  }

  /** Activating a surface keeps the flag with the seat's surface exactly when that surface
      accepts keyboard focus; a seat refuses any other but the flag moves all the same. */
  lemma {:induction false} FlagsNeedAcceptance(env: Env, s: State, target: Option<Surface>, i: nat)
    requires FlagsAgree(s) && i < |s.seats| && s.seats[i].activated != target
    ensures FlagsAgree(Activated(env, s, target, i))
            <==> i != s.primary || target.None? || env(target.value).acceptKeyboardFocus
  {
    var after := Activated(env, s, target, i);
    var held := s.seats[s.primary].activated;
    ActivatedMovesOneSeat(env, s, target, i, s.primary);
    if i != s.primary {
      assert after.flagged == s.flagged;
    } else if target.None? {
      assert after.flagged == {};
    } else {
      assert after.flagged == {target.value};
    }
  }

  /** Activating `w` would end at a surface that takes the flag and not the seat. */
  predicate Splits(env: Env, s: State, w: Surface, i: nat)
    requires i < |s.seats|
  {
    var r := Redirected(env, w);
    && i == s.primary && r.Some? && !Withheld(env, s, r.value) && env(r.value).hasActiveCapability
    && s.seats[i].activated != r && !env(r.value).acceptKeyboardFocus
  }

  lemma {:induction false} GrantKeepsFlags(env: Env, s: State, r: Surface, i: nat)
    requires FlagsAgree(s) && i < |s.seats|
    ensures FlagsAgree(Granted(env, s, Some(r), i))
            <==> !(i == s.primary && env(r).hasActiveCapability && s.seats[i].activated != Some(r)
                   && !env(r).acceptKeyboardFocus)
  {
    var s1 := if env(r).hasActiveCapability then Activated(env, s, Some(r), i) else s;
    ActivatedMovesOneSeat(env, s, Some(r), i, s.primary);
    RequestKeepsActivated(env, s1, Some(r), i, s.primary);
    if s.seats[i].activated != Some(r) {
      FlagsNeedAcceptance(env, s, Some(r), i);
    }
  }

  /** Activation keeps flag and seat together if and only if it does not split them, and only
      the redirection to a modal dialog gets there. */
  lemma {:induction false} ModalCanSplitFlags(env: Env, s: State, w: Surface, i: nat)
    requires FlagsAgree(s) && i < |s.seats|
    ensures FlagsAgree(Activation(env, s, Some(w), i)) <==> !Splits(env, s, w, i)
    ensures Splits(env, s, w, i) ==> env(w).modal.Some? && Redirected(env, w) == env(w).modal && env(w).modal != Some(w)
  {
    if Redirected(env, w).Some? {
      GrantKeepsFlags(env, s, Redirected(env, w).value, i);
    }
  }

  // ----- who takes the focus -----------------------------------------------------------

  /** A seat's focus moves to any surface of no lower priority and can always be cleared; the
      activated surface stays. */
  lemma {:induction false} LowerPriorityRefused(env: Env, seat: Seat, target: Option<Surface>)
    ensures Focused(env, seat, target).activated == seat.activated
    ensures seat.focus.None? || target.None? ==> Focused(env, seat, target).focus == target
    ensures seat.focus.Some? && target.Some? ==>
              Focused(env, seat, target).focus
              == if env(target.value).priority >= env(seat.focus.value).priority then target else seat.focus
  {
  }

  predicate UngrabbedPopup(a: Attr) {
    a.kind.Popup? && !a.kind.grabbed
  }

  /** Each surface of the path is an ungrabbed popup whose parent is the next one. */
  predicate PopupPath(env: Env, path: seq<Surface>) {
    forall k :: 0 <= k < |path| - 1 ==>
      UngrabbedPopup(env(path[k])) && env(path[k]).kind.parent == Some(path[k + 1]) && path[k + 1] < path[k]
  }

  /** A focus request climbs from popup to parent and ends at the first surface that is not an
      ungrabbed popup, or nowhere when the last popup has no older parent. */
  lemma {:induction false} ClimbEnds(env: Env, w: Surface) returns (path: seq<Surface>)
    ensures path != [] && path[0] == w && PopupPath(env, path)
    ensures var last := path[|path| - 1];
            if UngrabbedPopup(env(last))
            then Climbed(env, w).None? && (env(last).kind.parent.None? || env(last).kind.parent.value >= last)
            else Climbed(env, w) == Some(last)
  {
    path := [w];
    if UngrabbedPopup(env(w)) && env(w).kind.parent.Some? && env(w).kind.parent.value < w {
      var rest := ClimbEnds(env, env(w).kind.parent.value);
      path := [w] + rest;
      assert forall k :: 0 <= k < |path| - 1 ==> k > 0 ==> path[k] == rest[k - 1] && path[k + 1] == rest[k];
    }
  }

  /** What activation refuses and where it redirects: candidate panels and surfaces that accept no
      keyboard focus are refused, and so is a surface with a minimised modal dialog; another modal
      dialog is activated in its place. */
  lemma {:induction false} ActivationRefuses(env: Env, s: State, w: Surface, i: nat)
    requires i < |s.seats|
    ensures env(w).imCandidatePanel || !env(w).acceptKeyboardFocus ==> Activation(env, s, Some(w), i) == s
    ensures !env(w).imCandidatePanel && env(w).acceptKeyboardFocus && env(w).modal.Some? && env(w).modal != Some(w) ==>
              var m := env(w).modal.value;
              && (env(m).minimized ==> Activation(env, s, Some(w), i) == s)
              && (!env(m).minimized && (!s.blocked || env(m).kind.LockScreen?) ==>
                    Activation(env, s, Some(w), i) == Granted(env, s, Some(m), i))
    ensures !env(w).imCandidatePanel && env(w).acceptKeyboardFocus
            && (env(w).modal.None? || env(w).modal == Some(w)) ==>
              !s.blocked || env(w).kind.LockScreen? ==>
                Activation(env, s, Some(w), i) == Granted(env, s, Some(w), i)
  {
  }

  /** Activating another surface ends a shown desktop: every seat's activated surface takes its
      seat's focus if it can have it, and otherwise the focus stays. */
  lemma {:induction false} ActivationEndsShowDesktop(env: Env, s: State, w: Surface, i: nat, j: nat)
    requires i < |s.seats| && j < |s.seats| && s.showingDesktop && s.seats[i].activated != Some(w)
    ensures var after := Activated(env, s, Some(w), i);
            var now := after.seats[j];
            && !after.showingDesktop
            && now.focus == if now.activated.Some? && env(now.activated.value).hasFocusCapability
                               && (s.seats[j].focus.None?
                                   || env(s.seats[j].focus.value).priority <= env(now.activated.value).priority)
                            then now.activated else s.seats[j].focus
  {
    var seated := if env(w).acceptKeyboardFocus then s.seats[i := s.seats[i].(activated := Some(w))] else s.seats;
    RestoredAt(env, seated, j);
    RestoredFocus(env, seated[j]);
  }

  /** So does force-activation, even of a surface that is not mapped and stays inactive: the other
      seats' activated surfaces take their focus back. */
  lemma {:induction false} ForceEndsShowDesktop(env: Env, restored: Env, s: State, w: Surface, i: nat, j: nat)
    requires i < |s.seats| && j < |s.seats| && s.showingDesktop && env(w).hasShellSurface
    ensures var after := Forced(env, restored, s, Some(w), i);
            && !after.showingDesktop
            && (j != i ==>
                  var seat := s.seats[j];
                  after.seats[j].activated == seat.activated
                  && after.seats[j].focus
                     == if seat.activated.Some? && restored(seat.activated.value).hasFocusCapability
                           && (seat.focus.None?
                               || restored(seat.focus.value).priority <= restored(seat.activated.value).priority)
                        then seat.activated else seat.focus)
  {
    var target := if env(w).modal.Some? then env(w).modal.value else w;
    RestoredAt(restored, s.seats, j);
    RestoredFocus(restored, s.seats[j]);
    if j != i {
      ActivationIsLocal(restored, DesktopRestored(restored, s), Some(target), i, j);
    } else {
      var k := if i == 0 then 1 else 0;
      if k < |s.seats| {
        ActivationIsLocal(restored, DesktopRestored(restored, s), Some(target), i, k);
      }
    }
  }

  lemma {:induction false} RestoredFocus(env: Env, seat: Seat)
    ensures Restored(env, seat).activated == seat.activated
    ensures Restored(env, seat).focus
            == if seat.activated.Some? && env(seat.activated.value).hasFocusCapability
                  && (seat.focus.None? || env(seat.focus.value).priority <= env(seat.activated.value).priority)
               then seat.activated else seat.focus
  {
  }

  // ----- the history over whole runs ------------------------------------------------------

  /** A surface comes to the front of the history, or leaves it. */
  datatype Turn = Comes(env: Env, w: Surface) | Goes(w: Surface)

  function Replay(turns: seq<Turn>): seq<Surface> {
    if turns == [] then []
    else
      var before := Replay(turns[..|turns| - 1]);
      match turns[|turns| - 1]
      case Comes(env, w) => Pushed(env, before, w)
      case Goes(w) => Without(before, w)
  }

  /** The turn brings `w` up; popups never come up. */
  predicate Brings(t: Turn, w: Surface) {
    t.Comes? && t.w == w && !t.env(w).kind.Popup?
  }

  /** `w` came up and did not go since. */
  predicate Present(turns: seq<Turn>, w: Surface) {
    turns != []
    && (Brings(turns[|turns| - 1], w) || (turns[|turns| - 1] != Goes(w) && Present(turns[..|turns| - 1], w)))
  }

  /** `w` came up later than `v`. */
  predicate Later(turns: seq<Turn>, w: Surface, v: Surface) {
    turns != []
    && (Brings(turns[|turns| - 1], w) || (!Brings(turns[|turns| - 1], v) && Later(turns[..|turns| - 1], w, v)))
  }

  /** `w` stands before `v`. */
  predicate Precedes(h: seq<Surface>, w: Surface, v: Surface) {
    h != [] && (Precedes(h[..|h| - 1], w, v) || (h[|h| - 1] == v && w in h[..|h| - 1]))
  }

  predicate Distinct(h: seq<Surface>) {
    h == [] || (Distinct(h[..|h| - 1]) && h[|h| - 1] !in h[..|h| - 1])
  }

  lemma {:induction false} WithoutFacts(h: seq<Surface>, x: Surface, w: Surface, v: Surface)
    ensures w in Without(h, x) <==> w in h && w != x
    ensures w != x && v != x ==> (Precedes(Without(h, x), w, v) <==> Precedes(h, w, v))
    ensures Distinct(h) ==> Distinct(Without(h, x))
  {
    if h != [] {
      var prior, last := h[..|h| - 1], h[|h| - 1];
      WithoutFacts(prior, x, w, v);
      WithoutFacts(prior, x, last, v);
      assert h == prior + [last];
      if last != x {
        assert Without(h, x)[..|Without(h, x)| - 1] == Without(prior, x);
      }
    }
  }

  lemma {:induction false} FrontFacts(x: Surface, h: seq<Surface>, w: Surface, v: Surface)
    ensures w in [x] + h <==> w == x || w in h
    ensures Precedes([x] + h, w, v) <==> (w == x && v in h) || Precedes(h, w, v)
    ensures x !in h && Distinct(h) ==> Distinct([x] + h)
  {
    var all := [x] + h;
    if h == [] {
      assert all[..0] == [] && all == [x];
    } else {
      var prior, last := h[..|h| - 1], h[|h| - 1];
      FrontFacts(x, prior, w, v);
      FrontFacts(x, prior, last, v);
      assert h == prior + [last];
      assert all[..|all| - 1] == [x] + prior;
    }
  }

  /** In any history of comings and goings from an empty start, each surface is listed at most
      once, exactly when it came up and did not go since, and in the order of coming up, the latest
      first. */
  lemma {:induction false} HistoryIsByRecency(turns: seq<Turn>, w: Surface, v: Surface)
    ensures Distinct(Replay(turns))
    ensures w in Replay(turns) <==> Present(turns, w)
    ensures w != v && w in Replay(turns) && v in Replay(turns)
            ==> (Precedes(Replay(turns), w, v) <==> Later(turns, w, v))
    ensures Precedes(Replay(turns), w, v) ==> w in Replay(turns) && v in Replay(turns)
  {
    if turns != [] {
      var prior, t := turns[..|turns| - 1], turns[|turns| - 1];
      HistoryIsByRecency(prior, w, v);
      WithoutFacts(Replay(prior), t.w, w, v);
      WithoutFacts(Replay(prior), t.w, v, w);
      WithoutFacts(Replay(prior), t.w, t.w, v);
      FrontFacts(t.w, Without(Replay(prior), t.w), w, v);
      FrontFacts(t.w, Without(Replay(prior), t.w), v, w);
      PrecedesMembers(Replay(turns), w, v);
      PrecedesMembers(Without(Replay(prior), t.w), w, v);
    }
  }

  lemma {:induction false} PrecedesMembers(h: seq<Surface>, w: Surface, v: Surface)
    ensures Precedes(h, w, v) ==> w in h && v in h
  {
    if h != [] {
      PrecedesMembers(h[..|h| - 1], w, v);
      assert h == h[..|h| - 1] + [h[|h| - 1]];
    }
  }

  /** The surface an activation brings up: where the redirection ends, if that can be activated
      and is not the seat's surface already, or is withheld. */
  function Raised(env: Env, s: State, target: Option<Surface>, i: nat): Option<Surface>
    requires i < |s.seats|
  {
    if target.None? then None
    else match Redirected(env, target.value)
      case None => None
      case Some(r) =>
        if env(r).hasActiveCapability && (Withheld(env, s, r) || s.seats[i].activated != Some(r)) then Some(r) else None
  }

  function TurnsOf(env: Env, w: Option<Surface>): seq<Turn> {
    if w.None? then [] else [Comes(env, w.value)]
  }

  function Turned(h: seq<Surface>, turns: seq<Turn>): seq<Surface> {
    if turns == [] then h
    else
      var before := Turned(h, turns[..|turns| - 1]);
      match turns[|turns| - 1]
      case Comes(env, w) => Pushed(env, before, w)
      case Goes(w) => Without(before, w)
  }

  lemma {:induction false} ReplayContinues(turns: seq<Turn>, more: seq<Turn>)
    ensures Replay(turns + more) == Turned(Replay(turns), more)
    decreases |more|
  {
    if more == [] {
      assert turns + more == turns;
    } else {
      assert (turns + more)[..|turns + more| - 1] == turns + more[..|more| - 1];
      ReplayContinues(turns, more[..|more| - 1]);
    }
  }

  lemma {:induction false} OneTurn(h: seq<Surface>, t: Turn)
    ensures Turned(h, [t]) == match t case Comes(env, w) => Pushed(env, h, w) case Goes(w) => Without(h, w)
  {
    assert [t][..0] == [];
    assert Turned(h, []) == h;
  }

  /** An activation brings its surface up, or changes nothing in the history. */
  lemma {:induction false} ActivationTurns(env: Env, s: State, target: Option<Surface>, i: nat)
    requires i < |s.seats|
    ensures Activation(env, s, target, i).history == Turned(s.history, TurnsOf(env, Raised(env, s, target, i)))
  {
    var r := Raised(env, s, target, i);
    if r.Some? {
      OneTurn(s.history, Comes(env, r.value));
    }
  }

  /** A window that an activation brings up is first in the history, the others stay, and keep
      their order behind it. */
  lemma {:induction false} ActivatedIsLatest(env: Env, s: State, target: Option<Surface>, i: nat, u: Surface,
                                             v: Surface)
    requires i < |s.seats| && Raised(env, s, target, i).Some? && !env(Raised(env, s, target, i).value).kind.Popup?
    ensures Latest(Activation(env, s, target, i).history) == Raised(env, s, target, i)
    ensures v in Activation(env, s, target, i).history <==> Some(v) == Raised(env, s, target, i) || v in s.history
    ensures Some(u) != Raised(env, s, target, i) && Some(v) != Raised(env, s, target, i) ==>
              (Precedes(Activation(env, s, target, i).history, u, v) <==> Precedes(s.history, u, v))
  {
    var w := Raised(env, s, target, i).value;
    ActivationTurns(env, s, target, i);
    OneTurn(s.history, Comes(env, w));
    WithoutFacts(s.history, w, v, u);
    WithoutFacts(s.history, w, u, v);
    FrontFacts(w, Without(s.history, w), v, u);
    FrontFacts(w, Without(s.history, w), u, v);
  }

  /** What one event does to the history. */
  function StepTurns(env: Env, s: State, e: Event): seq<Turn> {
    match e
    case Activate(target, i) => if i < |s.seats| then TurnsOf(env, Raised(env, s, target, i)) else []
    case Force(target, i, restored) =>
      if i >= |s.seats| || target.None? || !env(target.value).hasShellSurface then []
      else
        var w := if env(target.value).modal.Some? then env(target.value).modal.value else target.value;
        if restored(w).mapped then TurnsOf(restored, Raised(restored, DesktopRestored(restored, s), Some(w), i)) else []
    case Inactivate(w) =>
      (if env(w).kind.Layer? then [] else [Goes(w)])
      + if Valid(s) then FallbackTurns(env, Forgotten(env, s, w), w) else []
  }

  function Forgotten(env: Env, s: State, w: Surface): State {
    if env(w).kind.Layer? then s else s.(history := Without(s.history, w))
  }

  /** The fallback of an inactivation, when the primary seat has the focus on the surface. */
  function FallbackTurns(env: Env, s: State, w: Surface): seq<Turn>
    requires Valid(s)
  {
    if s.seats[s.primary].focus != Some(w) then []
    else
      var off := Activated(env, s, None, s.primary);
      TurnsOf(env, Raised(env, off, Latest(s.history), s.primary))
  }

  /** A seat other than the primary one leaves the primary seat and the history alone. */
  lemma {:induction false} OtherSeatInactivation(env: Env, was: State, s: State, w: Surface, i: nat, after: State)
    requires Valid(s) && PrimaryKept(was, s) && i < |s.seats| && i != s.primary
             && after == SeatInactivated(env, s, w, i)
    ensures PrimaryKept(was, after)
  {
  }

  lemma {:induction false} PrimarySeatInactivation(env: Env, s: State, w: Surface)
    requires Valid(s)
    ensures SeatInactivated(env, s, w, s.primary).history == Turned(s.history, FallbackTurns(env, s, w))
  {
    if s.seats[s.primary].focus == Some(w) {
      var off := Activated(env, s, None, s.primary);
      assert off.history == s.history;
      ActivationTurns(env, off, Latest(off.history), s.primary);
    }
  }

  /** Nothing that concerns the primary seat has changed. */
  predicate PrimaryKept(s: State, after: State) {
    && |after.seats| == |s.seats| && after.primary == s.primary && after.blocked == s.blocked
    && (Valid(s) ==> after.seats[s.primary] == s.seats[s.primary])
    && after.history == s.history && after.showingDesktop == s.showingDesktop && after.flagged == s.flagged
  }

  /** The seats before the primary one leave it and the history alone. */
  lemma {:induction false} SeatsBeforePrimary(env: Env, s: State, w: Surface, n: nat)
    requires Valid(s) && n <= s.primary
    ensures PrimaryKept(s, SeatsInactivated(env, s, w, n))
  {
    if n > 0 {
      SeatsBeforePrimary(env, s, w, n - 1);
      var mid := SeatsInactivated(env, s, w, n - 1);
      OtherSeatInactivation(env, s, mid, w, n - 1, SeatsInactivated(env, s, w, n));
    }
  }

  /** So do the seats after it. */
  lemma {:induction false} SeatsAfterPrimary(env: Env, s: State, w: Surface, n: nat)
    requires Valid(s) && s.primary < n <= |s.seats|
    ensures PrimaryKept(SeatsInactivated(env, s, w, s.primary + 1), SeatsInactivated(env, s, w, n))
  {
    if n > s.primary + 1 {
      SeatsAfterPrimary(env, s, w, n - 1);
      var turn, mid := SeatsInactivated(env, s, w, s.primary + 1), SeatsInactivated(env, s, w, n - 1);
      OtherSeatInactivation(env, turn, mid, w, n - 1, SeatsInactivated(env, s, w, n));
    }
  }

  /** The history after the primary seat's turn is what its fallback made of it. */
  lemma {:induction false} PrimaryTurn(env: Env, s: State, w: Surface)
    requires Valid(s)
    ensures SeatsInactivated(env, s, w, s.primary + 1).history == Turned(s.history, FallbackTurns(env, s, w))
  {
    var mid := SeatsInactivated(env, s, w, s.primary);
    SeatsBeforePrimary(env, s, w, s.primary);
    PrimarySeatInactivation(env, mid, w);
    FallbackSame(env, s, mid, w);
  }

  lemma {:induction false} FallbackSame(env: Env, s: State, t: State, w: Surface)
    requires Valid(s) && Valid(t) && t.primary == s.primary && t.seats[s.primary] == s.seats[s.primary]
    requires t.history == s.history && t.blocked == s.blocked
    ensures FallbackTurns(env, t, w) == FallbackTurns(env, s, w)
  {
  }

  lemma {:induction false} TurnedTwice(h: seq<Surface>, a: seq<Turn>, b: seq<Turn>)
    ensures Turned(h, a + b) == Turned(Turned(h, a), b)
    decreases |b|
  {
    if b == [] {
      assert a + b == a;
    } else {
      assert (a + b)[..|a + b| - 1] == a + b[..|b| - 1];
      TurnedTwice(h, a, b[..|b| - 1]);
    }
  }

  lemma {:induction false} StepTurnsHistory(env: Env, s: State, e: Event)
    requires Valid(s)
    ensures Step(env, s, e).history == Turned(s.history, StepTurns(env, s, e))
  {
    match e
    case Activate(target, i) =>
      if i < |s.seats| {
        ActivationTurns(env, s, target, i);
      }
    case Force(target, i, restored) =>
      if i < |s.seats| && target.Some? && env(target.value).hasShellSurface {
        var w := if env(target.value).modal.Some? then env(target.value).modal.value else target.value;
        ActivationTurns(restored, DesktopRestored(restored, s), Some(w), i);
      }
    case Inactivate(w) =>
      var gone := if env(w).kind.Layer? then [] else [Goes(w)];
      OneTurn(s.history, Goes(w));
      PrimaryTurn(env, Forgotten(env, s, w), w);
      SeatsAfterPrimary(env, Forgotten(env, s, w), w, |s.seats|);
      TurnedTwice(s.history, gone, FallbackTurns(env, Forgotten(env, s, w), w));
  }

  /** An event with the surfaces as they are when it comes. */
  datatype Occasion = Occasion(env: Env, event: Event)

  function Run(s: State, occasions: seq<Occasion>): (after: State)
    ensures |after.seats| == |s.seats| && after.primary == s.primary
  {
    if occasions == [] then s
    else
      var o := occasions[|occasions| - 1];
      Step(o.env, Run(s, occasions[..|occasions| - 1]), o.event)
  }

  function RunTurns(s: State, occasions: seq<Occasion>): seq<Turn> {
    if occasions == [] then []
    else
      var prior, o := occasions[..|occasions| - 1], occasions[|occasions| - 1];
      RunTurns(s, prior) + StepTurns(o.env, Run(s, prior), o.event)
  }

  lemma {:induction false} RunReplays(s: State, occasions: seq<Occasion>)
    requires Valid(s) && s.history == []
    ensures Run(s, occasions).history == Replay(RunTurns(s, occasions))
  {
    if occasions != [] {
      var prior, o := occasions[..|occasions| - 1], occasions[|occasions| - 1];
      RunReplays(s, prior);
      StepTurnsHistory(o.env, Run(s, prior), o.event);
      ReplayContinues(RunTurns(s, prior), StepTurns(o.env, Run(s, prior), o.event));
    }
  }

  /** Over any run of activations, force-activations and inactivations, the history lists each
      surface at most once, exactly those that were activated and not inactivated since, and a
      surface before all that were activated earlier. */
  lemma {:induction false} RunHistory(s: State, occasions: seq<Occasion>, w: Surface, v: Surface)
    requires Valid(s) && s.history == []
    ensures var h, turns := Run(s, occasions).history, RunTurns(s, occasions);
            && Distinct(h) && (w in h <==> Present(turns, w))
            && (w != v && w in h && v in h ==> (Precedes(h, w, v) <==> Later(turns, w, v)))
  {
    RunReplays(s, occasions);
    HistoryIsByRecency(RunTurns(s, occasions), w, v);
  }

  lemma {:induction false} FirstPrecedes(h: seq<Surface>, v: Surface)
    requires h != [] && v in h && v != h[0]
    ensures Precedes(h, h[0], v)
  {
    var prior, last := h[..|h| - 1], h[|h| - 1];
    assert h == prior + [last];
    assert prior != [] && prior[0] == h[0];
    if v in prior {
      FirstPrecedes(prior, v);
    } else {
      assert last == v && h[0] in prior;
    }
  }

  /** The head of the history is the surface present that came up later than every other. */
  lemma {:induction false} LatestIsMostRecent(turns: seq<Turn>, w: Surface)
    requires Present(turns, w) && forall v :: v != w && Present(turns, v) ==> Later(turns, w, v)
    ensures Latest(Replay(turns)) == Some(w)
  {
    var h := Replay(turns);
    HistoryIsByRecency(turns, w, w);
    if h[0] != w {
      HistoryIsByRecency(turns, h[0], w);
      HistoryIsByRecency(turns, w, h[0]);
      FirstPrecedes(h, w);
      BothPrecede(h, w, h[0]);
    }
  }

  /** In a list without repetitions only one of two surfaces stands before the other. */
  lemma {:induction false} BothPrecede(h: seq<Surface>, w: Surface, v: Surface)
    requires Distinct(h) && w != v
    ensures !(Precedes(h, w, v) && Precedes(h, v, w))
  {
    if h != [] {
      BothPrecede(h[..|h| - 1], w, v);
      PrecedesMembers(h[..|h| - 1], w, v);
      PrecedesMembers(h[..|h| - 1], v, w);
    }
  }

  /** After any run, when the surface that has the primary seat's focus is inactivated, the one
      that takes over is the last one activated that was not inactivated since, if it is not
      redirected and can be activated and focused. */
  lemma {:induction false} RunFallback(s: State, occasions: seq<Occasion>, env: Env, w: Surface, next: Surface)
    requires Valid(s) && s.history == [] && !env(w).kind.Layer? && next != w
    requires var t := Run(s, occasions); t.seats[t.primary].focus == Some(w) && !t.blocked
    requires var turns := RunTurns(s, occasions) + [Goes(w)];
             Present(turns, next) && forall v :: v != next && Present(turns, v) ==> Later(turns, next, v)
    requires Redirected(env, next) == Some(next) && env(next).hasActiveCapability && env(next).hasFocusCapability
    requires !env(next).kind.Popup? && env(w).priority <= env(next).priority
    ensures Inactivated(env, Run(s, occasions), w).seats[s.primary] == Seat(Some(next), Some(next))
  {
    var t := Run(s, occasions);
    var f := Forgotten(env, t, w);
    RunReplays(s, occasions);
    ReplayContinues(RunTurns(s, occasions), [Goes(w)]);
    OneTurn(t.history, Goes(w));
    LatestIsMostRecent(RunTurns(s, occasions) + [Goes(w)], next);
    SeatsAfterPrimary(env, f, w, |t.seats|);
    SeatsBeforePrimary(env, f, w, t.primary);
    FallbackTakesOver(env, SeatsInactivated(env, f, w, t.primary), w, next);
  }
}
