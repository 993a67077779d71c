/** The members of src/core/focuscontroller.cpp and the inactivation handler of
    src/core/shellhandler.cpp on their fields. */
module FocusController {
  import opened Prelude
  import opened Focus
  import DesktopMode

  class Controller {
    const server: DesktopMode.Server
    const primary: nat
    var seats: seq<Seat>
    var history: seq<Surface>
    var showingDesktop: bool
    var flagged: set<Surface>

    constructor (server: DesktopMode.Server, seats: seq<Seat>, primary: nat)
      requires primary < |seats|
      ensures this.server == server && this.seats == seats && this.primary == primary
      ensures history == [] && !showingDesktop && flagged == {}
    {
      this.server, this.seats, this.primary := server, seats, primary;
      history, showingDesktop, flagged := [], false, {};
    }

    function View(): State
      reads this, server
    {
      State(seats, primary, history, server.blockActivateSurface, showingDesktop, flagged)
    }

    /** Workspace::removeActivedSurface */
    method RemoveActivedSurface(w: Surface)
      modifies this`history
      ensures history == Without(old(history), w)
    {
      var kept := [];
      for k := 0 to |history|
        invariant history == old(history) && kept == Without(history[..k], w)
      {
        assert history[..k + 1][..k] == history[..k];
        if history[k] != w {
          kept := kept + [history[k]];
        }
      }
      assert history[..|history|] == history;
      history := kept;
    }

    method PushActivedSurface(env: Env, w: Surface)
      modifies this`history
      ensures history == Pushed(env, old(history), w)
    {
      if env(w).kind.Popup? {
        return;
      }
      RemoveActivedSurface(w);
      history := [w] + history;
    }

    method SetKeyboardFocusSurface(env: Env, i: nat, target: Option<Surface>)
      requires i < |seats|
      modifies this`seats
      ensures seats == old(seats)[i := Focused(env, old(seats)[i], target)]
    {
      var seat := seats[i];
      if seat.focus == target {
        return;
      }
      if seat.focus.Some? && target.Some? && env(seat.focus.value).priority > env(target.value).priority {
        return;
      }
      seats := seats[i := seat.(focus := target)];
    }

    /** Climbs from a popup to the surface that may take the focus. */
    method ClimbPopups(env: Env, w: Surface) returns (r: Option<Surface>)
      ensures r == Climbed(env, w)
    {
      var at := w;
      while true
        invariant Climbed(env, at) == Climbed(env, w)
        decreases at
      {
        match env(at).kind
        case Popup(grabbed, parent) =>
          if grabbed {
            return Some(at);
          }
          if parent.None? || parent.value >= at {
            return None;
          }
          at := parent.value;
        case _ => return Some(at);
      }
    }

    method RequestKeyboardFocus(env: Env, target: Option<Surface>, i: nat)
      requires i < |seats|
      modifies this`seats
      ensures View() == Requested(env, old(View()), target, i)
    {
      var to := target;
      if target.Some? {
        to := ClimbPopups(env, target.value);
        if to.None? || !env(to.value).hasFocusCapability {
          return;
        }
      }
      SetKeyboardFocusSurface(env, i, to);
    }

    method RestoreShowDesktopFocus(env: Env)
      modifies this`seats
      ensures seats == RestoredAll(env, old(seats))
    {
      for i := 0 to |seats|
        invariant |seats| == |old(seats)|
        invariant forall j :: 0 <= j < i ==> seats[j] == Restored(env, old(seats)[j])
        invariant forall j :: i <= j < |seats| ==> seats[j] == old(seats)[j]
      {
        var seat := seats[i];
        if seat.activated.Some? && env(seat.activated.value).hasFocusCapability {
          SetKeyboardFocusSurface(env, i, seat.activated);
        }
      }
      forall j | 0 <= j < |seats|
        ensures seats[j] == RestoredAll(env, old(seats))[j]
      {
        RestoredAt(env, old(seats), j);
      }
    }

    method SetActivatedSurface(env: Env, target: Option<Surface>, i: nat)
      requires i < |seats|
      modifies this
      ensures View() == Activated(env, old(View()), target, i)
    {
      if seats[i].activated == target {
        return;
      }
      if i == primary && seats[i].activated.Some? {
        flagged := flagged - {seats[i].activated.value};
      }
      var wasShowing := false;
      if target.Some? {
        wasShowing := showingDesktop;
        showingDesktop := false;
        PushActivedSurface(env, target.value);
      }
      if target.None? || env(target.value).acceptKeyboardFocus {
        seats := seats[i := seats[i].(activated := target)];
      }
      if wasShowing {
        RestoreShowDesktopFocus(env);
      }
      if i == primary && target.Some? {
        flagged := flagged + {target.value};
      }
    }

    method ActivateSurface(env: Env, target: Option<Surface>, i: nat)
      requires i < |seats|
      modifies this
      ensures View() == Activation(env, old(View()), target, i)
    {
      var wrapper := target;
      if target.Some? {
        if env(target.value).imCandidatePanel {
          return;
        }
        if !env(target.value).acceptKeyboardFocus {
          return;
        }
        var modal := env(target.value).modal;
        if modal.Some? && modal != target {
          if env(modal.value).minimized {
            return;
          }
          wrapper := modal;
        }
      }
      if server.blockActivateSurface && wrapper.Some? && !env(wrapper.value).kind.LockScreen? {
        if env(wrapper.value).hasActiveCapability {
          PushActivedSurface(env, wrapper.value);
        }
        return;
      }
      GrantActivation(env, wrapper, i);
    }

    method GrantActivation(env: Env, wrapper: Option<Surface>, i: nat)
      requires i < |seats|
      modifies this
      ensures View() == Granted(env, old(View()), wrapper, i)
    {
      if wrapper.None? || env(wrapper.value).hasActiveCapability {
        ghost var before := View();
        SetActivatedSurface(env, wrapper, i);
        ActivatedMovesOneSeat(env, before, wrapper, i, i);
      }
      if wrapper.None? || env(wrapper.value).hasFocusCapability {
        RequestKeyboardFocus(env, wrapper, i);
      }
    }

    /** `restored`: the surfaces once the ones unminimised here are restored. */
    method ForceActivateSurface(env: Env, restored: Env, target: Option<Surface>, i: nat)
      requires i < |seats|
      modifies this
      ensures View() == Forced(env, restored, old(View()), target, i)
    {
      if target.None? {
        return;
      }
      if !env(target.value).hasShellSurface {
        return;
      }
      var wrapper := if env(target.value).modal.Some? then env(target.value).modal.value else target.value;
      if showingDesktop {
        showingDesktop := false;
        RestoreShowDesktopFocus(restored);
      }
      if !restored(wrapper).mapped {
        return;
      }
      ActivateSurface(restored, Some(wrapper), i);
    }

    method InactivateOnSeat(env: Env, w: Surface, i: nat)
      requires i < |seats|
      modifies this
      ensures View() == SeatInactivated(env, old(View()), w, i)
    {
      var isKeyboardFocusOwner := seats[i].focus == Some(w);
      var isActivatedOwner := seats[i].activated == Some(w);
      if isKeyboardFocusOwner {
        ActivatedMovesOneSeat(env, View(), None, i, i);
        SetActivatedSurface(env, None, i);
        if i == primary {
          ActivateSurface(env, Latest(history), i);
        } else {
          RequestKeyboardFocus(env, None, i);
        }
        if seats[i].focus == Some(w) {
          RequestKeyboardFocus(env, None, i);
        }
        return;
      }
      if isActivatedOwner {
        SetActivatedSurface(env, None, i);
      }
    }

    method OnSurfaceInactivationRequested(env: Env, w: Surface)
      modifies this
      ensures View() == Inactivated(env, old(View()), w)
      ensures !env(w).hasActiveCapability ==> forall j :: 0 <= j < |seats| ==> Free(seats[j], w)
    {
      if !env(w).kind.Layer? {
        RemoveActivedSurface(w);
      }
      ghost var forgotten := View();
      var n := |seats|;
      for i := 0 to n
        invariant View() == SeatsInactivated(env, forgotten, w, i)
        invariant |seats| == n
      {
        InactivateOnSeat(env, w, i);
      }
      if !env(w).hasActiveCapability {
        NoSeatKeepsInactivated(env, old(View()), w);
      }
    }
  }
}
