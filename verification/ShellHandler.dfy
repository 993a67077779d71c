/** The splash and window-matching members of src/core/shellhandler.cpp, on their fields. */
module ShellHandler {
  import opened Prelude
  import opened WindowConfigStore
  import Splash
  import Toplevels

  class Handler {
    const store: Store
    var pendingPrelaunchAppIds: set<AppId>
    var prelaunchWrappers: seq<Splash.Wrapper>
    var closedSplashAppIds: set<AppId>
    var pendingAppIdResolveToplevels: seq<Toplevels.Surface>
    var log: Splash.Log
    var history: Toplevels.History

    constructor (maxMismatch: int)
      ensures fresh(store) && store.maxMismatchCount == maxMismatch
      ensures View() == Splash.START && Tops() == Toplevels.START
    {
      store := new Store(maxMismatch);
      pendingPrelaunchAppIds, prelaunchWrappers, closedSplashAppIds := {}, [], {};
      pendingAppIdResolveToplevels, log, history := [], Splash.EMPTY_LOG, Toplevels.START.history;
    }

    function View(): Splash.State
      reads this, store
    {
      Splash.State(pendingPrelaunchAppIds, prelaunchWrappers, closedSplashAppIds, store.configs, store.waiters, log)
    }

    function Tops(): Toplevels.State
      reads this
    {
      Toplevels.State(pendingAppIdResolveToplevels, history)
    }

    method UnlockBuffer(w: Waiter)
      modifies this`log
      ensures View() == Splash.Unlock(old(View()), w)
    {
      if w.buffered {
        log := log.(unlocked := log.unlocked + multiset{w.request});
      }
    }

    method SkipSplash(w: Waiter)
      modifies this`log, this`pendingPrelaunchAppIds
      ensures View() == Splash.Skipped(old(View()), w)
    {
      UnlockBuffer(w);
      pendingPrelaunchAppIds := pendingPrelaunchAppIds - {w.app};
    }

    method HasPrelaunchWrapper(app: AppId) returns (found: bool)
      ensures found <==> Splash.Listed(prelaunchWrappers, app)
    {
      for i := 0 to |prelaunchWrappers|
        invariant forall k :: 0 <= k < i ==> prelaunchWrappers[k].app != app
      {
        if prelaunchWrappers[i].app == app {
          return true;
        }
      }
      return false;
    }

    /** The index loop of every handler that looks a splash up by app id. */
    method IndexOfApp(app: AppId) returns (k: nat)
      ensures k == Splash.Find(prelaunchWrappers, app)
    {
      for i := 0 to |prelaunchWrappers|
        invariant forall j :: 0 <= j < i ==> prelaunchWrappers[j].app != app
      {
        if prelaunchWrappers[i].app == app {
          return i;
        }
      }
      return |prelaunchWrappers|;
    }

    method HandlePrelaunchSplashRequested(app: AppId, hasBuffer: bool, enabled: bool, resolver: bool)
      modifies this`log, this`pendingPrelaunchAppIds, this`prelaunchWrappers, store`configs, store`waiters
      ensures View() == Splash.Requested(old(View()), app, hasBuffer, enabled && resolver)
    {
      var w := Waiter(app, log.requests, hasBuffer);
      log := log.(requests := log.requests + 1);
      if hasBuffer {
        log := log.(buffered := log.buffered + multiset{w.request});
      }
      assert View() == Splash.Issued(old(View()), w);
      var duplicate := HasPrelaunchWrapper(app);
      if !enabled || !resolver || app == NoApp || duplicate || app in pendingPrelaunchAppIds {
        SkipSplash(w);
        return;
      }
      AwaitConfig(w);
    }

    method AwaitConfig(w: Waiter)
      modifies this`log, this`pendingPrelaunchAppIds, this`prelaunchWrappers, store`configs, store`waiters
      ensures View() == Splash.Awaiting(old(View()), w)
    {
      pendingPrelaunchAppIds := pendingPrelaunchAppIds + {w.app};
      var decision := store.WithSplashConfigFor(w);
      match decision
      case CallNow => CreatePrelaunchSplash(w);
      case SkipNow => SkipSplash(w);
      case Deferred =>
    }

    method CreatePrelaunchSplash(w: Waiter)
      modifies this`pendingPrelaunchAppIds, this`prelaunchWrappers, this`log
      ensures View() == Splash.Created(old(View()), w)
    {
      if w.app !in pendingPrelaunchAppIds {
        UnlockBuffer(w);
        return;
      }
      pendingPrelaunchAppIds := pendingPrelaunchAppIds - {w.app};
      var wrapper := Splash.Wrapper(log.born, w.app);
      log := log.(born := log.born + 1);
      UnlockBuffer(w);
      prelaunchWrappers := prelaunchWrappers + [wrapper];
    }

    /** An application's configuration finished loading: its single-shot callbacks run in
        connection order. */
    method OnConfigInitialized(app: AppId, config: AppConfig)
      requires app in store.configs && store.configs[app].Loading? && !config.Loading?
      modifies this`log, this`pendingPrelaunchAppIds, this`prelaunchWrappers, store`configs, store`waiters
      ensures View() == Splash.ConfigDone(old(View()), app, config)
    {
      var callbacks := store.waiters;
      store.configs := store.configs[app := config];
      store.waiters := Splash.Others(callbacks, app);
      ghost var loaded := View();
      for k := 0 to |callbacks|
        invariant View() == Splash.FinishedAll(loaded, callbacks[..k], app, config)
        invariant store.configs == loaded.configs && app in store.configs && store.configs[app] == config
      {
        assert callbacks[..k + 1][..k] == callbacks[..k];
        if callbacks[k].app == app {
          if store.configs[app].Ready? && store.configs[app].splashEnabled {
            CreatePrelaunchSplash(callbacks[k]);
          } else {
            SkipSplash(callbacks[k]);
          }
        }
      }
      assert callbacks[..|callbacks|] == callbacks;
    }

    /** destroyForSurface followed by recordSplashMismatch. */
    method DestroyUnmatched(w: Splash.Wrapper)
      modifies this`log, store`configs
      ensures View() == Splash.Destroyed(old(View()), w, store.maxMismatchCount)
    {
      log := log.(destroyed := log.destroyed + multiset{w.id});
      log := log.(reported := log.reported + multiset{w.id});
      store.RecordSplashMismatch(w.app);
    }

    method OnSplashCloseRequested(w: Splash.Wrapper)
      modifies this`closedSplashAppIds, this`prelaunchWrappers, this`log, store`configs
      ensures View() == Splash.UserClosed(old(View()), w, store.maxMismatchCount)
    {
      if w.app != NoApp {
        closedSplashAppIds := closedSplashAppIds + {w.app};
      }
      prelaunchWrappers := RemoveOne(prelaunchWrappers, w);
      DestroyUnmatched(w);
    }

    method OnSplashTimeout(w: Splash.Wrapper)
      modifies this`prelaunchWrappers, this`log, store`configs
      ensures View() == Splash.TimedOut(old(View()), w, store.maxMismatchCount)
    {
      if w !in prelaunchWrappers {
        return;
      }
      prelaunchWrappers := RemoveOne(prelaunchWrappers, w);
      DestroyUnmatched(w);
    }

    method HandlePrelaunchSplashClosed(app: AppId)
      modifies this`pendingPrelaunchAppIds, this`prelaunchWrappers, this`log, store`configs
      ensures View() == Splash.ClientClosed(old(View()), app, store.maxMismatchCount)
    {
      pendingPrelaunchAppIds := pendingPrelaunchAppIds - {app};
      var i := IndexOfApp(app);
      if i < |prelaunchWrappers| {
        var wrapper := prelaunchWrappers[i];
        prelaunchWrappers := DropAt(prelaunchWrappers, i);
        DestroyUnmatched(wrapper);
      }
    }

    /** ensureXdgWrapper and ensureXwaylandWrapper: `closed` when the window is refused
        because the user closed its splash, `matched` when a splash turned into it. */
    method EnsureWrapper(surface: Toplevels.Surface, app: AppId) returns (closed: bool, matched: bool)
      modifies this`closedSplashAppIds, this`pendingPrelaunchAppIds, this`prelaunchWrappers, this`log, this`history,
               store`configs
      ensures View() == Splash.WindowArrived(old(View()), app) && history == Toplevels.Hand(old(history), surface)
      ensures closed <==> app != NoApp && app in old(closedSplashAppIds)
      ensures matched <==> !closed && app != NoApp && Splash.Listed(old(prelaunchWrappers), app)
    {
      history := Toplevels.Hand(history, surface);
      closed, matched := false, false;
      if app != NoApp && app in closedSplashAppIds {
        closedSplashAppIds := closedSplashAppIds - {app};
        return true, false;
      }
      if app != NoApp {
        pendingPrelaunchAppIds := pendingPrelaunchAppIds - {app};
        var i := IndexOfApp(app);
        if i < |prelaunchWrappers| {
          var candidate := prelaunchWrappers[i];
          prelaunchWrappers := DropAt(prelaunchWrappers, i);
          log := log.(converted := log.converted + multiset{candidate.id});
          matched := true;
          store.ResetSplashMismatchCount(app);
        }
      }
    }

    /** `resolver`, `pidfd` and `started` are what the resolver and the client offer. */
    method OnXdgToplevelSurfaceAdded(surface: Toplevels.Surface, resolver: bool, pidfd: bool, started: bool)
      requires surface !in pendingAppIdResolveToplevels
      modifies this, store`configs
      ensures View() == old(View())
      ensures Tops() == Toplevels.Added(old(Tops()), surface,
                                        (old(prelaunchWrappers) != [] || old(closedSplashAppIds) != {}) && resolver
                                            && pidfd && started)
    {
      history := Toplevels.Announce(history, surface);
      if (prelaunchWrappers != [] || closedSplashAppIds != {}) && resolver {
        if pidfd {
          pendingAppIdResolveToplevels := pendingAppIdResolveToplevels + [surface];
          if started {
            return;
          }
          assert pendingAppIdResolveToplevels[..|pendingAppIdResolveToplevels| - 1]
                 == old(pendingAppIdResolveToplevels);
          pendingAppIdResolveToplevels := RemoveOne(pendingAppIdResolveToplevels, surface);
        }
      }
      var _, _ := EnsureWrapper(surface, NoApp);
    }

    method OnAppIdResolved(surface: Toplevels.Surface, alive: bool, app: AppId)
      modifies this, store`configs
      ensures Tops() == Toplevels.Resolved(old(Tops()), surface, alive)
      ensures View() == if Toplevels.HandsOver(old(Tops()), surface, alive) then Splash.WindowArrived(old(View()), app)
                        else old(View())
    {
      if !alive || surface !in pendingAppIdResolveToplevels {
        return;
      }
      var _, _ := EnsureWrapper(surface, app);
      pendingAppIdResolveToplevels := RemoveOne(pendingAppIdResolveToplevels, surface);
    }

    method OnXdgToplevelSurfaceRemoved(surface: Toplevels.Surface, hasWrapper: bool)
      modifies this`history, this`pendingAppIdResolveToplevels
      ensures Tops() == Toplevels.Removed(old(Tops()), surface, hasWrapper) && View() == old(View())
    {
      history := Toplevels.Retire(history, surface);
      if !hasWrapper {
        pendingAppIdResolveToplevels := RemoveOne(pendingAppIdResolveToplevels, surface);
      }
    }
  }
}
