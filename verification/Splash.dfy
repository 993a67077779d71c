/** The prelaunch-splash protocol of src/core/shellhandler.cpp as values: what each
    handler does, and what every run keeps. */
module Splash {
  import opened Prelude
  import opened WindowConfigStore

  datatype Wrapper = Wrapper(id: nat, app: AppId)

  /** What happened so far: requests and those that owned a buffer lock, locks given back,
      wrappers created, turned into windows, destroyed, and reported as mismatches. */
  datatype Log = Log(
    requests: nat,
    buffered: multiset<nat>,
    unlocked: multiset<nat>,
    born: nat,
    converted: multiset<nat>,
    destroyed: multiset<nat>,
    reported: multiset<nat>)

  datatype State = State(
    pending: set<AppId>,
    wrappers: seq<Wrapper>,
    closed: set<AppId>,
    configs: Configs,
    waiters: seq<Waiter>,
    log: Log)

  const EMPTY_LOG := Log(0, multiset{}, multiset{}, 0, multiset{}, multiset{}, multiset{})
  const START := State({}, [], {}, map[], [], EMPTY_LOG)

  /** Index of the first wrapper of `app`, or the length when there is none. */
  function Find(ws: seq<Wrapper>, app: AppId): (k: nat)
    ensures k <= |ws| && (k < |ws| ==> ws[k].app == app)
    ensures forall j :: 0 <= j < k ==> ws[j].app != app
  {
    if ws == [] then 0
    else
      var k := Find(ws[..|ws| - 1], app);
      if k < |ws| - 1 || ws[|ws| - 1].app == app then k else k + 1
  }

  predicate Listed(ws: seq<Wrapper>, app: AppId) {
    exists k :: 0 <= k < |ws| && ws[k].app == app
  }

  // ----- the handlers ---------------------------------------------------------

  function Unlock(s: State, w: Waiter): State {
    if w.buffered then s.(log := s.log.(unlocked := s.log.unlocked + multiset{w.request})) else s
  }

  /** `skipSplash`: gives the lock back and forgets the app, even for a duplicate. */
  function Skipped(s: State, w: Waiter): State {
    Unlock(s, w).(pending := s.pending - {w.app})
  }

  function Created(s: State, w: Waiter): State {
    if w.app !in s.pending then Unlock(s, w)
    else
      var unlocked := Unlock(s, w);
      unlocked.(pending := s.pending - {w.app},
                wrappers := s.wrappers + [Wrapper(s.log.born, w.app)],
                log := unlocked.log.(born := s.log.born + 1))
  }

  function Issued(s: State, w: Waiter): State {
    s.(log := s.log.(requests := s.log.requests + 1,
                     buffered := if w.buffered then s.log.buffered + multiset{w.request} else s.log.buffered))
  }

  /** The app becomes pending and its configuration decides. */
  function Awaiting(s: State, w: Waiter): State {
    var waiting := s.(pending := s.pending + {w.app}, configs := Touched(s.configs, w.app));
    match Decide(s.configs, w.app)
    case CallNow => Created(waiting, w)
    case SkipNow => Skipped(waiting, w)
    case Deferred => waiting.(waiters := s.waiters + [w])
  }

  /** handlePrelaunchSplashRequested; `allowed` is the global switch and the resolver. */
  function Requested(s: State, app: AppId, buffered: bool, allowed: bool): State {
    var w := Waiter(app, s.log.requests, buffered);
    if !allowed || app == NoApp || Listed(s.wrappers, app) || app in s.pending
    then Skipped(Issued(s, w), w)
    else Awaiting(Issued(s, w), w)
  }

  function Finished(s: State, w: Waiter, config: AppConfig): State {
    if config.Ready? && config.splashEnabled then Created(s, w) else Skipped(s, w)
  }

  /** The callbacks of one finished configuration, in connection order. */
  function FinishedAll(s: State, ws: seq<Waiter>, app: AppId, config: AppConfig): State {
    if ws == [] then s
    else
      var before := FinishedAll(s, ws[..|ws| - 1], app, config);
      if ws[|ws| - 1].app == app then Finished(before, ws[|ws| - 1], config) else before
  }

  function Others(ws: seq<Waiter>, app: AppId): seq<Waiter> {
    if ws == [] then []
    else
      var rest := Others(ws[..|ws| - 1], app);
      if ws[|ws| - 1].app == app then rest else rest + [ws[|ws| - 1]]
  }

  function ConfigDone(s: State, app: AppId, config: AppConfig): State {
    FinishedAll(s.(configs := s.configs[app := config], waiters := Others(s.waiters, app)), s.waiters, app, config)
  }

  /** The end of a splash that never matched a window. */
  function Destroyed(s: State, w: Wrapper, max: int): State {
    s.(log := s.log.(destroyed := s.log.destroyed + multiset{w.id}, reported := s.log.reported + multiset{w.id}),
       configs := Recorded(s.configs, w.app, max))
  }

  function ClientClosed(s: State, app: AppId, max: int): State {
    var k := Find(s.wrappers, app);
    var dropped := s.(pending := s.pending - {app});
    if k == |s.wrappers| then dropped
    else Destroyed(dropped.(wrappers := DropAt(s.wrappers, k)), s.wrappers[k], max)
  }

  /** The splashCloseRequested handler. It does not ask whether `w` is still listed. */
  function UserClosed(s: State, w: Wrapper, max: int): State {
    Destroyed(s.(closed := if w.app == NoApp then s.closed else s.closed + {w.app},
                 wrappers := RemoveOne(s.wrappers, w)), w, max)
  }

  /** The timeout of a wrapper, which may fire long after the wrapper left. */
  function TimedOut(s: State, w: Wrapper, max: int): State {
    if w in s.wrappers then Destroyed(s.(wrappers := RemoveOne(s.wrappers, w)), w, max) else s
  }

  /** A matched splash becomes a window. */
  function Converted(s: State, k: nat): State
    requires k < |s.wrappers|
  {
    s.(wrappers := DropAt(s.wrappers, k),
       log := s.log.(converted := s.log.converted + multiset{s.wrappers[k].id}),
       configs := Cleared(s.configs, s.wrappers[k].app))
  }

  /** ensureXdgWrapper and ensureXwaylandWrapper on the splash state. */
  function WindowArrived(s: State, app: AppId): State {
    if app == NoApp then s
    else if app in s.closed then s.(closed := s.closed - {app})
    else
      var k := Find(s.wrappers, app);
      var dropped := s.(pending := s.pending - {app});
      if k == |s.wrappers| then dropped
      else Converted(dropped, k)
  }

  // ----- runs -------------------------------------------------------------------

  datatype Event =
    | Request(app: AppId, buffered: bool, allowed: bool)
    | Finish(app: AppId, config: AppConfig)
    | ClientClose(app: AppId)
    | UserClose(wrapper: Wrapper)
    | Timeout(wrapper: Wrapper)
    | Window(app: AppId)

  /** A configuration finishes once. Anything else may happen at any time: a wrapper whose
      deletion is under way may still ask to be closed, and timeouts may be late. */
  predicate Enabled(s: State, e: Event) {
    e.Finish? ==> e.app in s.configs && s.configs[e.app].Loading? && !e.config.Loading?
  }

  function Step(s: State, e: Event, max: int): State {
    match e
    case Request(app, buffered, allowed) => Requested(s, app, buffered, allowed)
    case Finish(app, config) => ConfigDone(s, app, config)
    case ClientClose(app) => ClientClosed(s, app, max)
    case UserClose(w) => UserClosed(s, w, max)
    case Timeout(w) => TimedOut(s, w, max)
    case Window(app) => WindowArrived(s, app)
  }

  function Run(events: seq<Event>, max: int): State {
    if events == [] then START else Step(Run(events[..|events| - 1], max), events[|events| - 1], max)
  }

  predicate Legal(events: seq<Event>, max: int) {
    events == [] || (Legal(events[..|events| - 1], max)
                     && Enabled(Run(events[..|events| - 1], max), events[|events| - 1]))
  }

  // ----- invariants ----------------------------------------------------------

  /** At most one splash per app, and never one that is also pending. */
  ghost predicate Unique(s: State) {
    && (forall i, j :: 0 <= i < j < |s.wrappers| ==> s.wrappers[i].app != s.wrappers[j].app)
    && (forall i :: 0 <= i < |s.wrappers| ==> s.wrappers[i].app != NoApp && s.wrappers[i].app !in s.pending)
  }

  /** How many outstanding callbacks hold the buffer lock of request `r`. */
  function Held(ws: seq<Waiter>, r: nat): nat {
    if ws == [] then 0
    else
      var w := ws[|ws| - 1];
      Held(ws[..|ws| - 1], r) + if w.buffered && w.request == r then 1 else 0
  }

  /** Every buffer lock was given back once or is held by one outstanding callback. */
  ghost predicate Conserved(s: State) {
    forall r: nat ::
      && s.log.unlocked[r] + Held(s.waiters, r) == s.log.buffered[r]
      && s.log.buffered[r] <= if r < s.log.requests then 1 else 0
  }

  function HasId(id: nat): Wrapper -> bool {
    (w: Wrapper) => w.id == id
  }

  /** How often splash `id` is listed, converted or destroyed, over the once it should be. */
  function Excess(s: State, id: nat): int {
    Count(s.wrappers, HasId(id)) + s.log.converted[id] + s.log.destroyed[id] - if id < s.log.born then 1 else 0
  }

  /** Every splash ever created is listed, converted or destroyed, exactly one of them and
      exactly once. */
  ghost predicate Balanced(s: State) {
    forall id: nat :: Excess(s, id) == 0
  }

  /** Callbacks wait only for loading configurations, a pending app always has one
      outstanding, and every listed splash has its configuration at hand. */
  ghost predicate Attended(s: State) {
    && NoApp !in s.configs
    && (forall k :: 0 <= k < |s.waiters| ==>
          s.waiters[k].app != NoApp && s.waiters[k].app in s.configs && s.configs[s.waiters[k].app].Loading?)
    && (forall app :: app in s.pending ==> Awaited(s.waiters, app))
    && (forall k :: 0 <= k < |s.wrappers| ==> s.wrappers[k].app in s.configs && s.configs[s.wrappers[k].app].Ready?)
  }

  ghost predicate Awaited(ws: seq<Waiter>, app: AppId) {
    exists k :: 0 <= k < |ws| && ws[k].app == app
  }

  ghost predicate Inv(s: State) {
    Unique(s) && Conserved(s) && Attended(s) && s.log.reported == s.log.destroyed
  }

  // ----- facts about the lists -----------------------------------------------

  /** The locks held by callbacks of `app`. */
  function HeldBy(ws: seq<Waiter>, app: AppId, r: nat): nat {
    if ws == [] then 0
    else
      var w := ws[|ws| - 1];
      HeldBy(ws[..|ws| - 1], app, r) + if w.app == app && w.buffered && w.request == r then 1 else 0
  }

  lemma {:induction false} HeldSplits(ws: seq<Waiter>, app: AppId, r: nat)
    ensures Held(ws, r) == Held(Others(ws, app), r) + HeldBy(ws, app, r)
  {
    if ws != [] {
      var all := Others(ws, app);
      HeldSplits(ws[..|ws| - 1], app, r);
      if ws[|ws| - 1].app != app {
        assert all[..|all| - 1] == Others(ws[..|ws| - 1], app);
      }
    }
  }

  lemma {:induction false} OthersMembers(ws: seq<Waiter>, app: AppId)
    ensures forall w :: w in Others(ws, app) <==> w in ws && w.app != app
  {
    if ws != [] {
      OthersMembers(ws[..|ws| - 1], app);
      assert ws == ws[..|ws| - 1] + [ws[|ws| - 1]];
    }
  }

  // ----- every handler keeps the invariants -----------------------------------

  lemma {:induction false} CreationKeeps(s: State, w: Waiter)
    requires Unique(s) && w.app != NoApp
    ensures Unique(Created(s, w))
  {
  }

  /** What the callbacks of one configuration leave untouched. */
  predicate SameButSplash(s: State, after: State) {
    after == s.(pending := after.pending, wrappers := after.wrappers,
                log := s.log.(unlocked := after.log.unlocked, born := after.log.born))
  }

  lemma {:induction false} CallbacksKeepUnique(s: State, ws: seq<Waiter>, app: AppId, config: AppConfig)
    requires Unique(s) && app != NoApp
    ensures Unique(FinishedAll(s, ws, app, config))
  {
    if ws != [] {
      CallbacksKeepUnique(s, ws[..|ws| - 1], app, config);
      if ws[|ws| - 1].app == app {
        CreationKeeps(FinishedAll(s, ws[..|ws| - 1], app, config), ws[|ws| - 1]);
      }
    }
  }

  /** The callbacks of one configuration create at most one splash and use the app up. */
  lemma {:induction false} CallbacksCreateOne(s: State, ws: seq<Waiter>, app: AppId, config: AppConfig)
    ensures var after := FinishedAll(s, ws, app, config);
            && SameButSplash(s, after)
            && after.pending == (if Awaited(ws, app) then s.pending - {app} else s.pending)
            && ((after.wrappers == s.wrappers && after.log.born == s.log.born)
                || (config.Ready? && Awaited(ws, app) && after.wrappers == s.wrappers + [Wrapper(s.log.born, app)]))
  {
    if ws != [] {
      var prior, last := ws[..|ws| - 1], ws[|ws| - 1];
      CallbacksCreateOne(s, prior, app, config);
      assert ws == prior + [last];
      AwaitedGrows(prior, last);
      var before := FinishedAll(s, prior, app, config);
      if last.app == app && config.Ready? && config.splashEnabled && app in before.pending {
        assert before.wrappers == s.wrappers && before.log.born == s.log.born;
        assert FinishedAll(s, ws, app, config).wrappers == s.wrappers + [Wrapper(s.log.born, app)];
      } else {
        assert FinishedAll(s, ws, app, config).wrappers == before.wrappers;
      }
    }
  }

  lemma {:induction false} CallbacksUnlock(s: State, ws: seq<Waiter>, app: AppId, config: AppConfig, r: nat)
    ensures FinishedAll(s, ws, app, config).log.unlocked[r] == s.log.unlocked[r] + HeldBy(ws, app, r)
  {
    if ws != [] {
      CallbacksUnlock(s, ws[..|ws| - 1], app, config, r);
    }
  }

  lemma {:induction false} AwaitedGrows(ws: seq<Waiter>, w: Waiter)
    ensures forall app :: Awaited(ws + [w], app) <==> Awaited(ws, app) || app == w.app
  {
    assert (ws + [w])[|ws|] == w;
    forall app | Awaited(ws, app)
      ensures Awaited(ws + [w], app)
    {
      var k :| 0 <= k < |ws| && ws[k].app == app;
      assert (ws + [w])[k].app == app;
    }
  }

  lemma {:induction false} FinishKeepsConserved(s: State, app: AppId, config: AppConfig)
    requires Conserved(s)
    ensures Conserved(ConfigDone(s, app, config))
  {
    var loaded := s.(configs := s.configs[app := config], waiters := Others(s.waiters, app));
    CallbacksCreateOne(loaded, s.waiters, app, config);
    forall r: nat
      ensures ConfigDone(s, app, config).log.unlocked[r] + Held(Others(s.waiters, app), r) == s.log.buffered[r]
    {
      CallbacksUnlock(loaded, s.waiters, app, config, r);
      HeldSplits(s.waiters, app, r);
    }
  }

  lemma {:induction false} FinishKeepsAttended(s: State, app: AppId, config: AppConfig)
    requires Attended(s) && Enabled(s, Finish(app, config))
    ensures Attended(ConfigDone(s, app, config)) && !Awaited(ConfigDone(s, app, config).waiters, app)
  {
    var loaded := s.(configs := s.configs[app := config], waiters := Others(s.waiters, app));
    var after := ConfigDone(s, app, config);
    CallbacksCreateOne(loaded, s.waiters, app, config);
    OthersMembers(s.waiters, app);
    assert forall k :: 0 <= k < |after.waiters| ==> after.waiters[k] in s.waiters && after.waiters[k].app != app;
    forall other | other in after.pending
      ensures Awaited(after.waiters, other)
    {
      var k :| 0 <= k < |s.waiters| && s.waiters[k].app == other;
      assert s.waiters[k] in after.waiters;
    }
    assert forall k :: 0 <= k < |s.wrappers| ==> s.wrappers[k].app != app;
  }

  lemma {:induction false} FinishKeeps(s: State, app: AppId, config: AppConfig)
    requires Inv(s) && Enabled(s, Finish(app, config))
    ensures Inv(ConfigDone(s, app, config))
  {
    var loaded := s.(configs := s.configs[app := config], waiters := Others(s.waiters, app));
    CallbacksKeepUnique(loaded, s.waiters, app, config);
    CallbacksCreateOne(loaded, s.waiters, app, config);
    FinishKeepsConserved(s, app, config);
    FinishKeepsAttended(s, app, config);
  }

  lemma {:induction false} RequestKeepsUnique(s: State, app: AppId, buffered: bool, allowed: bool)
    requires Unique(s)
    ensures Unique(Requested(s, app, buffered, allowed))
  {
    var w := Waiter(app, s.log.requests, buffered);
    var waiting := Issued(s, w).(pending := s.pending + {app}, configs := Touched(s.configs, app));
    if app != NoApp && !Listed(s.wrappers, app) {
      CreationKeeps(waiting, w);
    }
  }

  /** A request that settles at once takes a lock and gives it back. */
  lemma {:induction false} SettledKeepsConserved(s: State, w: Waiter, after: State)
    requires Conserved(s) && w.request == s.log.requests && after.waiters == s.waiters
    requires after.log.requests == s.log.requests + 1
    requires after.log.buffered == Issued(s, w).log.buffered && after.log.unlocked == Unlock(s, w).log.unlocked
    ensures Conserved(after)
  {
  }

  /** One that waits leaves it with its callback. */
  lemma {:induction false} DeferredKeepsConserved(s: State, w: Waiter, after: State)
    requires Conserved(s) && w.request == s.log.requests && after.waiters == s.waiters + [w]
    requires after.log == Issued(s, w).log
    ensures Conserved(after)
  {
    assert after.waiters[..|after.waiters| - 1] == s.waiters;
  }

  lemma {:induction false} RequestKeepsConserved(s: State, app: AppId, buffered: bool, allowed: bool)
    requires Conserved(s)
    ensures Conserved(Requested(s, app, buffered, allowed))
  {
    var w := Waiter(app, s.log.requests, buffered);
    var after := Requested(s, app, buffered, allowed);
    if after.waiters == s.waiters {
      SettledKeepsConserved(s, w, after);
    } else {
      DeferredKeepsConserved(s, w, after);
    }
  }

  lemma {:induction false} TouchKeepsAttended(s: State, app: AppId)
    requires Attended(s)
    ensures Attended(s.(configs := Touched(s.configs, app)))
  {
  }

  lemma {:induction false} RequestKeepsAttended(s: State, app: AppId, buffered: bool, allowed: bool)
    requires Attended(s)
    ensures Attended(Requested(s, app, buffered, allowed))
  {
    var w := Waiter(app, s.log.requests, buffered);
    if allowed && app != NoApp && !Listed(s.wrappers, app) && app !in s.pending {
      TouchKeepsAttended(s, app);
      match Decide(s.configs, app)
      case CallNow =>
      case SkipNow =>
      case Deferred => AwaitedGrows(s.waiters, w);
    }
  }

  /** Recording and clearing only add configurations that load, and keep loaded ones loaded. */
  lemma {:induction false} BookkeepingKeepsAttended(s: State, app: AppId, max: int)
    requires Attended(s)
    ensures Attended(s.(configs := Recorded(s.configs, app, max)))
    ensures Attended(s.(configs := Cleared(s.configs, app)))
  {
  }

  lemma {:induction false} DropKeepsLists(s: State, k: nat)
    requires Unique(s) && Attended(s) && k < |s.wrappers|
    ensures Unique(s.(wrappers := DropAt(s.wrappers, k))) && Attended(s.(wrappers := DropAt(s.wrappers, k)))
  {
    var rest := DropAt(s.wrappers, k);
    assert forall i :: 0 <= i < |rest| ==> rest[i] == if i < k then s.wrappers[i] else s.wrappers[i + 1];
  }

  /** Any wrapper may be destroyed, listed or not. */
  lemma {:induction false} DestroyKeeps(s: State, w: Wrapper, max: int)
    requires Inv(s)
    ensures Inv(Destroyed(s, w, max))
  {
    BookkeepingKeepsAttended(s, w.app, max);
  }

  lemma {:induction false} DropKeeps(s: State, k: nat)
    requires Inv(s) && k < |s.wrappers|
    ensures Inv(s.(wrappers := DropAt(s.wrappers, k)))
  {
    DropKeepsLists(s, k);
  }

  /** A listed wrapper leaves and becomes a window. */
  lemma {:induction false} ConvertKeeps(s: State, k: nat)
    requires Inv(s) && k < |s.wrappers|
    ensures Inv(Converted(s, k))
  {
    DropKeepsLists(s, k);
    BookkeepingKeepsAttended(s.(wrappers := DropAt(s.wrappers, k)), s.wrappers[k].app, 0);
  }

  lemma {:induction false} RemoveKeeps(s: State, w: Wrapper)
    requires Inv(s)
    ensures Inv(s.(wrappers := RemoveOne(s.wrappers, w)))
  {
    if w in s.wrappers {
      var k := RemoveOneDrops(s.wrappers, w);
      DropKeeps(s, k);
    } else {
      RemoveCounts(s.wrappers, w, HasId(w.id));
    }
  }

  lemma {:induction false} CloseKeeps(s: State, w: Wrapper, max: int)
    requires Inv(s)
    ensures Inv(UserClosed(s, w, max)) && Inv(TimedOut(s, w, max))
  {
    var gone := s.(wrappers := RemoveOne(s.wrappers, w));
    RemoveKeeps(s, w);
    DestroyKeeps(gone, w, max);
    DestroyKeeps(gone.(closed := if w.app == NoApp then s.closed else s.closed + {w.app}), w, max);
  }

  lemma {:induction false} ForgetKeeps(s: State, app: AppId)
    requires Inv(s)
    ensures Inv(s.(pending := s.pending - {app}))
  {
  }

  lemma {:induction false} ClientCloseKeeps(s: State, app: AppId, max: int)
    requires Inv(s)
    ensures Inv(ClientClosed(s, app, max))
  {
    ForgetKeeps(s, app);
    var k := Find(s.wrappers, app);
    if k < |s.wrappers| {
      var dropped := s.(pending := s.pending - {app});
      DropKeeps(dropped, k);
      DestroyKeeps(dropped.(wrappers := DropAt(s.wrappers, k)), s.wrappers[k], max);
    }
  }

  lemma {:induction false} WindowKeeps(s: State, app: AppId)
    requires Inv(s)
    ensures Inv(WindowArrived(s, app))
  {
    if app in s.closed {
      assert Inv(s.(closed := s.closed - {app}));
    } else {
      ForgetKeeps(s, app);
      var k := Find(s.wrappers, app);
      if k < |s.wrappers| {
        ConvertKeeps(s.(pending := s.pending - {app}), k);
      }
    }
  }

  lemma {:induction false} StepKeeps(s: State, e: Event, max: int)
    requires Inv(s) && Enabled(s, e)
    ensures Inv(Step(s, e, max))
  {
    match e
    case Request(app, buffered, allowed) =>
      RequestKeepsUnique(s, app, buffered, allowed);
      RequestKeepsConserved(s, app, buffered, allowed);
      RequestKeepsAttended(s, app, buffered, allowed);
    case Finish(app, config) => FinishKeeps(s, app, config);
    case ClientClose(app) => ClientCloseKeeps(s, app, max);
    case UserClose(w) => CloseKeeps(s, w, max);
    case Timeout(w) => CloseKeeps(s, w, max);
    case Window(app) => WindowKeeps(s, app);
  }

  lemma {:induction false} RunKeeps(events: seq<Event>, max: int)
    requires Legal(events, max)
    ensures Inv(Run(events, max))
  {
    if events != [] {
      RunKeeps(events[..|events| - 1], max);
      StepKeeps(Run(events[..|events| - 1], max), events[|events| - 1], max);
    }
  }

  // ----- the books -------------------------------------------------------------

  /** A close request from splash `id` when it is no longer listed. */
  predicate Stray(s: State, e: Event, id: nat) {
    e.UserClose? && e.wrapper !in s.wrappers && e.wrapper.id == id
  }

  function Strays(events: seq<Event>, max: int, id: nat): nat {
    if events == [] then 0
    else
      var prior := events[..|events| - 1];
      Strays(prior, max, id) + if Stray(Run(prior, max), events[|events| - 1], id) then 1 else 0
  }

  lemma {:induction false} CreationKeepsBooks(s: State, w: Waiter, id: nat)
    ensures Excess(Created(s, w), id) == Excess(s, id)
  {
    var after := Created(s, w);
    if w.app in s.pending {
      assert after.wrappers[..|after.wrappers| - 1] == s.wrappers;
    }
  }

  lemma {:induction false} CallbacksKeepBooks(s: State, ws: seq<Waiter>, app: AppId, config: AppConfig, id: nat)
    ensures Excess(FinishedAll(s, ws, app, config), id) == Excess(s, id)
  {
    if ws != [] {
      CallbacksKeepBooks(s, ws[..|ws| - 1], app, config, id);
      CreationKeepsBooks(FinishedAll(s, ws[..|ws| - 1], app, config), ws[|ws| - 1], id);
    }
  }

  lemma {:induction false} RequestKeepsBooks(s: State, app: AppId, buffered: bool, allowed: bool, id: nat)
    ensures Excess(Requested(s, app, buffered, allowed), id) == Excess(s, id)
  {
    var w := Waiter(app, s.log.requests, buffered);
    CreationKeepsBooks(Issued(s, w).(pending := s.pending + {app}, configs := Touched(s.configs, app)), w, id);
  }

  /** What leaves the list at `k` is accounted for by what is logged. */
  lemma {:induction false} DropKeepsBooks(s: State, k: nat, max: int, id: nat)
    requires k < |s.wrappers|
    ensures Excess(Destroyed(s.(wrappers := DropAt(s.wrappers, k)), s.wrappers[k], max), id) == Excess(s, id)
    ensures Excess(Converted(s, k), id) == Excess(s, id)
  {
    DropCounts(s.wrappers, k, HasId(id));
  }

  lemma {:induction false} CloseBooks(s: State, w: Wrapper, max: int, id: nat)
    ensures Excess(UserClosed(s, w, max), id) == Excess(s, id) + if w !in s.wrappers && w.id == id then 1 else 0
    ensures Excess(TimedOut(s, w, max), id) == Excess(s, id)
  {
    RemoveCounts(s.wrappers, w, HasId(id));
  }

  lemma {:induction false} FinishKeepsBooks(s: State, app: AppId, config: AppConfig, id: nat)
    ensures Excess(ConfigDone(s, app, config), id) == Excess(s, id)
  {
    CallbacksKeepBooks(s.(configs := s.configs[app := config], waiters := Others(s.waiters, app)), s.waiters, app,
                       config, id);
  }

  lemma {:induction false} ClientCloseKeepsBooks(s: State, app: AppId, max: int, id: nat)
    ensures Excess(ClientClosed(s, app, max), id) == Excess(s, id)
  {
    if Find(s.wrappers, app) < |s.wrappers| {
      DropKeepsBooks(s.(pending := s.pending - {app}), Find(s.wrappers, app), max, id);
    }
  }

  lemma {:induction false} WindowKeepsBooks(s: State, app: AppId, id: nat)
    ensures Excess(WindowArrived(s, app), id) == Excess(s, id)
  {
    if Find(s.wrappers, app) < |s.wrappers| {
      DropKeepsBooks(s.(pending := s.pending - {app}), Find(s.wrappers, app), 0, id);
    }
  }

  /** Every handler keeps the books, except that a stray close counts its splash once more. */
  lemma {:induction false} StepBooks(s: State, e: Event, max: int, id: nat)
    ensures Excess(Step(s, e, max), id) == Excess(s, id) + if Stray(s, e, id) then 1 else 0
  {
    match e
    case Request(app, buffered, allowed) => RequestKeepsBooks(s, app, buffered, allowed, id);
    case Finish(app, config) => FinishKeepsBooks(s, app, config, id);
    case ClientClose(app) => ClientCloseKeepsBooks(s, app, max, id);
    case UserClose(w) => CloseBooks(s, w, max, id);
    case Timeout(w) => CloseBooks(s, w, max, id);
    case Window(app) => WindowKeepsBooks(s, app, id);
  }

  lemma {:induction false} RunBooks(events: seq<Event>, max: int, id: nat)
    ensures Excess(Run(events, max), id) == Strays(events, max, id)
  {
    if events != [] {
      RunBooks(events[..|events| - 1], max, id);
      StepBooks(Run(events[..|events| - 1], max), events[|events| - 1], max, id);
    }
  }

  // ----- what every run promises ----------------------------------------------

  /** Each request's buffer is unlocked at most once, and unlocks plus outstanding
      callbacks account for exactly the requests that carried a buffer. */
  lemma {:induction false} BuffersAreConserved(events: seq<Event>, max: int, r: nat)
    requires Legal(events, max)
    ensures var s := Run(events, max);
            s.log.unlocked[r] + Held(s.waiters, r) == s.log.buffered[r] <= 1
  {
    RunKeeps(events, max);
  }

  /** In every reachable state splashes have pairwise distinct app ids, none of them
      pending, and a pending app still has a callback outstanding. */
  lemma {:induction false} SplashesAreUnique(events: seq<Event>, max: int)
    requires Legal(events, max)
    ensures var s := Run(events, max);
            && (forall i, j :: 0 <= i < j < |s.wrappers| ==> s.wrappers[i].app != s.wrappers[j].app)
            && (forall app :: app in s.pending ==> !Listed(s.wrappers, app) && Awaited(s.waiters, app))
  {
    RunKeeps(events, max);
  }

  /** In every run a splash is still listed or left exactly once, converted or destroyed and
      never both, but for one more destruction per close request it sent after it had left;
      a mismatch is reported exactly once per destruction. */
  lemma {:induction false} EverySplashLeavesOnce(events: seq<Event>, max: int, id: nat)
    requires Legal(events, max)
    ensures var s := Run(events, max);
            && Count(s.wrappers, HasId(id)) + s.log.converted[id] + s.log.destroyed[id]
               == (if id < s.log.born then 1 else 0) + Strays(events, max, id)
            && s.log.reported[id] == s.log.destroyed[id]
  {
    RunKeeps(events, max);
    RunBooks(events, max, id);
  }

  /** Every close request of the run came from a splash that was listed. */
  predicate ClosesListed(events: seq<Event>, max: int) {
    events == []
    || (ClosesListed(events[..|events| - 1], max)
        && (events[|events| - 1].UserClose?
            ==> events[|events| - 1].wrapper in Run(events[..|events| - 1], max).wrappers))
  }

  /** A run without strays has none for any splash; a stray shows up in the count of its own. */
  lemma {:induction false} ListedMeansNoStrays(events: seq<Event>, max: int, id: nat) returns (stray: nat)
    ensures ClosesListed(events, max) ==> Strays(events, max, id) == 0
    ensures !ClosesListed(events, max) ==> Strays(events, max, stray) > 0
  {
    stray := 0;
    if events != [] {
      var prior, e := events[..|events| - 1], events[|events| - 1];
      stray := ListedMeansNoStrays(prior, max, id);
      if ClosesListed(prior, max) && !ClosesListed(events, max) {
        stray := e.wrapper.id;
        assert Stray(Run(prior, max), e, stray);
      }
    }
  }

  /** The close handler has no guard of its own, so the books of a run balance exactly when
      every close request came from a splash still listed. */
  lemma {:induction false} BooksBalanceIffClosesListed(events: seq<Event>, max: int)
    ensures Balanced(Run(events, max)) <==> ClosesListed(events, max)
  {
    if ClosesListed(events, max) {
      forall id: nat
        ensures Excess(Run(events, max), id) == 0
      {
        RunBooks(events, max, id);
        var _ := ListedMeansNoStrays(events, max, id);
      }
    } else {
      var stray := ListedMeansNoStrays(events, max, 0);
      RunBooks(events, max, stray);
    }
  }

  /** The same for one call of the handler. */
  lemma {:induction false} UserCloseNeedsListedWrapper(s: State, w: Wrapper, max: int)
    requires Balanced(s)
    ensures Balanced(UserClosed(s, w, max)) <==> w in s.wrappers
  {
    if w in s.wrappers {
      forall id: nat
        ensures Excess(UserClosed(s, w, max), id) == 0
      {
        CloseBooks(s, w, max, id);
      }
    } else {
      CloseBooks(s, w, max, w.id);
    }
  }

  lemma {:induction false} RunOneMore(events: seq<Event>, e: Event, max: int)
    ensures Run(events + [e], max) == Step(Run(events, max), e, max)
    ensures Legal(events + [e], max) <==> Legal(events, max) && Enabled(Run(events, max), e)
  {
    assert (events + [e])[..|events + [e]| - 1] == events;
  }

  /** After any run a listed splash may ask twice to be closed, and is reported twice. */
  lemma {:induction false} SecondCloseReportsTwice(events: seq<Event>, max: int, w: Wrapper)
    requires Legal(events, max) && w in Run(events, max).wrappers
    ensures Legal(events + [UserClose(w)] + [UserClose(w)], max)
    ensures Run(events + [UserClose(w)] + [UserClose(w)], max).log.reported[w.id]
            == Run(events, max).log.reported[w.id] + 2
  {
    RunOneMore(events, UserClose(w), max);
    RunOneMore(events + [UserClose(w)], UserClose(w), max);
    ReportedTwice(Run(events, max), w, max);
  }

  lemma {:induction false} ReportedTwice(s: State, w: Wrapper, max: int)
    ensures UserClosed(UserClosed(s, w, max), w, max).log.reported[w.id] == s.log.reported[w.id] + 2
  {
  }

  /** A duplicate request cancels the one that is pending: when the configuration
      arrives no splash is created. */
  lemma {:induction false} DuplicateCancels(s: State, app: AppId, first: bool, second: bool, config: AppConfig,
                                            max: int)
    requires Inv(s) && app != NoApp && app !in s.pending && !Listed(s.wrappers, app)
             && Decide(s.configs, app) == Deferred
    requires !config.Loading?
    ensures var twice := Requested(Requested(s, app, first, true), app, second, true);
            && Enabled(twice, Finish(app, config))
            && ConfigDone(twice, app, config).wrappers == s.wrappers
  {
    var once := Requested(s, app, first, true);
    var twice := Requested(once, app, second, true);
    assert app !in twice.pending;
    var loaded := twice.(configs := twice.configs[app := config], waiters := Others(twice.waiters, app));
    NotPendingCreatesNothing(loaded, twice.waiters, app, config);
  }

  lemma {:induction false} NotPendingCreatesNothing(s: State, ws: seq<Waiter>, app: AppId, config: AppConfig)
    requires app !in s.pending
    ensures FinishedAll(s, ws, app, config).wrappers == s.wrappers && app !in FinishedAll(s, ws, app, config).pending
    ensures FinishedAll(s, ws, app, config).log.born == s.log.born
  {
    if ws != [] {
      NotPendingCreatesNothing(s, ws[..|ws| - 1], app, config);
    }
  }

  /** When its configuration finishes, a pending app gets its splash if the configuration
      loaded and allows one, and nothing otherwise. */
  lemma {:induction false} PendingBecomesSplash(s: State, app: AppId, config: AppConfig)
    requires Inv(s) && Enabled(s, Finish(app, config)) && app in s.pending
    ensures ConfigDone(s, app, config).wrappers
            == if config.Ready? && config.splashEnabled then s.wrappers + [Wrapper(s.log.born, app)] else s.wrappers
  {
    var loaded := s.(configs := s.configs[app := config], waiters := Others(s.waiters, app));
    FirstCallbackDecides(loaded, s.waiters, app, config);
  }

  lemma {:induction false} FirstCallbackDecides(s: State, ws: seq<Waiter>, app: AppId, config: AppConfig)
    requires app in s.pending
    ensures var after := FinishedAll(s, ws, app, config);
            if !Awaited(ws, app)
            then app in after.pending && after.wrappers == s.wrappers && after.log.born == s.log.born
            else var creates := config.Ready? && config.splashEnabled;
                 && app !in after.pending
                 && after.wrappers == (if creates then s.wrappers + [Wrapper(s.log.born, app)] else s.wrappers)
                 && after.log.born == s.log.born + (if creates then 1 else 0)
  {
    if ws != [] {
      assert ws == ws[..|ws| - 1] + [ws[|ws| - 1]];
      AwaitedGrows(ws[..|ws| - 1], ws[|ws| - 1]);
      FirstCallbackDecides(s, ws[..|ws| - 1], app, config);
    }
  }

  /** Why a splash leaves: a window of its app converts it, and only closing it or its
      timeout destroys it. */
  lemma {:induction false} ExitCauses(s: State, e: Event, max: int, w: Wrapper)
    requires Inv(s) && Enabled(s, e) && w in s.wrappers && w !in Step(s, e, max).wrappers
    ensures var after := Step(s, e, max);
            || (e == Window(w.app) && after.log.destroyed == s.log.destroyed
                && after.log.converted == s.log.converted + multiset{w.id})
            || ((e == ClientClose(w.app) || e == UserClose(w) || e == Timeout(w))
                && after.log.converted == s.log.converted
                && after.log.destroyed == s.log.destroyed + multiset{w.id})
  {
    match e
    case Request(app, buffered, allowed) =>
      assert false;
    case Finish(app, config) =>
      var loaded := s.(configs := s.configs[app := config], waiters := Others(s.waiters, app));
      CallbacksCreateOne(loaded, s.waiters, app, config);
      assert false;
    case ClientClose(app) => OnlyFoundLeaves(s, app, w);
    case Window(app) => OnlyFoundLeaves(s, app, w);
    case UserClose(u) => OnlyRemovedLeaves(s, u, w);
    case Timeout(u) =>
      if u in s.wrappers {
        OnlyRemovedLeaves(s, u, w);
      }
  }

  lemma {:induction false} OnlyFoundLeaves(s: State, app: AppId, w: Wrapper)
    requires Unique(s) && w in s.wrappers
    ensures var k := Find(s.wrappers, app);
            k < |s.wrappers| ==> (w == s.wrappers[k] && w.app == app) || w in DropAt(s.wrappers, k)
  {
    var k := Find(s.wrappers, app);
    if k < |s.wrappers| && w != s.wrappers[k] {
      var i :| 0 <= i < |s.wrappers| && s.wrappers[i] == w;
      var rest := DropAt(s.wrappers, k);
      assert if i < k then rest[i] == w else rest[i - 1] == w;
    }
  }

  lemma {:induction false} OnlyRemovedLeaves(s: State, u: Wrapper, w: Wrapper)
    requires u in s.wrappers && w in s.wrappers
    ensures w == u || w in RemoveOne(s.wrappers, u)
  {
    var k := RemoveOneDrops(s.wrappers, u);
    if w != u {
      var i :| 0 <= i < |s.wrappers| && s.wrappers[i] == w;
      var rest := DropAt(s.wrappers, k);
      assert if i < k then rest[i] == w else rest[i - 1] == w;
    }
  }

  // ----- when splashes begin and end ---------------------------------------------------

  /** A request may lead to a splash: it is allowed, names an app, and is no duplicate. */
  predicate Admissible(s: State, app: AppId, allowed: bool) {
    allowed && app != NoApp && !Listed(s.wrappers, app) && app !in s.pending
  }

  /** What a request does, whatever the state: it creates a splash at once exactly for a loaded
      configuration that allows one, and waits exactly for one that is not loaded yet; it gets
      nothing when switched off, without an id, as a duplicate, or for a configuration that
      failed or forbids splashes. Its app is pending afterwards exactly when it waits. */
  lemma {:induction false} RequestOutcome(s: State, app: AppId, buffered: bool, allowed: bool)
    ensures var after := Requested(s, app, buffered, allowed);
            var known := app in s.configs;
            var creates := Admissible(s, app, allowed) && known && s.configs[app].Ready?
                && s.configs[app].splashEnabled;
            var waits := Admissible(s, app, allowed) && (!known || s.configs[app].Loading?);
            && after.wrappers == (if creates then s.wrappers + [Wrapper(s.log.born, app)] else s.wrappers)
            && after.waiters == (if waits then s.waiters + [Waiter(app, s.log.requests, buffered)] else s.waiters)
            && after.pending == (if waits then s.pending + {app} else s.pending - {app})
            && after.closed == s.closed
  {
  }

  /** The step makes a splash for `app`. */
  predicate Creates(s: State, e: Event, app: AppId) {
    || (e.Request? && e.app == app && Admissible(s, app, e.allowed)
        && app in s.configs && s.configs[app].Ready? && s.configs[app].splashEnabled)
    || (e.Finish? && e.app == app && app in s.pending && e.config.Ready? && e.config.splashEnabled)
  }

  /** A splash is born exactly by an admissible request of a loaded app that allows it, or when
      the configuration of a pending app finishes and allows it. */
  lemma {:induction false} BirthCauses(s: State, e: Event, max: int, app: AppId)
    requires Inv(s) && Enabled(s, e)
    ensures Creates(s, e, app) ==>
              Step(s, e, max).wrappers == s.wrappers + [Wrapper(s.log.born, app)]
                  && Step(s, e, max).log.born == s.log.born + 1
    ensures !Creates(s, e, app) ==> forall w :: w in Step(s, e, max).wrappers && w.app == app ==> w in s.wrappers
  {
    match e
    case Request(x, buffered, allowed) => RequestOutcome(s, x, buffered, allowed);
    case Finish(x, config) => FinishBirths(s, x, config);
    case ClientClose(x) => NothingNew(s, e, max);
    case UserClose(w) => NothingNew(s, e, max);
    case Timeout(w) => NothingNew(s, e, max);
    case Window(x) => NothingNew(s, e, max);
  }

  lemma {:induction false} FinishBirths(s: State, app: AppId, config: AppConfig)
    requires Inv(s) && Enabled(s, Finish(app, config))
    ensures var after := ConfigDone(s, app, config);
            if app in s.pending && config.Ready? && config.splashEnabled
            then after.wrappers == s.wrappers + [Wrapper(s.log.born, app)] && after.log.born == s.log.born + 1
            else after.wrappers == s.wrappers && after.log.born == s.log.born
  {
    var loaded := s.(configs := s.configs[app := config], waiters := Others(s.waiters, app));
    if app in s.pending {
      FirstCallbackDecides(loaded, s.waiters, app, config);
    } else {
      NotPendingCreatesNothing(loaded, s.waiters, app, config);
    }
  }

  /** The handlers that end splashes make none. */
  lemma {:induction false} NothingNew(s: State, e: Event, max: int)
    requires e.ClientClose? || e.UserClose? || e.Timeout? || e.Window?
    ensures Step(s, e, max).log.born == s.log.born
    ensures forall w :: w in Step(s, e, max).wrappers ==> w in s.wrappers
  {
    if e.UserClose? || e.Timeout? {
      RemovedOnly(s.wrappers, e.wrapper);
    }
  }

  lemma {:induction false} RemovedOnly(ws: seq<Wrapper>, u: Wrapper)
    ensures forall w :: w in RemoveOne(ws, u) ==> w in ws
  {
    if u in ws {
      var k := RemoveOneDrops(ws, u);
    } else {
      RemoveCounts(ws, u, Is(u));
    }
  }

  /** A listed splash leaves exactly by the client's close of its app, the user's close or the
      timeout of itself, or a window of its app, unless that window is refused because an
      earlier splash of the app was closed. */
  lemma {:induction false} LeavesExactlyBy(s: State, e: Event, max: int, w: Wrapper)
    requires Inv(s) && Enabled(s, e) && w in s.wrappers
    ensures w !in Step(s, e, max).wrappers
            <==> e == ClientClose(w.app) || e == UserClose(w) || e == Timeout(w)
                 || (e == Window(w.app) && w.app !in s.closed)
  {
    match e
    case Request(x, buffered, allowed) => RequestOutcome(s, x, buffered, allowed);
    case Finish(x, config) => FinishBirths(s, x, config);
    case ClientClose(x) => FoundLeaves(s, x, w);
    case Window(x) => FoundLeaves(s, x, w);
    case UserClose(u) => RemovedLeaves(s, u, w);
    case Timeout(u) => RemovedLeaves(s, u, w);
  }

  lemma {:induction false} FoundLeaves(s: State, app: AppId, w: Wrapper)
    requires Unique(s) && w in s.wrappers
    ensures var k := Find(s.wrappers, app);
            && (w.app == app ==> k < |s.wrappers|)
            && (k < |s.wrappers| ==> (w !in DropAt(s.wrappers, k) <==> w.app == app))
  {
    var k := Find(s.wrappers, app);
    var i :| 0 <= i < |s.wrappers| && s.wrappers[i] == w;
    if k < |s.wrappers| {
      OnlyFoundLeaves(s, app, w);
    }
  }

  lemma {:induction false} RemovedLeaves(s: State, u: Wrapper, w: Wrapper)
    requires Unique(s) && w in s.wrappers
    ensures w !in RemoveOne(s.wrappers, u) <==> w == u
  {
    if u in s.wrappers {
      var k := RemoveOneDrops(s.wrappers, u);
      OnlyRemovedLeaves(s, u, w);
    } else {
      RemoveCounts(s.wrappers, u, Is(u));
    }
  }

  /** A pending app stops being pending exactly by another request for it, its configuration,
      the client's close, or a window of it that is not refused. */
  lemma {:induction false} PendingEndsExactlyBy(s: State, e: Event, max: int, app: AppId)
    requires Inv(s) && Enabled(s, e) && app in s.pending
    ensures app !in Step(s, e, max).pending
            <==> (e.Request? && e.app == app) || (e.Finish? && e.app == app) || e == ClientClose(app)
                 || (e == Window(app) && app != NoApp && app !in s.closed)
  {
    match e
    case Request(x, buffered, allowed) => RequestOutcome(s, x, buffered, allowed);
    case Finish(x, config) =>
      CallbacksCreateOne(s.(configs := s.configs[x := config], waiters := Others(s.waiters, x)), s.waiters, x, config);
    case _ =>
  }

  // ----- the mismatch counter of a run --------------------------------------------------------

  function RunOn(s: State, events: seq<Event>, max: int): State {
    if events == [] then s else Step(RunOn(s, events[..|events| - 1], max), events[|events| - 1], max)
  }

  predicate LegalOn(s: State, events: seq<Event>, max: int) {
    events == []
    || (LegalOn(s, events[..|events| - 1], max)
        && Enabled(RunOn(s, events[..|events| - 1], max), events[|events| - 1]))
  }

  lemma {:induction false} RunSplits(events: seq<Event>, more: seq<Event>, max: int)
    ensures Run(events + more, max) == RunOn(Run(events, max), more, max)
    decreases |more|
  {
    if more == [] {
      assert events + more == events;
    } else {
      assert (events + more)[..|events + more| - 1] == events + more[..|more| - 1];
      RunSplits(events, more[..|more| - 1], max);
    }
  }

  /** How the step ends a splash: destroyed without a window, or turned into one. */
  function EndingOf(s: State, e: Event): seq<Ending> {
    match e
    case UserClose(w) => [Mismatch(w.app)]
    case Timeout(w) => if w in s.wrappers then [Mismatch(w.app)] else []
    case ClientClose(app) => if Listed(s.wrappers, app) then [Mismatch(app)] else []
    case Window(app) => if app != NoApp && app !in s.closed && Listed(s.wrappers, app) then [Match(app)] else []
    case _ => []
  }

  function Endings(s: State, events: seq<Event>, max: int): seq<Ending> {
    if events == [] then []
    else
      var prior := events[..|events| - 1];
      Endings(s, prior, max) + EndingOf(RunOn(s, prior, max), events[|events| - 1])
  }

  lemma {:induction false} StepEnds(s: State, e: Event, max: int, app: AppId)
    requires Enabled(s, e) && app != NoApp && app in s.configs && s.configs[app].Ready?
    ensures app in Step(s, e, max).configs
            && Step(s, e, max).configs[app]
               == if EndingOf(s, e) == [] then s.configs[app] else Ended(s.configs[app], EndingOf(s, e)[0], app, max)
  {
    match e
    case Finish(x, config) =>
      CallbacksCreateOne(s.(configs := s.configs[x := config], waiters := Others(s.waiters, x)), s.waiters, x, config);
    case UserClose(w) => OneEnding(s.configs, Mismatch(w.app), app, max);
    case Timeout(w) => OneEnding(s.configs, Mismatch(w.app), app, max);
    case ClientClose(x) => OneEnding(s.configs, Mismatch(x), app, max);
    case Window(x) => OneEnding(s.configs, Match(x), app, max);
    case _ =>
  }

  lemma {:induction false} RunEnds(s: State, events: seq<Event>, max: int, app: AppId)
    requires LegalOn(s, events, max) && app != NoApp && app in s.configs && s.configs[app].Ready?
    ensures var after := RunOn(s, events, max);
            app in after.configs && after.configs[app] == EndedAll(s.configs[app], Endings(s, events, max), app, max)
  {
    if events != [] {
      var prior, e := events[..|events| - 1], events[|events| - 1];
      RunEnds(s, prior, max, app);
      StepEnds(RunOn(s, prior, max), e, max, app);
      var endings := Endings(s, events, max);
      var last := EndingOf(RunOn(s, prior, max), e);
      if last == [] {
        assert endings == Endings(s, prior, max);
      } else {
        assert endings[..|endings| - 1] == Endings(s, prior, max);
      }
    }
  }

  /** Over every run, from the moment an app's configuration is loaded, its splashes are switched
      off exactly when the splashes that ended without a window in a row, since the last one that
      matched, were `max` at some time. */
  lemma {:induction false} SplashSwitchedOff(events: seq<Event>, more: seq<Event>, max: nat, app: AppId)
    requires var s := Run(events, max);
             LegalOn(s, more, max) && app != NoApp && app in s.configs && s.configs[app].Ready?
                 && 0 <= s.configs[app].mismatches < max
    ensures var s, after := Run(events, max), Run(events + more, max);
            var start := s.configs[app].mismatches;
            && app in after.configs && after.configs[app].Ready?
            && (after.configs[app].splashEnabled
                <==> s.configs[app].splashEnabled && !LongStreak(Endings(s, more, max), app, start, max))
            && after.configs[app].mismatches == Streak(Endings(s, more, max), app, start) % max
  {
    RunSplits(events, more, max);
    RunEnds(Run(events, max), more, max, app);
    StreakDecides(Run(events, max).configs[app], Endings(Run(events, max), more, max), app, max);
  }

  /** The first window after a user closed its splash is turned away, and only that one. */
  lemma {:induction false} ClosedSplashRefusesOneWindow(s: State, w: Wrapper, max: int)
    requires Inv(s) && w in s.wrappers
    ensures var closed := UserClosed(s, w, max);
            && w.app in closed.closed
            && WindowArrived(closed, w.app) == closed.(closed := s.closed - {w.app})
            && w.app !in WindowArrived(closed, w.app).closed
  {
    var k :| 0 <= k < |s.wrappers| && s.wrappers[k] == w;
    assert (s.closed + {w.app}) - {w.app} == s.closed - {w.app};
  }
}
