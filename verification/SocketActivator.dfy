/** The retry machine of src/systemd-socket.cpp. */
module SocketActivator {
  import opened Prelude

  datatype Kind = Wayland | XWayland | OtherKind

  datatype Bus = Session | System

  datatype Retry = StartRetry | ActivateRetry

  /** Authority bytes, interned; `NoAuth` is the empty byte array. */
  datatype Auth = NoAuth | Auth(key: nat)

  datatype Entry = Ready | Published(auth: Auth) | Reset

  /** How often `activate` is connected on each bus. */
  datatype Connections = Connections(session: nat, system: nat)

  function On(c: Connections, b: Bus): nat {
    if b == Session then c.session else c.system
  }

  function Connected(c: Connections, b: Bus): Connections {
    if b == Session then c.(session := c.session + 1) else c.(system := c.system + 1)
  }

  /** Disconnecting removes every connection on the bus. */
  function Cut(c: Connections, b: Bus): Connections {
    if b == Session then c.(session := 0) else c.(system := 0)
  }

  /** What the event loop and D-Bus hold on the activator's behalf. Single-shot timers are
      never cancelled, so they are only counted. */
  datatype World = World(
    watched: set<Bus>,
    connections: Connections,
    startTimers: nat,
    activateTimers: nat,
    log: seq<Entry>)

  /** `settled`: the last activation that got past the guards succeeded. */
  datatype State = State(
    started: bool,
    retries: set<Retry>,
    lastAuth: Auth,
    bus: Option<Bus>,
    settled: bool,
    world: World)

  const FRESH := State(false, {}, NoAuth, None, false, World({}, Connections(0, 0), 0, 0, []))

  /** What one bus answers to a start attempt. */
  datatype Probe = Probe(valid: bool, connects: bool)

  datatype NameReply = NoReply | ShortReply | Named(auth: Auth)

  /** What the compositor and the session bus answer to one activation. */
  datatype Attempt = Attempt(valid: bool, granted: bool, reply: NameReply, written: bool, envUpdated: bool)

  // ----- the methods as functions -----------------------------------------------

  function ScheduledStart(s: State): State {
    if StartRetry in s.retries then s
    else s.(retries := s.retries + {StartRetry}, world := s.world.(startTimers := s.world.startTimers + 1))
  }

  function ScheduledActivate(kind: Kind, s: State): State {
    if kind != XWayland || ActivateRetry in s.retries then s
    else s.(retries := s.retries + {ActivateRetry}, world := s.world.(activateTimers := s.world.activateTimers + 1))
  }

  function Logged(s: State, entries: seq<Entry>): State {
    s.(world := s.world.(log := s.world.log + entries))
  }

  function Refused(kind: Kind, s: State): State {
    ScheduledActivate(kind, s.(settled := false))
  }

  function Activated(kind: Kind, s: State, a: Attempt): State {
    if !s.started || s.bus.None? then s
    else match kind
      case OtherKind => s
      case Wayland =>
        if a.valid && a.granted && a.envUpdated then Logged(s.(settled := true), [Ready])
        else s.(settled := false)
      case XWayland =>
        if !a.valid || !a.reply.Named? then Refused(kind, s)
        else if a.reply.auth == s.lastAuth
        then Logged(s.(settled := true, retries := s.retries - {ActivateRetry}), [Ready])
        else if !a.written || !a.envUpdated then Refused(kind, s)
        else Logged(s.(settled := true, lastAuth := a.reply.auth, retries := s.retries - {ActivateRetry}),
                    [Ready, Published(a.reply.auth)])
  }

  function Watched(s: State, b: Bus): State {
    s.(world := s.world.(watched := s.world.watched + {b}))
  }

  function Disconnected(s: State): State {
    match s.bus
    case None => s
    case Some(b) => s.(bus := None, world := s.world.(connections := Cut(s.world.connections, b)))
  }

  function Subscribed(s: State, b: Bus, connects: bool): (State, bool) {
    if s.bus == Some(b) then (s, true)
    else
      var free := Disconnected(s);
      if connects
      then (free.(bus := Some(b), world := free.world.(connections := Connected(free.world.connections, b))), true)
      else (free, false)
  }

  function Tried(s: State, b: Bus, p: Probe): (State, bool) {
    if p.valid then Subscribed(Watched(s, b), b, p.connects) else (Watched(s, b), false)
  }

  function Started(kind: Kind, s: State, session: Probe, system: Probe, a: Attempt): State {
    var (s1, onSession) := Tried(s, Session, session);
    var (s2, onSystem) := if onSession then (s1, true) else Tried(s1, System, system);
    if onSystem then Activated(kind, s2.(started := true, retries := s2.retries - {StartRetry}), a)
    else ScheduledStart(s2)
  }

  function Unregistered(kind: Kind, s: State, b: Bus): State {
    if s.bus != Some(b) then s
    else
      var off := s.(started := false);
      var reset := if kind != XWayland then off
                   else Logged(off.(lastAuth := NoAuth, settled := false, retries := off.retries - {ActivateRetry}),
                               [Reset]);
      ScheduledStart(reset)
  }

  function Registered(kind: Kind, s: State, b: Bus, session: Probe, system: Probe, a: Attempt): State {
    if !s.started || s.bus == Some(b) then Started(kind, s, session, system, a) else s
  }

  function StartTimerFired(kind: Kind, s: State, session: Probe, system: Probe, a: Attempt): State
    requires s.world.startTimers > 0
  {
    var fired := s.(world := s.world.(startTimers := s.world.startTimers - 1));
    if StartRetry in s.retries then Started(kind, fired.(retries := s.retries - {StartRetry}), session, system, a)
    else fired
  }

  function ActivateTimerFired(kind: Kind, s: State, a: Attempt): State
    requires s.world.activateTimers > 0
  {
    var fired := s.(world := s.world.(activateTimers := s.world.activateTimers - 1));
    if ActivateRetry in s.retries then Activated(kind, fired.(retries := s.retries - {ActivateRetry}), a) else fired
  }

  // ----- the class -----------------------------------------------------------

  class Activator {
    const kind: Kind
    var started: bool
    var pendingRetries: set<Retry>
    var lastXwaylandAuth: Auth
    var compositorBus: Option<Bus>
    var settled: bool
    var world: World

    constructor (kind: Kind)
      ensures this.kind == kind && View() == FRESH
    {
      this.kind := kind;
      started, pendingRetries, lastXwaylandAuth, compositorBus := false, {}, NoAuth, None;
      settled, world := false, World({}, Connections(0, 0), 0, 0, []);
    }

    function View(): State
      reads this
    {
      State(started, pendingRetries, lastXwaylandAuth, compositorBus, settled, world)
    }

    method ScheduleStartRetry()
      modifies this`pendingRetries, this`world
      ensures View() == ScheduledStart(old(View()))
    {
      if StartRetry in pendingRetries {
        return;
      }
      pendingRetries := pendingRetries + {StartRetry};
      world := world.(startTimers := world.startTimers + 1);
    }

    method ScheduleActivateRetry()
      modifies this`pendingRetries, this`world
      ensures View() == ScheduledActivate(kind, old(View()))
    {
      if kind != XWayland || ActivateRetry in pendingRetries {
        return;
      }
      pendingRetries := pendingRetries + {ActivateRetry};
      world := world.(activateTimers := world.activateTimers + 1);
    }

    method Activate(a: Attempt)
      modifies this
      ensures View() == Activated(kind, old(View()), a)
    {
      if !started {
        return;
      }
      if compositorBus.None? {
        return;
      }
      if a.valid {
        if kind == Wayland {
          ActivateWayland(a);
        } else if kind == XWayland {
          ActivateXWayland(a);
        }
      } else if kind != OtherKind {
        settled := false;
      }
      if kind == XWayland && !a.valid {
        ScheduleActivateRetry();
      }
    }

    method ActivateWayland(a: Attempt)
      requires started && compositorBus.Some? && a.valid && kind == Wayland
      modifies this`settled, this`world
      ensures View() == Activated(kind, old(View()), a)
    {
      settled := false;
      if !a.granted {
        return;
      }
      if !a.envUpdated {
        return;
      }
      world := world.(log := world.log + [Ready]);
      settled := true;
    }

    method ActivateXWayland(a: Attempt)
      requires started && compositorBus.Some? && a.valid && kind == XWayland
      modifies this
      ensures View() == Activated(kind, old(View()), a)
    {
      settled := false;
      match a.reply
      case NoReply =>
        ScheduleActivateRetry();
      case ShortReply =>
        ScheduleActivateRetry();
      case Named(auth) =>
        if lastXwaylandAuth == auth {
          world := world.(log := world.log + [Ready]);
          pendingRetries := pendingRetries - {ActivateRetry};
          settled := true;
          return;
        }
        if !a.written {
          ScheduleActivateRetry();
          return;
        }
        if !a.envUpdated {
          ScheduleActivateRetry();
          return;
        }
        world := world.(log := world.log + [Ready, Published(auth)]);
        lastXwaylandAuth := auth;
        pendingRetries := pendingRetries - {ActivateRetry};
        settled := true;
    }

    method ConnectActivationSignal(b: Bus, connects: bool) returns (ok: bool)
      modifies this`compositorBus, this`world
      ensures (View(), ok) == Subscribed(old(View()), b, connects)
    {
      if compositorBus == Some(b) {
        return true;
      }
      if compositorBus.Some? {
        world := world.(connections := Cut(world.connections, compositorBus.value));
        compositorBus := None;
      }
      if connects {
        world := world.(connections := Connected(world.connections, b));
        compositorBus := Some(b);
        return true;
      }
      return false;
    }

    method TryStart(b: Bus, p: Probe) returns (ok: bool)
      modifies this`compositorBus, this`world
      ensures (View(), ok) == Tried(old(View()), b, p)
    {
      world := world.(watched := world.watched + {b});
      if !p.valid {
        return false;
      }
      ok := ConnectActivationSignal(b, p.connects);
    }

    method Start(session: Probe, system: Probe, a: Attempt)
      modifies this
      ensures View() == Started(kind, old(View()), session, system, a)
    {
      var ok := TryStart(Session, session);
      if !ok {
        ok := TryStart(System, system);
      }
      if ok {
        started := true;
        pendingRetries := pendingRetries - {StartRetry};
        Activate(a);
        return;
      }
      ScheduleStartRetry();
    }

    method OnServiceRegistered(b: Bus, session: Probe, system: Probe, a: Attempt)
      modifies this
      ensures View() == Registered(kind, old(View()), b, session, system, a)
    {
      if !started || compositorBus == Some(b) {
        Start(session, system, a);
      }
    }

    method OnServiceUnregistered(b: Bus)
      modifies this
      ensures View() == Unregistered(kind, old(View()), b)
    {
      if compositorBus == Some(b) {
        started := false;
        if kind == XWayland {
          lastXwaylandAuth := NoAuth;
          pendingRetries := pendingRetries - {ActivateRetry};
          settled := false;
          world := world.(log := world.log + [Reset]);
        }
        ScheduleStartRetry();
      }
    }

    method OnStartTimer(session: Probe, system: Probe, a: Attempt)
      requires world.startTimers > 0
      modifies this
      ensures View() == StartTimerFired(kind, old(View()), session, system, a)
    {
      world := world.(startTimers := world.startTimers - 1);
      if StartRetry !in pendingRetries {
        return;
      }
      pendingRetries := pendingRetries - {StartRetry};
      Start(session, system, a);
    }

    method OnActivateTimer(a: Attempt)
      requires world.activateTimers > 0
      modifies this
      ensures View() == ActivateTimerFired(kind, old(View()), a)
    {
      world := world.(activateTimers := world.activateTimers - 1);
      if ActivateRetry !in pendingRetries {
        return;
      }
      pendingRetries := pendingRetries - {ActivateRetry};
      Activate(a);
    }
  }

  // ----- runs -----------------------------------------------------------------

  datatype Event =
    | Restart(session: Probe, system: Probe, a: Attempt)
    | Signal(b: Bus, a: Attempt)
    | Register(b: Bus, session: Probe, system: Probe, a: Attempt)
    | Unregister(b: Bus)
    | StartTimer(session: Probe, system: Probe, a: Attempt)
    | ActivateTimer(a: Attempt)

  /** Signals come from connections, service changes from watchers, timeouts from timers. */
  predicate Enabled(s: State, e: Event) {
    match e
    case Restart(_, _, _) => true
    case Signal(b, _) => On(s.world.connections, b) > 0
    case Register(b, _, _, _) => b in s.world.watched
    case Unregister(b) => b in s.world.watched
    case StartTimer(_, _, _) => s.world.startTimers > 0
    case ActivateTimer(_) => s.world.activateTimers > 0
  }

  /** An event that is not enabled does not happen. */
  function Step(kind: Kind, s: State, e: Event): State {
    if !Enabled(s, e) then s
    else match e
      case Restart(p, q, a) => Started(kind, s, p, q, a)
      case Signal(_, a) => Activated(kind, s, a)
      case Register(b, p, q, a) => Registered(kind, s, b, p, q, a)
      case Unregister(b) => Unregistered(kind, s, b)
      case StartTimer(p, q, a) => StartTimerFired(kind, s, p, q, a)
      case ActivateTimer(a) => ActivateTimerFired(kind, s, a)
  }

  /** The first start() of main, with what it met. */
  datatype Boot = Boot(session: Probe, system: Probe, a: Attempt)

  function Run(kind: Kind, boot: Boot, events: seq<Event>): State {
    if events == [] then Started(kind, FRESH, boot.session, boot.system, boot.a)
    else Step(kind, Run(kind, boot, events[..|events| - 1]), events[|events| - 1])
  }

  // ----- invariants -------------------------------------------------------------

  predicate Alive(s: State) {
    (s.started && s.bus.Some?) || StartRetry in s.retries
  }

  predicate TimersBackFlags(s: State) {
    && (StartRetry in s.retries ==> s.world.startTimers > 0)
    && (ActivateRetry in s.retries ==> s.world.activateTimers > 0)
  }

  predicate SubscribedOnce(s: State) {
    s.world.connections == Connections(if s.bus == Some(Session) then 1 else 0, if s.bus == Some(System) then 1 else 0)
  }

  /** An xwayland activator that is not settled has a retry pending. */
  predicate Retrying(kind: Kind, s: State) {
    kind == XWayland ==> s.settled || StartRetry in s.retries || ActivateRetry in s.retries
  }

  /** The last authority published since the last reset, empty when there was none. */
  function LastPublished(log: seq<Entry>): Auth {
    if log == [] then NoAuth
    else match log[|log| - 1]
      case Ready => LastPublished(log[..|log| - 1])
      case Published(auth) => auth
      case Reset => NoAuth
  }

  ghost predicate NeverRepeats(log: seq<Entry>) {
    forall k :: 0 <= k < |log| && log[k].Published? ==> log[k].auth != LastPublished(log[..k])
  }

  ghost predicate Deduplicated(s: State) {
    NeverRepeats(s.world.log) && s.lastAuth == LastPublished(s.world.log)
  }

  /** A settled activator reported ready and was not reset since. */
  predicate Reported(s: State) {
    s.settled ==> s.world.log != [] && s.world.log[|s.world.log| - 1] != Reset
  }

  /** What holds even before the first start. */
  ghost predicate Sound(s: State) {
    TimersBackFlags(s) && SubscribedOnce(s) && Deduplicated(s) && Reported(s)
  }

  ghost predicate Inv(kind: Kind, s: State) {
    Sound(s) && Alive(s) && Retrying(kind, s)
  }

  lemma {:induction false} LogGrows(log: seq<Entry>, e: Entry)
    requires NeverRepeats(log)
    requires e.Published? ==> e.auth != LastPublished(log)
    ensures NeverRepeats(log + [e])
    ensures LastPublished(log + [e])
            == match e case Ready => LastPublished(log) case Published(a) => a case Reset => NoAuth
  {
    var more := log + [e];
    assert more[..|more| - 1] == log;
    assert forall k :: 0 <= k <= |log| ==> more[..k] == log[..k];
    assert log[..|log|] == log;
  }

  /** What an activation keeps. */
  ghost predicate Kept(kind: Kind, s: State, after: State) {
    && Sound(after) && after.bus == s.bus && after.started == s.started
    && (StartRetry in after.retries <==> StartRetry in s.retries)
    && (s.started && s.bus.Some? ==> Retrying(kind, after))
  }

  lemma {:induction false} RefusalKeeps(kind: Kind, s: State)
    requires Sound(s)
    ensures Kept(kind, s, Refused(kind, s))
  {
  }

  /** A success without a new authority, with or without clearing the retry. */
  lemma {:induction false} ReadyKeeps(kind: Kind, s: State)
    requires Sound(s)
    ensures Kept(kind, s, Logged(s.(settled := true), [Ready]))
    ensures Kept(kind, s, Logged(s.(settled := true, retries := s.retries - {ActivateRetry}), [Ready]))
  {
    LogGrows(s.world.log, Ready);
  }

  lemma {:induction false} PublishedLogGrows(log: seq<Entry>, auth: Auth)
    requires NeverRepeats(log) && auth != LastPublished(log)
    ensures NeverRepeats(log + [Ready, Published(auth)]) && LastPublished(log + [Ready, Published(auth)]) == auth
  {
    LogGrows(log, Ready);
    LogGrows(log + [Ready], Published(auth));
    assert log + [Ready] + [Published(auth)] == log + [Ready, Published(auth)];
  }

  lemma {:induction false} PublishKeeps(kind: Kind, s: State, auth: Auth)
    requires Sound(s) && auth != s.lastAuth
    ensures Kept(kind, s, Logged(s.(settled := true, lastAuth := auth, retries := s.retries - {ActivateRetry}),
                                 [Ready, Published(auth)]))
  {
    PublishedLogGrows(s.world.log, auth);
  }

  lemma {:induction false} ActivateKeeps(kind: Kind, s: State, a: Attempt)
    requires Sound(s)
    ensures Kept(kind, s, Activated(kind, s, a))
  {
    if s.started && s.bus.Some? && kind != OtherKind {
      if Activated(kind, s, a) == Refused(kind, s) {
        RefusalKeeps(kind, s);
      } else if kind == XWayland && a.reply.Named? && a.reply.auth != s.lastAuth {
        PublishKeeps(kind, s, a.reply.auth);
      } else {
        ReadyKeeps(kind, s);
      }
    }
  }

  lemma {:induction false} TryKeeps(s: State, b: Bus, p: Probe)
    requires Sound(s)
    ensures var (after, ok) := Tried(s, b, p);
            && Sound(after) && after.retries == s.retries && after.started == s.started
            && (ok ==> after.bus == Some(b)) && (s.bus == Some(b) && p.valid ==> ok)
  {
  }

  lemma {:induction false} FailedStartKeeps(kind: Kind, s: State)
    requires Sound(s)
    ensures Inv(kind, ScheduledStart(s))
  {
  }

  lemma {:induction false} SubscribedStartKeeps(kind: Kind, s: State, a: Attempt)
    requires Sound(s) && s.bus.Some?
    ensures Inv(kind, Activated(kind, s.(started := true, retries := s.retries - {StartRetry}), a))
  {
    ActivateKeeps(kind, s.(started := true, retries := s.retries - {StartRetry}), a);
  }

  lemma {:induction false} StartKeeps(kind: Kind, s: State, session: Probe, system: Probe, a: Attempt)
    requires Sound(s)
    ensures Inv(kind, Started(kind, s, session, system, a))
  {
    TryKeeps(s, Session, session);
    var (s1, onSession) := Tried(s, Session, session);
    if onSession {
      SubscribedStartKeeps(kind, s1, a);
    } else {
      TryKeeps(s1, System, system);
      var (s2, onSystem) := Tried(s1, System, system);
      if onSystem {
        SubscribedStartKeeps(kind, s2, a);
      } else {
        FailedStartKeeps(kind, s2);
      }
    }
  }

  lemma {:induction false} UnregisterKeeps(kind: Kind, s: State, b: Bus)
    requires Inv(kind, s)
    ensures Inv(kind, Unregistered(kind, s, b))
  {
    LogGrows(s.world.log, Reset);
  }

  lemma {:induction false} StartTimerKeeps(kind: Kind, s: State, p: Probe, q: Probe, a: Attempt)
    requires Inv(kind, s) && s.world.startTimers > 0
    ensures Inv(kind, StartTimerFired(kind, s, p, q, a))
  {
    if StartRetry in s.retries {
      StartKeeps(kind, s.(world := s.world.(startTimers := s.world.startTimers - 1),
                          retries := s.retries - {StartRetry}), p, q, a);
    }
  }

  lemma {:induction false} ActivateTimerKeeps(kind: Kind, s: State, a: Attempt)
    requires Inv(kind, s) && s.world.activateTimers > 0
    ensures Inv(kind, ActivateTimerFired(kind, s, a))
  {
    if ActivateRetry in s.retries {
      ActivateKeeps(kind, s.(world := s.world.(activateTimers := s.world.activateTimers - 1),
                             retries := s.retries - {ActivateRetry}), a);
    }
  }

  lemma {:induction false} StepKeeps(kind: Kind, s: State, e: Event)
    requires Inv(kind, s)
    ensures Inv(kind, Step(kind, s, e))
  {
    if Enabled(s, e) {
      match e
      case Restart(p, q, a) => StartKeeps(kind, s, p, q, a);
      case Signal(_, a) => ActivateKeeps(kind, s, a);
      case Register(_, p, q, a) => StartKeeps(kind, s, p, q, a);
      case Unregister(b) => UnregisterKeeps(kind, s, b);
      case StartTimer(p, q, a) => StartTimerKeeps(kind, s, p, q, a);
      case ActivateTimer(a) => ActivateTimerKeeps(kind, s, a);
    }
  }

  /** Every reachable state satisfies every invariant. */
  lemma {:induction false} RunKeeps(kind: Kind, boot: Boot, events: seq<Event>)
    ensures Inv(kind, Run(kind, boot, events))
  {
    if events == [] {
      StartKeeps(kind, FRESH, boot.session, boot.system, boot.a);
    } else {
      RunKeeps(kind, boot, events[..|events| - 1]);
      StepKeeps(kind, Run(kind, boot, events[..|events| - 1]), events[|events| - 1]);
    }
  }

  // ----- what every run promises -------------------------------------------------

  /** Between any two events the activator is started with a subscribed bus or a start
      retry is pending; a pending flag has a timer behind it however many stale timers
      there are; and an xwayland activator that has not settled is retrying. */
  lemma {:induction false} NeverStuck(kind: Kind, boot: Boot, events: seq<Event>)
    ensures var s := Run(kind, boot, events);
            && ((s.started && s.bus.Some? && On(s.world.connections, s.bus.value) == 1)
                || (StartRetry in s.retries && s.world.startTimers > 0))
            && (s.settled ==> s.world.log != [] && s.world.log[|s.world.log| - 1] != Reset)
            && (kind == XWayland && !s.settled ==>
                  (StartRetry in s.retries && s.world.startTimers > 0)
                      || (ActivateRetry in s.retries && s.world.activateTimers > 0))
  {
    RunKeeps(kind, boot, events);
  }

  /** `activate` is connected on exactly the recorded bus, once, and nowhere else. */
  lemma {:induction false} SingleSubscription(kind: Kind, boot: Boot, events: seq<Event>, b: Bus)
    ensures On(Run(kind, boot, events).world.connections, b) == if Run(kind, boot, events).bus == Some(b) then 1 else 0
  {
    RunKeeps(kind, boot, events);
  }

  /** Between resets no two consecutive complete publishes carry the same authority. */
  lemma {:induction false} NoDuplicatePublish(kind: Kind, boot: Boot, events: seq<Event>, i: nat, j: nat)
    requires var log := Run(kind, boot, events).world.log;
             && i < j < |log| && log[i].Published? && log[j].Published?
             && forall k :: i < k < j ==> log[k].Ready?
    ensures Run(kind, boot, events).world.log[i].auth != Run(kind, boot, events).world.log[j].auth
  {
    RunKeeps(kind, boot, events);
    LastAfterReadies(Run(kind, boot, events).world.log, i, j);
  }

  lemma {:induction false} LastAfterReadies(log: seq<Entry>, i: nat, j: nat)
    requires i < j <= |log| && log[i].Published?
    requires forall k :: i < k < j ==> log[k].Ready?
    ensures LastPublished(log[..j]) == log[i].auth
  {
    assert log[..j][..j - 1] == log[..j - 1];
    if i < j - 1 {
      LastAfterReadies(log, i, j - 1);
    }
  }

  /** An attempt in which everything answers. */
  predicate Works(a: Attempt) {
    a.valid && a.granted && a.reply.Named? && a.written && a.envUpdated
  }

  /** An activator that runs, is subscribed on `b` and has nothing left to do. */
  predicate Recovered(kind: Kind, s: State, b: Bus, a: Attempt) {
    && s.started && s.bus == Some(b) && StartRetry !in s.retries
    && (kind != OtherKind ==> s.settled)
    && (kind == XWayland && a.reply.Named? ==> s.lastAuth == a.reply.auth && ActivateRetry !in s.retries)
  }

  lemma {:induction false} WorkingActivationSettles(kind: Kind, s: State, b: Bus, a: Attempt)
    requires s.started && s.bus == Some(b) && StartRetry !in s.retries && Works(a)
    ensures Recovered(kind, Activated(kind, s, a), b, a)
  {
  }

  /** The bus a start attempt ends on: the first that has the compositor and is subscribed
      already or lets itself be. A refused subscription gives up the one held before. */
  function Reaches(s: State, session: Probe, system: Probe): Option<Bus> {
    if session.valid && (session.connects || s.bus == Some(Session)) then Some(Session)
    else if system.valid && (system.connects || (s.bus == Some(System) && !session.valid)) then Some(System)
    else None
  }

  /** A start attempt, from any state: it ends on the bus it reaches, and then a working
      activation recovers the activator; otherwise a start retry is pending. */
  lemma {:induction false} StartReaches(kind: Kind, s: State, session: Probe, system: Probe, a: Attempt)
    ensures var after := Started(kind, s, session, system, a);
            var b := Reaches(s, session, system);
            if b.Some? then after.started && after.bus == b && (Works(a) ==> Recovered(kind, after, b.value, a))
            else after.started == s.started && StartRetry in after.retries
  {
    var (s1, onSession) := Tried(s, Session, session);
    var (s2, ok) := if onSession then (s1, true) else Tried(s1, System, system);
    if ok && Works(a) {
      WorkingActivationSettles(kind, s2.(started := true, retries := s2.retries - {StartRetry}), s2.bus.value, a);
    }
  }

  lemma {:induction false} TryWatches(s: State, b: Bus, p: Probe, c: Bus)
    ensures c in Tried(s, b, p).0.world.watched <==> c in s.world.watched || c == b
  {
  }

  lemma {:induction false} ActivationWatches(kind: Kind, s: State, a: Attempt)
    ensures Activated(kind, s, a).world.watched == s.world.watched
  {
  }

  /** Every bus that a start tries is watched from then on: the session bus always, the system
      bus when the start does not end on the session bus. */
  lemma {:induction false} StartWatches(kind: Kind, s: State, session: Probe, system: Probe, a: Attempt, c: Bus)
    ensures c in Started(kind, s, session, system, a).world.watched
            <==> c in s.world.watched || c == Session || Reaches(s, session, system) != Some(Session)
  {
    var (s1, onSession) := Tried(s, Session, session);
    TryWatches(s, Session, session, c);
    if onSession {
      ActivationWatches(kind, s1.(started := true, retries := s1.retries - {StartRetry}), a);
    } else {
      var (s2, onSystem) := Tried(s1, System, system);
      TryWatches(s1, System, system, c);
      ActivationWatches(kind, s2.(started := true, retries := s2.retries - {StartRetry}), a);
    }
  }

  lemma {:induction false} RunOneMore(kind: Kind, boot: Boot, events: seq<Event>, e: Event)
    ensures Run(kind, boot, events + [e]) == Step(kind, Run(kind, boot, events), e)
  {
    var more := events + [e];
    assert more[..|more| - 1] == events;
  }

  lemma {:induction false} RetryStarts(kind: Kind, s: State, session: Probe, system: Probe, a: Attempt)
    requires StartRetry in s.retries && s.world.startTimers > 0
    requires Works(a) && Reaches(s, session, system).Some?
    ensures Recovered(kind, Step(kind, s, StartTimer(session, system, a)), Reaches(s, session, system).value, a)
  {
    var world := s.world.(startTimers := s.world.startTimers - 1);
    StartReaches(kind, s.(world := world, retries := s.retries - {StartRetry}), session, system, a);
  }

  /** In every run a start retry that reaches a bus, session or system, ends the outage. */
  lemma {:induction false} RetryRecovers(kind: Kind, boot: Boot, events: seq<Event>, session: Probe, system: Probe,
                                         a: Attempt)
    requires StartRetry in Run(kind, boot, events).retries && Works(a)
    requires Reaches(Run(kind, boot, events), session, system).Some?
    ensures Recovered(kind, Run(kind, boot, events + [StartTimer(session, system, a)]),
                      Reaches(Run(kind, boot, events), session, system).value, a)
  {
    RunKeeps(kind, boot, events);
    RunOneMore(kind, boot, events, StartTimer(session, system, a));
    RetryStarts(kind, Run(kind, boot, events), session, system, a);
  }

  /** What an activation reports, in terms of what was published before. */
  lemma {:induction false} ActivationOutcome(kind: Kind, s: State, a: Attempt)
    requires Sound(s) && s.started && s.bus.Some?
    ensures var after, log := Activated(kind, s, a), s.world.log;
            match kind
            case OtherKind => after == s
            case Wayland =>
              after.settled == (a.valid && a.granted && a.envUpdated)
              && after.world.log == if after.settled then log + [Ready] else log
            case XWayland =>
              if a.valid && a.reply.Named? && a.reply.auth == LastPublished(log)
              then Succeeded(s, after, [Ready])
              else if a.valid && a.reply.Named? && a.written && a.envUpdated
              then Succeeded(s, after, [Ready, Published(a.reply.auth)])
              else !after.settled && ActivateRetry in after.retries && after.world.log == log
  {
  }

  predicate Succeeded(s: State, after: State, entries: seq<Entry>) {
    after.settled && ActivateRetry !in after.retries && after.world.log == s.world.log + entries
  }

  /** Only xwayland retries activations, and a pending retry is not scheduled twice. */
  lemma {:induction false} OnlyXWaylandRetriesActivation(kind: Kind, s: State)
    ensures kind != XWayland || ActivateRetry in s.retries ==> ScheduledActivate(kind, s) == s
    ensures kind == XWayland && ActivateRetry !in s.retries ==>
              ActivateRetry in ScheduledActivate(kind, s).retries
              && ScheduledActivate(kind, s).world.activateTimers == s.world.activateTimers + 1
    ensures StartRetry in s.retries ==> ScheduledStart(s) == s
    ensures StartRetry !in s.retries ==> ScheduledStart(s).world.startTimers == s.world.startTimers + 1
  {
  }

  /** An activator that is stopped or not subscribed ignores activations. */
  lemma {:induction false} IdleActivationDoesNothing(kind: Kind, s: State, a: Attempt)
    requires !s.started || s.bus.None?
    ensures Activated(kind, s, a) == s
  {
  }

  /** When the compositor leaves the recorded bus the activator stops, keeps the subscription and
      retries the start; for xwayland it forgets what it published and any activation retry. On
      another bus nothing happens. */
  lemma {:induction false} LossOutcome(kind: Kind, s: State, b: Bus)
    ensures s.bus != Some(b) ==> Unregistered(kind, s, b) == s
    ensures s.bus == Some(b) ==>
              var after := Unregistered(kind, s, b);
              && !after.started && after.bus == Some(b) && StartRetry in after.retries
              && after.world.connections == s.world.connections && after.world.watched == s.world.watched
              && (if kind == XWayland
                  then after.lastAuth == NoAuth && !after.settled && ActivateRetry !in after.retries
                       && LastPublished(after.world.log) == NoAuth
                  else after.lastAuth == s.lastAuth && after.settled == s.settled && after.world.log == s.world.log
                       && (ActivateRetry in after.retries <==> ActivateRetry in s.retries))
  {
  }

  /** When the compositor appears on a bus, an activator that is not started, or is on that bus,
      starts: it runs if the start reaches a bus and retries otherwise. One that is started on
      the other bus does nothing. */
  lemma {:induction false} RegisteredOutcome(kind: Kind, s: State, b: Bus, session: Probe, system: Probe, a: Attempt)
    ensures var after := Registered(kind, s, b, session, system, a);
            if s.started && s.bus != Some(b) then after == s
            else
              var r := Reaches(s, session, system);
              if r.Some? then after.started && after.bus == r && (Works(a) ==> Recovered(kind, after, r.value, a))
              else StartRetry in after.retries
  {
    StartReaches(kind, s, session, system, a);
  }

  /** A timer whose flag was cleared meanwhile only goes away. */
  lemma {:induction false} StaleTimersDoNothing(kind: Kind, s: State, session: Probe, system: Probe, a: Attempt)
    ensures s.world.startTimers > 0 && StartRetry !in s.retries ==>
              StartTimerFired(kind, s, session, system, a)
              == s.(world := s.world.(startTimers := s.world.startTimers - 1))
    ensures s.world.activateTimers > 0 && ActivateRetry !in s.retries ==>
              ActivateTimerFired(kind, s, a) == s.(world := s.world.(activateTimers := s.world.activateTimers - 1))
  {
  }

  /** An activation retry, or a signal, for which everything answers settles a running activator. */
  lemma {:induction false} WorkingActivationRecovers(kind: Kind, s: State, a: Attempt)
    requires Inv(kind, s) && s.started && s.bus.Some? && StartRetry !in s.retries && Works(a)
    ensures Recovered(kind, Step(kind, s, Signal(s.bus.value, a)), s.bus.value, a)
    ensures ActivateRetry in s.retries ==> Recovered(kind, Step(kind, s, ActivateTimer(a)), s.bus.value, a)
  {
    WorkingActivationSettles(kind, s, s.bus.value, a);
    if ActivateRetry in s.retries {
      var world := s.world.(activateTimers := s.world.activateTimers - 1);
      WorkingActivationSettles(kind, s.(world := world, retries := s.retries - {ActivateRetry}), s.bus.value, a);
    }
  }

  /** A working start of an xwayland activator publishes its authority unless it is the one
      published last since the last reset. */
  lemma {:induction false} WorkingStartPublishes(s: State, session: Probe, system: Probe, a: Attempt)
    requires Sound(s) && Reaches(s, session, system).Some? && Works(a) && a.reply.auth != LastPublished(s.world.log)
    ensures Started(XWayland, s, session, system, a).world.log == s.world.log + [Ready, Published(a.reply.auth)]
  {
    TryKeeps(s, Session, session);
    var (s1, onSession) := Tried(s, Session, session);
    if !onSession {
      TryKeeps(s1, System, system);
    }
    var (s2, ok) := if onSession then (s1, true) else Tried(s1, System, system);
    ActivationOutcome(XWayland, s2.(started := true, retries := s2.retries - {StartRetry}), a);
  }

  lemma {:induction false} LossThenStart(s: State, b: Bus, session: Probe, system: Probe, a: Attempt)
    requires Inv(XWayland, s) && s.bus == Some(b)
    requires Reaches(s, session, system).Some? && Works(a) && a.reply.auth != NoAuth
    ensures var lost := Unregistered(XWayland, s, b);
            var back := Started(XWayland, lost, session, system, a);
            !lost.started && back.started && back.world.log == lost.world.log + [Ready, Published(a.reply.auth)]
  {
    var lost := Unregistered(XWayland, s, b);
    LossOutcome(XWayland, s, b);
    UnregisterKeeps(XWayland, s, b);
    StartReaches(XWayland, lost, session, system, a);
    WorkingStartPublishes(lost, session, system, a);
  }

  lemma {:induction false} RunTwoMore(kind: Kind, boot: Boot, events: seq<Event>, e: Event, f: Event)
    ensures Run(kind, boot, events + [e]) == Step(kind, Run(kind, boot, events), e)
    ensures Run(kind, boot, events + [e] + [f]) == Step(kind, Step(kind, Run(kind, boot, events), e), f)
  {
    RunOneMore(kind, boot, events, e);
    RunOneMore(kind, boot, events + [e], f);
  }

  /** In every run, after the compositor left its bus, the next working start publishes a
      non-empty authority even if it was published before. */
  lemma {:induction false} RepublishedAfterLoss(boot: Boot, events: seq<Event>, b: Bus, session: Probe, system: Probe,
                                                a: Attempt)
    requires Run(XWayland, boot, events).bus == Some(b) && b in Run(XWayland, boot, events).world.watched
    requires Reaches(Run(XWayland, boot, events), session, system).Some? && Works(a) && a.reply.auth != NoAuth
    ensures var lost := Run(XWayland, boot, events + [Unregister(b)]);
            var back := Run(XWayland, boot, events + [Unregister(b)] + [Restart(session, system, a)]);
            !lost.started && back.started && back.world.log == lost.world.log + [Ready, Published(a.reply.auth)]
  {
    RunKeeps(XWayland, boot, events);
    RunTwoMore(XWayland, boot, events, Unregister(b), Restart(session, system, a));
    LossThenStart(Run(XWayland, boot, events), b, session, system, a);
  }

  /** For wayland a failed activation is not retried: it leaves every flag and timer as
      it was, so a started activator with nothing pending waits for the next signal. */
  lemma {:induction false} WaylandFailureIsNotRetried(s: State, a: Attempt)
    requires s.started && s.bus.Some?
    ensures var after := Activated(Wayland, s, a);
            && after.retries == s.retries && after.world.startTimers == s.world.startTimers
            && after.world.activateTimers == s.world.activateTimers
            && (after.settled <==> a.valid && a.granted && a.envUpdated)
  {
  }

  /** Such a state is reachable: the very first activation fails. */
  lemma {:induction false} WaylandCanStall(boot: Boot)
    requires boot.session == Probe(true, true)
    ensures var s := Run(Wayland, boot, []);
            && s.retries == {} && s.world.startTimers == s.world.activateTimers == 0
            && (s.settled <==> boot.a.valid && boot.a.granted && boot.a.envUpdated)
  {
  }

  /** An empty authority counts as already published right after a reset: the activator
      reports ready without having written anything. */
  lemma {:induction false} EmptyAuthorityIsReadyUnpublished(s: State, a: Attempt)
    requires s.started && s.bus.Some? && a.valid && a.reply.Named? && s.lastAuth == NoAuth
    ensures Activated(XWayland, s, a).world.log == s.world.log + [Ready] <==>
              a.reply.auth == NoAuth
  {
    assert [Ready][0] == Ready;
    var after := Activated(XWayland, s, a);
    if a.reply.auth != NoAuth && a.written && a.envUpdated {
      assert |after.world.log| == |s.world.log| + 2;
    }
  }
}
