/** Switching the active user's configuration: the pending-switch members of
    src/dconfig/dconfigmanager.cpp and applyCurrentUserConfig of src/core/waylandserver.cpp. */
module UserConfig {
  import opened Prelude

  /** User names, interned; `NoUser` is the empty string. */
  datatype User = NoUser | User(key: nat)

  /** Configuration objects are numbered in order of creation. */
  type Config = nat

  /** What sender() answers while a slot runs, also inside direct calls of that slot. */
  datatype Sender = Nobody | UserModel | ConfigObject(config: Config)

  /** One configReady: what it carried, who was current when it was emitted, whether both
      configurations had finished, and whether it took the immediate path. */
  datatype Ready = Ready(user: User, config: Config, seat: Config, current: User, loaded: bool, immediate: bool)

  /** The caches of userConfig and userSeatConfig (for the default seat), and which of
      their objects have finished loading, either way. */
  datatype Cache = Cache(users: map<User, Config>, seats: map<User, Config>, finished: set<Config>, next: Config)

  datatype Pending = Pending(user: User, config: Config, seat: Config)

  /** `connected`: configurations whose completion would reach the manager. `applied` is
      the server's m_config. */
  datatype State = State(
    serving: bool,
    current: User,
    cache: Cache,
    pending: Option<Pending>,
    connected: set<Config>,
    applied: Option<Config>,
    log: seq<Ready>)

  // ----- the methods as functions ---------------------------------------------------

  function UserTouched(c: Cache, u: User): Cache {
    if u == NoUser || u in c.users then c else c.(users := c.users[u := c.next], next := c.next + 1)
  }

  function SeatTouched(c: Cache, u: User): Cache {
    if u == NoUser || u in c.seats then c else c.(seats := c.seats[u := c.next], next := c.next + 1)
  }

  function Touched(c: Cache, u: User): (c': Cache)
    ensures u != NoUser ==> u in c'.users && u in c'.seats
  {
    SeatTouched(UserTouched(c, u), u)
  }

  /** configReady, with the server's slot running at once. */
  function Emitted(s: State, u: User, config: Config, seat: Config, immediate: bool): State {
    s.(log := s.log + [Ready(u, config, seat, s.current, {config, seat} <= s.cache.finished, immediate)],
       applied := if s.current == u then Some(config) else s.applied)
  }

  function Objects(p: Option<Pending>): set<Config> {
    match p
    case None => {}
    case Some(q) => {q.config, q.seat}
  }

  predicate Filtered(s: State, sender: Sender) {
    match sender
    case Nobody => false
    case UserModel => true
    case ConfigObject(c) => s.pending.None? || (c != s.pending.value.config && c != s.pending.value.seat)
  }

  /** onPendingUserConfigInitialized */
  function Initialized(s: State, sender: Sender): State {
    if !s.serving || Filtered(s, sender) || s.pending.None? then s
    else
      var p := s.pending.value;
      if p.config !in s.cache.finished || p.seat !in s.cache.finished then s
      else
        var cleared := s.(pending := None);
        if s.current != p.user then cleared else Emitted(cleared, p.user, p.config, p.seat, false)
  }

  /** Already applied, with the seat configuration it is waiting for. */
  predicate Immediate(s: State, c: Cache, u: User)
    requires u in c.users && u in c.seats
  {
    s.applied == Some(c.users[u]) && s.pending.Some? && s.pending.value.seat == c.seats[u]
  }

  /** The new pending switch replaces the old one and its connections. */
  function Awaiting(s: State, c: Cache, u: User): State
    requires u in c.users && u in c.seats
  {
    var p := Some(Pending(u, c.users[u], c.seats[u]));
    s.(cache := c, pending := p, connected := (s.connected - Objects(s.pending)) + (Objects(p) - c.finished))
  }

  /** updateCurrentUser */
  function Updated(s: State, sender: Sender): State {
    if !s.serving || s.current == NoUser then s
    else
      var c := Touched(s.cache, s.current);
      if Immediate(s, c, s.current)
      then Emitted(s.(cache := c), s.current, c.users[s.current], c.seats[s.current], true)
      else Initialized(Awaiting(s, c, s.current), sender)
  }

  function Served(s: State): State {
    Updated(s.(serving := true), Nobody)
  }

  function Stopped(s: State): State {
    s.(serving := false, pending := None, connected := s.connected - Objects(s.pending))
  }

  /** The user model changed its current user. */
  function Switched(s: State, u: User): State {
    Updated(s.(current := u), UserModel)
  }

  /** A configuration finished loading; its single-shot connections fire. */
  function Finished(s: State, c: Config): State {
    var done := s.(cache := s.cache.(finished := s.cache.finished + {c}));
    if c in s.connected then Initialized(done.(connected := s.connected - {c}), ConfigObject(c)) else done
  }

  // ----- runs -------------------------------------------------------------------------

  datatype Event = Serve | Stop | Switch(u: User) | Finish(c: Config) | Touch(u: User)

  /** The manager starts serving once at a time, and a configuration finishes once. */
  predicate Enabled(s: State, e: Event) {
    match e
    case Serve => !s.serving
    case Finish(c) => c < s.cache.next && c !in s.cache.finished
    case _ => true
  }

  function Step(s: State, e: Event): State {
    if !Enabled(s, e) then s
    else match e
      case Serve => Served(s)
      case Stop => Stopped(s)
      case Switch(u) => Switched(s, u)
      case Finish(c) => Finished(s, c)
      case Touch(u) => s.(cache := Touched(s.cache, u))
  }

  function Run(s: State, events: seq<Event>): State {
    if events == [] then s else Step(Run(s, events[..|events| - 1]), events[|events| - 1])
  }

  function Start(initial: Option<Config>, cache: Cache, u: User): State {
    State(false, u, cache, None, {}, initial, [])
  }

  // ----- invariants ---------------------------------------------------------------------

  /** Whose configuration an object is. */
  datatype Owner = OfUser(u: User) | OfSeat(u: User)

  /** No two cache entries share a configuration object: `owner` tells whose each is. */
  predicate OwnedBy(c: Cache, owner: map<Config, Owner>) {
    && (forall x :: x in owner ==> x < c.next)
    && (forall u :: u in c.users ==> c.users[u] in owner && owner[c.users[u]] == OfUser(u))
    && (forall u :: u in c.seats ==> c.seats[u] in owner && owner[c.seats[u]] == OfSeat(u))
  }

  ghost predicate Owned(c: Cache) {
    exists owner :: OwnedBy(c, owner)
  }

  /** `r` names a user and carries that user's own cached configurations. */
  predicate Own(c: Cache, u: User, config: Config, seat: Config) {
    u != NoUser && u in c.users && u in c.seats && c.users[u] == config && c.seats[u] == seat
  }

  /** A pending switch holds its user's own configurations, and exactly those of them that
      are still loading are connected. */
  ghost predicate PendingSound(s: State) {
    && (s.pending.Some? ==>
          s.serving && Own(s.cache, s.pending.value.user, s.pending.value.config, s.pending.value.seat))
    && s.connected == Objects(s.pending) - s.cache.finished
  }

  predicate EntrySound(c: Cache, r: Ready) {
    Own(c, r.user, r.config, r.seat) && r.current == r.user && (r.immediate || r.loaded)
  }

  ghost predicate LogSound(s: State) {
    forall k :: 0 <= k < |s.log| ==> EntrySound(s.cache, s.log[k])
  }

  /** The server's configuration is the initial one until the last configReady replaced it. */
  predicate AppliedIsLast(s: State, initial: Option<Config>) {
    s.applied == if s.log == [] then initial else Some(s.log[|s.log| - 1].config)
  }

  ghost predicate Inv(s: State, initial: Option<Config>) {
    Owned(s.cache) && PendingSound(s) && LogSound(s) && AppliedIsLast(s, initial)
  }

  lemma {:induction false} UserTouchOwns(c: Cache, u: User)
    requires Owned(c)
    ensures Owned(UserTouched(c, u))
  {
    var owner :| OwnedBy(c, owner);
    assert OwnedBy(UserTouched(c, u), if UserTouched(c, u) == c then owner else owner[c.next := OfUser(u)]);
  }

  lemma {:induction false} SeatTouchOwns(c: Cache, u: User)
    requires Owned(c)
    ensures Owned(SeatTouched(c, u))
  {
    var owner :| OwnedBy(c, owner);
    assert OwnedBy(SeatTouched(c, u), if SeatTouched(c, u) == c then owner else owner[c.next := OfSeat(u)]);
  }

  /** Touching only adds entries. */
  lemma {:induction false} TouchExtends(c: Cache, u: User)
    requires Owned(c)
    ensures Owned(Touched(c, u)) && Touched(c, u).finished == c.finished
    ensures forall v, a, b :: Own(c, v, a, b) ==> Own(Touched(c, u), v, a, b)
  {
    UserTouchOwns(c, u);
    SeatTouchOwns(UserTouched(c, u), u);
  }

  /** Different users never share a configuration object. */
  lemma {:induction false} ObjectsAreDistinct(c: Cache, u: User, v: User)
    requires Owned(c)
    ensures u in c.users && v in c.users && c.users[u] == c.users[v] ==> u == v
    ensures u in c.users && v in c.seats ==> c.users[u] != c.seats[v]
  {
    var owner :| OwnedBy(c, owner);
  }

  lemma {:induction false} EmissionKeeps(s: State, u: User, config: Config, seat: Config, immediate: bool,
                                         initial: Option<Config>)
    requires Inv(s, initial) && Own(s.cache, u, config, seat) && u == s.current
    requires immediate || {config, seat} <= s.cache.finished
    ensures Inv(Emitted(s, u, config, seat, immediate), initial)
  {
  }

  lemma {:induction false} InitializedKeeps(s: State, sender: Sender, initial: Option<Config>)
    requires Inv(s, initial)
    ensures Inv(Initialized(s, sender), initial)
  {
    if s.pending.Some? {
      var p := s.pending.value;
      if p.config in s.cache.finished && p.seat in s.cache.finished {
        var cleared := s.(pending := None);
        assert s.connected == {};
        assert Inv(cleared, initial);
        if s.current == p.user {
          EmissionKeeps(cleared, p.user, p.config, p.seat, false, initial);
        }
      }
    }
  }

  lemma {:induction false} CacheGrowthKeeps(s: State, u: User, initial: Option<Config>)
    requires Inv(s, initial)
    ensures Inv(s.(cache := Touched(s.cache, u)), initial)
  {
    TouchExtends(s.cache, u);
    var after := s.(cache := Touched(s.cache, u));
    forall k | 0 <= k < |s.log|
      ensures EntrySound(after.cache, s.log[k])
    {
      assert EntrySound(s.cache, s.log[k]);
    }
  }

  lemma {:induction false} UpdateKeeps(s: State, sender: Sender, initial: Option<Config>)
    requires Inv(s, initial)
    ensures Inv(Updated(s, sender), initial)
  {
    if s.serving && s.current != NoUser {
      var u, c := s.current, Touched(s.cache, s.current);
      TouchExtends(s.cache, u);
      CacheGrowthKeeps(s, u, initial);
      if Immediate(s, c, u) {
        EmissionKeeps(s.(cache := c), u, c.users[u], c.seats[u], true, initial);
      } else {
        var waiting := Awaiting(s, c, u);
        assert waiting.connected == Objects(waiting.pending) - c.finished;
        InitializedKeeps(waiting, sender, initial);
      }
    }
  }

  lemma {:induction false} FinishKeeps(s: State, c: Config, initial: Option<Config>)
    requires Inv(s, initial)
    ensures Inv(Finished(s, c), initial)
  {
    assert Owned(s.cache.(finished := s.cache.finished + {c})) by {
      var owner :| OwnedBy(s.cache, owner);
      assert OwnedBy(s.cache.(finished := s.cache.finished + {c}), owner);
    }
    var done := s.(cache := s.cache.(finished := s.cache.finished + {c}));
    if c in s.connected {
      var fired := done.(connected := s.connected - {c});
      assert fired.connected == Objects(fired.pending) - fired.cache.finished;
      InitializedKeeps(fired, ConfigObject(c), initial);
    } else {
      assert done.connected == Objects(done.pending) - done.cache.finished;
    }
  }

  lemma {:induction false} StepKeeps(s: State, e: Event, initial: Option<Config>)
    requires Inv(s, initial)
    ensures Inv(Step(s, e), initial)
  {
    if Enabled(s, e) {
      match e
      case Serve => UpdateKeeps(s.(serving := true), Nobody, initial);
      case Stop => assert Stopped(s).connected == {};
      case Switch(u) => UpdateKeeps(s.(current := u), UserModel, initial);
      case Finish(c) => FinishKeeps(s, c, initial);
      case Touch(u) => CacheGrowthKeeps(s, u, initial);
    }
  }

  lemma {:induction false} RunKeeps(initial: Option<Config>, cache: Cache, u: User, events: seq<Event>)
    requires Owned(cache)
    ensures Inv(Run(Start(initial, cache, u), events), initial)
  {
    if events != [] {
      RunKeeps(initial, cache, u, events[..|events| - 1]);
      StepKeeps(Run(Start(initial, cache, u), events[..|events| - 1]), events[|events| - 1], initial);
    }
  }

  // ----- no stale configuration ---------------------------------------------------------

  /** In every run each configReady names the user current at that moment and carries that
      user's own cached configurations, both finished on the pending path; and the server's
      configuration is the initial one until it is the last that was ready. */
  lemma {:induction false} NoStaleConfig(initial: Option<Config>, cache: Cache, u: User, events: seq<Event>)
    requires Owned(cache)
    ensures var s := Run(Start(initial, cache, u), events);
            && (forall r :: r in s.log ==>
                  r.user == r.current && Own(s.cache, r.user, r.config, r.seat) && (r.immediate || r.loaded))
            && s.applied == if s.log == [] then initial else Some(s.log[|s.log| - 1].config)
  {
    RunKeeps(initial, cache, u, events);
    var s := Run(Start(initial, cache, u), events);
    forall r | r in s.log
      ensures EntrySound(s.cache, r)
    {
    }
  }

  /** The server takes a configuration only for the user current at that moment. */
  lemma {:induction false} ServerChecksTheUser(s: State, u: User, config: Config, seat: Config, immediate: bool)
    ensures u != s.current ==> Emitted(s, u, config, seat, immediate).applied == s.applied
    ensures u == s.current ==> Emitted(s, u, config, seat, immediate).applied == Some(config)
  {
  }

  // ----- which switches take effect ------------------------------------------------------

  function AllFinished(s: State, cs: seq<Config>): State {
    if cs == [] then s else Step(AllFinished(s, cs[..|cs| - 1]), Finish(cs[|cs| - 1]))
  }

  /** A switch to `u` that does not take the immediate path emits nothing yet: the direct
      call is filtered, because the user model is the sender. */
  lemma {:induction false} SwitchOnlyWaits(s: State, u: User, initial: Option<Config>)
    requires Inv(s, initial) && s.serving && u != NoUser && !Immediate(s, Touched(s.cache, u), u)
    ensures Switched(s, u) == Awaiting(s.(current := u), Touched(s.cache, u), u)
    ensures Switched(s, u).log == s.log && Switched(s, u).applied == s.applied
  {
  }

  /** Whether the pending switch of `s` completes once the configurations `cs` finished. */
  lemma {:induction false} CompletionOutcome(s: State, cs: seq<Config>, initial: Option<Config>)
    requires Inv(s, initial) && s.pending.Some? && s.pending.value.user == s.current
    requires forall c :: c in s.connected ==> c < s.cache.next
    ensures var p := s.pending.value;
            var after := AllFinished(s, cs);
            var open := s.connected - (set c | c in cs);
            if s.connected == {} || open != {}
            then && after.log == s.log && after.applied == s.applied && after.pending == s.pending
                 && after.connected == open
            else after.log == s.log + [Ready(p.user, p.config, p.seat, p.user, true, false)]
                 && after.applied == Some(p.config) && after.pending == None && after.connected == {}
    ensures AllFinished(s, cs).cache == s.cache.(finished := AllFinished(s, cs).cache.finished)
    ensures AllFinished(s, cs).current == s.current && AllFinished(s, cs).serving
    ensures Inv(AllFinished(s, cs), initial)
  {
    if cs == [] {
      assert s.connected - (set c | c in cs) == s.connected;
    } else {
      var prior, c := cs[..|cs| - 1], cs[|cs| - 1];
      assert cs == prior + [c];
      CompletionOutcome(s, prior, initial);
      var before := AllFinished(s, prior);
      StepKeeps(before, Finish(c), initial);
      var was := s.connected - (set x | x in prior);
      assert s.connected - (set x | x in cs) == was - {c};
      FinishOne(before, c, initial);
    }
  }

  /** One completion closes its own connection and, as the last, the switch. */
  lemma {:induction false} FinishOne(s: State, c: Config, initial: Option<Config>)
    requires Inv(s, initial) && (s.pending.Some? ==> s.pending.value.user == s.current)
    requires forall x :: x in s.connected ==> x < s.cache.next
    ensures var after := Step(s, Finish(c));
            if c in s.connected && s.connected == {c}
            then s.pending.Some?
                 && after.log == s.log + [Ready(s.pending.value.user, s.pending.value.config, s.pending.value.seat,
                                                s.current, true, false)]
                 && after.applied == Some(s.pending.value.config) && after.pending == None && after.connected == {}
            else && after.log == s.log && after.applied == s.applied && after.pending == s.pending
                 && after.connected == s.connected - {c}
    ensures Step(s, Finish(c)).current == s.current && Step(s, Finish(c)).serving == s.serving
    ensures Step(s, Finish(c)).cache == s.cache.(finished := Step(s, Finish(c)).cache.finished)
  {
  }

  /** What a reported switch to `u` announces at once: the user already applied, whose switch
      is pending from an earlier report. */
  function AtOnce(s: State, u: User): seq<Ready>
    requires u != NoUser
  {
    var c := Touched(s.cache, u);
    if Immediate(s, c, u)
    then [Ready(u, c.users[u], c.seats[u], u, {c.users[u], c.seats[u]} <= c.finished, true)]
    else []
  }

  /** After a reported switch the user's own pair is pending and connected while loading. */
  lemma {:induction false} SwitchPends(s: State, u: User, initial: Option<Config>)
    requires Inv(s, initial) && s.serving && u != NoUser
    ensures var c := Touched(s.cache, u);
            var waiting := Switched(s, u);
            && Inv(waiting, initial) && waiting.cache == c && waiting.current == u && waiting.serving
            && waiting.pending == Some(Pending(u, c.users[u], c.seats[u]))
            && waiting.connected == {c.users[u], c.seats[u]} - c.finished
            && waiting.log == s.log + AtOnce(s, u) && waiting.applied == s.applied
  {
    var c := Touched(s.cache, u);
    UpdateKeeps(s.(current := u), UserModel, initial);
    if Immediate(s, c, u) {
      TouchExtends(s.cache, u);
      var owner :| OwnedBy(c, owner);
      assert s.pending.value.user == u;
    } else {
      SwitchOnlyWaits(s, u, initial);
    }
  }

  /** A switch reported by the user model, and what follows once the configurations `cs` have
      finished. The user already applied and pending is announced at once. Apart from that the
      switch takes effect if and only if it finds at least one of the user's two configurations
      still loading and all that were loading finish: then the server gets this user's
      configuration, announced once. */
  lemma {:induction false} SwitchOutcome(s: State, u: User, cs: seq<Config>, initial: Option<Config>)
    requires Inv(s, initial) && s.serving && u != NoUser
    ensures var c := Touched(s.cache, u);
            var loading := {c.users[u], c.seats[u]} - c.finished;
            var after := AllFinished(Switched(s, u), cs);
            if loading != {} && loading <= (set x | x in cs)
            then && after.log == s.log + AtOnce(s, u) + [Ready(u, c.users[u], c.seats[u], u, true, false)]
                 && after.applied == Some(c.users[u])
            else after.log == s.log + AtOnce(s, u) && after.applied == s.applied
  {
    var c := Touched(s.cache, u);
    var waiting := Switched(s, u);
    SwitchPends(s, u, initial);
    var loading := {c.users[u], c.seats[u]} - c.finished;
    assert forall x :: x in waiting.connected ==> x < c.next by {
      TouchExtends(s.cache, u);
      var owner :| OwnedBy(c, owner);
    }
    CompletionOutcome(waiting, cs, initial);
    assert loading <= (set x | x in cs) <==> loading - (set x | x in cs) == {};
  }

  function ReportedTimes(s: State, u: User, n: nat): State {
    if n == 0 then s else Switched(ReportedTimes(s, u, n - 1), u)
  }

  predicate Loaded(c: Cache, u: User)
    requires u in c.users && u in c.seats
  {
    {c.users[u], c.seats[u]} <= c.finished
  }

  /** One more report of a user whose loaded pair is pending. */
  lemma {:induction false} ReportAgain(s: State, u: User, initial: Option<Config>)
    requires Inv(s, initial) && s.serving && u in s.cache.users && u in s.cache.seats && Loaded(s.cache, u)
    requires s.pending == Some(Pending(u, s.cache.users[u], s.cache.seats[u]))
    ensures var after := Switched(s, u);
            && Inv(after, initial) && after.serving && after.cache == s.cache && after.pending == s.pending
            && after.applied == s.applied
            && |after.log| == |s.log| + (if s.applied == Some(s.cache.users[u]) then 1 else 0)
            && (s.applied != Some(s.cache.users[u]) ==> after.log == s.log)
  {
    assert Touched(s.cache, u) == s.cache;
    SwitchPends(s, u, initial);
  }

  /** Reports of a user whose configurations are loaded, from a state that is not waiting for
      that user: however many there are, another user's configuration is never replaced and
      nothing is announced; the user already applied is announced by each report but the first. */
  lemma {:induction false} RepeatedReports(s: State, u: User, n: nat, initial: Option<Config>)
    requires Inv(s, initial) && s.serving && u != NoUser && !Immediate(s, Touched(s.cache, u), u)
    requires Loaded(Touched(s.cache, u), u) && n > 0
    ensures var c := Touched(s.cache, u);
            var after := ReportedTimes(s, u, n);
            && Inv(after, initial) && after.serving && after.applied == s.applied && after.cache == c
            && after.pending == Some(Pending(u, c.users[u], c.seats[u]))
            && (s.applied != Some(c.users[u]) ==> after.log == s.log)
            && (s.applied == Some(c.users[u]) ==> |after.log| == |s.log| + n - 1)
  {
    if n == 1 {
      assert ReportedTimes(s, u, 0) == s;
      SwitchPends(s, u, initial);
    } else {
      RepeatedReports(s, u, n - 1, initial);
      ReportAgain(ReportedTimes(s, u, n - 1), u, initial);
    }
  }

  /** The user already applied and fully loaded: the first report is filtered and only waits,
      the second is announced at once. */
  lemma {:induction false} SecondReportAnnounces(s: State, u: User, initial: Option<Config>)
    requires Inv(s, initial) && s.serving && u != NoUser && !Immediate(s, Touched(s.cache, u), u)
    requires Loaded(Touched(s.cache, u), u) && s.applied == Some(Touched(s.cache, u).users[u])
    ensures var c := Touched(s.cache, u);
            && Switched(s, u).log == s.log
            && Switched(Switched(s, u), u).log == s.log + [Ready(u, c.users[u], c.seats[u], u, true, true)]
  {
    SwitchPends(s, u, initial);
    SwitchPends(Switched(s, u), u, initial);
  }

  /** What beginning to serve does for the current user: loaded configurations are applied and
      announced at once; otherwise they are pending, connected while they load, and nothing is
      announced yet. Without a user nothing happens. */
  lemma {:induction false} ServeOutcome(s: State, initial: Option<Config>)
    requires Inv(s, initial) && !s.serving
    ensures Served(s).serving && Served(s).current == s.current
    ensures s.current == NoUser ==> Served(s) == s.(serving := true)
    ensures s.current != NoUser ==>
              var u := s.current;
              var c := Touched(s.cache, u);
              if Loaded(c, u)
              then && Served(s).log == s.log + [Ready(u, c.users[u], c.seats[u], u, true, false)]
                   && Served(s).applied == Some(c.users[u]) && Served(s).pending.None?
              else && Served(s).log == s.log && Served(s).applied == s.applied
                   && Served(s).pending == Some(Pending(u, c.users[u], c.seats[u]))
                   && Served(s).connected == {c.users[u], c.seats[u]} - c.finished
  {
    assert s.pending.None? && s.connected == {};
  }

  /** Once stopped, nothing is announced or applied until the manager serves again, whatever
      switches and completions there are. */
  lemma {:induction false} StoppedIsSilent(s: State, events: seq<Event>)
    requires forall k :: 0 <= k < |events| ==> events[k] != Serve
    ensures var after := Run(Stopped(s), events);
            !after.serving && after.pending.None? && after.log == s.log && after.applied == s.applied
  {
    if events != [] {
      StoppedIsSilent(s, events[..|events| - 1]);
    }
  }

  /** The same update called directly, as when serving begins, applies loaded configurations
      at once: it is only the sender that makes the difference. */
  lemma {:induction false} DirectUpdateApplies(s: State, initial: Option<Config>)
    requires Inv(s, initial) && s.serving && s.current != NoUser
    requires var c := Touched(s.cache, s.current); {c.users[s.current], c.seats[s.current]} <= c.finished
    ensures var c := Touched(s.cache, s.current);
            Updated(s, Nobody).applied == Some(c.users[s.current])
    ensures Updated(s, Nobody).log != s.log
  {
  }

  // ----- the class ------------------------------------------------------------------

  class DConfigManager {
    var serving: bool
    var currentUserName: User
    var cache: Cache
    var pending: Option<Pending>
    var connected: set<Config>
    var serverConfig: Option<Config>
    var log: seq<Ready>

    constructor (initial: Option<Config>, cache: Cache, u: User)
      ensures View() == Start(initial, cache, u)
    {
      serving, currentUserName, this.cache, pending := false, u, cache, None;
      connected, serverConfig, log := {}, initial, [];
    }

    function View(): State
      reads this
    {
      State(serving, currentUserName, cache, pending, connected, serverConfig, log)
    }

    /** `userConfig`: none for the empty name, else cached or newly created. */
    method GetUserConfig(u: User) returns (config: Option<Config>)
      modifies this`cache
      ensures cache == UserTouched(old(cache), u)
      ensures config == if u == NoUser then None else Some(cache.users[u])
    {
      if u == NoUser {
        return None;
      }
      if u in cache.users {
        return Some(cache.users[u]);
      }
      config := Some(cache.next);
      cache := cache.(users := cache.users[u := cache.next], next := cache.next + 1);
    }

    method GetUserSeatConfig(u: User) returns (config: Option<Config>)
      modifies this`cache
      ensures cache == SeatTouched(old(cache), u)
      ensures config == if u == NoUser then None else Some(cache.seats[u])
    {
      if u == NoUser {
        return None;
      }
      if u in cache.seats {
        return Some(cache.seats[u]);
      }
      config := Some(cache.next);
      cache := cache.(seats := cache.seats[u := cache.next], next := cache.next + 1);
    }

    /** configReady, received by applyCurrentUserConfig. */
    method EmitConfigReady(u: User, config: Config, seat: Config, immediate: bool)
      modifies this`log, this`serverConfig
      ensures View() == Emitted(old(View()), u, config, seat, immediate)
    {
      log := log + [Ready(u, config, seat, currentUserName, {config, seat} <= cache.finished, immediate)];
      if currentUserName != u {
        return;
      }
      if serverConfig != Some(config) {
        serverConfig := Some(config);
      }
    }

    method OnPendingUserConfigInitialized(sender: Sender)
      modifies this`pending, this`log, this`serverConfig
      ensures View() == Initialized(old(View()), sender)
    {
      if !serving {
        return;
      }
      if sender != Nobody
         && (pending.None? || (sender != ConfigObject(pending.value.config)
                               && sender != ConfigObject(pending.value.seat))) {
        return;
      }
      if pending.None? || pending.value.config !in cache.finished || pending.value.seat !in cache.finished {
        return;
      }
      var p := pending.value;
      pending := None;
      if currentUserName != p.user {
        return;
      }
      EmitConfigReady(p.user, p.config, p.seat, false);
    }

    method UpdateCurrentUser(sender: Sender)
      modifies this`cache, this`pending, this`connected, this`log, this`serverConfig
      ensures View() == Updated(old(View()), sender)
    {
      if !serving {
        return;
      }
      var u := currentUserName;
      var user := GetUserConfig(u);
      var seat := GetUserSeatConfig(u);
      if user.None? {
        return;
      }
      assert cache == Touched(old(cache), u);
      if serverConfig == user && pending.Some? && Some(pending.value.seat) == seat {
        EmitConfigReady(u, user.value, seat.value, true);
        return;
      }
      ReplacePending(u, user.value, seat.value);
      OnPendingUserConfigInitialized(sender);
    }

    method ReplacePending(u: User, user: Config, seat: Config)
      requires u in cache.users && u in cache.seats && user == cache.users[u] && seat == cache.seats[u]
      modifies this`pending, this`connected
      ensures View() == Awaiting(old(View()), cache, u)
    {
      DisconnectPending();
      pending := Some(Pending(u, user, seat));
      if user !in cache.finished {
        connected := connected + {user};
      }
      if seat !in cache.finished {
        connected := connected + {seat};
      }
    }

    method DisconnectPending()
      modifies this`connected
      ensures connected == old(connected) - Objects(pending)
    {
      if pending.Some? {
        connected := connected - {pending.value.config};
        connected := connected - {pending.value.seat};
      }
    }

    method InitializeActiveUserConfig()
      modifies this
      ensures View() == Served(old(View()))
    {
      serving := true;
      UpdateCurrentUser(Nobody);
    }

    method StopActiveUserConfig()
      modifies this
      ensures View() == Stopped(old(View()))
    {
      DisconnectPending();
      pending := None;
      serving := false;
    }

    method OnCurrentUserNameChanged(u: User)
      modifies this
      ensures View() == Switched(old(View()), u)
    {
      currentUserName := u;
      UpdateCurrentUser(UserModel);
    }

    method OnConfigInitialized(c: Config)
      requires c !in cache.finished
      modifies this
      ensures View() == Finished(old(View()), c)
    {
      cache := cache.(finished := cache.finished + {c});
      if c in connected {
        connected := connected - {c};
        OnPendingUserConfigInitialized(ConfigObject(c));
      }
    }
  }
}
