/** Per-application configuration: src/core/windowconfigstore.cpp. */
module WindowConfigStore {

  /** Application ids, interned; `NoApp` is the empty string. */
  datatype AppId = NoApp | App(key: nat)

  /** A configuration finishes loading at most once, either way. */
  datatype AppConfig = Loading | Ready(splashEnabled: bool, mismatches: int) | Failed

  type Configs = map<AppId, AppConfig>

  /** A single-shot pair of connections waiting for a configuration to finish. */
  datatype Waiter = Waiter(app: AppId, request: nat, buffered: bool)

  /** What `withSplashConfigFor` does with its two callbacks. */
  datatype Decision = CallNow | SkipNow | Deferred

  /** Looking a configuration up creates it. */
  function Touched(configs: Configs, app: AppId): Configs {
    if app == NoApp || app in configs then configs else configs[app := Loading]
  }

  function Decide(configs: Configs, app: AppId): Decision {
    if app == NoApp then SkipNow
    else match Touched(configs, app)[app]
      case Ready(enabled, _) => if enabled then CallNow else SkipNow
      case Failed => SkipNow
      case Loading => Deferred
  }

  function Recorded(configs: Configs, app: AppId, max: int): Configs {
    if app == NoApp || max <= 0 then configs
    else
      var touched := Touched(configs, app);
      match touched[app]
      case Ready(enabled, n) =>
        touched[app := if n + 1 >= max then Ready(false, 0) else Ready(enabled, n + 1)]
      case _ => touched
  }

  function Cleared(configs: Configs, app: AppId): Configs {
    if app == NoApp then configs
    else
      var touched := Touched(configs, app);
      match touched[app]
      case Ready(enabled, _) => touched[app := Ready(enabled, 0)]
      case _ => touched
  }

  class Store {
    var configs: Configs
    var waiters: seq<Waiter>
    var maxMismatchCount: int

    constructor (max: int)
      ensures configs == map[] && waiters == [] && maxMismatchCount == max
    {
      configs, waiters, maxMismatchCount := map[], [], max;
    }

    method ConfigForApp(app: AppId) returns (found: bool)
      modifies this`configs
      ensures configs == Touched(old(configs), app) && found == (app != NoApp)
    {
      found := app != NoApp;
      if found && app !in configs {
        configs := configs[app := Loading];
      }
    }

    method WithSplashConfigFor(w: Waiter) returns (decision: Decision)
      modifies this`configs, this`waiters
      ensures configs == Touched(old(configs), w.app) && decision == Decide(old(configs), w.app)
      ensures waiters == if decision == Deferred then old(waiters) + [w] else old(waiters)
    {
      var found := ConfigForApp(w.app);
      if !found {
        return SkipNow;
      }
      match configs[w.app]
      case Ready(enabled, _) =>
        decision := if enabled then CallNow else SkipNow;
      case Failed =>
        decision := SkipNow;
      case Loading =>
        waiters := waiters + [w];
        decision := Deferred;
    }

    method RecordSplashMismatch(app: AppId)
      modifies this`configs
      ensures configs == Recorded(old(configs), app, maxMismatchCount)
    {
      if app == NoApp || maxMismatchCount <= 0 {
        return;
      }
      var _ := ConfigForApp(app);
      if !configs[app].Ready? {
        return;
      }
      var count := configs[app].mismatches + 1;
      configs := configs[app := configs[app].(mismatches := count)];
      if count >= maxMismatchCount {
        configs := configs[app := Ready(false, 0)];
      }
    }

    method ResetSplashMismatchCount(app: AppId)
      modifies this`configs
      ensures configs == Cleared(old(configs), app)
    {
      if app == NoApp {
        return;
      }
      var _ := ConfigForApp(app);
      if !configs[app].Ready? {
        return;
      }
      if configs[app].mismatches != 0 {
        configs := configs[app := configs[app].(mismatches := 0)];
      } else {
        assert configs[app := configs[app].(mismatches := 0)] == configs;
      }
    }
  }

  // ----- the mismatch counter over whole histories ---------------------------------------

  /** A splash of an app ended without a window, or matched one. */
  datatype Ending = Mismatch(app: AppId) | Match(app: AppId)

  function After(configs: Configs, endings: seq<Ending>, max: int): Configs {
    if endings == [] then configs
    else
      var before := After(configs, endings[..|endings| - 1], max);
      match endings[|endings| - 1]
      case Mismatch(app) => Recorded(before, app, max)
      case Match(app) => Cleared(before, app)
  }

  /** Mismatches of `app` since its last match, or since the count stood at `start`. */
  function Streak(endings: seq<Ending>, app: AppId, start: nat): nat {
    if endings == [] then start
    else
      var before := Streak(endings[..|endings| - 1], app, start);
      if endings[|endings| - 1] == Mismatch(app) then before + 1
      else if endings[|endings| - 1] == Match(app) then 0
      else before
  }

  /** At some time the streak was `max` long. */
  predicate LongStreak(endings: seq<Ending>, app: AppId, start: nat, max: nat) {
    Streak(endings, app, start) >= max || (endings != [] && LongStreak(endings[..|endings| - 1], app, start, max))
  }

  /** What one ending does to the configuration of `app`: the mismatch that makes `max` in a row
      switches the splash off, a match starts the count again, other apps do not matter. */
  function Ended(c: AppConfig, e: Ending, app: AppId, max: int): AppConfig
    requires c.Ready?
  {
    if e == Match(app) then Ready(c.splashEnabled, 0)
    else if e != Mismatch(app) || max <= 0 then c
    else if c.mismatches + 1 >= max then Ready(false, 0)
    else Ready(c.splashEnabled, c.mismatches + 1)
  }

  function EndedAll(c: AppConfig, endings: seq<Ending>, app: AppId, max: int): (r: AppConfig)
    requires c.Ready?
    ensures r.Ready?
  {
    if endings == [] then c else Ended(EndedAll(c, endings[..|endings| - 1], app, max), endings[|endings| - 1], app,
                                       max)
  }

  /** Recording and clearing do to a loaded configuration what the ending says, and to no other
      app's anything. */
  lemma {:induction false} OneEnding(configs: Configs, e: Ending, app: AppId, max: int)
    requires app != NoApp && app in configs && configs[app].Ready?
    ensures app in Recorded(configs, e.app, max) && app in Cleared(configs, e.app)
    ensures e.Mismatch? ==> Recorded(configs, e.app, max)[app] == Ended(configs[app], e, app, max)
    ensures e.Match? ==> Cleared(configs, e.app)[app] == Ended(configs[app], e, app, max)
  {
  }

  /** The splash is off exactly when the streak reached `max` at some time, and the counter is
      the current streak, counted anew each time it reaches `max`. */
  lemma {:induction false} StreakDecides(c: AppConfig, endings: seq<Ending>, app: AppId, max: nat)
    requires c.Ready? && 0 <= c.mismatches < max
    ensures var r := EndedAll(c, endings, app, max);
            && (r.splashEnabled <==> c.splashEnabled && !LongStreak(endings, app, c.mismatches, max))
            && r.mismatches == Streak(endings, app, c.mismatches) % max
  {
    var start := c.mismatches;
    if endings == [] {
      SmallModulo(start, max);
    } else {
      var prior := endings[..|endings| - 1];
      StreakDecides(c, prior, app, max);
      var n := Streak(prior, app, start);
      NextModulo(n, max);
      if n < max {
        SmallModulo(n, max);
      }
      SmallModulo(0, max);
    }
  }

  lemma {:induction false} AfterIsEnded(configs: Configs, endings: seq<Ending>, app: AppId, max: int)
    requires app != NoApp && app in configs && configs[app].Ready?
    ensures app in After(configs, endings, max)
            && After(configs, endings, max)[app] == EndedAll(configs[app], endings, app, max)
  {
    if endings != [] {
      AfterIsEnded(configs, endings[..|endings| - 1], app, max);
      OneEnding(After(configs, endings[..|endings| - 1], max), endings[|endings| - 1], app, max);
    }
  }

  /** Over any interleaving of mismatches and matches of all apps, an app's splash is switched
      off exactly when its streak reached `max` at some time, and its counter is the current
      streak, counted anew each time it reaches `max`. */
  lemma {:induction false} DisabledAfterMaxMismatches(configs: Configs, endings: seq<Ending>, app: AppId, max: nat)
    requires app != NoApp && app in configs && configs[app].Ready? && 0 <= configs[app].mismatches < max
    ensures var c := After(configs, endings, max);
            var start := configs[app].mismatches;
            && app in c && c[app].Ready?
            && (c[app].splashEnabled <==> configs[app].splashEnabled && !LongStreak(endings, app, start, max))
            && c[app].mismatches == Streak(endings, app, start) % max
  {
    AfterIsEnded(configs, endings, app, max);
    StreakDecides(configs[app], endings, app, max);
  }

  lemma {:induction false} SmallModulo(n: nat, max: nat)
    requires n < max
    ensures n % max == n
  {
  }

  lemma {:induction false} NextModulo(n: nat, max: nat)
    requires max > 0
    ensures (n + 1) % max == if n % max + 1 >= max then 0 else n % max + 1
  {
    var q, r := n / max, n % max;
    assert n == q * max + r;
    if r + 1 >= max {
      assert n + 1 == (q + 1) * max;
      UniqueModulo(n + 1, q + 1, 0, max);
    } else {
      UniqueModulo(n + 1, q, r + 1, max);
    }
  }

  lemma {:induction false} UniqueModulo(n: nat, q: nat, r: nat, max: nat)
    requires r < max && n == q * max + r
    ensures n % max == r
  {
    var d := n / max - q;
    assert n % max == r - d * max;
    Scaled(d, max);
  }

  lemma {:induction false} Scaled(d: int, m: int)
    requires m > 0
    ensures (d >= 1 ==> d * m >= m) && (d <= -1 ==> d * m <= -m)
  {
  }
}
