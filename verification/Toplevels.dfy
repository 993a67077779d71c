/** Toplevels waiting for an asynchronous app-id resolve (src/core/shellhandler.cpp). */
module Toplevels {
  import opened Prelude

  type Surface = nat

  /** Surfaces announced and removed, and how often ensureXdgWrapper ran for each. */
  datatype History = History(added: set<Surface>, removed: set<Surface>, handed: multiset<Surface>)

  /** `resolving` is m_pendingAppIdResolveToplevels. */
  datatype State = State(resolving: seq<Surface>, history: History)

  const START := State([], History({}, {}, multiset{}))

  function Announce(h: History, s: Surface): History {
    h.(added := h.added + {s})
  }

  function Hand(h: History, s: Surface): History {
    h.(handed := h.handed + multiset{s})
  }

  function Retire(h: History, s: Surface): History {
    h.(removed := h.removed + {s})
  }

  /** `async`: a resolve request was sent. Otherwise the surface is handed over at once. */
  function Added(t: State, s: Surface, async: bool): State {
    if async then State(t.resolving + [s], Announce(t.history, s))
    else State(t.resolving, Hand(Announce(t.history, s), s))
  }

  predicate HandsOver(t: State, s: Surface, alive: bool) {
    alive && s in t.resolving
  }

  /** The resolver's callback; `alive` is whether the guarded pointer still is. */
  function Resolved(t: State, s: Surface, alive: bool): State {
    if HandsOver(t, s, alive)
    then State(RemoveOne(t.resolving, s), Hand(t.history, s))
    else t
  }

  function Removed(t: State, s: Surface, hasWrapper: bool): State {
    State(if hasWrapper then t.resolving else RemoveOne(t.resolving, s), Retire(t.history, s))
  }

  datatype Event =
    | Add(s: Surface, async: bool)
    | Resolve(s: Surface, alive: bool)
    | Remove(s: Surface, hasWrapper: bool)

  /** A surface is announced once; it has a wrapper only if it was handed over. The
      resolver may call back at any time and any number of times. */
  predicate Enabled(t: State, e: Event) {
    match e
    case Add(s, _) => s !in t.history.added && s !in t.history.removed
    case Resolve(_, _) => true
    case Remove(s, hasWrapper) => s in t.history.added && (hasWrapper ==> t.history.handed[s] > 0)
  }

  function Step(t: State, e: Event): State {
    match e
    case Add(s, async) => Added(t, s, async)
    case Resolve(s, alive) => Resolved(t, s, alive)
    case Remove(s, hasWrapper) => Removed(t, s, hasWrapper)
  }

  function RunFrom(t: State, events: seq<Event>): State {
    if events == [] then t else Step(RunFrom(t, events[..|events| - 1]), events[|events| - 1])
  }

  predicate Legal(t: State, events: seq<Event>) {
    events == [] || (Legal(t, events[..|events| - 1])
                     && Enabled(RunFrom(t, events[..|events| - 1]), events[|events| - 1]))
  }

  /** Each announced surface waits or was handed over, never both, until it is removed. */
  ghost predicate Inv(t: State) {
    forall s: Surface :: Settled(t, s)
  }

  predicate Settled(t: State, s: Surface) {
    && t.history.handed[s] + Count(t.resolving, Is(s)) <= (if s in t.history.added then 1 else 0)
    && (s in t.history.added && s !in t.history.removed ==> t.history.handed[s] + Count(t.resolving, Is(s)) == 1)
    && (s in t.history.removed ==> Count(t.resolving, Is(s)) == 0)
  }

  lemma {:induction false} StepKeeps(t: State, e: Event)
    requires Inv(t) && Enabled(t, e)
    ensures Inv(Step(t, e))
  {
    if e.Add? && e.async {
      assert Step(t, e).resolving[..|t.resolving|] == t.resolving;
    }
    forall x: Surface
      ensures Settled(Step(t, e), x)
    {
      assert Settled(t, x);
      CountMembers(t.resolving, x);
      RemoveCounts(t.resolving, e.s, Is(x));
    }
  }

  lemma {:induction false} RunKeeps(t: State, events: seq<Event>)
    requires Inv(t) && Legal(t, events)
    ensures Inv(RunFrom(t, events))
  {
    if events != [] {
      RunKeeps(t, events[..|events| - 1]);
      StepKeeps(RunFrom(t, events[..|events| - 1]), events[|events| - 1]);
    }
  }

  /** Over every order of add, (repeated) resolve and remove, a surface is handed over at
      most once, and exactly once unless it is still waiting or was removed. */
  lemma {:induction false} HandedOverAtMostOnce(events: seq<Event>, s: Surface)
    requires Legal(START, events)
    ensures var t := RunFrom(START, events);
            && t.history.handed[s] <= 1
            && (s in t.history.added && s !in t.history.removed ==> (t.history.handed[s] == 1 <==> s !in t.resolving))
            && (s !in t.history.added ==> t.history.handed[s] == 0)
  {
    RunKeeps(START, events);
    assert Settled(RunFrom(START, events), s);
    CountMembers(RunFrom(START, events).resolving, s);
  }

  /** A surface is handed over exactly by its announcement when no resolve was sent, or by a
      callback that finds it alive and waiting; it waits exactly from an announcement with a
      resolve until such a callback or its removal without a wrapper. */
  lemma {:induction false} StepHands(t: State, e: Event, s: Surface)
    requires Inv(t) && Enabled(t, e)
    ensures Step(t, e).history.handed[s]
            == t.history.handed[s] + if e == Add(s, false) || (e == Resolve(s, true) && s in t.resolving) then 1 else 0
    ensures s in Step(t, e).resolving
            <==> e == Add(s, true) || (s in t.resolving && e != Resolve(s, true) && e != Remove(s, false))
    ensures s in Step(t, e).history.removed <==> s in t.history.removed || (e.Remove? && e.s == s)
  {
    assert Settled(t, s);
    CountMembers(t.resolving, s);
    CountMembers(Step(t, e).resolving, s);
    RemoveCounts(t.resolving, e.s, Is(s));
  }

  /** Once removed, a surface is never handed over again, whatever callbacks still fire. */
  lemma {:induction false} NeverHandedAfterRemoval(t: State, events: seq<Event>, s: Surface)
    requires Inv(t) && s in t.history.removed && Legal(t, events)
    ensures s in RunFrom(t, events).history.removed && RunFrom(t, events).history.handed[s] == t.history.handed[s]
  {
    if events != [] {
      var prior := events[..|events| - 1];
      NeverHandedAfterRemoval(t, prior, s);
      RunKeeps(t, prior);
      assert Settled(RunFrom(t, prior), s);
      CountMembers(RunFrom(t, prior).resolving, s);
    }
  }
}
