# Treeland: verified protocols

Treeland is a Wayland compositor. Most of it wires Qt to wlroots; a few parts are protocols
in their own right, driven by signals, timers and callbacks that arrive in any order. This
project models those parts in Dafny and proves what holds over every run, every input or every
reachable state.

Each component comes in two layers. A *value* layer gives the state as a datatype, every
handler as a function on it, and the theorems about whole runs. An *object* layer is a class
with the fields of the C++ class; its methods have the branches and loops of the original and
are proved equal to the functions, so the theorems speak about the fields.

| component | modules |
|---|---|
| touchpad swipes driving a five-state toggle | `SwipeGesture`, `GestureRecognizer`, `TogglableGesture`, `GestureManager` |
| prelaunch splashes and window matching | `WindowConfigStore`, `Splash`, `Toplevels`, `ShellHandler` |
| the socket activator's retry machine | `SocketActivator` |
| the greeter's stream decoder | `WireFormat`, `GreeterStream`, `DaemonMessages`, `GreeterProxy` |
| the mpv node codec | `MpvNode`, `MpvVideoController` |
| activation and focus across seats, desktop modes and the multitask view | `Focus`, `FocusController`, `DesktopMode`, `MultitaskView` |
| switching the active user's configuration | `UserConfig` |
| window placement | `Placement` |
| lists and options they share | `Prelude` |

`dafny verify dfyconfig.toml` checks everything.

## Main results

- **Swipes.** `GestureManager.SwipeOutcome` says, for every complete swipe, every starting
  status and every toggle registered for one direction and finger count, where the toggle ends,
  in terms of the displacements alone: on the side that half of the 200
  threshold decides when the swipe finishes in the toggle's moving direction, in mid-progress
  exactly when some update pointed its way but the last did not, untouched otherwise.
  `SessionRefinesSwitch` lifts this to sessions: the five-state toggle refines an on/off switch.
- **Active gestures.** The recogniser's `Valid()` says that the active list *is* the plain
  ordered filter of the registered gestures; every swipe event keeps it, including the two-pass
  rebuild on reversal.
- **Splashes.** Every run conserves buffer locks, keeps splashes unique, and accounts for each
  splash exactly once as listed, converted or destroyed, plus once per close request that a
  splash sent after it had left; the books balance exactly when there was none. It is known
  exactly what begins a splash, what ends one, and when an app's splashes are switched off.
- **Toplevels.** A surface is handed over at most once and never after its removal, however
  often the resolver calls back.
- **Activator.** It is never stuck, is subscribed exactly where it says, never publishes the
  same authority twice in a row, and publishes again after the compositor was lost.
- **Greeter.** The committed messages do not depend on how the stream is split, and are exactly
  those that were sent. With unknown tags they are a prefix, and the whole exactly when the
  leftover does not begin with a complete message.
- **mpv nodes.** Freeing deletes exactly the blocks that building allocated. The round trip cuts
  every value at its NULs: it returns the normal form, with its numbers, exactly for values
  without NUL whose integers are below 2^63, and encodes to the same node again exactly when no
  two keys of a map are cut alike.
- **Focus.** No seat keeps a surface that lost its active capability. Over every run the history
  is ordered by last activation, and the fallback is the last one activated and not inactivated
  since. Over any stretch of blocked
  modes, with mode changes, the multitask view's events and focus requests in any order, the
  block stays on and nothing but lock-screen surfaces comes up, if and only if no view exits in
  a blocked mode and none that exits on the way to the lock screen brings another window up.
- **User configuration.** No `configReady` is ever stale, and the outcome of every reported switch
  is known exactly.
- **Placement.** The shift brings a window's must-visible point into the first nearest area, the
  best choice whenever the point is placed faithfully; the title-bar step that follows keeps it
  visible exactly under a stated condition. Re-homed
  surfaces are inside their target whenever they fit, and moving there and back is the identity
  when no clamp applies.

## Where the code does less than one would expect

Each of these is a lemma with the exact condition or a concrete witness.

- Gestures erased on a reversal get no `cancelled`, so a toggle stays in mid-progress until a
  later swipe points its way (`GestureManager.ReversalStrands`).
- A duplicate splash request cancels the pending one (`Splash.DuplicateCancels`).
- The splash close handler does not ask whether the splash is still listed; the books of a run
  balance exactly when every close came from a listed one (`Splash.BooksBalanceIffClosesListed`,
  `Splash.SecondCloseReportsTwice`).
- A failed wayland activation is not retried (`SocketActivator.WaylandFailureIsNotRetried`,
  `SocketActivator.WaylandCanStall`).
- An empty authority is reported ready without being published
  (`SocketActivator.EmptyAuthorityIsReadyUnpublished`).
- An unknown tag delays complete messages until the next arrival; one call decodes everything
  exactly when no whole message lies behind the first unknown or corrupt one
  (`GreeterStream.UnknownTagDelays`, `GreeterStream.ReadyReadIsWholeIff`).
- `m_hostName` is read straight from the stream, so an incomplete message blanks it until the
  rest arrives, and for good if HostName is numbered 0 and another message's tag is split
  (`GreeterProxy.HostNameExactly`, `GreeterProxy.SplitTagBlanksHostName`).
- Text after a NUL is lost in mpv nodes and unsigned integers from 2^63 on become negative
  (`MpvNode.RoundTrip`), and no caller of `setNode` frees
  the node (`MpvVideoController.SetProperty`).
- The activation block does not always follow the mode: a multitask view lifts it whenever it
  exits. Flag and mode agree throughout a run exactly when no view exits in a blocking mode that
  stays (`DesktopMode.FlagFollowsMode`). The task switcher can start over a view that a gesture
  began to open and be unblocked when it takes the focus (`DesktopMode.SwitcherCanBeUnblocked`).
- Besides unlocking, a shell client's toggle of the multitask view lifts the block of a locked
  screen at any time, because nothing checks the mode: it takes the screen into the multitask
  mode (`DesktopMode.ToggleEndsTheLock`) or, between a lock and the hidden view's deletion, leaves
  it locked and unblocked (`DesktopMode.LateToggleUnblocksTheLock`). What ends the mode and what
  lifts the block is listed exactly in `DesktopMode.LockEndsExactlyBy`.
- An exiting view hands the focus on while the block is off, so a window can come up in a blocked
  mode (`MultitaskView.ExitsBreakTheGuard`, with the exact condition in
  `MultitaskView.SecureStepIffCalm`).
- A modal dialog that does not accept keyboard focus takes the activation flag without becoming
  the seat's surface (`Focus.FlagsNeedAcceptance`, `Focus.ModalCanSplitFlags`).
- `sender()` also filters the direct call inside `updateCurrentUser`, so a switch to another user
  whose configurations are already loaded never takes effect, however often it is reported; the
  user already applied is announced again by each such report but the first
  (`UserConfig.SwitchOutcome`, `UserConfig.RepeatedReports`).
- The distance used to choose an area is that to the nearest edge *line*: it is what the shift
  needs exactly when the point is placed faithfully (`Placement.EdgeDistanceIsNeeded`), and
  otherwise a remote area level with the point can beat an adjacent one
  (`Placement.RemoteAreaCanWin`).
- Moving the title bar below the top of an output can take the must-visible point out of every
  area again (`Placement.TrapHides`, `Placement.TitlebarStepCanHide`, with the exact condition in
  `Placement.PointAfterTitlebarStep`).

## Model

| member | source | states |
|---|---|---|
| `GestureManager.SwipeOutcome` | src/input/togglablegesture.cpp:93-186 | end-to-end outcome of any complete swipe for any wired toggle and any starting status, on displacements alone: settled by travel over 100 when finishing its way, mid-progress exactly when some update but not the last pointed its way, unchanged otherwise |
| `GestureManager.HeadsToward` | src/input/gesturerecognizer.cpp:56-82 | the recogniser heads a direction exactly when the displacement is on that side of the axis along which it first reached 5 |
| `GestureManager.SessionRefinesSwitch` | src/input/togglablegesture.cpp:93-168 | over any sequence of swipes the toggle's on/off side equals a plain switch that flips on each sufficient swipe; in-progress matches the status |
| `GestureManager.ReversalStrands` | src/input/gesturerecognizer.cpp:90-95 | a toggle left in mid-progress stays exactly so through every session in which no update points its way |
| `GestureManager.EndEqualsCancel` | src/input/gesturerecognizer.cpp:104-136 | ending and cancelling a swipe leave every toggle in the same state |
| `GestureManager.EndActsLikeCancel` | src/input/gesturemanager.cpp:40-47 | a triggered and a cancelled signal are the same to a toggle, for any active list |
| `GestureManager.UpdatesReach` | src/input/togglablegesture.cpp:79-128 | after the updates the toggle holds the progress of the last update that pointed its way, or is untouched |
| `GestureManager.UpdateReaches` | src/input/gesturerecognizer.cpp:98-101 | one update reaches a wired toggle as one progress or regress of the accumulated travel, or not at all, by fingers and heading |
| `GestureManager.ProgressReaches` | src/input/gesturerecognizer.cpp:98-101 | progress of a one-direction active list acts on the toggle once, however often its gesture is listed |
| `GestureManager.AddingWires` | src/input/togglablegesture.cpp:170-186 | registering both directions wires a toggle nobody else is bound to |
| `GestureManager.Manager.AddTouchpadSwipeGesture` | src/input/togglablegesture.cpp:170-186 | registers the forward gesture and its opposite, nothing for an invalid direction; the active list stays the filter exactly unless the swipe under way would have one of them |
| `GestureManager.Manager.RegisterTouchpadSwipe` | src/input/gesturemanager.cpp:32-55 | appends one gesture with threshold (200, 200) and equal minimum and maximum fingers, at any time; the active list stays the filter exactly unless the swipe under way would have it |
| `GestureManager.Manager.ProcessSwipeStart` | src/input/gesturemanager.cpp:85-91 | records the fingers; from three on an idle recogniser starts a swipe with no active gesture yet, and one in mid-swipe keeps its active list under the new count |
| `GestureManager.Manager.ProcessSwipeUpdate` | src/input/gesturemanager.cpp:93-98 | below three fingers changes nothing; otherwise advances the track and gives every toggle exactly this update's signals |
| `GestureManager.Manager.ProcessSwipeFinish` | src/input/gesturemanager.cpp:100-112 | below three fingers changes nothing; otherwise leaves the recogniser idle and gives every toggle the end or cancel signals |
| `GestureManager.Manager.DeliverTo` | src/input/gesturemanager.cpp:40-51 | one signal runs exactly the callback it is connected to |
| `GestureManager.Manager.Swipe` | src/input/gesturemanager.cpp:85-112 | the objects driven by start, any updates and end or cancel leave every toggle as the complete-swipe function says |
| `GestureRecognizer.AxisLocksOnce` | src/input/gesturerecognizer.cpp:49-70 | displacement is the running sum; the axis is unlocked exactly while every running sum is below 5 along both axes, and then is the longer axis of the first that is not, horizontal on a tie, for good |
| `GestureRecognizer.HeadingMeansDisplacement` | src/input/gesturerecognizer.cpp:56-82 | a heading gives the sign along the locked axis, and at the locking update at least 5 and no less than across |
| `GestureRecognizer.StartedAnnouncements` | src/input/gesturerecognizer.cpp:84-96 | the update that locks the axis announces exactly the registered gestures along it that admit the fingers; keeping the heading announces none |
| `GestureRecognizer.FinishAnnounces` | src/input/gesturerecognizer.cpp:104-136 | a finished swipe triggers an active touchpad gesture from 200 units on and cancels it below, a cancelled one cancels it, and no other gesture hears anything |
| `GestureRecognizer.ProgressAnnounces` | src/input/gesturerecognizer.cpp:98-101 | exactly the active gestures learn the displacement |
| `GestureRecognizer.PruneFresh` | src/input/gesturerecognizer.cpp:84-96 | pruning a fresh start to one direction is the plain filter of the registered gestures |
| `GestureRecognizer.PruneActive` | src/input/gesturerecognizer.cpp:84-96 | pruning an active list keeps it, or empties it after a reversal |
| `GestureRecognizer.MatchingMembers` | src/input/gesturerecognizer.cpp:138-193 | active are exactly the registered gestures that admit the fingers and have the direction |
| `GestureRecognizer.RemoveCommutes` | src/input/gesturerecognizer.cpp:30-37 | unregistering a gesture and filtering commute |
| `GestureRecognizer.Recognizer.RegisterSwipeGesture` | src/input/gesturerecognizer.cpp:20-28 | appends; the active list stays the filter exactly unless a matching gesture is registered in mid-swipe |
| `GestureRecognizer.Recognizer.UnregisterSwipeGesture` | src/input/gesturerecognizer.cpp:30-37 | keeps the active list the filter at any time and cancels the gesture exactly when it was active |
| `GestureRecognizer.Recognizer.StartSwipeGesture` | src/input/gesturerecognizer.cpp:138-193 | starts nothing while gestures are active; otherwise exactly the admitted gestures of the locked axis, each announced once in order |
| `GestureRecognizer.Recognizer.EraseOtherDirections` | src/input/gesturerecognizer.cpp:90-95 | keeps, in order, the gestures of one direction and emits nothing for the others |
| `GestureRecognizer.Recognizer.PrunePass` | src/input/gesturerecognizer.cpp:84-96 | one pass: restart when empty, then drop the other directions |
| `GestureRecognizer.Recognizer.RebuildActive` | src/input/gesturerecognizer.cpp:84-96 | two passes turn the filter of the old track into the filter of the new one |
| `GestureRecognizer.Recognizer.EmitProgress` | src/input/gesturerecognizer.cpp:98-101 | each active gesture reports progress and delta, in order |
| `GestureRecognizer.Recognizer.UpdateSwipeGesture` | src/input/gesturerecognizer.cpp:49-102 | keeps the active list the plain filter, advances the track, and emits exactly the restarts and progress due |
| `GestureRecognizer.Recognizer.EndSwipeGesture` | src/input/gesturerecognizer.cpp:112-126 | triggers or cancels each active gesture by its threshold and leaves the recogniser idle |
| `GestureRecognizer.Recognizer.CancelSwipeGesture` | src/input/gesturerecognizer.cpp:104-136 | cancels each active gesture and leaves the recogniser idle |
| `SwipeGesture.DeltaToProgress` | src/input/swipegesture.cpp:143-159 | progress lies between 0 and 1 |
| `SwipeGesture.HalfwayIsHundred` | src/input/swipegesture.cpp:143-164 | for a touchpad gesture progress is over one half exactly beyond 100 units of travel, and complete exactly from 200 |
| `SwipeGesture.OppositeIsAnInvolution` | src/input/swipegesture.cpp:166-181 | opposite is its own inverse, keeps the axis, and fixes only the invalid direction |
| `TogglableGesture.TogglableGesture.SetInProgress` | src/input/togglablegesture.cpp:20-26 | sets the flag and reports whether it changed |
| `TogglableGesture.TogglableGesture.SetPartialGestureFactor` | src/input/togglablegesture.cpp:28-34 | sets the factor and reports whether it changed |
| `TogglableGesture.TogglableGesture.SetStatus` | src/input/togglablegesture.cpp:70-77 | sets the status and reports whether it changed |
| `TogglableGesture.TogglableGesture.Activate` | src/input/togglablegesture.cpp:36-41 | the whole state is active, idle, factor 1 |
| `TogglableGesture.TogglableGesture.Deactivate` | src/input/togglablegesture.cpp:43-48 | the whole state is inactive, idle, factor 0 |
| `TogglableGesture.TogglableGesture.Flip` | src/input/togglablegesture.cpp:50-61 | off exactly from active, on from every other status |
| `TogglableGesture.TogglableGesture.Stop` | src/input/togglablegesture.cpp:63-68 | the whole state is stopped, idle, factor 0 |
| `TogglableGesture.TogglableGesture.SetProgress` | src/input/togglablegesture.cpp:93-110 | moves an inactive or activating toggle and no other |
| `TogglableGesture.TogglableGesture.SetRegress` | src/input/togglablegesture.cpp:112-128 | moves an active or deactivating toggle and no other |
| `TogglableGesture.TogglableGesture.ActiveTriggered` | src/input/togglablegesture.cpp:144-155 | settles an activating toggle by whether the factor exceeds one half |
| `TogglableGesture.TogglableGesture.DeactivateTriggered` | src/input/togglablegesture.cpp:157-168 | settles a deactivating toggle by whether the factor is below one half |
| `Splash.BuffersAreConserved` | src/core/shellhandler.cpp:257-334 | in every run in which configurations finish once, each request's buffer is unlocked at most once, and unlocks plus outstanding callbacks are exactly the requests that carried one |
| `Splash.SplashesAreUnique` | src/core/shellhandler.cpp:270-335 | in every such run splashes have distinct app ids, none pending, and each pending app has a callback outstanding |
| `Splash.EverySplashLeavesOnce` | src/core/shellhandler.cpp:351-411 | in every such run, late close requests included, each splash created is listed, converted or destroyed exactly once, plus one destruction per close request it sent after it had left; mismatches are reported once per destruction |
| `Splash.BooksBalanceIffClosesListed` | src/core/shellhandler.cpp:351-368 | the books of a run balance if and only if every close request came from a splash still listed |
| `Splash.StepBooks` | src/core/shellhandler.cpp:257-411 | every handler keeps the books, except that a close from a splash no longer listed counts it once more |
| `Splash.RunBooks` | src/core/shellhandler.cpp:257-411 | over every run the excess of a splash is the number of its stray closes |
| `Splash.ExitCauses` | src/core/shellhandler.cpp:351-411 | a splash leaves only by a window of its app, which converts it, or by its close or timeout, which destroys it |
| `Splash.StepKeeps` | src/core/shellhandler.cpp:257-411 | every handler keeps uniqueness, lock conservation, attendance and the report log together, a close of any wrapper included |
| `Splash.RunKeeps` | src/core/shellhandler.cpp:257-411 | so does every legal run |
| `Splash.FinishKeeps` | src/core/windowconfigstore.cpp:93-130 | a configuration that finishes with any number of callbacks waiting keeps the invariants |
| `Splash.CallbacksCreateOne` | src/core/windowconfigstore.cpp:93-130 | all callbacks of one configuration together create at most one splash and use the pending app up |
| `Splash.CallbacksUnlock` | src/core/shellhandler.cpp:311-333 | they give back exactly the locks they hold |
| `Splash.PendingBecomesSplash` | src/core/shellhandler.cpp:301-335 | a pending app gets its splash exactly when its configuration loads and allows one |
| `Splash.RequestOutcome` | src/core/shellhandler.cpp:257-299 | what any request does in any state: a splash at once exactly for a loaded configuration that allows one, waiting exactly for one not loaded yet, nothing when switched off, nameless, a duplicate, failed or forbidden |
| `Splash.BirthCauses` | src/core/shellhandler.cpp:257-335 | a splash is born exactly by such a request or when the configuration of a pending app finishes and allows it |
| `Splash.LeavesExactlyBy` | src/core/shellhandler.cpp:351-411 | a listed splash leaves if and only if its app is closed by the client, itself by the user or its timeout, or a window of its app arrives that is not refused |
| `Splash.PendingEndsExactlyBy` | src/core/shellhandler.cpp:261-266 | a pending app stops being pending if and only if it is requested again, its configuration finishes, the client closes it, or a window of it arrives that is not refused |
| `Splash.SplashSwitchedOff` | src/core/windowconfigstore.cpp:133-185 | over every run, once an app's configuration is loaded, its splashes are switched off exactly when those that ended without a window in a row reached the maximum at some time |
| `Splash.DuplicateCancels` | src/core/shellhandler.cpp:261-283 | a second request while the first waits means no splash when the configuration arrives |
| `Splash.UserCloseNeedsListedWrapper` | src/core/shellhandler.cpp:351-368 | one call of the close handler keeps balanced books if and only if the splash is still listed |
| `Splash.SecondCloseReportsTwice` | src/core/shellhandler.cpp:351-368 | after any legal run a listed splash that asks twice to be closed, which is legal, is reported twice |
| `Splash.ClosedSplashRefusesOneWindow` | src/core/shellhandler.cpp:617-626 | after a user close the next window of that app is refused, and only that one |
| `Splash.Find` | src/core/shellhandler.cpp:400-410 | the first splash of an app, or the length of the list |
| `Toplevels.HandedOverAtMostOnce` | src/core/shellhandler.cpp:567-604 | over every order of add, repeated resolve and remove, a surface is handed over at most once, and exactly once unless it waits or was removed |
| `Toplevels.NeverHandedAfterRemoval` | src/core/shellhandler.cpp:752-775 | after its removal no later event hands a surface over |
| `Toplevels.StepHands` | src/core/shellhandler.cpp:567-604 | a surface is handed over exactly by an announcement without a resolve or a callback that finds it alive and waiting, and waits exactly in between |
| `Toplevels.StepKeeps` | src/core/shellhandler.cpp:567-604 | every event keeps each announced surface either waiting or handed over until removed |
| `Toplevels.RunKeeps` | src/core/shellhandler.cpp:567-604 | so does every legal run |
| `ShellHandler.Handler.HandlePrelaunchSplashRequested` | src/core/shellhandler.cpp:257-299 | the fields follow the request step of the splash protocol, duplicates included |
| `ShellHandler.Handler.SkipSplash` | src/core/shellhandler.cpp:261-266 | gives the lock back and forgets the app |
| `ShellHandler.Handler.HasPrelaunchWrapper` | src/core/shellhandler.cpp:273-277 | true exactly when a splash of the app is listed |
| `ShellHandler.Handler.AwaitConfig` | src/core/shellhandler.cpp:285-298 | makes the app pending and creates, skips or waits as the configuration says |
| `ShellHandler.Handler.CreatePrelaunchSplash` | src/core/shellhandler.cpp:301-335 | creates a splash exactly while the app is pending, and gives the lock back either way |
| `ShellHandler.Handler.OnConfigInitialized` | src/core/windowconfigstore.cpp:93-130 | runs the finished configuration's callbacks in connection order and no others |
| `ShellHandler.Handler.OnSplashCloseRequested` | src/core/shellhandler.cpp:351-368 | the fields follow the user-close step |
| `ShellHandler.Handler.OnSplashTimeout` | src/core/shellhandler.cpp:370-389 | destroys and reports a splash that is still listed; otherwise nothing |
| `ShellHandler.Handler.HandlePrelaunchSplashClosed` | src/core/shellhandler.cpp:392-411 | forgets the pending app, and destroys and reports its splash if there is one |
| `ShellHandler.Handler.EnsureWrapper` | src/core/shellhandler.cpp:617-645 | refuses a window exactly when its splash was closed, converts exactly when one is listed, and otherwise only forgets the pending app |
| `ShellHandler.Handler.OnXdgToplevelSurfaceAdded` | src/core/shellhandler.cpp:567-604 | waits for the resolver exactly when it can and there is something to match; otherwise hands over at once, leaving the splash state alone |
| `ShellHandler.Handler.OnAppIdResolved` | src/core/shellhandler.cpp:580-589 | hands over exactly a surface that is alive and waiting |
| `ShellHandler.Handler.OnXdgToplevelSurfaceRemoved` | src/core/shellhandler.cpp:752-775 | a surface without a wrapper stops waiting |
| `WindowConfigStore.DisabledAfterMaxMismatches` | src/core/windowconfigstore.cpp:133-185 | over any interleaving of mismatches and matches of all apps, a splash is switched off exactly when its app's streak reached the maximum at some time, and the counter is the streak modulo the maximum |
| `WindowConfigStore.StreakDecides` | src/core/windowconfigstore.cpp:133-185 | for one configuration, off exactly when the streak reached the maximum at some time |
| `WindowConfigStore.Store.ConfigForApp` | src/core/windowconfigstore.cpp:18-27 | looking up creates a loading configuration unless the id is empty or known |
| `WindowConfigStore.Store.WithSplashConfigFor` | src/core/windowconfigstore.cpp:48-131 | calls, skips or defers by the configuration's state, and registers a waiter exactly when deferring |
| `WindowConfigStore.Store.RecordSplashMismatch` | src/core/windowconfigstore.cpp:133-165 | counts on a loaded configuration and disables at the maximum |
| `WindowConfigStore.Store.ResetSplashMismatchCount` | src/core/windowconfigstore.cpp:167-185 | clears the count of a loaded configuration |
| `SocketActivator.NeverStuck` | src/systemd-socket.cpp:63-71 | in every run the activator is started with one subscription on its bus or a start retry with a timer is pending; an xwayland activator that has not settled has a retry with a timer |
| `SocketActivator.SingleSubscription` | src/systemd-socket.cpp:257-291 | in every run `activate` is connected once on exactly the recorded bus and nowhere else |
| `SocketActivator.NoDuplicatePublish` | src/systemd-socket.cpp:135-164 | in every run two consecutive publishes between resets carry different authorities |
| `SocketActivator.RunKeeps` | src/systemd-socket.cpp:63-71 | every reachable state satisfies all invariants, timers that outlive their flag included |
| `SocketActivator.StepKeeps` | src/systemd-socket.cpp:293-354 | every event keeps all invariants |
| `SocketActivator.RetryRecovers` | src/systemd-socket.cpp:320-332 | in every run a start retry that reaches either bus ends the outage |
| `SocketActivator.StartReaches` | src/systemd-socket.cpp:63-71 | from any state a start ends on the first bus that is valid and subscribed or accepts, settling if everything answers, and otherwise leaves a start retry pending |
| `SocketActivator.StartWatches` | src/systemd-socket.cpp:293-318 | a start watches the session bus always and the system bus when it does not end on the session bus |
| `SocketActivator.LossOutcome` | src/systemd-socket.cpp:310-317 | when the compositor leaves the recorded bus the activator stops, stays subscribed and retries, and for xwayland forgets what it published; on another bus nothing happens |
| `SocketActivator.RegisteredOutcome` | src/systemd-socket.cpp:304-309 | when the compositor appears, an activator that is not started or is on that bus starts, and one started on the other bus does nothing |
| `SocketActivator.RepublishedAfterLoss` | src/systemd-socket.cpp:304-317 | in every run, after a loss the next working start publishes a non-empty authority even if it was published before |
| `SocketActivator.ActivationOutcome` | src/systemd-socket.cpp:74-172 | what an activation reports, in terms of what was published since the last reset, and when it is retried |
| `SocketActivator.WorkingActivationRecovers` | src/systemd-socket.cpp:334-346 | a signal or an activation retry for which everything answers settles a running activator |
| `SocketActivator.StaleTimersDoNothing` | src/systemd-socket.cpp:320-346 | a timer whose flag was cleared only goes away |
| `SocketActivator.OnlyXWaylandRetriesActivation` | src/systemd-socket.cpp:320-346 | only xwayland schedules activation retries, and nothing is scheduled twice |
| `SocketActivator.WaylandFailureIsNotRetried` | src/systemd-socket.cpp:89-122 | a wayland activation leaves every flag and timer as it was, whether it succeeds or not |
| `SocketActivator.WaylandCanStall` | src/systemd-socket.cpp:63-71 | after the first start on the session bus nothing is pending, and it settled only if that activation succeeded |
| `SocketActivator.EmptyAuthorityIsReadyUnpublished` | src/systemd-socket.cpp:135-139 | with nothing published, ready is reported without publishing exactly for an empty authority |
| `SocketActivator.Activator.TryStart` | src/systemd-socket.cpp:50-61 | watches the bus and subscribes if the compositor is there |
| `SocketActivator.Activator.Start` | src/systemd-socket.cpp:63-71 | session bus first, then system bus, else a start retry |
| `SocketActivator.Activator.Activate` | src/systemd-socket.cpp:74-172 | the fields and the log follow the activation step for all three kinds |
| `SocketActivator.Activator.ActivateWayland` | src/systemd-socket.cpp:89-122 | ready exactly when the descriptor is taken and the environment updated |
| `SocketActivator.Activator.ActivateXWayland` | src/systemd-socket.cpp:123-167 | ready for a known authority, published for a new one once written and exported, a retry otherwise |
| `SocketActivator.Activator.ConnectActivationSignal` | src/systemd-socket.cpp:257-291 | leaves the old bus before the new one, and keeps an existing subscription |
| `SocketActivator.Activator.OnServiceRegistered` | src/systemd-socket.cpp:304-309 | starts when not started or when it is the recorded bus |
| `SocketActivator.Activator.OnServiceUnregistered` | src/systemd-socket.cpp:310-317 | on the recorded bus: stops, resets xwayland state, schedules a start retry |
| `SocketActivator.Activator.ScheduleStartRetry` | src/systemd-socket.cpp:320-332 | one flag and one timer, unless already pending |
| `SocketActivator.Activator.ScheduleActivateRetry` | src/systemd-socket.cpp:334-346 | the same, for xwayland only |
| `SocketActivator.Activator.OnStartTimer` | src/systemd-socket.cpp:325-331 | a stale timer does nothing; otherwise the flag is cleared and start runs |
| `SocketActivator.Activator.OnActivateTimer` | src/systemd-socket.cpp:339-345 | a stale timer does nothing; otherwise the flag is cleared and activate runs |
| `GreeterStream.ChunkingDoesNotMatter` | src/greeter/greeterproxy.cpp:479-685 | for every stream of known, well-formed messages and every split, messages and leftover equal decoding the whole stream at once |
| `GreeterStream.ChunkingGivesPrefix` | src/greeter/greeterproxy.cpp:479-685 | for every stream and split the committed messages are a prefix of the whole decoding, and the leftover decodes to exactly the rest |
| `GreeterStream.DeliveredExactly` | src/greeter/greeterproxy.cpp:479-685 | however the bytes of any list of messages are split, exactly these messages are committed and nothing is left |
| `DaemonMessages.DaemonIsHeard` | src/greeter/greeterproxy.cpp:479-685 | for daemon messages with their own typed fields and encoding, any list and any split: exactly these messages with these fields are committed, in order |
| `DaemonMessages.BodyFits` | src/greeter/greeterproxy.cpp:491-640 | the greeter's reads of every kind of message fit what is streamed for it |
| `GreeterStream.SentIsClean` | src/greeter/greeterproxy.cpp:479-685 | what is sent decodes to itself without leftover |
| `GreeterStream.Parse` | src/greeter/greeterproxy.cpp:485-683 | a transaction that is not rolled back consumes at least the tag and no more than there is |
| `GreeterStream.ParseStable` | src/greeter/greeterproxy.cpp:485-683 | more bytes never change a transaction that did not run out |
| `GreeterStream.DecodeResumes` | src/greeter/greeterproxy.cpp:479-685 | decoding can be interrupted anywhere and resumed on the leftover |
| `GreeterStream.ReadyReadIsPrefix` | src/greeter/greeterproxy.cpp:479-685 | one call followed by decoding its leftover is the whole decoding |
| `GreeterStream.CleanNeverStopsEarly` | src/greeter/greeterproxy.cpp:479-685 | on clean data one call decodes everything decodable |
| `GreeterStream.CleanSplits` | src/greeter/greeterproxy.cpp:479-685 | clean data stays clean under any split |
| `GreeterStream.UnknownTagDelays` | src/greeter/greeterproxy.cpp:677-682 | an unknown tag leaves all complete messages behind it buffered until the next call |
| `GreeterStream.ReadyReadIsWholeIff` | src/greeter/greeterproxy.cpp:479-685 | one call decodes the whole buffer if and only if what lies behind the first unknown or corrupt message, if there is one, is not a whole message |
| `GreeterStream.NothingDelayedIff` | src/greeter/greeterproxy.cpp:479-685 | for any stream and split everything decodable was committed if and only if what lies behind the first unknown or corrupt message of the last call's buffer, if there is one, is not a whole message |
| `WireFormat.FieldsRoundTrip` | src/greeter/greeterproxy.cpp:491-592 | every list of fields reads back from what was written, using all of it |
| `WireFormat.FieldsStable` | src/greeter/greeterproxy.cpp:491-592 | reads of any fields stay in the data and do not depend on what follows |
| `WireFormat.StrRoundTrip` | src/greeter/greeterproxy.cpp:516-526 | a null or UTF-16 string reads back from what was written |
| `WireFormat.StrsRoundTrip` | src/greeter/greeterproxy.cpp:491-592 | so does a counted list of strings |
| `WireFormat.StrsStable` | src/greeter/greeterproxy.cpp:491-592 | a list read stays in the data and does not depend on what follows |
| `WireFormat.NumbersAreBigEndian` | src/greeter/greeterproxy.cpp:487-489 | the first byte of a number is the most significant |
| `WireFormat.StringsAreUtf16` | src/greeter/greeterproxy.cpp:516-526 | string lengths count bytes of big-endian UTF-16 units, four bytes 255 are null, odd lengths are corrupt |
| `GreeterProxy.Proxy.ReadyRead` | src/greeter/greeterproxy.cpp:479-685 | the loop over the socket commits and leaves exactly what the stream function says, updates the host name accordingly, and counts the login failures among the committed messages |
| `GreeterProxy.Proxy.ReadMessage` | src/greeter/greeterproxy.cpp:485-683 | one pass: goes on exactly after a committed message, rolls back exactly an incomplete one |
| `GreeterProxy.Proxy.ReadTransaction` | src/greeter/greeterproxy.cpp:485-683 | a transaction commits exactly what the stream function parses, and leaves the host name as its reads did even when rolled back |
| `GreeterProxy.Proxy.ReadCase` | src/greeter/greeterproxy.cpp:491-592 | each case reads its fields in order; only HostName writes the member, even when the read fails |
| `GreeterProxy.DataStream.ReadQuint32` | src/greeter/greeterproxy.cpp:485-490 | a number, or a failure that keeps the position; silent after an earlier failure |
| `GreeterProxy.DataStream.ReadQString` | src/greeter/greeterproxy.cpp:516-526 | a string, or which blank value a failure leaves behind |
| `GreeterProxy.DataStream.ReadQStringList` | src/greeter/greeterproxy.cpp:491-592 | a counted list, failing with its first failing string |
| `GreeterProxy.DataStream.ReadStrings` | src/greeter/greeterproxy.cpp:491-592 | the loop over the list equals the recursive read |
| `GreeterProxy.DataStream.CommitTransaction` | src/greeter/greeterproxy.cpp:485-683 | restores the data exactly when it ran out, and consumes it otherwise, also when corrupt |
| `GreeterProxy.HostNameFollowsMessages` | src/greeter/greeterproxy.cpp:516-526 | unless HostName is numbered 0 and an earlier call left part of a tag, after any clean stream and split the member is the last committed host name, or blank while one is incomplete |
| `GreeterProxy.HostNameExactly` | src/greeter/greeterproxy.cpp:516-526 | after any clean stream and split, whatever the numbering, the member is blank if a split tag that read as HostName blanked it and no host name began since, and otherwise the last committed host name, shown blank while the next is incomplete |
| `GreeterProxy.StaleNeedsSplitTag` | src/greeter/greeterproxy.cpp:485-526 | such a blank needs HostName to be numbered 0 and a tag split between two calls |
| `GreeterProxy.HostAfterOneRead` | src/greeter/greeterproxy.cpp:516-526 | the same for a single call |
| `GreeterProxy.HostOverwritten` | src/greeter/greeterproxy.cpp:516-526 | a host name message that has begun overwrites the member whatever it was |
| `GreeterProxy.SplitTagBlanksHostName` | src/greeter/greeterproxy.cpp:516-526 | with HostName numbered 0, splitting any other message inside its tag blanks the member although every message arrives |
| `MpvNode.AllocationBalance` | wallpaper-factory/mpvvideocontroller.cpp:266-375 | for every tree, containers that convert to lists or maps included, each block that building allocates is deleted exactly once by freeing, and no other |
| `MpvNode.BalanceAll` | wallpaper-factory/mpvvideocontroller.cpp:311-321 | the same for the values of a list |
| `MpvNode.BalanceEntries` | wallpaper-factory/mpvvideocontroller.cpp:322-340 | the same for the keys and values of a map |
| `MpvNode.RoundTrip` | wallpaper-factory/mpvvideocontroller.cpp:291-407 | for every tree, decoding its encoding gives the normal form (the same numbers as 64-bit integers, native containers, unsupported leaves empty) if and only if no string and no key holds a NUL and every integer is below 2^63 |
| `MpvNode.IntegersKept` | wallpaper-factory/mpvvideocontroller.cpp:301-306 | an integer of any kind becomes the 64-bit number equal to it modulo 2^64, itself below 2^63 |
| `MpvNode.FlagsKept` | wallpaper-factory/mpvvideocontroller.cpp:298-300 | true is 1, false is 0, and every flag but 0 decodes to true |
| `MpvNode.CutIsPrefix` | wallpaper-factory/mpvvideocontroller.cpp:293-297 | a text is cut at its first NUL |
| `MpvNode.LessByFirstDifference` | wallpaper-factory/mpvvideocontroller.cpp:396-402 | map keys are ordered by their first difference, a key before its extensions |
| `MpvNode.EncodedInOrder` | wallpaper-factory/mpvvideocontroller.cpp:311-321 | each item of a list is encoded in its own place |
| `MpvNode.EncodedEntriesInOrder` | wallpaper-factory/mpvvideocontroller.cpp:322-340 | so is each entry of a map, under its own key |
| `MpvNode.DecodedInOrder` | wallpaper-factory/mpvvideocontroller.cpp:388-395 | values are decoded in order |
| `MpvNode.LastSlotCounts` | wallpaper-factory/mpvvideocontroller.cpp:396-402 | in any map node the last slot of a key counts |
| `MpvNode.CutIsNormal` | wallpaper-factory/mpvvideocontroller.cpp:291-407 | cutting leaves exactly the plain trees in their normal form |
| `MpvNode.RoundTripAll` | wallpaper-factory/mpvvideocontroller.cpp:311-321 | the same for the items of a list |
| `MpvNode.RoundTripEntries` | wallpaper-factory/mpvvideocontroller.cpp:322-340 | the same for the entries of a map, if and only if its keys hold no NUL either |
| `MpvNode.NormalEncodesTheSame` | wallpaper-factory/mpvvideocontroller.cpp:291-346 | encoding does not distinguish a value from its normal form |
| `MpvNode.ReencodingIsStable` | wallpaper-factory/mpvvideocontroller.cpp:291-407 | for every tree, encoding what was decoded gives the same node again if and only if in no map of it two keys agree up to their first NUL |
| `MpvNode.PlainIsDistinct` | wallpaper-factory/mpvvideocontroller.cpp:291-407 | in particular it does for every tree without NUL whose integers are below 2^63 |
| `MpvNode.CutsDifferMeansNoClash` | wallpaper-factory/mpvvideocontroller.cpp:322-340 | in an ordered map it is enough to compare neighbouring keys |
| `MpvNode.DecodedIsCut` | wallpaper-factory/mpvvideocontroller.cpp:291-407 | for every tree, NULs included, decoding its encoding gives exactly the tree cut at its NULs, the last of equal keys winning, whatever the addresses |
| `MpvNode.InsertKeepsOrder` | wallpaper-factory/mpvvideocontroller.cpp:396-402 | inserting into a map keeps its keys strictly ordered |
| `MpvNode.InsertUpdatesMap` | wallpaper-factory/mpvvideocontroller.cpp:396-402 | inserting changes the value of its key and of no other |
| `MpvNode.DecodedMapsAscend` | wallpaper-factory/mpvvideocontroller.cpp:396-402 | any map node, duplicate keys included, decodes to an ordered map |
| `MpvNode.CutGrows` | wallpaper-factory/mpvvideocontroller.cpp:396-402 | with keys that differ up to their first NUL every insertion appends |
| `MpvVideoController.CreateList` | wallpaper-factory/mpvvideocontroller.cpp:266-289 | allocates header and value array, and a key array for maps only |
| `MpvVideoController.SetNode` | wallpaper-factory/mpvvideocontroller.cpp:291-346 | builds the encoding and makes exactly its blocks live |
| `MpvVideoController.SetValues` | wallpaper-factory/mpvvideocontroller.cpp:311-321 | the loop over a list |
| `MpvVideoController.SetSlots` | wallpaper-factory/mpvvideocontroller.cpp:322-340 | the loop over a map |
| `MpvVideoController.FreeNode` | wallpaper-factory/mpvvideocontroller.cpp:348-375 | deletes exactly the node's blocks and never a dead one |
| `MpvVideoController.BuildAndFree` | wallpaper-factory/mpvvideocontroller.cpp:266-375 | building and freeing leaves the heap as it was |
| `MpvVideoController.SetProperty` | wallpaper-factory/mpvvideocontroller.cpp:211-224 | the caller leaves every block of the node allocated |
| `MpvVideoController.NodeToVariant` | wallpaper-factory/mpvvideocontroller.cpp:377-407 | the decoder's loops compute the decoding of the theorems above |
| `Focus.NoSeatKeepsInactivated` | src/core/shellhandler.cpp:1148-1193 | for any seats in any state, after inactivation of a surface without active capability no seat has it activated or focused, refused or blocked fallback included |
| `Focus.SeatIsFreed` | src/core/shellhandler.cpp:1159-1185 | one seat's step frees that seat and keeps the others free |
| `Focus.OtherSeatsUntouched` | src/core/shellhandler.cpp:1148-1193 | seats that do not hold the surface are untouched unless the desktop is shown |
| `Focus.FallbackTakesOver` | src/core/shellhandler.cpp:1164-1177 | on the primary seat the head of the history takes over, activated and focused, if it is not redirected and can be both |
| `Focus.RunHistory` | src/workspace/workspacemodel.cpp:120-129 | over any run of activations, force-activations and inactivations the history lists exactly the surfaces activated and not inactivated since, each once, the latest activated first |
| `Focus.HistoryIsByRecency` | src/workspace/workspacemodel.cpp:120-129 | the same for any sequence of comings and goings |
| `Focus.RunFallback` | src/core/shellhandler.cpp:1148-1193 | after any run, when the surface with the primary seat's focus is inactivated, the last one activated and not inactivated since takes over, activated and focused, if it can |
| `Focus.ActivatedIsLatest` | src/workspace/workspace.cpp:402-417 | a window that an activation brings up is first in the history, the others keep their order |
| `Focus.StepTurnsHistory` | src/core/focuscontroller.cpp:28-130 | which surfaces every event brings up or removes from the history |
| `Focus.LowerPriorityRefused` | src/surface/seatsurfacemanager.cpp:111-170 | focus moves to any surface of no lower priority and can always be cleared |
| `Focus.ClimbEnds` | src/core/focuscontroller.cpp:238-257 | a focus request climbs a path of ungrabbed popups and ends at the first surface that is none, or nowhere |
| `Focus.ActivationRefuses` | src/core/focuscontroller.cpp:28-84 | which activations are refused, and that another modal dialog is activated in its parent's place |
| `Focus.ActivationEndsShowDesktop` | src/core/focuscontroller.cpp:156-221 | activating another surface ends a shown desktop and returns each seat's focus to its activated surface where it may |
| `Focus.ForceEndsShowDesktop` | src/core/focuscontroller.cpp:110-130 | so does force-activation, on the other seats even if the surface is not mapped |
| `Focus.GrantSettles` | src/core/focuscontroller.cpp:67-84 | a granted activation of a capable window makes it activated and focused unless the focus held has a higher priority |
| `MultitaskView.BlockedStretchIsSafe` | src/core/focuscontroller.cpp:67-84 | throughout any stretch of blocked modes, under any mode changes, view events, activations, force-activations and inactivations and any change of the surfaces, the block stays on and each seat's activated surface is the one held on entry, none or a lock screen, if and only if every event is calm |
| `MultitaskView.SecureStepIffCalm` | src/plugins/multitaskview/multitaskview.cpp:69-100 | from one blocked mode to the next a step is secure if and only if no view exits in a mode that stays and none hands the focus to another window |
| `MultitaskView.DeskStepGuards` | src/plugins/multitaskview/multitaskview.cpp:80-91 | an event of modes and view keeps every seat guarded exactly when its handover brings up nothing new but a lock screen |
| `MultitaskView.HandoverLands` | src/plugins/multitaskview/multitaskview.cpp:82-87 | an exiting view activates exactly the chosen or latest surface, if force-activation can, on the primary seat only |
| `MultitaskView.ClickActivates` | src/plugins/multitaskview/multitaskview.cpp:82-87 | a click on a window of the view activates it where it can land, whatever the history; other exits take the head of the history |
| `MultitaskView.ClickOnPlainWindow` | src/plugins/multitaskview/multitaskview.cpp:82-87 | a plain window that is clicked is activated |
| `MultitaskView.UnlockRefocuses` | src/core/waylandserver.cpp:1015-1026 | unlocking gives the primary seat's activated window the focus if it can have it, unless a surface of higher priority holds it |
| `MultitaskView.EnteringClears` | src/plugins/multitaskview/multitaskview.cpp:102-120 | a view that opens ends a shown desktop and takes activation and focus from the primary seat |
| `MultitaskView.LockOverViewIntrudes` | src/core/waylandserver.cpp:758-769 | locking with the task switcher over a view activates the latest window in between, although both modes block |
| `MultitaskView.UnblockedModeAdmits` | src/core/focuscontroller.cpp:67-84 | once an exit lifted the block any plain window is activated although the mode blocks |
| `MultitaskView.ExitsBreakTheGuard` | src/plugins/multitaskview/multitaskview.cpp:69-100 | both happen to a compositor that just started, by a gesture, the task switcher, and a lock or a move of the focus |
| `MultitaskView.Plugin.Enter` | src/plugins/multitaskview/multitaskview.cpp:102-120 | cancels the shown desktop, activates nothing, and takes the mode for a shortcut only |
| `MultitaskView.Plugin.Exit` | src/plugins/multitaskview/multitaskview.cpp:69-100 | lifts the block, hands the focus over while it is off, then leaves the mode and hides or marks the view |
| `MultitaskView.Plugin.ToggleMultitaskView` | src/plugins/multitaskview/multitaskviewplugin.cpp:41-77 | creates, enters or exits the view by reason and status |
| `MultitaskView.Plugin.OnActiveFocusItemChanged` | src/plugins/multitaskview/multitaskview.cpp:122-136 | a watching, active and visible view exits without handing the focus over |
| `MultitaskView.Plugin.CommitGesture` | src/plugins/multitaskview/multitaskview.cpp:138-148 | a change of the gesture's outcome takes or leaves the multitask mode |
| `MultitaskView.Plugin.PrepareLockScreenTransition` | src/core/waylandserver.cpp:758-769 | exits the view with its handover, drops the task switcher, then enters the lock mode unless shutting down |
| `MultitaskView.Plugin.FinishLockScreenTransition` | src/core/waylandserver.cpp:1015-1026 | back to Normal, the focus to the activated surface if it can have it |
| `Focus.ForceLands` | src/core/focuscontroller.cpp:86-130 | without the block, force-activation changes exactly the given seat's activated surface, to where redirection ends, if that can be activated and accepts focus |
| `Focus.GrantLands` | src/core/focuscontroller.cpp:67-84 | a granted activation lands exactly on a surface with the capability that accepts focus |
| `Focus.StepGuards` | src/core/focuscontroller.cpp:28-130 | one event of such a stretch |
| `Focus.ActivatedMovesOneSeat` | src/core/focuscontroller.cpp:156-221 | activation moves only its own seat, only to a surface that accepts focus, and gives focus only to activated surfaces |
| `Focus.GrantMovesOneSeat` | src/core/focuscontroller.cpp:67-84 | a granted activation changes only its own seat's activated surface, and only to the target |
| `Focus.FlagsNeedAcceptance` | src/core/focuscontroller.cpp:156-221 | the activation flag stays with the primary seat's surface if and only if the new one accepts keyboard focus |
| `Focus.ModalCanSplitFlags` | src/core/focuscontroller.cpp:28-84 | any activation keeps flag and seat together unless, on the primary seat, it ends at a surface that is not withheld, can be activated, is not the seat's own and does not accept keyboard focus; then it was redirected to a modal other than the target |
| `FocusController.Controller.ActivateSurface` | src/core/focuscontroller.cpp:28-84 | the fields follow activation: refusals, modal redirection, the block with its history, the grant |
| `FocusController.Controller.GrantActivation` | src/core/focuscontroller.cpp:74-83 | activates and focuses by the two capabilities |
| `FocusController.Controller.ForceActivateSurface` | src/core/focuscontroller.cpp:86-130 | modal first, desktop restored, then activation if mapped |
| `FocusController.Controller.SetActivatedSurface` | src/core/focuscontroller.cpp:156-221 | moves flag, history, seat and shown-desktop state as the function of the theorems says |
| `FocusController.Controller.ClimbPopups` | src/core/focuscontroller.cpp:245-257 | the loop ends at the nearest surface that may take focus, or none |
| `FocusController.Controller.RequestKeyboardFocus` | src/core/focuscontroller.cpp:238-265 | focuses where the climb ends if that surface can be focused; clears for none |
| `FocusController.Controller.SetKeyboardFocusSurface` | src/surface/seatsurfacemanager.cpp:111-170 | refuses a surface of lower priority, never a clearing |
| `FocusController.Controller.RestoreShowDesktopFocus` | src/showdesktop/showdesktop.cpp:97-104 | every seat's focus returns to its activated surface if that can be focused |
| `FocusController.Controller.PushActivedSurface` | src/workspace/workspace.cpp:402-417 | a surface other than a popup moves to the front of the history |
| `FocusController.Controller.RemoveActivedSurface` | src/workspace/workspacemodel.cpp:126-129 | all occurrences leave the history, the rest keeps its order |
| `FocusController.Controller.InactivateOnSeat` | src/core/shellhandler.cpp:1159-1192 | one seat's share of the inactivation |
| `FocusController.Controller.OnSurfaceInactivationRequested` | src/core/shellhandler.cpp:1148-1193 | the loop over the seats; every seat is free of a surface without active capability afterwards |
| `DesktopMode.AgreementNeedsOrder` | src/core/waylandserver.cpp:742-769 | a step keeps block flag and mode in agreement if and only if no view exits in a blocking mode, except from the task switcher on the way to the lock screen or shutdown menu |
| `DesktopMode.FlagFollowsMode` | src/core/waylandserver.cpp:742-756 | throughout a run the flag holds exactly in modes other than Normal and Multitaskview if and only if every event is orderly |
| `DesktopMode.ModeChangeRepairs` | src/core/waylandserver.cpp:742-756 | any change of mode restores the agreement: blocked exactly while locked or switching tasks |
| `DesktopMode.ModeAfter` | src/core/waylandserver.cpp:364-373 | which mode is in force after each event |
| `DesktopMode.ViewAfter` | src/plugins/multitaskview/multitaskviewplugin.cpp:41-77 | what becomes of the view by each event |
| `DesktopMode.SwitcherCanBeUnblocked` | src/plugins/multitaskview/multitaskview.cpp:102-136 | a legal run ends in the task switcher's mode with the block off |
| `DesktopMode.LockHidesTheView` | src/plugins/multitaskview/multitaskviewplugin.cpp:47-52 | in every legal run a view still around in lock mode is hidden and waits for its deletion |
| `DesktopMode.LockEndsExactlyBy` | src/core/waylandserver.cpp:742-769 | in every legal run that agreed so far, an event lifts the block of a locked screen if and only if it is the unlock, a shell client's toggle, or a repeated lock while the hidden view is not deleted; it ends the lock mode if and only if it is the unlock, or the toggle unless that makes a hidden view exit |
| `DesktopMode.ToggleEndsTheLock` | src/core/waylandserver.cpp:1045-1049 | a legal run in which a toggle right after a lock takes the screen into the multitask mode and lifts the block, flag and mode agreeing throughout |
| `DesktopMode.LockedFlagAgrees` | src/core/waylandserver.cpp:758-769 | in every legal run that agreed so far, flag and mode of a locked screen stop agreeing if and only if the hidden view is not yet deleted and the event is a repeated lock or its toggle |
| `DesktopMode.LateToggleUnblocksTheLock` | src/core/waylandserver.cpp:1045-1049 | a legal run in which a shell client's toggle leaves the lock mode in force with the block off |
| `DesktopMode.Server.SetCurrentMode` | src/core/waylandserver.cpp:742-756 | a new mode sets the block it calls for; the same mode changes nothing |
| `DesktopMode.Server.SetBlockActivateSurface` | src/core/waylandserver.cpp:807-813 | sets the block and nothing else |
| `DesktopMode.Server.DeleteTaskSwitch` | src/core/waylandserver.cpp:364-373 | leaves the task switcher's mode, and no other |
| `UserConfig.NoStaleConfig` | src/dconfig/dconfigmanager.cpp:227-329 | in every run each `configReady` names the user current then and carries that user's own configurations, both finished on the pending path; the server's is the initial one until it is the last announced |
| `UserConfig.RunKeeps` | src/dconfig/dconfigmanager.cpp:227-329 | every reachable state is sound: pending switch, connections, log and applied configuration |
| `UserConfig.ObjectsAreDistinct` | src/dconfig/dconfigmanager.cpp:112-148 | no two users share a configuration object, nor a user and a seat |
| `UserConfig.SwitchOutcome` | src/dconfig/dconfigmanager.cpp:227-329 | for every reported switch and whatever finishes afterwards: the user already applied and pending is announced at once; apart from that the switch takes effect, announced once, if and only if it finds something still loading and all of that finishes |
| `UserConfig.SwitchPends` | src/dconfig/dconfigmanager.cpp:227-294 | after every reported switch the user's own pair is pending, connected exactly where it still loads |
| `UserConfig.RepeatedReports` | src/dconfig/dconfigmanager.cpp:244-303 | any number of reports of a loaded user never replaces another user's configuration; only the user already applied is announced, by each report but the first |
| `UserConfig.SecondReportAnnounces` | src/dconfig/dconfigmanager.cpp:244-247 | reported twice, the user already applied and loaded is announced by the second report with nothing loading |
| `UserConfig.SwitchOnlyWaits` | src/dconfig/dconfigmanager.cpp:296-303 | unless the immediate path is taken, the direct call after a reported switch is filtered, so nothing is announced yet |
| `UserConfig.CompletionOutcome` | src/dconfig/dconfigmanager.cpp:296-329 | a pending switch completes with exactly the last of its open configurations, in any order of completions |
| `UserConfig.DirectUpdateApplies` | src/dconfig/dconfigmanager.cpp:206-212 | called without a sender the same update applies loaded configurations at once |
| `UserConfig.ServeOutcome` | src/dconfig/dconfigmanager.cpp:206-212 | beginning to serve applies and announces loaded configurations of the current user at once, and otherwise leaves them pending and connected |
| `UserConfig.StoppedIsSilent` | src/dconfig/dconfigmanager.cpp:214-225 | once stopped nothing is announced or applied until the manager serves again |
| `UserConfig.ServerChecksTheUser` | src/core/waylandserver.cpp:394-416 | the server takes a configuration only for the user current then |
| `UserConfig.DConfigManager.GetUserConfig` | src/dconfig/dconfigmanager.cpp:112-128 | none for the empty name, else the one cached object, created on first use |
| `UserConfig.DConfigManager.GetUserSeatConfig` | src/dconfig/dconfigmanager.cpp:130-148 | the same per seat |
| `UserConfig.DConfigManager.EmitConfigReady` | src/core/waylandserver.cpp:394-416 | applies the configuration only for the current user |
| `UserConfig.DConfigManager.OnPendingUserConfigInitialized` | src/dconfig/dconfigmanager.cpp:296-329 | filters by sender, waits for both, drops a switch whose user is no longer current |
| `UserConfig.DConfigManager.UpdateCurrentUser` | src/dconfig/dconfigmanager.cpp:227-294 | announces at once or replaces the pending switch and its connections |
| `UserConfig.DConfigManager.ReplacePending` | src/dconfig/dconfigmanager.cpp:249-289 | exactly the loading ones of the new pair are connected, none of the old |
| `UserConfig.DConfigManager.InitializeActiveUserConfig` | src/dconfig/dconfigmanager.cpp:206-212 | starts serving and updates directly |
| `UserConfig.DConfigManager.StopActiveUserConfig` | src/dconfig/dconfigmanager.cpp:214-225 | drops the pending switch and its connections |
| `UserConfig.DConfigManager.OnConfigInitialized` | src/dconfig/dconfigmanager.cpp:262-287 | a completion reaches the manager at most once, and only while connected |
| `Placement.EnsureNormalPositionValid` | src/core/rootsurfacecontainer.cpp:528-573 | an empty window stays; otherwise the window is shifted by the least shift that brings the must-visible point into the first nearest area (not at all if visible), keeping its size, and then moved down onto the first output that cuts the title bar; the point ends in that area if and only if there is no such output or the area reaches down to the point's depth below its top |
| `Placement.Lowered` | src/core/rootsurfacecontainer.cpp:559-570 | the title-bar step moves only down and by less than the title bar's height |
| `Placement.FirstCut` | src/core/rootsurfacecontainer.cpp:561-569 | the first output whose top edge goes through the title bar |
| `Placement.BelowTheTop` | src/core/rootsurfacecontainer.cpp:559-570 | the loop of the title-bar step |
| `Placement.MustVisiblePoint` | src/core/rootsurfacecontainer.cpp:541-555 | the point chosen lies in the window |
| `Placement.PointAfterTitlebarStep` | src/core/rootsurfacecontainer.cpp:559-570 | the step puts a visible point at its depth below the cutting output's top; it stays in its area if and only if that reaches so far down, and visible if and only if some area spans the place |
| `Placement.TrapHides` | src/core/rootsurfacecontainer.cpp:559-570 | a family of windows whose visible point the step takes out of every area |
| `Placement.TitlebarStepCanHide` | src/core/rootsurfacecontainer.cpp:559-570 | a window of that family |
| `Placement.AdjustRectToMakePointVisible` | src/core/rootsurfacecontainer.cpp:494-526 | no shift if the point is visible; otherwise the least shift into the first area of least distance |
| `Placement.MovePointInto` | src/core/rootsurfacecontainer.cpp:515-525 | the shift puts the point into the area and keeps the size |
| `Placement.EdgeDistanceIsNeeded` | src/core/rootsurfacecontainer.cpp:484-492 | the edge distance never exceeds the shift an area needs, and equals it if and only if the point is equally far along both axes off a corner, and beside an edge no nearer to the lines across |
| `Placement.FaithfulChoiceIsBest` | src/core/rootsurfacecontainer.cpp:504-512 | when that holds of the chosen area no other area needs a smaller shift |
| `Placement.EdgeDistance` | src/core/rootsurfacecontainer.cpp:484-492 | zero inside, never more than the distance to any of the four edge lines |
| `Placement.RemoteAreaCanWin` | src/core/rootsurfacecontainer.cpp:484-512 | where it does not, an area 1000 units away can be preferred to an adjacent one |
| `Placement.ShiftIsLeast` | src/core/rootsurfacecontainer.cpp:515-525 | the shift brings the point into the area, no translation does with less on either axis, and it is zero exactly inside |
| `Placement.MustVisibleIsInside` | src/core/rootsurfacecontainer.cpp:550-555 | the must-visible point lies in the window |
| `Placement.MustVisibleDepth` | src/core/rootsurfacecontainer.cpp:550-555 | the point is 20 below the top and 20 from the left edge, or from the right edge of a window that begins left of every output, at the far edge of a smaller window |
| `Placement.CentreOffsetKept` | src/core/rootsurfacecontainer.cpp:597-601 | a surface keeps its offset from the centre of its output |
| `Placement.ClampStopsAtNearest` | src/core/rootsurfacecontainer.cpp:603-611 | along each axis a surface that fits stops at the nearest place inside, one that does not at the near edge |
| `Placement.EdgeDistanceIsToALine` | src/core/rootsurfacecontainer.cpp:484-492 | outside, the distance is that to one of the four edge lines |
| `Placement.LeftmostOf` | src/core/rootsurfacecontainer.cpp:541-547 | the loop finds the least left edge, which is one of them |
| `Placement.ClampingKeepsInside` | src/core/rootsurfacecontainer.cpp:603-611 | clamped surfaces start inside, are fully inside when they fit, are untouched exactly when they were, and stay put when clamped again |
| `Placement.ThereAndBack` | src/core/rootsurfacecontainer.cpp:591-613 | moving to another output and back restores the position when no clamp applies |
| `Placement.SurfaceWrapper.MoveTo` | src/core/rootsurfacecontainer.cpp:587-614 | the surface is owned by the target at its re-centred, clamped place |
| `Placement.MoveSurfacesToOutput` | src/core/rootsurfacecontainer.cpp:580-616 | for any list with nulls and repeats every surface is owned by the target, starts inside, is inside when it fits, and moves once |

## Left out

- Hold gestures and the start-position filters of swipes; starts and ends of swipes alternate.
- `GestureManager.Manager.Dispatch`: each toggle consumes an update's signals after the recogniser's step; the original interleaves them, which no toggle can observe because none calls back.
- Floating-point rounding and overflow: `qreal` is modelled by exact reals.
- Identifiers, user names and authority bytes are interned: only equality and emptiness matter to the code modelled.
- XWayland's property fetch before `ensureXwaylandWrapper`; the matching itself is the same code as for xdg toplevels and is one method here.
- The appearance of a splash, its size and its timeout's length; a timeout may fire at any time, also after the splash left.
- Re-entrancy of `destroyForSurface`, `convertToNormalSurface` and `close`.
- The retry interval, file writing and D-Bus messages of the activator: their outcomes are inputs of each step.
- `GreeterStream.Parse`: the numbering of the daemon's messages is a parameter, because the header that defines it is not part of this model.
- `WireFormat.StrRoundTrip`: strings of 32-bit length only; the extended sizes of newer stream versions are not modelled.
- What the greeter does with a committed message beyond the host name and the failure counter, and its other members.
- `MpvVideoController.SetNode`: nodes are returned as values with the addresses of their blocks instead of being written through a pointer; branches for failed allocations are dead and omitted.
- `MpvNode.RoundTrip`: a container that converts to a list or a map is given by what it converts to; ill-formed Unicode, which UTF-8 does not preserve, is not modelled.
- `DesktopMode.LockEndsExactlyBy`: whether a lock is refused depends on the lock screen and the greeter, which are not modelled, so a repeated lock counts as possible.
- The exit of the multitask view when its plugin is shut down.
- Raising and stacking, several workspaces, the minimising done by the show-desktop mode, and activation tokens.
- `FocusController.Controller.ClimbPopups`: a popup's parent is an older surface; a cycle of popups is treated as no parent.
- `MultitaskView.BlockedStretchIsSafe`: which surfaces are lock screens is fixed by a set given in advance; everything else about surfaces may change between events.
- `UserConfig.DConfigManager.UpdateCurrentUser`: one seat, the default one; the manager instance exists.
- `Placement.EnsureNormalPositionValid`: surfaces of the layer type and surfaces without an output return early and are not modelled, nor is the rounding to the pixel grid; areas are non-empty as the original asserts.
- `Placement.SurfaceWrapper.MoveTo`: a surface without an owner needs an explicit source output, as in the original.
- QML, animations, rendering, the lock screen's visibility, and the foreign libraries behind them.
