# xfce4-screensaver: a verified model

Dafny models of the parts of xfce4-screensaver whose correctness does not show in any single function,
with proofs about all their inputs, all runs, or all interleavings. `dafny verify dfyconfig.toml` checks
the whole project.

## The session

The screensaver session is spread over the manager, its windows and saver jobs, the D-Bus listener, the
Wayland idle listener, the session lock client and the monitor object that connects them. Every GObject
signal is a synchronous call, so one external event can pass through several of these objects, and through
one of them twice, before it settles. The model describes this twice.

- `SessionModel.dfy` says what each event finally does, as functions on one value (`State`) without signals
  or recursion. `Step` takes any of 29 external events: D-Bus calls, idle notifications, main loop sources,
  dialog and saver output, monitor changes, lock events. Whatever the program learns from outside is in
  `Input`. `SessionInvariant.dfy` and `SessionSteps.dfy` prove that every step of every run keeps the session
  invariant `Inv`. `SessionRuns.dfy` and `SessionOutcomes.dfy` draw the consequences, and define what it
  means that something holds since some step of a run. Three properties one would expect do not hold, and
  each has a file that says exactly when they do: a locked session ends only after an answer
  (`SessionUnlock.dfy`), an active Wayland session holds its lock (`SessionLockLoss.dfy`), a dialog that
  seems to be up can be answered (`SessionStuckDialog.dfy`). `SessionExamples.dfy` has runs that reach the
  exceptions. `SessionEffects.dfy` and `SessionCalls.dfy` say what each event does when it is let through,
  and `SessionLockEnds.dfy` how session locks are given up, told from the events of a run.
- `SessionProcesses.dfy`, `SessionWindows.dfy` and `SessionWiring.dfy` are the program's own objects and call
  structure: classes for jobs, windows, manager, listeners, lock client and monitor, with the program's
  fields, tables and loops. Every method is proved to change the snapshot of the objects exactly as the
  function of `SessionModel` of the same name says; `GSMonitor.Handle` is proved to compute `Step`. The
  recursion from the D-Bus listener through the manager and the Wayland listener back to the D-Bus listener
  is proved to end: the measure is whether the manager already is in the state asked for, then the position
  in the chain. The classes also carry the process table, so that spawning, stopping and waiting are
  accounted for child by child.

History variables in the value (signals emitted, broadcasts sent, locks given up, reasons for ending the
session) make the properties over whole runs statements about the last state.

## The other models

- `SlideshowLoader.dfy`: the two threads of the slideshow saver as interleaved actions, one action for each
  statement the other thread can observe.
- `SlideshowFade.dfy`: its cross-fade, followed at one arbitrary pixel of the back buffer.
- `SlideParser.dfy`: the event-driven reader of background slideshow files and a direct reading of the
  document tree.
- `SlideChoice.dfy`: the slide showing at a time, and the choice of the best file size.
- `BackgroundPainting.dfy`: scaling, cropping, centring and tiling.
- `PamConversation.dfy`: the handshake between the authentication thread and the main thread, for every
  interleaving whose wake-ups without a signal are harmless in the sense made precise there.
- `Popsquares.dfy`: colour conversion with whole degrees of hue, and the colour ramp.

Doubles are reals. Where the code differs from what its comments suggest, the model follows the code:

- A request to unlock made before the lock flag went up, or in the session before, ends a locked session
  without an answer (`LockedSessionEnds` has the exact condition, `RequestBeforeLockEndsSession` and
  `RequestLastSessionEndsSession` are runs).
- A dialog that cannot be started leaves the dialog flag up, and requests to unlock are ignored from then
  on (`StuckExactly`, `StuckUntil`; run `StuckReached`).
- When the compositor ends the session lock, the session stays active without it (`LockLostExactly`; run
  `LockLostReached`). If it does so while windows are being realized, a null lock is used (`RealizeExactly`).
- When a suspended saver closes its stderr the program waits for it although it is stopped (`Handle`; run
  `WaitForStoppedReached`).
- Ending the throttle does not restart a saver the dialog left suspended (`UnthrottleRestarts`; run
  `StoppedAfterUnthrottle`).
- With the lock to come with the saver at once but locking disabled, the idle alarm of the Wayland listener
  begins no session at all (`IdleAlarmActivates`).
- A lock call can leave the lock flag up in an inactive session (`LockCallOutcome`; run `FlagWithoutSession`).
- A call that ends the session broadcasts ActiveChanged twice (`BroadcastsExactly`; run `TwoBroadcasts`).
- A load dropped by the size check ends the slideshow for good (`DroppedForGood`; run `DropReached`).
- Without a background colour a transparent image keeps showing what was there before (`FadeFinishes`,
  `OpaqueWhen`). The red part of the colour it is otherwise flattened onto is computed from the low byte.
- A picture much longer than wide can be scaled to height 0 (`ScaledNotEmpty` has the exact condition).
- A rectangle placed at a negative coordinate is moved to the edge without being made smaller, so it can
  reach beyond its source (`ClippedInSource` has the exact condition).
- The condition variable of the PAM conversation is waited for without a loop; a spurious wake-up does harm
  exactly if the callback has not begun (`HarmlessExactly`; run `HarmReached`).
- A negative hue that is no multiple of 60 gives a colour out of range (`NegativeHue`).
- A closed colour ramp of no colours would write one (`ComputedFits`).

## Model

| member | source | states |
|---|---|---|
| SessionProcesses.Kernel.Wait | src/gs-job.c:116-133 | a child is waited for once, and only while it is a child |
| SessionProcesses.GSJob.Start | src/gs-job.c:468-511 | no child is started while one is recorded, and no other job's child is touched |
| SessionProcesses.GSJob.Suspend | src/gs-job.c:545-562 | SIGSTOP or SIGCONT reaches the child exactly when the status changes to Stopped or Running |
| SessionProcesses.GSJob.Died | src/gs-job.c:135-155 | the recorded child is waited for and forgotten, stopped or not |
| SessionProcesses.GSJob.Stop | src/gs-job.c:518-543 | the child is gone and waited for, never while SIGSTOP keeps it from exiting |
| SessionProcesses.GSJob.CommandWatch | src/gs-job.c:416-455 | the end of the child's output ends and reaps the child; the wait is for a stopped child exactly if the job was suspended |
| SessionWindows.GSSessionLockManager.Lock | src/gs-session-lock-manager.c:166-177 | a lock is taken only when none is held, and reported held only if the roundtrip's events left it alive |
| SessionWindows.GSSessionLockManager.Unlock | src/gs-session-lock-manager.c:179-194 | the lock ends by unlock_and_destroy if locked was received and by destroy otherwise; its surfaces go with it |
| SessionWindows.GSSessionLockManager.Event | src/gs-session-lock-manager.c:127-141 | what the locked and finished events do |
| SessionWindows.GSSessionLockManager.WindowRealized | src/gs-session-lock-manager.c:196-226 | a realized window gets a lock surface exactly when a lock is held, and then come the events of its roundtrip |
| SessionWindows.GSSessionLockManager.RemoveWindow | src/gs-session-lock-manager.c:228-239 | a window's lock surface goes before the window |
| SessionWindows.GSWindow.DialogFinish | src/gs-window.c:1239-1260 | the dialog child is killed and waited for, nobody else's child is touched |
| SessionWindows.GSWindow.SetDialogUp | src/gs-window.c:1262-1271 | the flag changes once and the manager reacts within the same call |
| SessionWindows.GSWindow.PopdownDialog | src/gs-window.c:1273-1302 | the dialog, its flag, its idle source and its watch all go, and the manager is told once |
| SessionModel.EndingMeans | src/gs-window.c:1312-1367 | OK is a line with RESPONSE=OK and neither WINDOW ID= nor NOTICE= in it; what cancels and what finishes nothing, likewise |
| SessionWindows.GSWindow.DialogProcessWatch | src/gs-window.c:1304-1385 | an answer is recorded, then the session is ended or the dialog taken down by the recorded answer |
| SessionWindows.GSWindow.DialogFinished | src/gs-window.c:1369-1382 | a recorded OK schedules the deactivation, anything else takes the dialog down |
| SessionWindows.GSWindow.PopupDialogIdle | src/gs-window.c:1434-1517 | a dialog is spawned only when none of this window is running, so no pid is overwritten |
| SessionWindows.GSWindow.RequestUnlock | src/gs-window.c:1519-1542 | an unlocked window schedules its deactivation, a locked one asks for a dialog |
| SessionWindows.GSWindow.EmitDeactivatedIdle | src/gs-window.c:435-451 | the pending deactivation is handed to the manager once |
| SessionWindows.GSWindow.SetObscured | src/gs-window.c:1887-1913 | covering a window stops its job, uncovering it may start it |
| SessionWindows.GSManager.MaybeStopJobForWindow | src/gs-manager.c:100-113 | the job of the window, if it has one, has no child afterwards |
| SessionWindows.GSManager.MaybeStartJobForWindow | src/gs-manager.c:115-144 | the five conditions under which a job is started, and nothing else changes |
| SessionWindows.GSManager.ThrottleJob | src/gs-manager.c:146-155 | one job under a changed throttle |
| SessionWindows.GSManager.ResumeJob | src/gs-manager.c:157-166 | a job with a child is continued, one without may be started |
| SessionWindows.GSManager.ForeachJob | src/gs-manager.c:190-193 | the loop over the job table, in any order, applies the callback once to each job |
| SessionWindows.GSManager.SetThrottled | src/gs-manager.c:181-200 | all jobs stop, or all that may start do, unless a dialog is up |
| SessionWindows.GSManager.EnableLocker | src/gs-manager.c:202-217 | the manager's lock flag and that of every window in the table |
| SessionWindows.GSManager.ActivateLockTimeout | src/gs-manager.c:219-228 | the lock timer locks and is spent |
| SessionWindows.GSManager.AddLockTimer | src/gs-manager.c:230-253 | locking at once, after a time, or not at all, by the preferences and the lock flag |
| SessionWindows.GSManager.CycleJobs | src/gs-manager.c:289-295 | every job is replaced by a new one whose predecessor was stopped |
| SessionWindows.GSManager.Cycle | src/gs-manager.c:272-298 | cycling happens only in an active session without dialog or throttle |
| SessionWindows.GSManager.HandleWindowDialogUp | src/gs-manager.c:716-755 | auth-request-begin, every other window insensitive, jobs suspended unless throttled |
| SessionWindows.GSManager.HandleWindowDialogDown | src/gs-manager.c:757-794 | all windows sensitive, jobs resumed unless throttled, auth-request-end |
| SessionWindows.GSManager.WindowObscured | src/gs-manager.c:700-714 | what a covered or uncovered window does to its job |
| SessionWindows.GSManager.RequestUnlock | src/gs-manager.c:1169-1201 | a request reaches a window only in an active session without a dialog |
| SessionWindows.GSManager.TakeDeactivatedIdle | src/gs-manager.c:517-535 | queued deactivations run in the order they were queued |
| SessionWindows.GSManager.RemoveJob | src/gs-manager.c:175-179 | a job is stopped before it is released |
| SessionWindows.GSManager.ClearJobs | src/gs-manager.c:929-929 | emptying the job table leaves no job child |
| SessionWindows.GSManager.DestroyWindow | src/gs-window.c:734-741 | a window's dialog is taken down and waited for before the window goes |
| SessionWindows.GSManager.ClearWindows | src/gs-manager.c:935-935 | emptying the window table leaves no window and no dialog child, and ends the dialog with one auth-request-end |
| SessionWindows.GSManager.ShowWindow | src/gs-manager.c:670-686 | a shown window gets a new job and the timers are set anew |
| SessionWindows.GSManager.ShowTable | src/gs-manager.c:1068-1077 | showing all windows one by one, in any order, is showing them together |
| SessionWindows.GSManager.CreateWindowForMonitor | src/gs-manager.c:868-894 | the new window carries the lock flag and is shown, with a lock surface, only in an active session |
| SessionWindows.GSManager.CreateWindows | src/gs-manager.c:1032-1055 | one window for each monitor, in their order |
| SessionWindows.GSManager.RecreateWindows | src/gs-manager.c:896-941 | lock surfaces go before their windows, windows before new ones are made |
| SessionWindows.GSManager.TakeScreen | src/gs-manager.c:1089-1105 | when the grab or the session lock lets a session begin |
| SessionWindows.GSManager.Activate | src/gs-manager.c:1079-1123 | nothing but the lock client changes unless the screen is taken; activated is emitted exactly when the session begins |
| SessionWindows.GSManager.Deactivate | src/gs-manager.c:1125-1158 | no window, job, timer, surface or lock is left and the lock flag is down |
| SessionWiring.GSListenerDBus.ActivateSaver | src/gs-listener-dbus.c:376-394 | the re-entrant call settles, with the session changed once and the flag following it |
| SessionWiring.GSListenerDBus.CheckThrottle | src/gs-listener-dbus.c:331-358 | throttle-changed is emitted exactly when the table's emptiness and the flag disagree |
| SessionWiring.GSListenerDBus.RemoveForConnection | src/gs-listener-dbus.c:956-991 | exactly the entries of the closed connection go |
| SessionWiring.GSListenerWayland.ManagerActivated | src/gs-listener-wayland.c:151-163 | the lock signal or the lock alarm, then DEACTIVATE in place of ACTIVATE, with the listener re-entered in between |
| SessionWiring.GSListenerWayland.ManagerDeactivated | src/gs-listener-wayland.c:165-172 | ACTIVATE in place of DEACTIVATE and LOCK, if enabled |
| SessionWiring.GSListenerWayland.SetTimeouts | src/gs-listener-wayland.c:209-239 | preferences arriving in any order, with milliseconds wrapping at 32 bits |
| SessionWiring.GSMonitor.NotificationIdled | src/gs-listener-wayland.c:268-309 | what each expired alarm leads to |
| SessionWiring.GSMonitor.ListenerDbusActiveChanged | src/gs-monitor.c:149-159 | the answer to active-changed is whether the manager reached the state asked for |
| SessionWiring.GSMonitor.ListenerDbusThrottleChanged | src/gs-monitor.c:161-164 | the manager follows the listener's throttle |
| SessionWiring.GSMonitor.ListenerDbusLock | src/gs-monitor.c:83-91 | the lock flag is raised before the activation is tried |
| SessionWiring.GSMonitor.ListenerActivate | src/gs-monitor.c:93-101 | an inhibitor keeps an idle session from becoming active |
| SessionWiring.GSMonitor.ListenerLock | src/gs-monitor.c:103-111 | an inhibitor keeps an idle session from being locked |
| SessionWiring.GSMonitor.ActivateManager | src/gs-manager.c:1160-1167 | activation with everything its signal sets off |
| SessionWiring.GSMonitor.DeactivateManager | src/gs-monitor.c:61-64 | deactivation with everything its signal sets off, the listener's flag included |
| SessionWiring.GSMonitor.CalledForUnlock | src/gs-monitor.c:129-147 | which calls may ask for the session to be unlocked, and when |
| SessionWiring.GSMonitor.CookieCall | src/gs-listener-dbus.c:856-954 | inhibitors and throttlers come and go by cookie |
| SessionWiring.GSMonitor.NameOwnerGone | src/gs-listener-dbus.c:993-1017 | a connection that closes takes its throttlers and inhibitors along |
| SessionWiring.GSMonitor.Hotplugged | src/gs-manager.c:943-961 | monitors coming or going recreate the windows exactly while the handlers are connected |
| SessionWiring.GSMonitor.ChildrenAccounted | src/gs-job.c:135-177 | live children are exactly the recorded ones, each recorded once, at most one a dialog; spawned is reaped plus live |
| SessionWiring.GSMonitor.Handle | src/gs-monitor.c:61-169 | any event, through all re-entrant calls, ends in the state Step computes, keeps the invariant, and waits for a stopped child exactly when the watched output of a suspended saver ended |
| SessionInvariant.DialogSaysKeeps | src/gs-window.c:1304-1385 | while output is watched the recorded answer is not OK, so only an OK line finishes a dialog with OK, although the answer is never reset |
| SessionInvariant.CreateActive | src/gs-manager.c:937-940 | recreating the windows of an active session gives one for each monitor with job, lock flag and surface |
| SessionInvariant.DestroyedOk | src/gs-window.c:734-741 | destroying the window that shows the dialog ends the dialog |
| SessionSteps.BecomeActiveKeeps | src/gs-manager.c:1107-1120 | an activation leaves all tables, flags, surfaces and alarms matched before the listener notices |
| SessionSteps.AfterActivatedKeeps | src/gs-listener-wayland.c:151-163 | the alarms fit the session after the re-entrant lock signal |
| SessionSteps.TimeoutsKeep | src/gs-listener-wayland.c:209-239 | preference changes in any order keep the alarms fitting |
| SessionSteps.StepKeeps | src/gs-manager.c:1079-1201 | every external event keeps the session invariant |
| SessionSteps.RunKeeps | src/gs-monitor.c:61-169 | so does every run from start-up, with any events and any answers from outside |
| SessionRuns.SaversExecuteOnlyWhenAllowed | src/gs-manager.c:115-200 | in every run a saver executes only in an active, unthrottled session without a dialog, on a window in the table that is not obscured |
| SessionRuns.UnthrottleRestarts | src/gs-manager.c:146-200 | exactly which savers execute after the throttle ends |
| SessionRuns.ListenerAndManagerAgree | src/gs-listener-dbus.c:331-394 | after every step listener and manager agree on active and throttled, and throttled means the table is not empty |
| SessionRuns.WindowsFollowMonitors | src/gs-manager.c:868-941 | while active, one window for each monitor, one job for each window, every window's lock flag the manager's |
| SessionRuns.NothingLeftWhenInactive | src/gs-manager.c:1125-1158 | while inactive no windows, jobs, timers, monitor handlers, lock or surfaces |
| SessionRuns.OneDialogAtATime | src/gs-manager.c:716-809 | the dialog flag stands for exactly one window, a locked one, the only sensitive one |
| SessionRuns.AuthSignalsAlternate | src/gs-manager.c:716-794 | auth-request-begin and auth-request-end alternate over every run, through hotplug and deactivation |
| SessionRuns.StepCause | src/gs-window.c:1304-1385 | a new reason to end the session can only be an OK line of a watched dialog or a request while the window's lock flag is off |
| SessionRuns.EveryCauseExplained | src/gs-window.c:435-451 | every reason recorded in a run was such an event earlier in that run |
| SessionOutcomes.OnlyTheseEndASession | src/gs-manager.c:517-535 | a session ends only by a D-Bus call or for a recorded reason; end of file, errors, hang-ups and CANCEL never end one |
| SessionOutcomes.LockFlagHolds | src/gs-manager.c:202-217 | a locked session stays locked until it ends |
| SessionOutcomes.LockCallOutcome | src/gs-monitor.c:83-91 | a lock call raises the flag and activates exactly when the screen can be taken |
| SessionOutcomes.LocksEndOnce | src/gs-session-lock-manager.c:166-194 | each lock object but the current one ended by one request, unlock_and_destroy if and only if locked was received on it |
| SessionOutcomes.LockSurfaces | src/gs-manager.c:883-939 | while a lock is held its surfaces are those of the windows in the table |
| SessionOutcomes.ActivationHoldsALock | src/gs-manager.c:1097-1105 | on Wayland a session begins only with the lock requested just then still alive, a surface for each window |
| SessionLockLoss.LockWhileLasting | src/gs-session-lock-manager.c:166-194 | while a session lasts its lock is neither taken nor lost, but for a finished event |
| SessionLockLoss.LockLostExactly | src/gs-session-lock-manager.c:135-141 | over any run on Wayland an active session is without its lock if and only if a finished event came since it became active |
| SessionLockLoss.RealizeExactly | src/gs-session-lock-manager.c:196-211 | realizing windows uses a null lock if and only if finished comes in a roundtrip before the last; otherwise which lock and surfaces there are |
| SessionStuckDialog.StaysStuck | src/gs-window.c:1493-1517 | a step through which the dialog flag stays up leaves nothing under way exactly if nothing was, or if it tried to start the dialog and could not |
| SessionStuckDialog.StuckExactly | src/gs-window.c:1493-1517 | in every run the dialog flag is up with no dialog pending, running or answered if and only if a start of the dialog failed and the flag has been up since |
| SessionStuckDialog.StuckUntil | src/gs-manager.c:1169-1201 | then requests to unlock do nothing, until the session ends or the monitors change |
| SessionUnlock.WaitingInSession | src/gs-manager.c:517-535 | what waits to end a session was caused in it or was waiting when it began |
| SessionUnlock.LockedSessionEnds | src/gs-window.c:435-451 | when a locked session ends, and that a window ends it for an OK line of a dialog shown in it if and only if the reason was not waiting when the session was locked |
| SessionUnlock.AnsweredInTheSession | src/gs-manager.c:517-535 | in runs that lock only when nothing waits, no window ends a locked session without an OK line of its dialog in that session |
| SessionUnlock.WaitingEnds | src/gs-manager.c:517-535 | whatever waits in an active session can end it by main loop sources alone |
| SessionExamples.RequestBeforeLockEndsSession | src/gs-window.c:1531-1534 | a run in which a request made before the lock flag went up ends the locked session |
| SessionExamples.RequestLastSessionEndsSession | src/gs-manager.c:517-535 | a run in which a request made in the session before does |
| SessionExamples.WaitForStoppedReached | src/gs-job.c:416-455 | a run to a state in which the end of a suspended saver's output would be waited for |
| SessionExamples.StuckReached | src/gs-window.c:1493-1517 | a run to a dialog that could not be started |
| SessionExamples.StoppedAfterUnthrottle | src/gs-manager.c:146-200 | a run after whose throttle a saver is left stopped |
| SessionExamples.FlagWithoutSession | src/gs-monitor.c:83-91 | a run to a raised lock flag without a session |
| SessionExamples.TwoBroadcasts | src/gs-listener-dbus.c:360-394 | a run with two broadcasts for one change |
| SessionExamples.LockLostReached | src/gs-session-lock-manager.c:135-141 | a run to an active Wayland session without its lock |
| SessionEffects.AnswerSchedules | src/gs-window.c:1334-1383 | an OK line of a watched dialog is recorded, schedules the deactivation and ends the watch, and nothing else changes |
| SessionEffects.AnswerUnlocks | src/gs-window.c:1369-1373 | then the window's and the manager's idle sources end the session |
| SessionEffects.OtherEndingsLower | src/gs-window.c:1374-1379 | any other ending takes the dialog and its flag down, the session goes on and nothing new is scheduled to end it |
| SessionEffects.OtherEndings | src/gs-window.c:1340-1367 | a cancel, the end of the output, an error and a hang-up are such endings |
| SessionEffects.OtherOutputIgnored | src/gs-window.c:1312-1352 | output that is no ending changes nothing |
| SessionEffects.DeactivationQueues | src/gs-window.c:435-443 | a scheduled deactivation is queued behind those that wait |
| SessionEffects.ReasonsInOrder | src/gs-manager.c:517-535 | the first waiting reason ends the session and is recorded, the others go on waiting |
| SessionEffects.OpenRequestSchedules | src/gs-window.c:1532-1535 | a request in a session that is not locked schedules its end |
| SessionEffects.LockedRequestRaises | src/gs-window.c:1537-1541 | a request in a locked session raises the dialog flag of that window alone, suspends the savers and queues the dialog |
| SessionEffects.RequestsAlike | src/gs-monitor.c:129-147 | the calls that ask to unlock do the same, each under its own condition |
| SessionEffects.WatchersAlike | src/gs-manager.c:811-821 | so do resumed alarms and activity on a window that takes input |
| SessionEffects.DialogStarts | src/gs-window.c:1434-1517 | a dialog that was asked for is started and watched, or taken down where it would have no focus |
| SessionEffects.UserUnlocks | src/gs-manager.c:1169-1201 | from any locked state without a dialog: a request, the dialog, its OK line and two idle sources end the session |
| SessionEffects.UserEnds | src/gs-manager.c:1169-1201 | from any state that is not locked: a request and two idle sources do |
| SessionEffects.DialogDownResumes | src/gs-manager.c:157-166 | when the dialog goes down in an unthrottled session a saver executes if and only if it had a child or may be started |
| SessionEffects.DialogDownThrottled | src/gs-manager.c:784-791 | in a throttled one the savers are left alone |
| SessionEffects.ThrottleStops | src/gs-manager.c:181-200 | a throttle ends every saver, unless a dialog is up |
| SessionEffects.CycleRenews | src/gs-manager.c:272-298 | cycling gives every window a new saver, which executes if it may be started |
| SessionEffects.CyclesAlike | src/gs-manager.c:300-313 | the cycle call and the cycle timer do the same |
| SessionEffects.MappedStarts | src/gs-manager.c:115-144 | when a mapped window's saver starts, and that nothing else changes |
| SessionEffects.CoveredStops | src/gs-manager.c:700-714 | covering a window ends its saver |
| SessionEffects.UncoveredStarts | src/gs-manager.c:700-714 | uncovering it starts it exactly without dialog and throttle |
| SessionEffects.OutputEndForgets | src/gs-job.c:416-455 | the end of a watched saver's output leaves it without a child and touches no other |
| SessionLockEnds.LockedNoted | src/gs-session-lock-manager.c:127-133 | the locked event is noted for the lock held and does nothing else |
| SessionLockEnds.UnlockEnds | src/gs-session-lock-manager.c:179-194 | an unlock ends the lock held by the request its flag asks for |
| SessionLockEnds.LockEndsByEvents | src/gs-session-lock-manager.c:179-194 | over every run, told from its events alone: the n-th lock was given up by unlock_and_destroy if and only if a locked event had come for it |
| SessionCalls.LockTimerLocks | src/gs-manager.c:219-228 | the lock timer raises the flag for the manager and every window |
| SessionCalls.LockCallLocks | src/gs-monitor.c:83-91 | a lock call in an active session locks it, if the preferences allow it, and does nothing else |
| SessionCalls.LockAlarmLocks | src/gs-listener-wayland.c:296-300 | the expired lock alarm locks every window unless an inhibitor or the preferences forbid it, and is removed in any case |
| SessionCalls.CanActivateMeans | src/gs-manager.c:1089-1105 | what it takes to begin a session, on X11 and on Wayland |
| SessionCalls.CallsSwitch | src/gs-listener-dbus.c:376-394 | a call begins the session exactly when that is possible and always ends it |
| SessionCalls.BeginsLocked | src/gs-manager.c:1107-1112 | when a session begins locked |
| SessionCalls.BeginsTimed | src/gs-manager.c:230-270 | which timers it begins with |
| SessionCalls.BeginsAlarmed | src/gs-listener-wayland.c:151-163 | whether the lock alarm is armed, and with what |
| SessionCalls.BeginsFresh | src/gs-manager.c:868-894 | its windows are shown, uncovered and sensitive, its savers not started |
| SessionCalls.EndsUnlocked | src/gs-manager.c:1147-1155 | a session that ends drops the lock flag and keeps the throttle and what waits |
| SessionCalls.InhibitedStays | src/gs-monitor.c:93-111 | an inhibited idle session stays as it is, whichever idle signal comes |
| SessionCalls.FullscreenPutsOff | src/gs-listener-wayland.c:276-280 | a full-screen window puts the idle alarm off |
| SessionCalls.IdleAlarmActivates | src/gs-listener-wayland.c:282-294 | otherwise the alarm begins the session if and only if that is possible and it is not meant to lock with locking disabled; then it does nothing |
| SessionCalls.X11Activates | src/gs-monitor.c:93-101 | the X11 listener's activate signal begins the session exactly if the grab succeeds |
| SessionCalls.X11Locks | src/gs-monitor.c:103-111 | its lock signal raises the flag as well, or does nothing with locking disabled |
| SessionCalls.MonitorsFollowed | src/gs-manager.c:896-961 | after a change of monitors an active session has new windows, one for each, and no dialog; an inactive one is left alone |
| SessionCalls.ClosedConnection | src/gs-listener-dbus.c:956-1017 | a closed connection takes exactly its own inhibitors and throttlers along |
| SessionCalls.CookiesComeAndGo | src/gs-listener-dbus.c:856-954 | an inhibitor is entered once and removed once, all others stay |
| SessionCalls.ThrottlesComeAndGo | src/gs-listener-dbus.c:856-954 | likewise a throttler |
| SessionCalls.TimeoutsMean | src/gs-listener-wayland.c:209-239 | what setting the time-outs does to the settings and to each alarm, in milliseconds at 32 bits |
| SessionCalls.IdleAlarmAsSet | src/gs-listener-wayland.c:209-239 | in every run the idle alarm of an inactive session is armed exactly if the last setting turned it on, with the seconds it gave |
| SessionOutcomes.AlarmsExactly | src/gs-listener-wayland.c:145-239 | DEACTIVATE iff active, ACTIVATE iff inactive and enabled and with the current time-out, LOCK only while active |
| SessionOutcomes.BroadcastsExactly | src/gs-listener-dbus.c:360-394 | exactly which ActiveChanged signals each step sends |
| SlideshowLoader.PullScheduledIffResults | savers/gste-slideshow.c:376-398 | whenever the result lock is free a pull is scheduled if and only if there are results |
| SlideshowLoader.AssertionHolds | savers/gste-slideshow.c:381-384 | the assertion never fails in any interleaving |
| SlideshowLoader.OneLoadAtATime | savers/gste-slideshow.c:101-130 | exactly one load among timer, request, loader, result and fade until the size check drops it |
| SlideshowLoader.NoFadeCutShort | savers/gste-slideshow.c:148-150 | start_fade never finds an unfinished fade |
| SlideshowLoader.NeverStuck | savers/gste-slideshow.c:602-631 | the threads never block each other |
| SlideshowLoader.DroppedForGood | savers/gste-slideshow.c:589-593 | a load dropped by the size check is never followed by another |
| SlideshowLoader.DropReached | savers/gste-slideshow.c:589-593 | the first load already may be dropped |
| SlideshowFade.PaintedOnce | savers/gste-slideshow.c:152-190 | each pixel of the window lies in exactly one of the five areas update_display paints, whatever the sizes |
| SlideshowFade.PlacedInTheMiddle | savers/gste-slideshow.c:152-155 | opposite margins of the image differ by at most a pixel |
| SlideshowFade.SlowMeans | savers/gste-slideshow.c:335-338 | when fading is given up |
| SlideshowFade.DivisorPositive | savers/gste-slideshow.c:329-331 | the divisor in alpha2 is never zero |
| SlideshowFade.AlphaTelescopes | savers/gste-slideshow.c:314-331 | painting at the computed alpha lessens the old picture's share from one opacity to the next, exactly so under an opaque picture and by less under another |
| SlideshowFade.FadeIsLinear | savers/gste-slideshow.c:293-346 | after k ticks the pixel is exactly k/N of the new and the rest of the old, if and only if the new picture is opaque there or the two are the same |
| SlideshowFade.FadeFinishes | savers/gste-slideshow.c:304-345 | for any frame rates the fade is over within N + 1 ticks, and shows exactly the new picture if and only if that is opaque there or the old one was the same |
| SlideshowFade.OpaqueWhen | savers/gste-slideshow.c:157-177 | what is painted is opaque exactly with a background colour, an opaque image, or outside the image |
| SlideshowFade.SlowLastTick | savers/gste-slideshow.c:335-345 | the bound N + 1 is reached |
| SlideshowFade.GSTESlideshow.StartFade | savers/gste-slideshow.c:132-196 | a fade starts at tick 0 with the image, flattened if there is a background colour, placed in the window |
| SlideshowFade.GSTESlideshow.FinishFade | savers/gste-slideshow.c:198-211 | the new image becomes the old one and a load is scheduled |
| SlideshowFade.GSTESlideshow.UpdateDisplay | savers/gste-slideshow.c:213-291 | the pixel is composited once with its part of the new picture |
| SlideshowFade.GSTESlideshow.DrawIter | savers/gste-slideshow.c:293-349 | one tick, in the program's order of tests; a load is scheduled exactly when the fade ends |
| SlideParser.ParserReadsDocument | src/xfce-bg.c:1726-1904 | for every conforming document the handlers follow no null pointer, empty the stack and read the tree's slides, files, durations and start time |
| SlideParser.SizeMeans | src/xfce-bg.c:1744-1752 | the last width attribute is the width, the last height attribute the height, 0 without one |
| SlideParser.SaidMeans | src/xfce-bg.c:1842-1854 | of each field of the start time the last element counts |
| SlideParser.OneTimeMore | src/xfce-bg.c:1842-1854 | setting the fields one after the other, with the program's offsets, gives each what was last said of it |
| SlideParser.TotalIsSum | src/xfce-bg.c:1849-1854 | with one duration for each slide the total is their sum |
| SlideParser.SlideshowFromDocument | src/xfce-bg.c:2012-2030 | a file is a slideshow exactly when it has a slide, and then its total is the sum of its slides' durations |
| SlideParser.AnySeveralMeans | src/xfce-bg.c:1870-1902 | has_multiple_sizes tells whether some slide has a list of several files |
| SlideParser.SlideShow.StackIs | src/xfce-bg.c:1777-1814 | the varargs comparison is equality with the reversed names |
| SlideParser.SlideShow.HandleStart | src/xfce-bg.c:1727-1765 | a start tag, including sizes outside file, from and to |
| SlideParser.SlideShow.HandleEnd | src/xfce-bg.c:1767-1775 | an end tag, also with an empty stack |
| SlideParser.SlideShow.FilePlace | src/xfce-bg.c:1849-1897 | the order of the stack tests does not matter |
| SlideParser.SlideShow.HandleText | src/xfce-bg.c:1821-1904 | character data anywhere, blank file names skipped |
| SlideParser.SlideShow.Read | src/xfce-bg.c:1997-2032 | the whole parse, and the single slide that lasts forever |
| SlideClock.WrappedIs | src/xfce-bg.c:1031-1036 | fmod with its correction is a true modulus |
| SlideClock.WrappedPeriodic | src/xfce-bg.c:1031-1036 | and has the period of the show |
| SlideClock.OneSlideAtATime | src/xfce-bg.c:1038-1049 | the slides' half-open intervals do not overlap |
| SlideClock.GetCurrentSlide | src/xfce-bg.c:1028-1057 | for every time a slide is found, the one whose interval holds the wrapped time, alpha in [0,1) and no division by zero |
| SlideClock.ChoicePeriodic | src/xfce-bg.c:1028-1057 | the choice repeats with the total duration |
| BestSize.Pass | src/xfce-bg.c:1393-1408 | one pass finds the first of the best candidates or shows there is none |
| BestSize.FindBestSize | src/xfce-bg.c:1380-1415 | the first lexicographic minimum of shape and width distance among sizes large enough, else among all within the cut-off, none iff there is none |
| BestSize.DistanceMeans | src/xfce-bg.c:1389-1399 | the shape distance is the cross-multiplied difference, 0 exactly for the same shape |
| BestSize.FirstBestUnique | src/xfce-bg.c:1372-1379 | the answer is determined |
| BestSize.NoHeightNoMatch | src/xfce-bg.c:1389-1399 | a height of zero never matches |
| Placement.FitsExactly | src/xfce-bg.c:1536-1553 | scaled to fit, one side equals its bound and the other keeps within its own |
| Placement.ScaledNotEmpty | src/xfce-bg.c:1547-1552 | the exact sizes for which scaling to fit leaves an image |
| Placement.ScaledAway | src/xfce-bg.c:1549-1552 | a size for which it does not |
| Placement.CropInside | src/xfce-bg.c:1555-1588 | the zoomed image covers the screen and the cropped window lies inside it |
| Placement.ClipInside | src/xfce-bg.c:824-854 | the clipped area lies inside the source |
| Placement.PlacedInside | src/xfce-bg.c:856-896 | in every mode the image and its offset lie within the destination, margins equal up to one pixel |
| Placement.ModeMeans | src/xfce-bg.c:856-891 | what each mode makes of the picture: covers, fits and keeps its shape, or shows all it can at its own scale |
| Placement.CropCentred | src/xfce-bg.c:1555-1588 | a zoomed picture keeps its shape and is cropped in the middle |
| Tiling.Blend | src/xfce-bg.c:1660-1701 | for all arguments, negative ones included, which destination pixels are painted, once each, and with which source pixel |
| Tiling.ClippedInDestination | src/xfce-bg.c:1680-1693 | the clipped rectangle lies in the destination, and is the part of the moved one that does if and only if the place is not negative or it reaches the far edge |
| Tiling.ClippedInSource | src/xfce-bg.c:1671-1693 | its source pixels lie in the source if and only if the place is not negative or the source has that much more |
| Tiling.TileRow | src/xfce-bg.c:1715-1717 | a row of tiles |
| Tiling.Tile | src/xfce-bg.c:1703-1719 | every destination pixel is painted exactly once, with the tile's pixel at its coordinates modulo the tile's size |
| PamConversation.CallbacksInOrder | src/gs-auth-pam.c:261-324 | callbacks run once each, in order, none after a refusal |
| PamConversation.ReadsAfterCallback | src/gs-auth-pam.c:206-240 | the result is read only after its callback, and no callback writes to a record that is gone |
| PamConversation.Outcome | src/gs-auth-pam.c:242-329 | success means all n answered; refusal at k means callbacks and frees 0 to k once each and a NULL array |
| PamConversation.NeverStuck | src/gs-auth-pam.c:174-240 | no deadlock and no lost wake-up |
| PamConversation.AlwaysEnds | src/gs-auth-pam.c:174-329 | every effective step brings the end nearer |
| PamConversation.SpuriousWakeUpBreaks | src/gs-auth-pam.c:229-233 | a wake-up before the callback began fails the conversation and leaves the callback a dead record |
| PamConversation.HarmlessExactly | src/gs-auth-pam.c:229-233 | no callback ever writes to a dead record, from any point of the run on, if and only if every spurious wake-up came after its callback began |
| PamConversation.HarmReached | src/gs-auth-pam.c:206-240 | for every message some run reaches a wait at which one does harm |
| PamConversation.Converse | src/gs-auth-pam.c:253-328 | the reply array on success and on refusal |
| Popsquares.WholeDegrees | savers/gste-popsquares.c:174-174 | truncation to whole degrees keeps the sextant |
| Popsquares.HueDescribes | savers/gste-popsquares.c:121-177 | without the truncation the conversion would be inverted exactly |
| Popsquares.RoundTrip | savers/gste-popsquares.c:56-177 | RGB to HSV to RGB restores the largest and smallest component exactly and the third to a sixtieth of their difference |
| Popsquares.RoundTripLoses | savers/gste-popsquares.c:174-174 | for every share below a sixtieth some colour loses more |
| Popsquares.FullColours | savers/gste-popsquares.c:56-119 | the six full colours by their hue |
| Popsquares.ClampNearest | savers/gste-popsquares.c:66-79 | saturation and value are moved to the nearest in range |
| Popsquares.Extremes | savers/gste-popsquares.c:56-119 | the largest component is the value, the smallest what the saturation leaves of it |
| Popsquares.NegativeHue | savers/gste-popsquares.c:81-88 | for a negative hue the colour is in range if and only if it is a multiple of 60 |
| Popsquares.ComputedFits | savers/gste-popsquares.c:194-200 | when the computed colours fit into the array |
| Popsquares.RampGoes | savers/gste-popsquares.c:197-211 | the ramp starts at its first colour, and the i-th has gone i of m parts of the way |
| Popsquares.MakeColorRamp | savers/gste-popsquares.c:179-226 | the ramp, and its mirror symmetry when closed |

## Left out

- SessionProcesses.Kernel.Wait: does not model when the child exits, only that it is waited for once.
- SessionWindows.GSWindow.DialogFinish: does not model the on-screen keyboard's child, which has no effect on
  the dialog.
- SessionWindows.GSManager.RequestUnlock: find_window_at_pointer is an input; on Wayland the program falls back
  to the last window its iterator saw, which the input covers.
- SessionRuns.EveryCauseExplained: says which event of the run was the reason, not that it belongs to the
  session it ends; WaitingInSession and LockedSessionEnds say when it does.
- SessionOutcomes.OnlyTheseEndASession: the same; LockedSessionEnds has the exact condition.
- SessionOutcomes.ActivationHoldsALock: takes the roundtrips of window_realized to deliver no finished event;
  RealizeExactly says what becomes of the lock and its surfaces if one does, and the rest of the session is
  not followed from there.
- The wait for a stopped saver is counted and the model goes on; the program would be blocked until somebody
  else continues that child.
- Events other than those of the session lock being dispatched inside a handler's roundtrip.
- X11 grabs beyond success or failure, focus, event filters and the MIT-SCREEN-SAVER listener.
- GTK widgets, sockets and plugs, drawing, status messages and information bars.
- D-Bus marshalling, replies, logind and ConsoleKit, GetActiveTime, and Quit's process exit.
- The order in which hash tables are iterated: the loops are proved for any order.
- Finalisers, except that jobs are stopped before they are released.
- The slideshow widget being resized or shown again during a fade; rounding in cairo.
- Reference counts and caches of the background object, and mktime.
- Text converted from the locale, and the two verbose messages, in the PAM conversation.
- Other authentication back ends, themes, preferences dialogs and the configurator.
- Nothing was executed.
