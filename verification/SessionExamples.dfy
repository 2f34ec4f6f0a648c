/**
 Runs in which the session does what one would not expect: each shows that a condition stated elsewhere
 is met by runs the program has.
 */
module SessionExamples {
  import opened Basics
  import opened SessionModel
  import opened SessionInvariant
  import opened SessionSteps
  import opened SessionRuns
  import opened SessionOutcomes
  import opened SessionUnlock
  import opened SessionStuckDialog
  import opened SessionLockLoss

  /** Locking is allowed but does not come with the saver; one saver theme. */
  const PREFS := Prefs(true, false, 0, false, false)

  /** Every saver starts, the pointer is on monitor 7, the grab succeeds and the dialog can be started. */
  const INPUT := Input(PREFS, map[0 := true], 7, true, [], true, true, false)

  const NO_ALARMS := Alarms(map[], false, 0, 0)
  const NO_LOCK := Locker(None, false, {}, 0, {}, [])

  /** A session on X11 with one monitor. */
  function Session(m: Manager, d: Dbus): State {
    State(X11, [7], m, d, NO_ALARMS, NO_LOCK)
  }

  function Off(next: WinId, idles: seq<Cause>): Manager {
    Manager(false, false, false, false, false, false, 0, map[], map[], map[], next, idles, [], [])
  }

  function On(lock: bool, dialog: bool, throttled: bool, id: WinId, w: Win, j: Job, idles: seq<Cause>,
              auth: seq<Auth>): Manager {
    Manager(true, lock, dialog, throttled, false, false, 1,
            map[7 := id], map[id := w], map[id := j], id + 1, idles, auth, [])
  }

  function Shows(lock: bool): Win {
    NewWin(lock).(visible := true)
  }

  function Bus(on: bool, sent: seq<bool>): Dbus {
    Dbus(on, false, map[], map[], sent)
  }

  function Calls(e: Event): Occurrence {
    Occurrence(e, INPUT)
  }

  // ---------- single steps ----------

  lemma StagesOne(s: State, next: WinId, idles: seq<Cause>, d: Dbus, lock: bool)
    requires s == Session(Off(next, idles).(lockActive := lock), d)
    ensures CreateWindows(Entered(s, INPUT), [7], PREFS)
         == Session(On(lock, false, false, next, NewWin(lock), NEW_JOB, idles, []).(active := false, jobs := map[]), d)
  {
    var s1 := Entered(s, INPUT);
    assert [7][..0] == [];
    assert CreateWindows(s1, [], PREFS) == s1;
    assert CreateWindows(s1, [7], PREFS) == CreateWindow(s1, 7, PREFS);
  }

  lemma ShowsOne(next: WinId, idles: seq<Cause>, d: Dbus, lock: bool)
    ensures var m := On(lock, false, false, next, NewWin(lock), NEW_JOB, idles, []).(active := false, jobs := map[]);
            Shown(Session(m, d), PREFS) == Session(On(lock, false, false, next, Shows(lock), NEW_JOB, idles, []), d)
  {
    var t := map[7 := next];
    assert t.Values == {next} by {
      assert t[7] == next;
    }
    assert ShowAll(map[next := NewWin(lock)], {next}) == map[next := Shows(lock)];
    assert AddJobs(map[], {next}) == map[next := NEW_JOB];
  }

  lemma Activates(next: WinId, idles: seq<Cause>, sent: seq<bool>, lock: bool)
    ensures DbusActivate(Session(Off(next, idles).(lockActive := lock), Bus(false, sent)), true, INPUT)
         == Session(On(lock, false, false, next, Shows(lock), NEW_JOB, idles, []), Bus(true, sent + [true]))
  {
    var s := Session(Off(next, idles).(lockActive := lock), Bus(false, sent));
    StagesOne(s, next, idles, Bus(false, sent), lock);
    ShowsOne(next, idles, Bus(false, sent), lock);
    BecomeActiveForm(s, INPUT);
  }

  lemma LocksInactive(m: Manager)
    requires m.table == map[] && m.win == map[]
    ensures EnableLocker(m, true) == m.(lockActive := true)
  {
  }

  lemma LocksOne(throttled: bool, id: WinId, w: Win, j: Job, idles: seq<Cause>)
    ensures EnableLocker(On(false, false, throttled, id, w, j, idles, []), true)
         == On(true, false, throttled, id, w.(lockActive := true), j, idles, [])
  {
    var t := map[7 := id];
    assert t.Values == {id} by {
      assert t[7] == id;
    }
    assert LockAll(map[id := w], {id}, true) == map[id := w.(lockActive := true)];
  }

  lemma SwitchesOff(lock: bool, id: WinId, w: Win, j: Job, idles: seq<Cause>, sent: seq<bool>)
    requires !w.dialogUp
    ensures SessionModel.DeactivateManager(Session(On(lock, false, false, id, w, j, idles, []), Bus(true, sent)))
         == Session(Off(id + 1, idles), Bus(false, sent + [false]))
  {
    assert LockAll(map[], {}, false) == map[];
  }

  lemma Hop(s0: State, run: seq<Occurrence>, o: Occurrence, s: State, t: State)
    requires Run(s0, run) == s && Step(s, o.e, o.i) == t
    ensures Run(s0, run + [o]) == t
  {
    RunOneMore(s0, run, o);
  }

  /** The session after the first SetActive(true). */
  function Begun(lock: bool, w: Win, j: Job, idles: seq<Cause>, auth: seq<Auth>): State {
    Session(On(lock, false, false, 0, w, j, idles, auth), Bus(true, [true]))
  }

  const BEGIN := Calls(SetActive(true))

  lemma SessionBegins()
    ensures Run(Start(X11, [7]), [BEGIN]) == Begun(false, Shows(false), NEW_JOB, [], [])
  {
    OneStep(Start(X11, [7]), BEGIN);
    Activates(0, [], [], false);
    assert [] + [true] == [true];
  }

  lemma LocksBegun(w: Win, idles: seq<Cause>)
    ensures Step(Begun(false, w, NEW_JOB, idles, []), LockCall, INPUT)
         == Begun(true, w.(lockActive := true), NEW_JOB, idles, [])
  {
    LocksOne(false, 0, w, NEW_JOB, idles);
  }

  // ---------- a request made before the lock ends the locked session ----------

  const ASKED := OpenRequest(0, false)

  lemma AsksOpenly()
    ensures Step(Begun(false, Shows(false), NEW_JOB, [], []), SimulateActivity, INPUT)
         == Begun(false, Shows(false).(deactIdle := Some(ASKED)), NEW_JOB, [], [])
  {
  }

  lemma Emits(lock: bool)
    ensures Step(Begun(lock, Shows(lock).(deactIdle := Some(ASKED)), NEW_JOB, [], []), DeactivatedIdle(0), INPUT)
         == Begun(lock, Shows(lock), NEW_JOB, [ASKED], [])
  {
    DeactivatedStepForm(Begun(lock, Shows(lock).(deactIdle := Some(ASKED)), NEW_JOB, [], []), 0, INPUT);
  }

  const ASKING := Shows(false).(deactIdle := Some(ASKED))
  const ASKED_OPENLY := [BEGIN] + [Calls(SimulateActivity)]

  lemma AskedOpenly()
    ensures Run(Start(X11, [7]), ASKED_OPENLY) == Begun(false, ASKING, NEW_JOB, [], [])
  {
    SessionBegins();
    AsksOpenly();
    Hop(Start(X11, [7]), [BEGIN], Calls(SimulateActivity), Begun(false, Shows(false), NEW_JOB, [], []),
        Begun(false, ASKING, NEW_JOB, [], []));
  }

  /** The user moves before the session is locked; the lock comes before the idle source does. */
  const ASKED_BEFORE_LOCK := ASKED_OPENLY + [Calls(LockCall)] + [Calls(DeactivatedIdle(0))]

  lemma AskedBeforeLock()
    ensures Run(Start(X11, [7]), ASKED_BEFORE_LOCK) == Begun(true, Shows(true), NEW_JOB, [ASKED], [])
  {
    var s0 := Start(X11, [7]);
    AskedOpenly();
    LocksBegun(ASKING, []);
    Hop(s0, ASKED_OPENLY, Calls(LockCall), Begun(false, ASKING, NEW_JOB, [], []),
        Begun(true, ASKING.(lockActive := true), NEW_JOB, [], []));
    Emits(true);
    Hop(s0, ASKED_OPENLY + [Calls(LockCall)], Calls(DeactivatedIdle(0)),
        Begun(true, ASKING.(lockActive := true), NEW_JOB, [], []), Begun(true, Shows(true), NEW_JOB, [ASKED], []));
  }

  /** The same, but the idle source comes first, and the session it was meant for ends before it has run. */
  const QUEUED_OPENLY := ASKED_OPENLY + [Calls(DeactivatedIdle(0))]
  const ASKED_LAST_SESSION := QUEUED_OPENLY + [Calls(SetActive(false))] + [Calls(LockCall)]

  const SECOND_SESSION :=
    Session(On(true, false, false, 1, Shows(true), NEW_JOB, [ASKED], []), Bus(true, [true, false, false, true]))

  lemma EndsAndLocks()
    ensures Step(Begun(false, Shows(false), NEW_JOB, [ASKED], []), SetActive(false), INPUT)
         == Session(Off(1, [ASKED]), Bus(false, [true, false, false]))
    ensures Step(Session(Off(1, [ASKED]), Bus(false, [true, false, false])), LockCall, INPUT) == SECOND_SESSION
  {
    SwitchesOff(false, 0, Shows(false), NEW_JOB, [ASKED], [true]);
    assert [true] + [false] + [false] == [true, false, false];
    LocksInactive(Off(1, [ASKED]));
    Activates(1, [ASKED], [true, false, false], true);
    assert [true, false, false] + [true] == [true, false, false, true];
  }

  lemma QueuedOpenly()
    ensures Run(Start(X11, [7]), QUEUED_OPENLY) == Begun(false, Shows(false), NEW_JOB, [ASKED], [])
  {
    AskedOpenly();
    Emits(false);
    Hop(Start(X11, [7]), ASKED_OPENLY, Calls(DeactivatedIdle(0)), Begun(false, ASKING, NEW_JOB, [], []),
        Begun(false, Shows(false), NEW_JOB, [ASKED], []));
  }

  lemma AskedLastSession()
    ensures Run(Start(X11, [7]), ASKED_LAST_SESSION) == SECOND_SESSION
  {
    var s0 := Start(X11, [7]);
    var between := Session(Off(1, [ASKED]), Bus(false, [true, false, false]));
    QueuedOpenly();
    EndsAndLocks();
    Hop(s0, QUEUED_OPENLY, Calls(SetActive(false)), Begun(false, Shows(false), NEW_JOB, [ASKED], []), between);
    Hop(s0, QUEUED_OPENLY + [Calls(SetActive(false))], Calls(LockCall), between, SECOND_SESSION);
  }

  /** The run has no dialog output in it and leads to a locked session, which the next idle source ends. */
  predicate EndsUnanswered(run: seq<Occurrence>) {
    && (forall n :: 0 <= n < |run| ==> !run[n].e.DialogOutput?)
    && IsLocked(Run(Start(X11, [7]), run)) && !Step(Run(Start(X11, [7]), run), ManagerIdle, INPUT).m.active
  }

  /** A window ends a locked session without an answer: the request came before the lock flag went up. */
  lemma RequestBeforeLockEndsSession()
    ensures EndsUnanswered(ASKED_BEFORE_LOCK)
  {
    AskedBeforeLock();
    Unanswered(ASKED_BEFORE_LOCK, Begun(true, Shows(true), NEW_JOB, [ASKED], []));
  }

  /** And again: the request was made in the session before. */
  lemma RequestLastSessionEndsSession()
    ensures EndsUnanswered(ASKED_LAST_SESSION)
  {
    AskedLastSession();
    Unanswered(ASKED_LAST_SESSION, SECOND_SESSION);
  }

  lemma Unanswered(run: seq<Occurrence>, s: State)
    requires Run(Start(X11, [7]), run) == s && IsLocked(s) && s.m.idles != []
    requires forall n :: 0 <= n < |run| ==> !run[n].e.DialogOutput?
    ensures EndsUnanswered(run)
  {
    EndsQueued(s);
  }

  lemma EndsQueued(s: State)
    requires s.m.idles != []
    ensures !Step(s, ManagerIdle, INPUT).m.active
  {
  }

  // ---------- two broadcasts, and a lock flag without a session ----------

  lemma TwoBroadcasts()
    ensures Run(Start(X11, [7]), [BEGIN]).d.sent == [true]
    ensures Run(Start(X11, [7]), [BEGIN, Calls(SetActive(false))]).d.sent == [true, false, false]
  {
    var s := Begun(false, Shows(false), NEW_JOB, [], []);
    SessionBegins();
    SwitchesOff(false, 0, Shows(false), NEW_JOB, [], [true]);
    assert [true] + [false] + [false] == [true, false, false];
    Hop(Start(X11, [7]), [BEGIN], Calls(SetActive(false)), s, Step(s, SetActive(false), INPUT));
    assert [BEGIN] + [Calls(SetActive(false))] == [BEGIN, Calls(SetActive(false))];
  }

  /** The root window cannot be grabbed. */
  lemma FlagWithoutSession()
    ensures var s := Run(Start(X11, [7]), [Occurrence(LockCall, INPUT.(grabOk := false))]);
            s.m.lockActive && !s.m.active
  {
    OneStep(Start(X11, [7]), Occurrence(LockCall, INPUT.(grabOk := false)));
    LocksInactive(Start(X11, [7]).m);
  }

  // ---------- a saver that stays stopped, and a dialog that cannot be started ----------

  function Dialog(alive: bool, idle: bool): Win {
    Shows(true).(dialogUp := true, popupIdle := idle, dialogAlive := alive, dialogWatch := alive)
  }

  function Raising(j: Job, w: Win): State {
    Session(On(true, true, false, 0, w, j, [], [Begin]), Bus(true, [true]))
  }

  lemma SessionLocks()
    ensures Run(Start(X11, [7]), [BEGIN, Calls(LockCall)]) == Begun(true, Shows(true), NEW_JOB, [], [])
  {
    SessionBegins();
    LocksBegun(Shows(false), []);
    Hop(Start(X11, [7]), [BEGIN], Calls(LockCall), Begun(false, Shows(false), NEW_JOB, [], []),
        Begun(true, Shows(true), NEW_JOB, [], []));
    assert [BEGIN] + [Calls(LockCall)] == [BEGIN, Calls(LockCall)];
  }

  const RUNNING := Job(true, Running, true)
  const SUSPENDED := Job(true, Stopped, true)

  lemma MapsAndStarts()
    ensures Step(Begun(true, Shows(true), NEW_JOB, [], []), Mapped(0), INPUT)
         == Begun(true, Shows(true), RUNNING, [], [])
  {
    MappedStepForm(Begun(true, Shows(true), NEW_JOB, [], []), 0, INPUT);
  }

  lemma RaisesOne(j: Job)
    ensures RequestUnlock(On(true, false, false, 0, Shows(true), j, [], []), 7)
         == On(true, true, false, 0, Dialog(false, true), SuspendJob(j, true), [], [Begin])
  {
    var m := On(true, false, false, 0, Shows(true), j, [], []);
    assert m.table.Values == {0} by {
      assert m.table[7] == 0;
    }
    RaisedForm(m, 0);
    assert Desensitize(map[0 := Dialog(false, true)], {}) == map[0 := Dialog(false, true)];
    assert map[0 := Shows(true)][0 := Dialog(false, true)] == map[0 := Dialog(false, true)];
    assert SuspendAll(map[0 := j]) == map[0 := SuspendJob(j, true)];
  }

  lemma Raises(j: Job)
    ensures Step(Begun(true, Shows(true), j, [], []), SimulateActivity, INPUT)
         == Raising(SuspendJob(j, true), Dialog(false, true))
  {
    RaisesOne(j);
  }

  const SAVER_STARTS := [BEGIN, Calls(LockCall)] + [Calls(Mapped(0))]
  const DIALOG_COMES := SAVER_STARTS + [Calls(SimulateActivity)]

  lemma SaverStarts()
    ensures Run(Start(X11, [7]), SAVER_STARTS) == Begun(true, Shows(true), RUNNING, [], [])
  {
    SessionLocks();
    MapsAndStarts();
    Hop(Start(X11, [7]), [BEGIN, Calls(LockCall)], Calls(Mapped(0)), Begun(true, Shows(true), NEW_JOB, [], []),
        Begun(true, Shows(true), RUNNING, [], []));
  }

  lemma DialogComes()
    ensures Run(Start(X11, [7]), DIALOG_COMES) == Raising(SUSPENDED, Dialog(false, true))
  {
    SaverStarts();
    Raises(RUNNING);
    Hop(Start(X11, [7]), SAVER_STARTS, Calls(SimulateActivity), Begun(true, Shows(true), RUNNING, [], []),
        Raising(SUSPENDED, Dialog(false, true)));
  }

  /** The saver is suspended while the dialog is up; if its stderr ends now the program waits for it. */
  lemma WaitForStoppedReached()
    ensures WaitsForStopped(Run(Start(X11, [7]), DIALOG_COMES).m, JobOutputEnds(0))
  {
    DialogComes();
  }

  /** The dialog that was asked for cannot be started. */
  lemma StuckReached()
    ensures Stuck(Run(Start(X11, [7]), DIALOG_COMES + [Occurrence(PopupIdle(0), INPUT.(dialogStarts := false))]).m)
  {
    var o := Occurrence(PopupIdle(0), INPUT.(dialogStarts := false));
    var s := Raising(SUSPENDED, Dialog(false, true));
    DialogComes();
    PopupStepForm(s, 0, o.i);
    Hop(Start(X11, [7]), DIALOG_COMES, o, s, Raising(SUSPENDED, Dialog(false, false)));
  }

  // the throttle comes while the dialog is up, and goes after it

  const THROTTLING := Dbus(true, true, map[], map[1 := None], [true])

  function Throttled(dialog: bool, w: Win, auth: seq<Auth>): State {
    Session(On(true, dialog, true, 0, w, SUSPENDED, [], auth), THROTTLING)
  }

  lemma ThrottleComes()
    ensures Step(Raising(SUSPENDED, Dialog(false, true)), Throttle(1, None), INPUT)
         == Throttled(true, Dialog(false, true), [Begin])
  {
  }

  lemma DialogStarts()
    ensures Step(Throttled(true, Dialog(false, true), [Begin]), PopupIdle(0), INPUT)
         == Throttled(true, Dialog(true, false), [Begin])
  {
    PopupStepForm(Throttled(true, Dialog(false, true), [Begin]), 0, INPUT);
  }

  lemma PopsDownOne()
    ensures PopdownDialog(On(true, true, true, 0, Dialog(true, false), SUSPENDED, [], [Begin]), 0, INPUT.starts)
         == On(true, false, true, 0, Shows(true), SUSPENDED, [], [Begin, End])
  {
    var m := On(true, true, true, 0, Dialog(true, false), SUSPENDED, [], [Begin]);
    assert m.table.Values == {0} by {
      assert m.table[7] == 0;
    }
    LoweredForm(m, 0, INPUT.starts);
    assert [Begin] + [End] == [Begin, End];
    assert Fallen(m.win, 0) == map[0 := Shows(true).(dialogWatch := true)];
  }

  lemma DialogGoes()
    ensures Step(Throttled(true, Dialog(true, false), [Begin]), DialogOutput(0, Eof), INPUT)
         == Throttled(false, Shows(true), [Begin, End])
  {
    DialogStepForm(Throttled(true, Dialog(true, false), [Begin]), 0, Eof, INPUT);
    PopsDownOne();
  }

  /** Active, no dialog, no throttle, and the saver is stopped. */
  const LEFT_STOPPED :=
    Session(On(true, false, false, 0, Shows(true), SUSPENDED, [], [Begin, End]), Bus(true, [true]))

  lemma ThrottleGoes()
    ensures Step(Throttled(false, Shows(true), [Begin, End]), UnThrottle(1), INPUT) == LEFT_STOPPED
  {
    assert StartAll(map[0 := Shows(true)], map[0 := SUSPENDED], INPUT.starts) == map[0 := SUSPENDED];
    assert THROTTLING.throttlers - {1} == map[];
  }

  const THROTTLED_RUN := THROTTLE_COMES + [Calls(PopupIdle(0))] + [Calls(DialogOutput(0, Eof))]

  const THROTTLE_COMES := DIALOG_COMES + [Calls(Throttle(1, None))]

  lemma ThrottleCameUp()
    ensures Run(Start(X11, [7]), THROTTLE_COMES) == Throttled(true, Dialog(false, true), [Begin])
  {
    DialogComes();
    ThrottleComes();
    Hop(Start(X11, [7]), DIALOG_COMES, Calls(Throttle(1, None)), Raising(SUSPENDED, Dialog(false, true)),
        Throttled(true, Dialog(false, true), [Begin]));
  }

  lemma DialogCameAndWent(run: seq<Occurrence>)
    requires Run(Start(X11, [7]), run) == Throttled(true, Dialog(false, true), [Begin])
    ensures Run(Start(X11, [7]), run + [Calls(PopupIdle(0))] + [Calls(DialogOutput(0, Eof))])
         == Throttled(false, Shows(true), [Begin, End])
  {
    var s0 := Start(X11, [7]);
    DialogStarts();
    DialogGoes();
    Hop(s0, run, Calls(PopupIdle(0)),
        Throttled(true, Dialog(false, true), [Begin]), Throttled(true, Dialog(true, false), [Begin]));
    Hop(s0, run + [Calls(PopupIdle(0))], Calls(DialogOutput(0, Eof)),
        Throttled(true, Dialog(true, false), [Begin]), Throttled(false, Shows(true), [Begin, End]));
  }

  lemma ThrottledRun()
    ensures Run(Start(X11, [7]), THROTTLED_RUN) == Throttled(false, Shows(true), [Begin, End])
  {
    ThrottleCameUp();
    DialogCameAndWent(THROTTLE_COMES);
  }

  /** After the throttle ended the saver is stopped in an active session without dialog or throttle. */
  lemma StoppedAfterUnthrottle()
    ensures Run(Start(X11, [7]), THROTTLED_RUN + [Calls(UnThrottle(1))]) == LEFT_STOPPED
    ensures Suspended(LEFT_STOPPED.m.jobs[0]) && !LEFT_STOPPED.m.throttled && !LEFT_STOPPED.m.dialogUp
  {
    ThrottledRun();
    ThrottleGoes();
    Hop(Start(X11, [7]), THROTTLED_RUN, Calls(UnThrottle(1)), Throttled(false, Shows(true), [Begin, End]),
        LEFT_STOPPED);
  }

  // ---------- an active Wayland session without its lock ----------

  const WAYLAND := Wayland(false, true, true)

  lemma WaylandBegins()
    ensures var s := Step(Start(WAYLAND, [7]), SetActive(true), INPUT);
            s.m.active && s.k.cur.Some? && Inv(s)
  {
    var s0 := Start(WAYLAND, [7]);
    StartOk(WAYLAND, [7]);
    ActivateKeeps(s0, INPUT);
    assert LockSaysAll(s0.k.(cur := Some(0), next := 1), []).cur.Some?;
    StepKeeps(s0, SetActive(true), INPUT);
    ActivationHoldsALock(s0, SetActive(true), INPUT);
  }

  lemma LockLostReached()
    ensures var s := Run(Start(WAYLAND, [7]), [BEGIN, Calls(SessionLock(Finished))]);
            s.m.active && s.k.cur.None?
  {
    var s0 := Start(WAYLAND, [7]);
    var s1 := Step(s0, SetActive(true), INPUT);
    WaylandBegins();
    OneStep(s0, BEGIN);
    FinishedLeavesSessionActive(s1, INPUT);
    Hop(s0, [BEGIN], Calls(SessionLock(Finished)), s1, Step(s1, SessionLock(Finished), INPUT));
    assert [BEGIN] + [Calls(SessionLock(Finished))] == [BEGIN, Calls(SessionLock(Finished))];
  }
}
