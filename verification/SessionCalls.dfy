/**
 What calls, alarms and timers do: locking, activating, inhibiting, throttling, time-outs.
 */
module SessionCalls {
  import opened Basics
  import opened SessionModel
  import opened SessionInvariant
  import opened SessionSteps
  import opened SessionRuns
  import opened SessionOutcomes
  import opened SessionLockLoss

  // ---------- locking ----------

  /** The lock flag is up, for the manager and for every window. */
  ghost predicate LockedThroughout(m: Manager) {
    m.lockActive && forall w :: w in m.win ==> m.win[w].lockActive
  }

  /** Raising the flag reaches every window and leaves everything else. */
  lemma LockerRaises(m: Manager)
    requires ManagerOk(m)
    ensures var m1 := EnableLocker(m, true);
            && LockedThroughout(m1) && m1 == m.(lockActive := true, win := m1.win) && m1.win.Keys == m.win.Keys
            && forall w :: w in m.win ==> m1.win[w] == m.win[w].(lockActive := true)
  {
  }

  /** The lock timer locks and is spent. */
  lemma LockTimerLocks(s: State, i: Input)
    requires Inv(s) && s.m.lockTimer
    ensures var s1 := Step(s, LockTimeout, i);
            && LockedThroughout(s1.m) && !s1.m.lockTimer && s1.m.active == s.m.active && s1.m.win.Keys == s.m.win.Keys
  {
    TimerStepForm(s, LockTimeout, i);
    LockerRaises(s.m);
  }

  /** A lock call or signal in an active session locks it and does nothing else. */
  lemma LockCallLocks(s: State, i: Input)
    requires Inv(s) && s.m.active
    ensures i.p.lockEnabled ==> DbusLock(s, i) == s.(m := EnableLocker(s.m, true))
    ensures !i.p.lockEnabled ==> DbusLock(s, i) == s
  {
    LockerRaises(s.m);
  }

  /** The expired lock alarm of the Wayland listener locks the active session, unless an inhibitor or the
      preferences forbid it, and is removed in any case. */
  lemma LockAlarmLocks(s: State, i: Input)
    requires Inv(s) && s.m.active && LockLater in s.a.armed
    ensures var s1 := Step(s, Idled(LockLater), i);
            && s1.a == s.a.(armed := s.a.armed - {LockLater}) && s1.m.active
            && (i.p.lockEnabled && s.d.inhibitors == map[] ==> LockedThroughout(s1.m) && s1.m.win.Keys == s.m.win.Keys)
            && (!i.p.lockEnabled || s.d.inhibitors != map[] ==> s1 == s.(a := s1.a))
  {
    IdledStepForm(s, LockLater, i);
    LockCallLocks(s, i);
    LockerRaises(s.m);
  }

  // ---------- activation ----------

  lemma FinishedLoses(k: Locker, evs: seq<LockEvent>)
    requires k.cur.None?
    ensures TakeLock(k, evs).cur.Some? <==> Finished !in evs
  {
    FinishedEnds(k.(cur := Some(k.next), next := k.next + 1), evs);
  }

  /** What it takes to begin a session: on X11 the grab, on Wayland the two protocols and a lock that is
      still alive after the roundtrip. */
  lemma CanActivateMeans(s: State, i: Input)
    requires Inv(s) && !s.m.active
    ensures CanActivate(s, i) <==>
              match s.backend
              case X11 => i.grabOk
              case Wayland(_, compositor, lockManager) => compositor && lockManager && Finished !in i.lockEvents
  {
    if s.backend.Wayland? {
      FinishedLoses(s.k, i.lockEvents);
    }
  }

  /** A call turns the session on exactly when that is possible, and off always. */
  lemma CallsSwitch(s: State, i: Input)
    requires Inv(s)
    ensures Step(s, SetActive(true), i).m.active <==> s.m.active || CanActivate(s, i)
    ensures !Step(s, SetActive(false), i).m.active
  {
    ActivateKeeps(s, i);
    DeactivateKeeps(s);
  }

  /** A session that begins is locked if it was to be, by a call before, by the preferences, or by the lock
      signal of the idle listener. */
  lemma BeginsLocked(s: State, i: Input)
    requires Inv(s) && !s.m.active
    ensures BecomeActive(s, i).m.lockActive <==> s.m.lockActive || LocksAtOnce(i.p) || LocksBack(s, i.p)
    ensures BecomeActive(s, i).m.throttled == s.m.throttled && BecomeActive(s, i).m.idles == s.m.idles
  {
    var s1 := Entered(s, i);
    EnteredStaged(s, i);
    CreateStaged(s1, s.monitors, i.p);
    ShownFlags(CreateWindows(s1, s.monitors, i.p), i.p);
    BecomeActiveForm(s, i);
    AnsweredLock(Shown(CreateWindows(s1, s.monitors, i.p), i.p), i.p);
  }

  lemma ShownFlags(s: State, p: Prefs)
    requires Staged(s.m) && (LocksAtOnce(p) ==> s.m.lockActive)
    ensures var s1 := Shown(s, p);
            && s1.m.lockActive == s.m.lockActive && s1.m.throttled == s.m.throttled && s1.m.idles == s.m.idles
            && s1.backend == s.backend && s1.a == s.a && s1.d == s.d
            && (s.m.table != map[] ==>
                  && s1.m.lockTimer == (p.lockEnabled && p.lockWithSaver && !s.m.lockActive)
                  && s1.m.cycleTimer == (s.m.cycleTimer || p.random))
            && (s.m.table == map[] ==> s1.m.lockTimer == s.m.lockTimer && s1.m.cycleTimer == s.m.cycleTimer)
  {
    NoValues(s.m.table);
  }

  lemma NoValues(t: map<Mon, WinId>)
    ensures t.Values == {} <==> t == map[]
  {
    if x :| x in t {
      assert t[x] in t.Values;
    }
  }

  lemma AnsweredLock(s: State, p: Prefs)
    ensures AfterActivated(s, p).m.lockActive <==> s.m.lockActive || LocksBack(s, p)
    ensures AfterActivated(s, p).m.throttled == s.m.throttled && AfterActivated(s, p).m.idles == s.m.idles
    ensures AfterActivated(s, p).m.lockTimer == s.m.lockTimer && AfterActivated(s, p).m.cycleTimer == s.m.cycleTimer
  {
  }

  /** Its timers: the lock timer exactly if it is to be locked later, the cycle timer exactly with several
      themes.  Without a monitor no window is shown and none is set. */
  lemma BeginsTimed(s: State, i: Input)
    requires Inv(s) && !s.m.active
    ensures var m1 := BecomeActive(s, i).m;
            && (m1.lockTimer <==> s.monitors != [] && i.p.lockEnabled && i.p.lockWithSaver && i.p.lockTimeout > 0
                                  && !s.m.lockActive)
            && (m1.cycleTimer <==> s.monitors != [] && i.p.random)
  {
    var s1 := Entered(s, i);
    var s2 := CreateWindows(s1, s.monitors, i.p);
    EnteredStaged(s, i);
    CreateStaged(s1, s.monitors, i.p);
    ShownFlags(s2, i.p);
    BecomeActiveForm(s, i);
    AnsweredLock(Shown(s2, i.p), i.p);
    if s.monitors != [] {
      assert s.monitors[0] in s2.m.table.Keys;
    } else {
      assert s2.m.table.Keys == {};
    }
  }

  /** Its alarms: the lock alarm is armed with the time-out of the preferences if locking is to come later. */
  lemma BeginsAlarmed(s: State, i: Input)
    requires Inv(s) && !s.m.active && Listening(s.backend)
    ensures var a1 := BecomeActive(s, i).a;
            && (LockLater in a1.armed <==> i.p.lockWithSaver && s.a.lockTimeout != 0)
            && (LockLater in a1.armed ==> a1.armed[LockLater] == s.a.lockTimeout)
  {
    var s1 := Entered(s, i);
    var s2 := CreateWindows(s1, s.monitors, i.p);
    EnteredStaged(s, i);
    CreateStaged(s1, s.monitors, i.p);
    ShownFlags(s2, i.p);
    BecomeActiveForm(s, i);
    AnsweredAlarms(Shown(s2, i.p), i.p);
  }

  lemma AnsweredAlarms(s: State, p: Prefs)
    requires Listening(s.backend) && LockLater !in s.a.armed
    ensures var a1 := AfterActivated(s, p).a;
            && (LockLater in a1.armed <==> p.lockWithSaver && s.a.lockTimeout != 0)
            && (LockLater in a1.armed ==> a1.armed[LockLater] == s.a.lockTimeout)
  {
  }

  /** Its windows are on screen, uncovered, take input, and show no dialog; no saver runs yet. */
  lemma BeginsFresh(s: State, i: Input, w: WinId)
    requires Inv(s) && !s.m.active && w in BecomeActive(s, i).m.win
    ensures var m1 := BecomeActive(s, i).m;
            && m1.win[w] == Win(m1.lockActive, false, true, true, false, false, false, false, false, None)
            && w in m1.jobs && m1.jobs[w] == Job(false, Invalid, false)
  {
    var s1 := Entered(s, i);
    var s2 := CreateWindows(s1, s.monitors, i.p);
    EnteredStaged(s, i);
    CreateStaged(s1, s.monitors, i.p);
    ShownFresh(s2, i.p);
    BecomeActiveForm(s, i);
    AnsweredFresh(Shown(s2, i.p), i.p, w);
  }

  ghost predicate Fresh(m: Manager) {
    && m.win.Keys == m.table.Values == m.jobs.Keys
    && forall w :: w in m.win ==>
         && m.win[w] == Win(m.lockActive, false, true, true, false, false, false, false, false, None)
         && m.jobs[w] == Job(false, Invalid, false)
  }

  lemma ShownFresh(s: State, p: Prefs)
    requires Staged(s.m) && (LocksAtOnce(p) ==> s.m.lockActive)
    ensures Fresh(Shown(s, p).m)
  {
    assert s.m.table.Values == {} ==> s.m.win == map[];
  }

  lemma AnsweredFresh(s: State, p: Prefs, w: WinId)
    requires Fresh(s.m)
    ensures Fresh(AfterActivated(s, p).m) && AfterActivated(s, p).m.win.Keys == s.m.win.Keys
  {
  }

  /** A session that ends drops the lock flag, and keeps the throttle and what waits. */
  lemma EndsUnlocked(s: State)
    requires Inv(s) && s.m.active
    ensures var m1 := DeactivateManager(s).m;
            && !m1.lockActive && !m1.active && m1.throttled == s.m.throttled
            && m1.idles == s.m.idles && m1.ended == s.m.ended
  {
  }

  // ---------- the idle alarm ----------

  /** The idle alarm would lock, and locking is disabled. */
  predicate MeantToLock(s: State, p: Prefs) {
    p.lockWithSaver && s.a.lockTimeout == 0 && !p.lockEnabled
  }

  /** An idle session under an inhibitor stays as it is, whichever of the idle signals comes. */
  lemma InhibitedStays(s: State, e: Event, i: Input)
    requires Inv(s) && !s.m.active && s.d.inhibitors != map[]
    requires e.IdleActivate? || e.IdleLock? || e.Idled?
    ensures Step(s, e, i) == s.(a := Step(s, e, i).a)
    ensures e.IdleActivate? || e.IdleLock? || (e == Idled(Activate) && !(i.p.fullscreenInhibit && i.fullscreen)) ==>
              Step(s, e, i) == s
  {
    if e.Idled? {
      IdledStepForm(s, e.alarm, i);
    } else {
      X11StepForm(s, e, i);
    }
  }

  /** A full-screen window puts the alarm off when the preferences say so. */
  lemma FullscreenPutsOff(s: State, i: Input)
    requires Activate in s.a.armed && i.p.fullscreenInhibit && i.fullscreen
    ensures Step(s, Idled(Activate), i) == s.(a := s.a.(armed := s.a.armed[Activate := s.a.timeout]))
  {
    IdledStepForm(s, Activate, i);
  }

  /** Otherwise, and without an inhibitor, the alarm begins the session exactly if that is possible and it is
      not meant to lock where locking is disabled; in that case it does nothing at all.  The session is locked
      if the preferences say at once. */
  lemma IdleAlarmActivates(s: State, i: Input)
    requires Inv(s) && !s.m.active && Activate in s.a.armed && s.d.inhibitors == map[]
    requires !(i.p.fullscreenInhibit && i.fullscreen)
    ensures var s1 := Step(s, Idled(Activate), i);
            && (s1.m.active <==> CanActivate(s, i) && !MeantToLock(s, i.p))
            && (s1.m.active && i.p.lockWithSaver && s.a.lockTimeout == 0 ==> s1.m.lockActive)
            && (MeantToLock(s, i.p) ==> s1 == s)
  {
    IdledStepForm(s, Activate, i);
    ActivateKeeps(s, i);
    if i.p.lockWithSaver && s.a.lockTimeout == 0 && i.p.lockEnabled {
      LockCallOutcome(s, i);
    }
  }

  /** The X11 listener's two signals. */
  lemma X11Activates(s: State, i: Input)
    requires Inv(s) && !s.m.active && s.backend.X11? && s.d.inhibitors == map[]
    ensures Step(s, IdleActivate, i).m.active <==> i.grabOk
  {
    X11StepForm(s, IdleActivate, i);
    ActivateKeeps(s, i);
  }

  lemma X11Locks(s: State, i: Input)
    requires Inv(s) && !s.m.active && s.backend.X11? && s.d.inhibitors == map[]
    ensures i.p.lockEnabled ==> Step(s, IdleLock, i).m.lockActive && (Step(s, IdleLock, i).m.active <==> i.grabOk)
    ensures !i.p.lockEnabled ==> Step(s, IdleLock, i) == s
  {
    X11StepForm(s, IdleLock, i);
    if i.p.lockEnabled {
      LockCallOutcome(s, i);
      CanActivateMeans(s, i);
      LockCallIs(s, i);
    }
  }

  lemma LockCallIs(s: State, i: Input)
    ensures Step(s, LockCall, i) == DbusLock(s, i)
  {
  }

  // ---------- monitors ----------

  /** The monitors are those there are now.  An active session gets new windows, one for each, its dialog
      is gone and nobody is asked to unlock; an inactive one is left alone. */
  lemma MonitorsFollowed(s: State, now: seq<Mon>, i: Input)
    requires Inv(s) && NoDup(now)
    ensures var s1 := Step(s, Hotplug(now), i);
            && s1.monitors == now && s1.m.active == s.m.active && s1.m.idles == s.m.idles
            && (!s.m.active ==> s1 == s.(monitors := now))
            && (s.m.active ==> s1.m.table.Keys == (set x | x in now) && !s1.m.dialogUp)
  {
    HotplugStepForm(s, now, i);
    if s.m.active {
      var s1 := s.(monitors := now, m := DestroyWindows(s.m), k := RemoveSurfaces(s.k, s.m.table.Values));
      DestroyedOk(s.m);
      CreateActive(s1, now, i.p);
    }
  }

  // ---------- inhibitors and throttlers ----------

  /** Which entries a connection that closes takes along, and that all others stay. */
  lemma ConnectionGone(t: map<Cookie, Option<Conn>>, name: Conn, c: Cookie)
    ensures c in WithoutConn(t, name) <==> c in t && t[c] != Some(name)
    ensures c in WithoutConn(t, name) ==> WithoutConn(t, name)[c] == t[c]
  {
  }

  lemma ClosedConnection(s: State, name: Conn, i: Input, c: Cookie)
    ensures var d1 := Step(s, NameLost(name), i).d;
            && (c in d1.inhibitors <==> c in s.d.inhibitors && s.d.inhibitors[c] != Some(name))
            && (c in d1.throttlers <==> c in s.d.throttlers && s.d.throttlers[c] != Some(name))
            && (c in d1.inhibitors ==> d1.inhibitors[c] == s.d.inhibitors[c])
            && (c in d1.throttlers ==> d1.throttlers[c] == s.d.throttlers[c])
  {
    NameLostStepForm(s, name, i);
    ConnectionGone(s.d.inhibitors, name, c);
    ConnectionGone(s.d.throttlers, name, c);
  }

  /** A cookie is entered once and removed once; every other entry stays. */
  lemma CookiesComeAndGo(s: State, c: Cookie, conn: Option<Conn>, i: Input, x: Cookie)
    ensures var t, t1 := s.d.inhibitors, Step(s, Inhibit(c, conn), i).d.inhibitors;
            && c in t1 && t1[c] == (if c in t then t[c] else conn)
            && (x != c ==> (x in t1 <==> x in t) && (x in t ==> t1[x] == t[x]))
    ensures var t, t1 := s.d.inhibitors, Step(s, UnInhibit(c), i).d.inhibitors;
            c !in t1 && (x != c ==> (x in t1 <==> x in t) && (x in t ==> t1[x] == t[x]))
  {
    InhibitStepForm(s, c, conn, i);
    UnInhibitStepForm(s, c, i);
  }

  lemma ThrottlesComeAndGo(s: State, c: Cookie, conn: Option<Conn>, i: Input, x: Cookie)
    ensures var t, t1 := s.d.throttlers, Step(s, Throttle(c, conn), i).d.throttlers;
            && c in t1 && t1[c] == (if c in t then t[c] else conn)
            && (x != c ==> (x in t1 <==> x in t) && (x in t ==> t1[x] == t[x]))
    ensures var t, t1 := s.d.throttlers, Step(s, UnThrottle(c), i).d.throttlers;
            c !in t1 && (x != c ==> (x in t1 <==> x in t) && (x in t ==> t1[x] == t[x]))
  {
    ThrottleStepForm(s, c, conn, i);
    UnThrottleStepForm(s, c, i);
  }

  // ---------- time-outs ----------

  /** Setting the time-outs: milliseconds, at 32 bits, and the alarm of an inactive session with them. */
  lemma TimeoutsMean(s: State, on: bool, secs: nat, lockSecs: nat, i: Input)
    requires Inv(s) && Listening(s.backend)
    ensures var s1 := Step(s, SetTimeouts(on, secs, lockSecs), i);
            && s1 == s.(a := s1.a) && s1.a.enabled == on
            && (on ==> s1.a.timeout == (1000 * secs) % 0x1_0000_0000)
            && (on ==> s1.a.lockTimeout == (1000 * lockSecs) % 0x1_0000_0000)
            && (!on ==> s1.a.timeout == s.a.timeout && s1.a.lockTimeout == s.a.lockTimeout)
            && (on && !s.m.active ==> Activate in s1.a.armed && s1.a.armed[Activate] == (1000 * secs) % 0x1_0000_0000)
            && (!on ==> Activate !in s1.a.armed)
            && (LockLater in s1.a.armed <==> LockLater in s.a.armed && on && i.p.lockWithSaver)
  {
    SetTimeoutsStepForm(s, on, secs, lockSecs, i);
  }

  predicate SameSettings(a: Alarms, a1: Alarms) {
    a1.enabled == a.enabled && a1.timeout == a.timeout && a1.lockTimeout == a.lockTimeout
  }

  lemma CreateSettings(s: State, mons: seq<Mon>, p: Prefs)
    ensures CreateWindows(s, mons, p).a == s.a
  {
    if mons != [] {
      CreateSettings(s, mons[..|mons| - 1], p);
      CreateOnly(CreateWindows(s, mons[..|mons| - 1], p), mons[|mons| - 1], p);
    }
  }

  lemma BecomeSettings(s: State, i: Input)
    ensures SameSettings(s.a, BecomeActive(s, i).a)
  {
    CreateSettings(Entered(s, i), s.monitors, i.p);
    BecomeActiveForm(s, i);
  }

  lemma ActivateSettings(s: State, on: bool, i: Input)
    ensures SameSettings(s.a, DbusActivate(s, on, i).a)
  {
    BecomeSettings(s, i);
  }

  lemma CallSettings(s: State, e: Event, i: Input)
    requires CallsForSaver(e) || e.SetActive?
    ensures SameSettings(s.a, Step(s, e, i).a)
  {
    ActivateSettings(s, if e.SetActive? then e.on else true, i);
    LockSettings(s, i);
    if e.Idled? {
      IdledStepForm(s, e.alarm, i);
      AlarmSettings(s, e.alarm, i);
    } else if !e.SetActive? && !e.LockCall? {
      X11StepForm(s, e, i);
    }
  }

  lemma LockSettings(s: State, i: Input)
    ensures SameSettings(s.a, DbusLock(s, i).a)
  {
    ActivateSettings(s.(m := EnableLocker(s.m, true)), true, i);
  }

  lemma AlarmSettings(s: State, alarm: Alarm, i: Input)
    ensures SameSettings(s.a, AlarmIdled(s, alarm, i).a)
  {
    ActivateSettings(s, true, i);
    LockSettings(s, i);
  }

  lemma HotplugSettings(s: State, now: seq<Mon>, i: Input)
    ensures Step(s, Hotplug(now), i).a == s.a
  {
    HotplugStepForm(s, now, i);
    var s1 := s.(monitors := now);
    CreateSettings(s1.(m := DestroyWindows(s1.m), k := RemoveSurfaces(s1.k, s1.m.table.Values)), now, i.p);
  }

  /** Nothing else changes them. */
  lemma SettingsStay(s: State, e: Event, i: Input)
    requires !e.SetTimeouts?
    ensures SameSettings(s.a, Step(s, e, i).a)
  {
    if CallsForSaver(e) || e.SetActive? {
      CallSettings(s, e, i);
    } else if e.Hotplug? {
      HotplugSettings(s, e.now, i);
    } else if AsksUnlock(e) {
      AskedStep(s, e, i);
    } else if ChangesTables(e) {
      TablesForm(s, e, i);
    } else if e.ManagerIdle? {
      ManagerIdleStepForm(s, i);
    }
  }

  /** The last time-outs the run set; on is false before any. */
  function LastSetting(run: seq<Occurrence>): (bool, nat, nat) {
    if run == [] then (false, 0, 0)
    else if run[|run| - 1].e.SetTimeouts? then
      (run[|run| - 1].e.on, run[|run| - 1].e.secs, run[|run| - 1].e.lockSecs)
    else LastSetting(run[..|run| - 1])
  }

  lemma {:induction false} SettingsAreTheLast(b: Backend, monitors: seq<Mon>, run: seq<Occurrence>)
    requires NoDup(monitors) && Listening(b)
    ensures var a := Run(Start(b, monitors), run).a;
            var (on, secs, lockSecs) := LastSetting(run);
            && a.enabled == on
            && (on ==> a.timeout == (1000 * secs) % 0x1_0000_0000 && a.lockTimeout == (1000 * lockSecs) % 0x1_0000_0000)
  {
    if run != [] {
      var s, o := Run(Start(b, monitors), run[..|run| - 1]), run[|run| - 1];
      SettingsAreTheLast(b, monitors, run[..|run| - 1]);
      RunKeeps(b, monitors, run[..|run| - 1]);
      BackendStays(b, monitors, run[..|run| - 1]);
      if o.e.SetTimeouts? {
        TimeoutsMean(s, o.e.on, o.e.secs, o.e.lockSecs, o.i);
      } else {
        SettingsStay(s, o.e, o.i);
      }
    }
  }

  /** In every run, while the session is inactive the idle alarm is armed exactly if the last setting turned
      it on, and with the seconds it gave. */
  lemma IdleAlarmAsSet(b: Backend, monitors: seq<Mon>, run: seq<Occurrence>)
    requires NoDup(monitors) && Listening(b) && !Run(Start(b, monitors), run).m.active
    ensures var armed := Run(Start(b, monitors), run).a.armed;
            && (Activate in armed <==> LastSetting(run).0)
            && (Activate in armed ==> armed[Activate] == (1000 * LastSetting(run).1) % 0x1_0000_0000)
  {
    SettingsAreTheLast(b, monitors, run);
    RunKeeps(b, monitors, run);
    BackendStays(b, monitors, run);
  }
}
