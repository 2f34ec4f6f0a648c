/**
 Every step of the session keeps the invariant, so every run does.
 */
module SessionSteps {
  import opened Basics
  import opened SessionModel
  import opened SessionInvariant

  // ---------- kinds of events ----------

  predicate ChangesTables(e: Event) {
    e.Inhibit? || e.UnInhibit? || e.Throttle? || e.UnThrottle? || e.NameLost?
  }

  predicate AsksUnlock(e: Event) {
    e.ShowMessage? || e.SimulateActivity? || e.PasswordPrompt? || e.IdlePoke? || e.Resumed? || e.Activity?
  }

  predicate CallsForSaver(e: Event) {
    (e.SetActive? && e.on) || e.LockCall? || e.IdleActivate? || e.IdleLock? || e.Idled?
  }

  predicate MovesDialog(e: Event) {
    e.PopupIdle? || e.DeactivatedIdle? || e.DialogOutput?
  }

  predicate MovesWindow(e: Event) {
    MovesDialog(e) || e.Visibility? || e.Hotplug?
  }

  predicate Ticks(e: Event) {
    e.CycleCall? || e.SetTimeouts? || e.LockTimeout? || e.CycleTimeout? || e.JobOutputEnds? || e.Mapped?
    || e.SessionLock?
  }

  // ---------- what Step does for calls that may turn the session on or off ----------

  predicate SameButAlarms(s: State, s1: State) {
    s1 == s.(a := s1.a)
  }

  lemma AlarmForm(s: State, alarm: Alarm, i: Input)
    ensures var s1 := AlarmIdled(s, alarm, i);
            SameButAlarms(s, s1) || SameButAlarms(DbusActivate(s, true, i), s1) || SameButAlarms(DbusLock(s, i), s1)
  {
  }

  /** Such a call does nothing, or activates, or locks, the alarms aside. */
  lemma CallForm(s: State, e: Event, i: Input)
    requires CallsForSaver(e) || e.SetActive?
    ensures var s1 := Step(s, e, i);
            || SameButAlarms(s, s1) || SameButAlarms(DbusLock(s, i), s1)
            || SameButAlarms(DbusActivate(s, if e.SetActive? then e.on else true, i), s1)
  {
    if e.Idled? {
      AlarmForm(s, e.alarm, i);
    }
  }

  // ---------- what Step does for single events ----------

  lemma InhibitStepForm(s: State, c: Cookie, conn: Option<Conn>, i: Input)
    ensures Step(s, Inhibit(c, conn), i) ==
              if c in s.d.inhibitors then s else s.(d := s.d.(inhibitors := s.d.inhibitors[c := conn]))
  {
  }

  lemma UnInhibitStepForm(s: State, c: Cookie, i: Input)
    ensures Step(s, UnInhibit(c), i) == s.(d := s.d.(inhibitors := s.d.inhibitors - {c}))
  {
  }

  lemma ThrottleStepForm(s: State, c: Cookie, conn: Option<Conn>, i: Input)
    ensures Step(s, Throttle(c, conn), i) ==
              if c in s.d.throttlers then s
              else CheckThrottle(s.(d := s.d.(throttlers := s.d.throttlers[c := conn])), i.starts)
  {
  }

  lemma UnThrottleStepForm(s: State, c: Cookie, i: Input)
    ensures Step(s, UnThrottle(c), i) ==
              if c !in s.d.throttlers then s
              else CheckThrottle(s.(d := s.d.(throttlers := s.d.throttlers - {c})), i.starts)
  {
  }

  lemma NameLostStepForm(s: State, name: Conn, i: Input)
    ensures Step(s, NameLost(name), i) == NameLostIn(s, name, i.starts)
  {
  }

  function ThrottlersAfter(t: map<Cookie, Option<Conn>>, e: Event): map<Cookie, Option<Conn>> {
    if e.Throttle? then t[e.cookie := e.conn] else if e.UnThrottle? then t - {e.cookie} else t
  }

  /** What the calls that change the two tables do. */
  lemma TablesForm(s: State, e: Event, i: Input)
    requires ChangesTables(e)
    ensures e.NameLost? ==> Step(s, e, i) == NameLostIn(s, e.name, i.starts)
    ensures e.Inhibit? || e.UnInhibit? ==>
              Step(s, e, i) == s.(d := s.d.(inhibitors := Step(s, e, i).d.inhibitors))
    ensures e.Throttle? || e.UnThrottle? ==>
              || Step(s, e, i) == s
              || Step(s, e, i) == CheckThrottle(s.(d := s.d.(throttlers := ThrottlersAfter(s.d.throttlers, e))),
                                                i.starts)
  {
  }

  lemma X11StepForm(s: State, e: Event, i: Input)
    requires e.IdleActivate? || e.IdleLock? || e.IdlePoke?
    ensures Step(s, e, i) ==
              if !s.backend.X11? then s
              else if e.IdleActivate? then ListenerActivate(s, i)
              else if e.IdleLock? then ListenerLock(s, i)
              else s.(m := RequestUnlock(s.m, i.at))
  {
  }

  lemma IdledStepForm(s: State, alarm: Alarm, i: Input)
    ensures Step(s, Idled(alarm), i) == if alarm in s.a.armed then AlarmIdled(s, alarm, i) else s
  {
  }

  lemma ResumedStepForm(s: State, alarm: Alarm, i: Input)
    ensures Step(s, Resumed(alarm), i) == if alarm in s.a.armed then s.(m := RequestUnlock(s.m, i.at)) else s
  {
  }

  lemma SetTimeoutsStepForm(s: State, on: bool, secs: nat, lockSecs: nat, i: Input)
    ensures Step(s, SetTimeouts(on, secs, lockSecs), i) == TimeoutsSet(s, on, secs, lockSecs, i.p)
  {
  }

  lemma TimerStepForm(s: State, e: Event, i: Input)
    requires e.LockTimeout? || e.CycleTimeout?
    ensures Step(s, e, i) ==
              if e.LockTimeout? && s.m.lockTimer then s.(m := EnableLocker(s.m, true).(lockTimer := false))
              else if e.CycleTimeout? && s.m.cycleTimer then s.(m := Cycle(s.m, i.starts))
              else s
  {
  }

  lemma ManagerIdleStepForm(s: State, i: Input)
    ensures Step(s, ManagerIdle, i) ==
              if s.m.idles == [] then s else DeactivateManager(s.(m := Popped(s.m)))
  {
  }

  lemma PopupStepForm(s: State, w: WinId, i: Input)
    ensures Step(s, PopupIdle(w), i) ==
              if w in s.m.win && s.m.win[w].popupIdle
              then s.(m := PopupDialog(s.m, w, s.backend.Wayland? && !i.windowActive, i.dialogStarts, i.starts))
              else s
  {
  }

  lemma DeactivatedStepForm(s: State, w: WinId, i: Input)
    ensures Step(s, DeactivatedIdle(w), i) ==
              if w in s.m.win && s.m.win[w].deactIdle.Some? then s.(m := EmitDeactivated(s.m, w)) else s
  {
  }

  lemma DialogStepForm(s: State, w: WinId, o: Output, i: Input)
    ensures Step(s, DialogOutput(w, o), i) ==
              if w in s.m.win && s.m.win[w].dialogWatch then s.(m := DialogSays(s.m, w, o, i.starts)) else s
  {
  }

  lemma MappedStepForm(s: State, w: WinId, i: Input)
    ensures Step(s, Mapped(w), i) == if w in s.m.win then s.(m := MaybeStartIn(s.m, w, i.starts)) else s
  {
  }

  lemma VisibilityStepForm(s: State, w: WinId, hidden: bool, i: Input)
    ensures Step(s, Visibility(w, hidden), i) ==
              if w in s.m.win then s.(m := SetObscured(s.m, w, hidden, i.starts)) else s
  {
  }

  lemma ActivityStepForm(s: State, w: WinId, i: Input)
    ensures Step(s, Activity(w), i) ==
              if w in s.m.win && s.m.win[w].sensitive then s.(m := RequestUnlock(s.m, i.at)) else s
  {
  }

  lemma JobStepForm(s: State, w: WinId, i: Input)
    ensures Step(s, JobOutputEnds(w), i) ==
              if w in s.m.jobs && s.m.jobs[w].watch
              then s.(m := s.m.(jobs := s.m.jobs[w := JobWatchEnds(s.m.jobs[w])]))
              else s
  {
    if w in s.m.jobs && !s.m.jobs[w].watch {
      NoWatch(s.m, w);
    }
  }

  lemma HotplugStepForm(s: State, now: seq<Mon>, i: Input)
    ensures Step(s, Hotplug(now), i) ==
              if !NoDup(now) then s
              else if s.m.handlers > 0 then RecreateWindows(s.(monitors := now), i.p)
              else s.(monitors := now)
  {
  }

  lemma NoWatch(m: Manager, w: WinId)
    requires w in m.jobs && !m.jobs[w].watch
    ensures m.(jobs := m.jobs[w := JobWatchEnds(m.jobs[w])]) == m
  {
    assert m.jobs[w := m.jobs[w]] == m.jobs;
  }

  // ---------- steps inside the manager ----------

  /** What the rest of the session can see of the manager. */
  predicate SameFrame(m: Manager, m1: Manager) {
    m1.active == m.active && m1.throttled == m.throttled && m1.table == m.table && m1.win.Keys == m.win.Keys
  }

  lemma WithManager(s: State, m: Manager)
    requires Inv(s) && ManagerOk(m) && SameFrame(s.m, m)
    ensures Inv(s.(m := m))
  {
  }

  lemma TouchFrame(m: Manager, id: WinId, w: Win)
    requires id in m.win
    ensures SameFrame(m, m.(win := m.win[id := w]))
  {
    assert m.win[id := w].Keys == m.win.Keys;
  }

  lemma FrameTransitive(m: Manager, m1: Manager, m2: Manager)
    requires SameFrame(m, m1) && SameFrame(m1, m2)
    ensures SameFrame(m, m2)
  {
  }

  lemma DialogUpFrame(m: Manager, id: WinId)
    ensures SameFrame(m, DialogUp(m, id))
  {
  }

  lemma DialogDownFrame(m: Manager, starts: map<WinId, bool>)
    ensures SameFrame(m, DialogDown(m, starts))
  {
  }

  lemma SetDialogUpFrame(m: Manager, id: WinId, up: bool, starts: map<WinId, bool>)
    requires id in m.win
    ensures SameFrame(m, SetDialogUp(m, id, up, starts))
  {
    var m1 := m.(win := m.win[id := m.win[id].(dialogUp := up)]);
    TouchFrame(m, id, m.win[id].(dialogUp := up));
    DialogUpFrame(m1, id);
    DialogDownFrame(m1, starts);
  }

  lemma PopdownFrame(m: Manager, id: WinId, starts: map<WinId, bool>)
    requires id in m.win
    ensures SameFrame(m, PopdownDialog(m, id, starts))
  {
    var m1 := m.(win := m.win[id := m.win[id].(dialogAlive := false)]);
    TouchFrame(m, id, m.win[id].(dialogAlive := false));
    SetDialogUpFrame(m1, id, false, starts);
    var m2 := SetDialogUp(m1, id, false, starts);
    TouchFrame(m2, id, m2.win[id].(popupIdle := false, dialogWatch := false));
  }

  lemma WindowRequestFrame(m: Manager, id: WinId)
    requires id in m.win
    ensures SameFrame(m, WindowRequestUnlock(m, id))
  {
    TouchFrame(m, id, m.win[id].(deactIdle := Some(OpenRequest(id, m.win[id].lockActive))));
    TouchFrame(m, id, m.win[id].(popupIdle := true));
    SetDialogUpFrame(m.(win := m.win[id := m.win[id].(popupIdle := true)]), id, true, map[]);
  }

  lemma RequestFrame(m: Manager, at: Mon)
    ensures SameFrame(m, RequestUnlock(m, at))
  {
    if at in m.table && m.table[at] in m.win {
      WindowRequestFrame(m, m.table[at]);
    }
  }

  lemma AnsweredFrame(m: Manager, id: WinId, e: Ending)
    requires id in m.win
    ensures SameFrame(m, Answered(m, id, e))
  {
    TouchFrame(m, id, m.win[id].(responseOk := e == OkLine));
  }

  lemma FinishedFrame(m: Manager, id: WinId, e: Ending, starts: map<WinId, bool>)
    requires id in m.win
    ensures SameFrame(m, DialogFinished(m, id, e, starts))
  {
    if m.win[id].responseOk {
      TouchFrame(m, id, m.win[id].(deactIdle := Some(DialogEnded(id, e)), dialogWatch := false));
    } else {
      PopdownFrame(m, id, starts);
    }
  }

  lemma SaysFrame(m: Manager, id: WinId, o: Output, starts: map<WinId, bool>)
    requires id in m.win
    ensures SameFrame(m, DialogSays(m, id, o, starts))
  {
    if EndingOf(o).Some? {
      var e := EndingOf(o).value;
      AnsweredFrame(m, id, e);
      FinishedFrame(Answered(m, id, e), id, e, starts);
      FrameTransitive(m, Answered(m, id, e), DialogSays(m, id, o, starts));
    }
  }

  lemma PopupFrame(m: Manager, id: WinId, refused: bool, spawned: bool, starts: map<WinId, bool>)
    requires id in m.win
    ensures SameFrame(m, PopupDialog(m, id, refused, spawned, starts))
  {
    if refused {
      PopdownFrame(m, id, starts);
    } else if spawned {
      TouchFrame(m, id, m.win[id].(popupIdle := false, dialogAlive := true, dialogWatch := true));
    } else {
      TouchFrame(m, id, m.win[id].(popupIdle := false));
    }
  }

  lemma EmitFrame(m: Manager, id: WinId)
    requires id in m.win
    ensures SameFrame(m, EmitDeactivated(m, id))
  {
    if m.win[id].deactIdle.Some? {
      TouchFrame(m, id, m.win[id].(deactIdle := None));
    }
  }

  lemma ObscuredFrame(m: Manager, id: WinId, hidden: bool, starts: map<WinId, bool>)
    requires id in m.win
    ensures SameFrame(m, SetObscured(m, id, hidden, starts))
  {
    TouchFrame(m, id, m.win[id].(obscured := hidden));
  }

  lemma RequestStep(s: State, at: Mon)
    requires Inv(s)
    ensures Inv(s.(m := RequestUnlock(s.m, at)))
  {
    RequestKeeps(s.m, at);
    RequestFrame(s.m, at);
    WithManager(s, RequestUnlock(s.m, at));
  }

  lemma CycleStep(s: State, starts: map<WinId, bool>)
    requires Inv(s)
    ensures Inv(s.(m := Cycle(s.m, starts)))
  {
    CycleKeeps(s.m, starts);
    WithManager(s, Cycle(s.m, starts));
  }

  lemma LockerStep(s: State)
    requires Inv(s)
    ensures Inv(s.(m := EnableLocker(s.m, true)))
  {
    LockerKeeps(s.m);
    WithManager(s, EnableLocker(s.m, true));
  }

  lemma TimerOffKeeps(m: Manager)
    requires ManagerOk(m)
    ensures ManagerOk(m.(lockTimer := false))
  {
  }

  lemma LockTimeoutStep(s: State)
    requires Inv(s)
    ensures Inv(s.(m := EnableLocker(s.m, true).(lockTimer := false)))
  {
    LockerKeeps(s.m);
    TimerOffKeeps(EnableLocker(s.m, true));
    WithManager(s, EnableLocker(s.m, true).(lockTimer := false));
  }

  lemma WindowsOnlyWhenActive(m: Manager)
    requires ManagerOk(m) && m.win != map[]
    ensures m.active
  {
  }

  lemma PopupStep(s: State, w: WinId, refused: bool, spawned: bool, starts: map<WinId, bool>)
    requires Inv(s) && w in s.m.win && s.m.win[w].popupIdle
    ensures Inv(s.(m := PopupDialog(s.m, w, refused, spawned, starts)))
  {
    WindowsOnlyWhenActive(s.m);
    PopupKeeps(s.m, w, refused, spawned, starts);
    PopupFrame(s.m, w, refused, spawned, starts);
    WithManager(s, PopupDialog(s.m, w, refused, spawned, starts));
  }

  lemma SaysStep(s: State, w: WinId, o: Output, starts: map<WinId, bool>)
    requires Inv(s) && w in s.m.win && s.m.win[w].dialogWatch
    ensures Inv(s.(m := DialogSays(s.m, w, o, starts)))
  {
    WindowsOnlyWhenActive(s.m);
    DialogSaysKeeps(s.m, w, o, starts);
    SaysFrame(s.m, w, o, starts);
    WithManager(s, DialogSays(s.m, w, o, starts));
  }

  lemma EmitStep(s: State, w: WinId)
    requires Inv(s) && w in s.m.win
    ensures Inv(s.(m := EmitDeactivated(s.m, w)))
  {
    EmitKeeps(s.m, w);
    EmitFrame(s.m, w);
    WithManager(s, EmitDeactivated(s.m, w));
  }

  lemma JobWatchStep(s: State, w: WinId)
    requires Inv(s) && w in s.m.jobs
    ensures Inv(s.(m := s.m.(jobs := s.m.jobs[w := JobWatchEnds(s.m.jobs[w])])))
  {
    JobWatchKeeps(s.m, w);
    WithManager(s, s.m.(jobs := s.m.jobs[w := JobWatchEnds(s.m.jobs[w])]));
  }

  lemma MappedStep(s: State, w: WinId, starts: map<WinId, bool>)
    requires Inv(s)
    ensures Inv(s.(m := MaybeStartIn(s.m, w, starts)))
  {
    StartKeeps(s.m, w, starts);
    WithManager(s, MaybeStartIn(s.m, w, starts));
  }

  lemma VisibilityStep(s: State, w: WinId, hidden: bool, starts: map<WinId, bool>)
    requires Inv(s) && w in s.m.win
    ensures Inv(s.(m := SetObscured(s.m, w, hidden, starts)))
  {
    ObscuredKeeps(s.m, w, hidden, starts);
    ObscuredFrame(s.m, w, hidden, starts);
    WithManager(s, SetObscured(s.m, w, hidden, starts));
  }

  // ---------- the throttler table ----------

  /** The invariant except that the listener's throttle flag may lag its table. */
  ghost predicate InvBeforeCheck(s: State) {
    && ManagerOk(s.m) && MonitorsOk(s) && AlarmsOk(s) && LockFits(s)
    && s.d.active == s.m.active && s.d.throttled == s.m.throttled
  }

  lemma ThrottleFrame(m: Manager, on: bool, starts: map<WinId, bool>)
    ensures var m1 := SetThrottled(m, on, starts);
            m1.active == m.active && m1.throttled == on && m1.table == m.table && m1.win == m.win
  {
  }

  lemma CheckThrottleKeeps(s: State, starts: map<WinId, bool>)
    requires InvBeforeCheck(s)
    ensures Inv(CheckThrottle(s, starts))
  {
    var on := s.d.throttlers != map[];
    ThrottleKeeps(s.m, on, starts);
    ThrottleFrame(s.m, on, starts);
  }

  // ---------- the session lock ----------

  lemma UnlockKeeps(k: Locker)
    requires LocksOk(k)
    ensures LocksOk(Unlock(k)) && Unlock(k).cur.None?
  {
  }

  lemma LockSaysKeeps(k: Locker, ev: LockEvent)
    requires LocksOk(k)
    ensures LocksOk(LockSays(k, ev))
    ensures LockSays(k, ev).surfaces == k.surfaces || LockSays(k, ev).cur.None?
    ensures k.cur.None? ==> LockSays(k, ev).cur.None?
  {
    UnlockKeeps(k);
  }

  lemma LockSaysAllKeeps(k: Locker, evs: seq<LockEvent>)
    requires LocksOk(k) && k.surfaces == {}
    ensures LocksOk(LockSaysAll(k, evs)) && LockSaysAll(k, evs).surfaces == {}
  {
    if evs != [] {
      LockSaysAllKeeps(k, evs[..|evs| - 1]);
      LockSaysKeeps(LockSaysAll(k, evs[..|evs| - 1]), evs[|evs| - 1]);
    }
  }

  lemma TakeLockKeeps(k: Locker, evs: seq<LockEvent>)
    requires LocksOk(k) && k.cur.None?
    ensures LocksOk(TakeLock(k, evs)) && TakeLock(k, evs).surfaces == {}
  {
    LockSaysAllKeeps(k.(cur := Some(k.next), next := k.next + 1), evs);
  }

  lemma LockEventStep(s: State, ev: LockEvent)
    requires Inv(s)
    ensures Inv(s.(k := LockSays(s.k, ev)))
  {
    LockSaysKeeps(s.k, ev);
  }

  // ---------- activation ----------

  /** The invariant except that the listener has not noticed yet whether the manager is active. */
  ghost predicate InvBeforeNote(s: State) {
    && ManagerOk(s.m) && MonitorsOk(s) && AlarmsOk(s) && LockFits(s)
    && s.d.throttled == s.m.throttled == (s.d.throttlers != map[])
  }

  /** InvBeforeNote in the middle of "activated", when the alarms still show an inactive session. */
  ghost predicate InvBeforeAlarms(s: State) {
    && ManagerOk(s.m) && MonitorsOk(s) && LockFits(s) && (!Listening(s.backend) ==> s.a.armed == map[])
    && s.d.throttled == s.m.throttled == (s.d.throttlers != map[])
  }

  lemma LockWhileActiveKeeps(s: State, p: Prefs)
    requires InvBeforeAlarms(s)
    ensures var s1 := LockWhileActive(s, p);
            InvBeforeAlarms(s1) && s1.m.active == s.m.active && s1.a == s.a && s1.backend == s.backend
  {
    LockerKeeps(s.m);
  }

  /** The reaction to "activated" before the alarms are exchanged. */
  function Reacted(s: State, p: Prefs): State {
    if !p.lockWithSaver then s
    else if s.a.lockTimeout == 0 then LockWhileActive(s, p)
    else s.(a := s.a.(armed := s.a.armed[LockLater := s.a.lockTimeout]))
  }

  lemma ReactedKeeps(s: State, p: Prefs)
    requires InvBeforeAlarms(s) && Listening(s.backend)
    ensures InvBeforeAlarms(Reacted(s, p)) && Reacted(s, p).m.active == s.m.active
    ensures Reacted(s, p).backend == s.backend
  {
    LockWhileActiveKeeps(s, p);
  }

  lemma AlarmsExchanged(s: State)
    requires InvBeforeAlarms(s) && s.m.active && Listening(s.backend)
    ensures InvBeforeNote(s.(a := s.a.(armed := (s.a.armed - {Activate})[Deactivate := 0])))
  {
  }

  lemma AfterActivatedKeeps(s: State, p: Prefs)
    requires InvBeforeAlarms(s) && s.m.active
    ensures InvBeforeNote(AfterActivated(s, p)) && AfterActivated(s, p).m.active
  {
    if Listening(s.backend) {
      ReactedKeeps(s, p);
      AlarmsExchanged(Reacted(s, p));
    }
  }

  /** The state between taking the lock and creating the windows. */
  function Entered(s: State, i: Input): State {
    s.(k := LockerAfterTry(s, i),
       m := s.m.(lockActive := s.m.lockActive || LocksAtOnce(i.p), handlers := s.m.handlers + 1))
  }

  lemma EnteredStaged(s: State, i: Input)
    requires ManagerOk(s.m) && !s.m.active
    ensures Staged(Entered(s, i).m) && Entered(s, i).m.table == map[] && Entered(s, i).m.auth == s.m.auth
  {
  }

  lemma LockTaken(s: State, i: Input)
    requires LockFits(s) && !s.m.active
    ensures LocksOk(LockerAfterTry(s, i)) && LockerAfterTry(s, i).surfaces == {}
    ensures LockerAfterTry(s, i).cur.Some? ==> s.backend.Wayland? && s.backend.lockManager
  {
    if CanTryLock(s.backend, s.k) {
      TakeLockKeeps(s.k, i.lockEvents);
    }
  }

  /** All windows created and shown, "activated" not emitted yet. */
  function Shown(s: State, p: Prefs): State {
    s.(m := ShowWindows(s.m.(active := true), s.m.table.Values, p),
       k := if s.k.cur.Some? then s.k.(surfaces := s.k.surfaces + s.m.table.Values) else s.k)
  }

  lemma ShownKeeps(s: State, p: Prefs)
    requires Staged(s.m) && !s.m.active && (LocksAtOnce(p) ==> s.m.lockActive)
    requires AuthOk(s.m.auth, false) && CausesOk(s.m.idles) && CausesOk(s.m.ended)
    requires NoDup(s.monitors) && s.m.table.Keys == (set x | x in s.monitors)
    requires LocksOk(s.k) && s.k.surfaces == {}
    requires s.k.cur.Some? ==> s.backend.Wayland? && s.backend.lockManager
    requires !Listening(s.backend) ==> s.a.armed == map[]
    requires s.d.throttled == s.m.throttled == (s.d.throttlers != map[])
    ensures InvBeforeAlarms(Shown(s, p)) && Shown(s, p).m.active
  {
    ShowStaged(s.m.(active := true), p);
  }

  lemma BecomeActiveForm(s: State, i: Input)
    ensures BecomeActive(s, i) == AfterActivated(Shown(CreateWindows(Entered(s, i), s.monitors, i.p), i.p), i.p)
  {
  }

  lemma BecomeActiveKeeps(s: State, i: Input)
    requires Inv(s) && !s.m.active
    ensures InvBeforeNote(BecomeActive(s, i)) && BecomeActive(s, i).m.active
  {
    var s1 := Entered(s, i);
    EnteredStaged(s, i);
    LockTaken(s, i);
    CreateStaged(s1, s.monitors, i.p);
    ShownKeeps(CreateWindows(s1, s.monitors, i.p), i.p);
    AfterActivatedKeeps(Shown(CreateWindows(s1, s.monitors, i.p), i.p), i.p);
    BecomeActiveForm(s, i);
  }

  lemma FailedActivation(s: State, i: Input)
    requires Inv(s) && !s.m.active && !CanActivate(s, i)
    ensures Inv(s.(k := LockerAfterTry(s, i)))
  {
    LockTaken(s, i);
  }

  lemma ActivateKeeps(s: State, i: Input)
    requires Inv(s)
    ensures var s1 := ActivateManager(s, i);
            InvBeforeNote(s1) && (s1.m.active <==> s.m.active || CanActivate(s, i))
            && (!s1.m.active ==> Inv(s1))
  {
    if !s.m.active {
      if CanActivate(s, i) {
        BecomeActiveKeeps(s, i);
      } else {
        FailedActivation(s, i);
      }
    }
  }

  function Emptied(m: Manager): Manager {
    EnableLocker(DestroyWindows(m).(lockTimer := false, cycleTimer := false, handlers := 0,
                                    active := false, dialogUp := false), false)
  }

  lemma EmptiedOk(m: Manager)
    requires ManagerOk(m) && m.active
    ensures ManagerOk(Emptied(m)) && !Emptied(m).active && Emptied(m).throttled == m.throttled
  {
    DestroyedOk(m);
    assert LockAll(map[], {}, false) == map[];
    assert Emptied(m).win == map[];
  }

  lemma DeactivateKeeps(s: State)
    requires Inv(s)
    ensures Inv(DeactivateManager(s)) && !DeactivateManager(s).m.active
  {
    if s.m.active {
      EmptiedOk(s.m);
      UnlockKeeps(RemoveSurfaces(s.k, s.m.table.Values));
    }
  }

  lemma DbusActivateKeeps(s: State, on: bool, i: Input)
    requires Inv(s)
    ensures Inv(DbusActivate(s, on, i))
  {
    if s.d.active != on {
      if on {
        ActivateKeeps(s, i);
      } else {
        DeactivateKeeps(s);
      }
    }
  }

  lemma DbusLockKeeps(s: State, i: Input)
    requires Inv(s)
    ensures Inv(DbusLock(s, i))
  {
    LockerStep(s);
    DbusActivateKeeps(s.(m := EnableLocker(s.m, true)), true, i);
  }

  lemma ListenerKeeps(s: State, i: Input)
    requires Inv(s)
    ensures Inv(ListenerActivate(s, i)) && Inv(ListenerLock(s, i))
  {
    DbusActivateKeeps(s, true, i);
    DbusLockKeeps(s, i);
  }

  lemma AlarmIdledKeeps(s: State, alarm: Alarm, i: Input)
    requires Inv(s) && alarm in s.a.armed
    ensures Inv(AlarmIdled(s, alarm, i))
  {
    ListenerKeeps(s, i);
  }

  lemma TimeoutsKeep(s: State, on: bool, secs: nat, lockSecs: nat, p: Prefs)
    requires Inv(s)
    ensures Inv(TimeoutsSet(s, on, secs, lockSecs, p))
  {
  }

  // ---------- monitors coming and going ----------

  lemma RecreateKeeps(s: State, now: seq<Mon>, p: Prefs)
    requires Inv(s) && NoDup(now) && s.m.active
    ensures Inv(RecreateWindows(s.(monitors := now), p))
  {
    var s1 := s.(monitors := now, m := DestroyWindows(s.m), k := RemoveSurfaces(s.k, s.m.table.Values));
    DestroyedOk(s.m);
    CreateActive(s1, now, p);
  }

  // ---------- a window ends the session ----------

  lemma ManagerIdleKeeps(s: State)
    requires Inv(s) && s.m.idles != []
    ensures Inv(DeactivateManager(s.(m := Popped(s.m))))
  {
    var m := Popped(s.m);
    assert ManagerOk(m);
    WithManager(s, m);
    DeactivateKeeps(s.(m := m));
  }

  // ---------- all steps, all runs ----------

  lemma ThrottlersStep(s: State, t: map<Cookie, Option<Conn>>, starts: map<WinId, bool>)
    requires Inv(s)
    ensures Inv(CheckThrottle(s.(d := s.d.(throttlers := t)), starts))
  {
    CheckThrottleKeeps(s.(d := s.d.(throttlers := t)), starts);
  }

  lemma NameLostKeeps(s: State, name: Conn, starts: map<WinId, bool>)
    requires Inv(s)
    ensures Inv(NameLostIn(s, name, starts))
  {
    ThrottlersStep(s, WithoutConn(s.d.throttlers, name), starts);
  }

  lemma InhibitorsStep(s: State, t: map<Cookie, Option<Conn>>)
    requires Inv(s)
    ensures Inv(s.(d := s.d.(inhibitors := t)))
  {
  }

  lemma HotplugKeeps(s: State, now: seq<Mon>, i: Input)
    requires Inv(s)
    ensures Inv(Step(s, Hotplug(now), i))
  {
    if NoDup(now) {
      if s.m.handlers > 0 {
        RecreateKeeps(s, now, i.p);
      }
    }
  }

  /** An event that asks for the session to be unlocked may raise a dialog, or do nothing. */
  lemma AskedStep(s: State, e: Event, i: Input)
    requires AsksUnlock(e)
    ensures Step(s, e, i) == s || Step(s, e, i) == s.(m := RequestUnlock(s.m, i.at))
  {
  }

  lemma AskedStepKeeps(s: State, e: Event, i: Input)
    requires Inv(s) && AsksUnlock(e)
    ensures Inv(Step(s, e, i))
  {
    AskedStep(s, e, i);
    RequestStep(s, i.at);
  }

  lemma TablesStepKeeps(s: State, e: Event, i: Input)
    requires Inv(s) && ChangesTables(e)
    ensures Inv(Step(s, e, i))
  {
    TablesForm(s, e, i);
    if e.NameLost? {
      NameLostKeeps(s, e.name, i.starts);
    } else if e.Inhibit? || e.UnInhibit? {
      InhibitorsStep(s, Step(s, e, i).d.inhibitors);
    } else {
      ThrottlersStep(s, ThrottlersAfter(s.d.throttlers, e), i.starts);
    }
  }

  lemma BusStepKeeps(s: State, e: Event, i: Input)
    requires Inv(s) && FromBus(e) && !AsksUnlock(e) && !ChangesTables(e)
    ensures Inv(Step(s, e, i))
  {
    match e
    case SetActive(on) => DbusActivateKeeps(s, on, i);
    case LockCall => DbusLockKeeps(s, i);
    case CycleCall => CycleStep(s, i.starts);
  }

  lemma IdleStepKeeps(s: State, e: Event, i: Input)
    requires Inv(s) && FromIdleWatch(e) && !AsksUnlock(e)
    ensures Inv(Step(s, e, i))
  {
    if e.Idled? {
      IdledStepForm(s, e.alarm, i);
      if e.alarm in s.a.armed {
        AlarmIdledKeeps(s, e.alarm, i);
      }
    } else if e.SetTimeouts? {
      SetTimeoutsStepForm(s, e.on, e.secs, e.lockSecs, i);
      TimeoutsKeep(s, e.on, e.secs, e.lockSecs, i.p);
    } else {
      X11StepForm(s, e, i);
      ListenerKeeps(s, i);
    }
  }

  lemma PopupStepKeeps(s: State, w: WinId, i: Input)
    requires Inv(s)
    ensures Inv(Step(s, PopupIdle(w), i))
  {
    PopupStepForm(s, w, i);
    if w in s.m.win && s.m.win[w].popupIdle {
      PopupStep(s, w, s.backend.Wayland? && !i.windowActive, i.dialogStarts, i.starts);
    }
  }

  lemma DeactivatedStepKeeps(s: State, w: WinId, i: Input)
    requires Inv(s)
    ensures Inv(Step(s, DeactivatedIdle(w), i))
  {
    DeactivatedStepForm(s, w, i);
    if w in s.m.win {
      EmitStep(s, w);
    }
  }

  lemma OutputStepKeeps(s: State, w: WinId, o: Output, i: Input)
    requires Inv(s)
    ensures Inv(Step(s, DialogOutput(w, o), i))
  {
    DialogStepForm(s, w, o, i);
    if w in s.m.win && s.m.win[w].dialogWatch {
      SaysStep(s, w, o, i.starts);
    }
  }

  lemma DialogStepKeeps(s: State, e: Event, i: Input)
    requires Inv(s) && MovesDialog(e)
    ensures Inv(Step(s, e, i))
  {
    match e
    case PopupIdle(w) => PopupStepKeeps(s, w, i);
    case DeactivatedIdle(w) => DeactivatedStepKeeps(s, w, i);
    case DialogOutput(w, o) => OutputStepKeeps(s, w, o, i);
  }

  lemma TimerStepKeeps(s: State, e: Event, i: Input)
    requires Inv(s) && (e.LockTimeout? || e.CycleTimeout?)
    ensures Inv(Step(s, e, i))
  {
    TimerStepForm(s, e, i);
    LockTimeoutStep(s);
    CycleStep(s, i.starts);
  }

  lemma ManagerIdleStepKeeps(s: State, i: Input)
    requires Inv(s)
    ensures Inv(Step(s, ManagerIdle, i))
  {
    ManagerIdleStepForm(s, i);
    if s.m.idles != [] {
      ManagerIdleKeeps(s);
    }
  }

  lemma SourceStepKeeps(s: State, e: Event, i: Input)
    requires Inv(s) && (e.LockTimeout? || e.CycleTimeout? || e.ManagerIdle?)
    ensures Inv(Step(s, e, i))
  {
    if e.ManagerIdle? {
      ManagerIdleStepKeeps(s, i);
    } else {
      TimerStepKeeps(s, e, i);
    }
  }

  lemma JobOutputKeeps(s: State, w: WinId, i: Input)
    requires Inv(s)
    ensures Inv(Step(s, JobOutputEnds(w), i))
  {
    JobStepForm(s, w, i);
    if w in s.m.jobs {
      JobWatchStep(s, w);
    }
  }

  lemma DisplayStepKeeps(s: State, e: Event, i: Input)
    requires Inv(s) && !FromBus(e) && !FromIdleWatch(e) && !FromSource(e) && !AsksUnlock(e)
    ensures Inv(Step(s, e, i))
  {
    match e
    case Mapped(w) => MappedStep(s, w, i.starts);
    case Visibility(w, hidden) => if w in s.m.win { VisibilityStep(s, w, hidden, i.starts); }
    case Hotplug(now) => HotplugKeeps(s, now, i);
    case SessionLock(ev) => LockEventStep(s, ev);
  }

  lemma StepKeeps(s: State, e: Event, i: Input)
    requires Inv(s)
    ensures Inv(Step(s, e, i))
  {
    if AsksUnlock(e) {
      AskedStepKeeps(s, e, i);
    } else if ChangesTables(e) {
      TablesStepKeeps(s, e, i);
    } else if MovesDialog(e) {
      DialogStepKeeps(s, e, i);
    } else if FromBus(e) {
      BusStepKeeps(s, e, i);
    } else if FromIdleWatch(e) {
      IdleStepKeeps(s, e, i);
    } else if e.JobOutputEnds? {
      JobOutputKeeps(s, e.win, i);
    } else if FromSource(e) {
      SourceStepKeeps(s, e, i);
    } else {
      DisplayStepKeeps(s, e, i);
    }
  }

  /** Any sequence of events, from start-up, in any order, with any answers from outside. */
  lemma RunKeeps(b: Backend, monitors: seq<Mon>, run: seq<Occurrence>)
    requires NoDup(monitors)
    ensures Inv(Run(Start(b, monitors), run))
  {
    if run == [] {
      StartOk(b, monitors);
    } else {
      RunKeeps(b, monitors, run[..|run| - 1]);
      StepKeeps(Run(Start(b, monitors), run[..|run| - 1]), run[|run| - 1].e, run[|run| - 1].i);
    }
  }
}
