/**
 What the program is there for: what each event does when it is let through, said of the state before and
 after without the functions that compute it.
 */
module SessionEffects {
  import opened Basics
  import opened SessionModel
  import opened SessionInvariant
  import opened SessionSteps
  import opened SessionRuns
  import opened SessionOutcomes
  import opened SessionLockLoss
  import opened SessionUnlock

  // ---------- an answer unlocks ----------

  /** A line that says OK, from a dialog that is watched, is recorded, schedules the deactivation and ends
      the watch.  Nothing else changes. */
  lemma AnswerSchedules(s: State, w: WinId, o: Output, i: Input)
    requires Inv(s) && w in s.m.win && s.m.win[w].dialogWatch
    requires o.Line? && Plain(o.text) && Contains(o.text, "RESPONSE=OK")
    ensures var s1 := Step(s, DialogOutput(w, o), i);
            && s1 == s.(m := s.m.(win := s1.m.win)) && s1.m.win.Keys == s.m.win.Keys
            && s1.m.win[w] == s.m.win[w].(
                 responseOk := true, deactIdle := Some(DialogEnded(w, OkLine)), dialogWatch := false)
            && forall v :: v in s.m.win && v != w ==> s1.m.win[v] == s.m.win[v]
  {
    EndingMeans(o);
    DialogStepForm(s, w, o, i);
    AnswerForm(s.m, w, i.starts);
  }

  lemma AnswerForm(m: Manager, w: WinId, starts: map<WinId, bool>)
    requires w in m.win
    ensures DialogFinished(Answered(m, w, OkLine), w, OkLine, starts)
         == m.(win := m.win[w := m.win[w].(
                 responseOk := true, deactIdle := Some(DialogEnded(w, OkLine)), dialogWatch := false)])
  {
    var v := m.win[w].(responseOk := true);
    TwoWrites(m.win, w, v, v.(deactIdle := Some(DialogEnded(w, OkLine)), dialogWatch := false));
  }

  lemma TwoWrites(win: map<WinId, Win>, w: WinId, v: Win, v1: Win)
    ensures win[w := v][w := v1] == win[w := v1]
  {
  }

  /** Then the two idle sources end the session, whatever happens to be read from outside on the way. */
  lemma AnswerUnlocks(s: State, w: WinId, o: Output, i: Input, i1: Input, i2: Input)
    requires Inv(s) && w in s.m.win && s.m.win[w].dialogWatch
    requires o.Line? && Plain(o.text) && Contains(o.text, "RESPONSE=OK")
    ensures !Step(Step(Step(s, DialogOutput(w, o), i), DeactivatedIdle(w), i1), ManagerIdle, i2).m.active
  {
    var s1 := Step(s, DialogOutput(w, o), i);
    AnswerSchedules(s, w, o, i);
    StepKeeps(s, DialogOutput(w, o), i);
    WindowsOnlyWhenActive(s.m);
    DeactivationRuns(s1, w, i1, i2);
  }

  /** A scheduled deactivation is handed to the manager, behind those that wait already. */
  lemma DeactivationQueues(s: State, w: WinId, i: Input)
    requires w in s.m.win && s.m.win[w].deactIdle.Some?
    ensures var s1 := Step(s, DeactivatedIdle(w), i);
            && s1 == s.(m := s.m.(idles := s1.m.idles, win := s1.m.win))
            && s1.m.idles == s.m.idles + [s.m.win[w].deactIdle.value]
            && s1.m.win == s.m.win[w := s.m.win[w].(deactIdle := None)]
  {
    DeactivatedStepForm(s, w, i);
  }

  lemma DeactivationRuns(s: State, w: WinId, i: Input, i1: Input)
    requires Inv(s) && s.m.active && w in s.m.win && s.m.win[w].deactIdle.Some?
    ensures !Step(Step(s, DeactivatedIdle(w), i), ManagerIdle, i1).m.active
  {
    DeactivationQueues(s, w, i);
    StepKeeps(s, DeactivatedIdle(w), i);
    EndsExactly(Step(s, DeactivatedIdle(w), i), ManagerIdle, i1);
  }

  /** The manager takes the reasons in the order they came. */
  lemma ReasonsInOrder(s: State, i: Input)
    requires Inv(s) && s.m.idles != []
    ensures var m1 := Step(s, ManagerIdle, i).m;
            && !m1.active && m1.idles == s.m.idles[1..]
            && m1.ended == if s.m.active then s.m.ended + [s.m.idles[0]] else s.m.ended
  {
    ManagerIdleStepForm(s, i);
    ManagerIdleKeeps(s);
    DeactivateNoCause(s.(m := Popped(s.m)));
  }

  /** Any other ending takes the dialog down: the flag, the child, its watch.  The session goes on, and
      nothing new is scheduled to end it. */
  lemma OtherEndingsLower(s: State, w: WinId, o: Output, i: Input)
    requires Inv(s) && w in s.m.win && s.m.win[w].dialogWatch
    requires EndingOf(o).Some? && EndingOf(o) != Some(OkLine)
    ensures var m1 := Step(s, DialogOutput(w, o), i).m;
            && m1.active == s.m.active && m1.lockActive == s.m.lockActive && !m1.dialogUp
            && m1.idles == s.m.idles && m1.win.Keys == s.m.win.Keys
            && !m1.win[w].dialogUp && !m1.win[w].dialogAlive && !m1.win[w].dialogWatch && !m1.win[w].popupIdle
            && forall v :: v in m1.win ==> m1.win[v].deactIdle == s.m.win[v].deactIdle && m1.win[v].sensitive
  {
    var e := EndingOf(o).value;
    assert WinOk(s.m.win[w]);
    DialogStepForm(s, w, o, i);
    NotAnswered(s.m, w, e);
    LoweredForm(s.m, w, i.starts);
    LoweredWindows(s.m, w, i.starts);
  }

  lemma LoweredWindows(m: Manager, w: WinId, starts: map<WinId, bool>)
    requires w in m.win && m.table.Values == m.win.Keys
    ensures var m1 := Lowered(m, w, starts);
            && m1.win.Keys == m.win.Keys && !m1.dialogUp
            && !m1.win[w].dialogUp && !m1.win[w].dialogAlive && !m1.win[w].dialogWatch && !m1.win[w].popupIdle
            && forall v :: v in m1.win ==> m1.win[v].deactIdle == m.win[v].deactIdle && m1.win[v].sensitive
  {
  }

  /** The dialog's cancel, its end and errors are such endings. */
  lemma OtherEndings(text: string)
    ensures EndingOf(Eof) == Some(AtEof) && EndingOf(ReadError) == Some(AtError) && EndingOf(HangUp) == Some(AtHangUp)
    ensures Plain(text) && Contains(text, "RESPONSE=") && !Contains(text, "RESPONSE=OK") ==>
              EndingOf(Line(text)) == Some(CancelLine)
  {
    EndingMeans(Line(text));
  }

  /** Anything else the dialog prints changes nothing. */
  lemma OtherOutputIgnored(s: State, w: WinId, o: Output, i: Input)
    requires EndingOf(o).None?
    ensures Step(s, DialogOutput(w, o), i) == s
  {
    DialogStepForm(s, w, o, i);
  }

  // ---------- a request to unlock ----------

  /** Whom a request reaches: the window at the pointer of an active session that shows no dialog. */
  predicate Reaches(s: State, i: Input) {
    s.m.active && !s.m.dialogUp && i.at in s.m.table
  }

  /** In a session that is not locked the request schedules the deactivation. */
  lemma OpenRequestSchedules(s: State, i: Input)
    requires Inv(s) && Reaches(s, i) && !s.m.lockActive
    ensures var w, m1 := s.m.table[i.at], RequestUnlock(s.m, i.at);
            w in s.m.win && m1 == s.m.(win := s.m.win[w := s.m.win[w].(deactIdle := Some(OpenRequest(w, false)))])
  {
    var w := s.m.table[i.at];
    assert w in s.m.win && WinOk(s.m.win[w]);
  }

  /** In a locked session it asks for the dialog: the flag, the signal, the window, the savers. */
  lemma LockedRequestRaises(s: State, i: Input)
    requires Inv(s) && Reaches(s, i) && s.m.lockActive
    ensures var w, m1 := s.m.table[i.at], RequestUnlock(s.m, i.at);
            && m1.dialogUp && m1.auth == s.m.auth + [Begin] && m1.idles == s.m.idles
            && w in s.m.win && m1.win.Keys == s.m.win.Keys && m1.win[w].dialogUp && m1.win[w].popupIdle
            && m1.win[w].sensitive && (forall v :: v in m1.win && v != w ==> !m1.win[v].sensitive)
            && m1.jobs.Keys == s.m.jobs.Keys
            && forall v :: v in s.m.jobs ==>
                 && m1.jobs[v].alive == s.m.jobs[v].alive
                 && (!s.m.throttled && s.m.jobs[v].alive ==> Suspended(m1.jobs[v]))
  {
    var w := s.m.table[i.at];
    assert w in s.m.win && WinOk(s.m.win[w]);
    RaisedForm(s.m, w);
    RaisedEffects(s.m, w);
  }

  lemma RaisedEffects(m: Manager, w: WinId)
    requires w in m.win && m.win[w].sensitive
    ensures var m1 := Raised(m, w);
            && m1.win.Keys == m.win.Keys && m1.win[w].dialogUp && m1.win[w].popupIdle
            && m1.win[w].sensitive && (forall v :: v in m1.win && v != w ==> !m1.win[v].sensitive)
            && m1.jobs.Keys == m.jobs.Keys
            && forall v :: v in m.jobs ==>
                 m1.jobs[v].alive == m.jobs[v].alive && (!m.throttled && m.jobs[v].alive ==> Suspended(m1.jobs[v]))
  {
  }

  /** All the events that ask to unlock do the same, once they are let through. */
  lemma RequestsAlike(s: State, i: Input)
    ensures Step(s, SimulateActivity, i) == s.(m := RequestUnlock(s.m, i.at))
    ensures Step(s, ShowMessage, i) == if s.d.active && i.p.lockEnabled then Step(s, SimulateActivity, i) else s
    ensures Step(s, PasswordPrompt, i) == if i.p.lockEnabled then Step(s, SimulateActivity, i) else s
    ensures Step(s, IdlePoke, i) == if s.backend.X11? then Step(s, SimulateActivity, i) else s
  {
    X11StepForm(s, IdlePoke, i);
  }

  lemma WatchersAlike(s: State, alarm: Alarm, w: WinId, i: Input)
    ensures Step(s, Resumed(alarm), i) == if alarm in s.a.armed then Step(s, SimulateActivity, i) else s
    ensures w in s.m.win && s.m.win[w].sensitive ==> Step(s, Activity(w), i) == Step(s, SimulateActivity, i)
    ensures !(w in s.m.win && s.m.win[w].sensitive) ==> Step(s, Activity(w), i) == s
  {
    RequestsAlike(s, i);
    ResumedStepForm(s, alarm, i);
    ActivityStepForm(s, w, i);
  }

  /** A dialog that was asked for is started and watched, or refused and taken down. */
  lemma DialogStarts(s: State, w: WinId, i: Input)
    requires Inv(s) && w in s.m.win && s.m.win[w].popupIdle
    ensures s.backend.X11? || i.windowActive ==>
              Step(s, PopupIdle(w), i) ==
                s.(m := s.m.(win := s.m.win[w := s.m.win[w].(
                     popupIdle := false, dialogAlive := i.dialogStarts, dialogWatch := i.dialogStarts)]))
    ensures s.backend.Wayland? && !i.windowActive ==>
              && !Step(s, PopupIdle(w), i).m.dialogUp && Step(s, PopupIdle(w), i).m.auth == s.m.auth + [End]
  {
    assert WinOk(s.m.win[w]);
    PopupStepForm(s, w, i);
    if s.backend.Wayland? && !i.windowActive {
      LoweredForm(s.m, w, i.starts);
    }
  }

  /** A user at a locked session who knows the password gets in: from any state without a dialog, moving,
      the dialog starting, its OK line and the two idle sources end the session. */
  lemma UserUnlocks(s: State, o: Output, i: Input, i1: Input, i2: Input, i3: Input, i4: Input)
    requires Inv(s) && Reaches(s, i) && s.m.lockActive
    requires i1.dialogStarts && (s.backend.Wayland? ==> i1.windowActive)
    requires o.Line? && Plain(o.text) && Contains(o.text, "RESPONSE=OK")
    ensures var w := s.m.table[i.at];
            var s1 := Step(Step(s, SimulateActivity, i), PopupIdle(w), i1);
            !Step(Step(Step(s1, DialogOutput(w, o), i2), DeactivatedIdle(w), i3), ManagerIdle, i4).m.active
  {
    var w := s.m.table[i.at];
    var t := Step(s, SimulateActivity, i);
    RequestsAlike(s, i);
    LockedRequestRaises(s, i);
    StepKeeps(s, SimulateActivity, i);
    DialogStarts(t, w, i1);
    StepKeeps(t, PopupIdle(w), i1);
    AnswerUnlocks(Step(t, PopupIdle(w), i1), w, o, i2, i3, i4);
  }

  /** And a user at one that is not locked gets in by moving. */
  lemma UserEnds(s: State, i: Input, i1: Input, i2: Input)
    requires Inv(s) && Reaches(s, i) && !s.m.lockActive
    ensures !Step(Step(Step(s, SimulateActivity, i), DeactivatedIdle(s.m.table[i.at]), i1), ManagerIdle, i2).m.active
  {
    RequestsAlike(s, i);
    OpenRequestSchedules(s, i);
    StepKeeps(s, SimulateActivity, i);
    DeactivationRuns(Step(s, SimulateActivity, i), s.m.table[i.at], i1, i2);
  }

  // ---------- savers ----------

  /** When the dialog goes down in an unthrottled session, exactly those savers execute that had a child,
      suspended until then, or may start one. */
  lemma DialogDownResumes(m: Manager, w: WinId, starts: map<WinId, bool>, id: WinId)
    requires ManagerOk(m) && m.dialogUp && !m.throttled && w in m.win && m.win[w].dialogUp && id in m.jobs
    ensures id in PopdownDialog(m, w, starts).jobs
    ensures Executing(PopdownDialog(m, w, starts).jobs[id]) <==>
              m.jobs[id].alive || (!m.win[id].obscured && id in starts)
  {
    LoweredForm(m, w, starts);
  }

  /** In a throttled session the end of the dialog leaves the savers alone. */
  lemma DialogDownThrottled(m: Manager, w: WinId, starts: map<WinId, bool>)
    requires ManagerOk(m) && m.throttled && w in m.win && m.win[w].dialogUp
    ensures PopdownDialog(m, w, starts).jobs == m.jobs
  {
    LoweredForm(m, w, starts);
  }

  /** A throttle ends every saver, unless a dialog is up. */
  lemma ThrottleStops(m: Manager, starts: map<WinId, bool>, id: WinId)
    requires ManagerOk(m) && !m.throttled && id in m.jobs
    ensures id in SetThrottled(m, true, starts).jobs
    ensures SetThrottled(m, true, starts).jobs[id].alive <==> m.dialogUp && m.jobs[id].alive
  {
  }

  /** Cycling gives every window a new saver; it executes if one may be started. */
  lemma CycleRenews(m: Manager, starts: map<WinId, bool>, id: WinId)
    requires ManagerOk(m) && m.active && !m.dialogUp && !m.throttled && id in m.jobs
    ensures id in Cycle(m, starts).jobs
    ensures Cycle(m, starts).jobs[id] ==
              if !m.win[id].obscured && id in starts then Job(true, Running, starts[id])
              else Job(false, Invalid, false)
  {
  }

  /** By a call or by the timer, if that is set. */
  lemma CyclesAlike(s: State, i: Input)
    ensures Step(s, CycleCall, i) == s.(m := Cycle(s.m, i.starts))
    ensures s.m.cycleTimer ==> Step(s, CycleTimeout, i) == Step(s, CycleCall, i)
  {
    TimerStepForm(s, CycleTimeout, i);
  }

  /** A mapped window gets its saver, if one may be started and none has a child. */
  lemma MappedStarts(s: State, w: WinId, i: Input)
    requires Inv(s) && w in s.m.win
    ensures var s1 := Step(s, Mapped(w), i);
            && s1 == s.(m := s.m.(jobs := s1.m.jobs)) && s1.m.jobs.Keys == s.m.jobs.Keys
            && (forall v :: v in s.m.jobs && v != w ==> s1.m.jobs[v] == s.m.jobs[v])
            && s1.m.jobs[w] ==
                 if !s.m.jobs[w].alive && !s.m.dialogUp && !s.m.throttled && !s.m.win[w].obscured && w in i.starts
                 then Job(true, Running, i.starts[w]) else s.m.jobs[w]
  {
    MappedStepForm(s, w, i);
    StartsOne(s.m, w, i.starts);
  }

  lemma StartsOne(m: Manager, w: WinId, starts: map<WinId, bool>)
    requires w in m.jobs && w in m.win
    ensures var m1 := MaybeStartIn(m, w, starts);
            && m1 == m.(jobs := m1.jobs) && m1.jobs.Keys == m.jobs.Keys
            && (forall v :: v in m.jobs && v != w ==> m1.jobs[v] == m.jobs[v])
            && m1.jobs[w] ==
                 if !m.jobs[w].alive && !m.dialogUp && !m.throttled && !m.win[w].obscured && w in starts
                 then Job(true, Running, starts[w]) else m.jobs[w]
  {
    OneJobTouched(m.jobs, w, MaybeStart(m.win, w, m.jobs[w], starts));
  }

  lemma OneJobTouched(jobs: map<WinId, Job>, w: WinId, j: Job)
    requires w in jobs
    ensures jobs[w := j].Keys == jobs.Keys && jobs[w := jobs[w]] == jobs
  {
  }

  /** A window that is covered loses its saver, one that is uncovered gets it as if it were mapped. */
  lemma CoveredStops(s: State, w: WinId, i: Input)
    requires Inv(s) && w in s.m.win && !s.m.win[w].obscured
    ensures var m1 := Step(s, Visibility(w, true), i).m;
            m1.win == s.m.win[w := s.m.win[w].(obscured := true)] && w in m1.jobs && !m1.jobs[w].alive
  {
    VisibilityStepForm(s, w, true, i);
  }

  lemma UncoveredStarts(s: State, w: WinId, i: Input)
    requires Inv(s) && w in s.m.win && s.m.win[w].obscured
    ensures var m1 := Step(s, Visibility(w, false), i).m;
            && m1.win == s.m.win[w := s.m.win[w].(obscured := false)] && w in m1.jobs
            && (Executing(m1.jobs[w]) <==> !s.m.dialogUp && !s.m.throttled && w in i.starts)
  {
    VisibilityStepForm(s, w, false, i);
    assert JobOk(s.m.jobs[w], true, Quiet(s.m));
  }

  /** The end of a watched saver's output leaves it without a child, and no other saver is touched. */
  lemma OutputEndForgets(s: State, w: WinId, i: Input)
    requires Inv(s) && w in s.m.jobs && s.m.jobs[w].watch
    ensures Step(s, JobOutputEnds(w), i) == s.(m := s.m.(jobs := s.m.jobs[w := Job(false, Dead, false)]))
  {
    JobStepForm(s, w, i);
    assert JobOk(s.m.jobs[w], s.m.win[w].obscured, Quiet(s.m));
  }
}
