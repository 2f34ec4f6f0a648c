/**
 When the dialog flag is up with nothing left that could take it down again: the dialog could not be
 started, and requests to unlock are ignored because a dialog seems to be up.
 */
module SessionStuckDialog {
  import opened Basics
  import opened SessionModel
  import opened SessionInvariant
  import opened SessionSteps
  import opened SessionRuns
  import opened SessionOutcomes

  /** The window's dialog is about to be started, is running, or has answered OK. */
  predicate Underway(w: Win) {
    w.popupIdle || w.dialogWatch || w.responseOk
  }

  ghost predicate Stuck(m: Manager) {
    m.dialogUp && forall w :: w in m.win ==> !Underway(m.win[w])
  }

  /** This occurrence tries to start a dialog and cannot. */
  predicate FailsToSpawn(s: State, o: Occurrence) {
    && o.e.PopupIdle? && o.e.win in s.m.win && s.m.win[o.e.win].popupIdle
    && !(s.backend.Wayland? && !o.i.windowActive) && !o.i.dialogStarts
  }

  // ---------- steps that leave the dialogs alone ----------

  ghost predicate SameUnderway(win: map<WinId, Win>, win1: map<WinId, Win>) {
    win1.Keys == win.Keys && forall w :: w in win ==> Underway(win1[w]) == Underway(win[w])
  }

  ghost predicate SameDialogs(m: Manager, m1: Manager) {
    m1.dialogUp == m.dialogUp && SameUnderway(m.win, m1.win)
  }

  lemma SameStuck(m: Manager, m1: Manager)
    requires SameDialogs(m, m1)
    ensures Stuck(m1) <==> Stuck(m)
  {
  }

  lemma LockerSame(m: Manager)
    ensures SameDialogs(m, EnableLocker(m, true))
  {
  }

  lemma TouchSame(win: map<WinId, Win>, id: WinId, w: Win)
    requires id in win && Underway(w) == Underway(win[id])
    ensures SameUnderway(win, win[id := w])
  {
    assert win[id := w].Keys == win.Keys;
  }

  lemma TablesSame(s: State, e: Event, i: Input)
    requires ChangesTables(e)
    ensures SameDialogs(s.m, Step(s, e, i).m)
  {
    TablesForm(s, e, i);
  }

  lemma ActiveCallsSame(s: State, i: Input)
    requires Inv(s) && s.m.active
    ensures SameDialogs(s.m, DbusActivate(s, true, i).m) && SameDialogs(s.m, DbusLock(s, i).m)
  {
    LockerSame(s.m);
  }

  lemma CallsSame(s: State, e: Event, i: Input)
    requires Inv(s) && s.m.active && CallsForSaver(e)
    ensures SameDialogs(s.m, Step(s, e, i).m)
  {
    ActiveCallsSame(s, i);
    CallForm(s, e, i);
  }

  lemma TimersSame(s: State, e: Event, i: Input)
    requires e.CycleCall? || e.LockTimeout? || e.CycleTimeout?
    ensures SameDialogs(s.m, Step(s, e, i).m)
  {
    LockerSame(s.m);
  }

  lemma TicksSame(s: State, e: Event, i: Input)
    requires Ticks(e)
    ensures SameDialogs(s.m, Step(s, e, i).m)
  {
    if e.CycleCall? || e.LockTimeout? || e.CycleTimeout? {
      TimersSame(s, e, i);
    }
  }

  lemma VisibilitySame(m: Manager, id: WinId, hidden: bool, starts: map<WinId, bool>)
    requires id in m.win
    ensures SameDialogs(m, SetObscured(m, id, hidden, starts))
  {
    TouchSame(m.win, id, m.win[id].(obscured := hidden));
    if m.win[id].obscured != hidden {
      ObscuredForm(m, id, hidden, starts);
    }
  }

  lemma EmittedWin(m: Manager, id: WinId)
    requires id in m.win
    ensures var m1 := EmitDeactivated(m, id);
            m1.dialogUp == m.dialogUp && (m1.win == m.win || m1.win == m.win[id := m.win[id].(deactIdle := None)])
  {
  }

  lemma EmitSame(m: Manager, id: WinId)
    requires id in m.win
    ensures SameDialogs(m, EmitDeactivated(m, id))
  {
    TouchSame(m.win, id, m.win[id].(deactIdle := None));
    EmittedWin(m, id);
  }

  // ---------- steps that move the dialog ----------

  lemma OnlyOneUnderway(m: Manager, id: WinId)
    requires ManagerOk(m) && id in m.win && Underway(m.win[id])
    ensures m.dialogUp && m.win[id].dialogUp
    ensures forall w :: w in m.win && w != id ==> !Underway(m.win[w])
  {
    assert WinOk(m.win[id]);
    forall w | w in m.win && w != id ensures !Underway(m.win[w]) {
      assert WinOk(m.win[w]);
    }
  }

  lemma PopdownLowers(m: Manager, id: WinId, starts: map<WinId, bool>)
    requires ManagerOk(m) && id in m.win && m.win[id].dialogUp
    ensures !PopdownDialog(m, id, starts).dialogUp
  {
    LoweredForm(m, id, starts);
  }

  lemma NoneUnderway(m: Manager)
    requires ManagerOk(m) && !m.dialogUp
    ensures forall w :: w in m.win ==> !Underway(m.win[w])
  {
    forall w | w in m.win ensures !Underway(m.win[w]) {
      assert WinOk(m.win[w]);
    }
  }

  lemma Spawned(m: Manager, id: WinId, starts: map<WinId, bool>)
    requires id in m.win
    ensures !Stuck(PopupDialog(m, id, false, true, starts))
  {
    assert PopupDialog(m, id, false, true, starts).win[id].dialogWatch;
  }

  lemma NotSpawned(m: Manager, id: WinId, starts: map<WinId, bool>)
    requires ManagerOk(m) && id in m.win && m.win[id].popupIdle
    ensures Stuck(PopupDialog(m, id, false, false, starts))
  {
    OnlyOneUnderway(m, id);
    assert WinOk(m.win[id]);
  }

  lemma PopupMoves(m: Manager, id: WinId, refused: bool, spawned: bool, starts: map<WinId, bool>)
    requires ManagerOk(m) && id in m.win && m.win[id].popupIdle
    ensures !Stuck(m)
    ensures var m1 := PopupDialog(m, id, refused, spawned, starts);
            m1.dialogUp ==> (Stuck(m1) <==> !refused && !spawned)
  {
    OnlyOneUnderway(m, id);
    if refused {
      PopdownLowers(m, id, starts);
    } else if spawned {
      Spawned(m, id, starts);
    } else {
      NotSpawned(m, id, starts);
    }
  }

  lemma SaysMoves(m: Manager, id: WinId, o: Output, starts: map<WinId, bool>)
    requires ManagerOk(m) && m.active && id in m.win && m.win[id].dialogWatch
    ensures var m1 := DialogSays(m, id, o, starts);
            !Stuck(m) && (m1.dialogUp ==> !Stuck(m1))
  {
    OnlyOneUnderway(m, id);
    if EndingOf(o).Some? {
      if EndingOf(o).value == OkLine {
        assert DialogSays(m, id, o, starts).win[id].responseOk;
      } else {
        NotAnswered(m, id, EndingOf(o).value);
        PopdownLowers(m, id, starts);
      }
    }
  }

  lemma RecreateLowers(s: State, p: Prefs)
    requires ManagerOk(s.m)
    ensures !RecreateWindows(s, p).m.dialogUp
  {
    var s1 := s.(m := DestroyWindows(s.m), k := RemoveSurfaces(s.k, s.m.table.Values));
    CreateKeepsDialog(s1, s.monitors, p);
  }

  lemma CreateKeepsDialog(s: State, mons: seq<Mon>, p: Prefs)
    ensures CreateWindows(s, mons, p).m.dialogUp == s.m.dialogUp
  {
    if mons != [] {
      CreateKeepsDialog(s, mons[..|mons| - 1], p);
      CreateOnly(CreateWindows(s, mons[..|mons| - 1], p), mons[|mons| - 1], p);
    }
  }

  // ---------- any step ----------

  lemma PopupStepMoves(s: State, e: Event, i: Input)
    requires Inv(s) && s.m.dialogUp && e.PopupIdle? && Step(s, e, i).m.dialogUp
    ensures Stuck(Step(s, e, i).m) <==> Stuck(s.m) || FailsToSpawn(s, Occurrence(e, i))
  {
    var w := e.win;
    PopupStepForm(s, w, i);
    if w in s.m.win && s.m.win[w].popupIdle {
      PopupMoves(s.m, w, s.backend.Wayland? && !i.windowActive, i.dialogStarts, i.starts);
    }
  }

  lemma DeactivatedStepMoves(s: State, e: Event, i: Input)
    requires e.DeactivatedIdle?
    ensures Stuck(Step(s, e, i).m) <==> Stuck(s.m)
  {
    DeactivatedStepForm(s, e.win, i);
    if e.win in s.m.win {
      EmitSame(s.m, e.win);
      SameStuck(s.m, EmitDeactivated(s.m, e.win));
    }
  }

  lemma OutputStepMoves(s: State, e: Event, i: Input)
    requires Inv(s) && s.m.dialogUp && e.DialogOutput? && Step(s, e, i).m.dialogUp
    ensures Stuck(Step(s, e, i).m) <==> Stuck(s.m)
  {
    DialogStepForm(s, e.win, e.out, i);
    if e.win in s.m.win && s.m.win[e.win].dialogWatch {
      SaysMoves(s.m, e.win, e.out, i.starts);
    }
  }

  lemma DialogMoves(s: State, e: Event, i: Input)
    requires Inv(s) && s.m.dialogUp && MovesDialog(e) && Step(s, e, i).m.dialogUp
    ensures Stuck(Step(s, e, i).m) <==> Stuck(s.m) || FailsToSpawn(s, Occurrence(e, i))
  {
    if e.PopupIdle? {
      PopupStepMoves(s, e, i);
    } else if e.DeactivatedIdle? {
      DeactivatedStepMoves(s, e, i);
    } else {
      OutputStepMoves(s, e, i);
    }
  }

  lemma VisibilityMoves(s: State, w: WinId, hidden: bool, i: Input)
    ensures SameDialogs(s.m, Step(s, Visibility(w, hidden), i).m)
  {
    VisibilityStepForm(s, w, hidden, i);
    if w in s.m.win {
      VisibilitySame(s.m, w, hidden, i.starts);
    }
  }

  lemma HotplugMoves(s: State, now: seq<Mon>, i: Input)
    requires Inv(s)
    ensures Step(s, Hotplug(now), i).m.dialogUp ==> Step(s, Hotplug(now), i).m == s.m
  {
    HotplugStepForm(s, now, i);
    RecreateLowers(s.(monitors := now), i.p);
  }

  /** Events that never concern a dialog, in a session that stays active. */
  predicate Elsewhere(e: Event) {
    ChangesTables(e) || CallsForSaver(e) || Ticks(e) || e.Visibility?
  }

  lemma ElsewhereSame(s: State, e: Event, i: Input)
    requires Inv(s) && s.m.active && Elsewhere(e)
    ensures SameDialogs(s.m, Step(s, e, i).m)
  {
    if ChangesTables(e) {
      TablesSame(s, e, i);
    } else if CallsForSaver(e) {
      CallsSame(s, e, i);
    } else if Ticks(e) {
      TicksSame(s, e, i);
    } else {
      VisibilityMoves(s, e.win, e.hidden, i);
    }
  }

  lemma EndingLowers(s: State, e: Event, i: Input)
    requires Inv(s) && (e == SetActive(false) || e.ManagerIdle?) && Step(s, e, i).m.dialogUp
    ensures Step(s, e, i).m == s.m
  {
    DeactivateKeeps(s);
  }

  lemma AskedUnchanged(s: State, e: Event, i: Input)
    requires s.m.dialogUp && AsksUnlock(e)
    ensures Step(s, e, i) == s
  {
    AskedStep(s, e, i);
  }

  /** The remaining events lower the flag or, with it up, do nothing to the manager. */
  lemma RestUnchanged(s: State, e: Event, i: Input)
    requires Inv(s) && s.m.dialogUp && !MovesDialog(e) && !Elsewhere(e) && Step(s, e, i).m.dialogUp
    ensures Step(s, e, i).m == s.m
  {
    if AsksUnlock(e) {
      AskedUnchanged(s, e, i);
    } else if e.Hotplug? {
      HotplugMoves(s, e.now, i);
    } else {
      EndingLowers(s, e, i);
    }
  }

  /** A step through which the dialog flag stays up leaves the dialog stuck exactly if it was, or if it
      tried to start it and could not. */
  lemma StaysStuck(s: State, e: Event, i: Input)
    requires Inv(s) && s.m.dialogUp && Step(s, e, i).m.dialogUp
    ensures Stuck(Step(s, e, i).m) <==> Stuck(s.m) || FailsToSpawn(s, Occurrence(e, i))
  {
    if MovesDialog(e) {
      DialogMoves(s, e, i);
    } else if Elsewhere(e) {
      ElsewhereSame(s, e, i);
      SameStuck(s.m, Step(s, e, i).m);
    } else {
      RestUnchanged(s, e, i);
    }
  }

  lemma BecomesWithoutDialog(s: State, i: Input)
    requires !s.m.dialogUp
    ensures !BecomeActive(s, i).m.dialogUp
  {
    var s2 := CreateWindows(Entered(s, i), s.monitors, i.p);
    CreateKeepsDialog(Entered(s, i), s.monitors, i.p);
    ShownKeepsDialog(s2, i.p);
    AfterKeepsDialog(Shown(s2, i.p), i.p);
    BecomeActiveForm(s, i);
  }

  lemma ShownKeepsDialog(s: State, p: Prefs)
    ensures Shown(s, p).m.dialogUp == s.m.dialogUp
  {
  }

  lemma AfterKeepsDialog(s: State, p: Prefs)
    ensures AfterActivated(s, p).m.dialogUp == s.m.dialogUp
  {
  }

  lemma ActivateKeepsDialog(s: State, on: bool, i: Input)
    requires !s.m.dialogUp
    ensures !DbusActivate(s, on, i).m.dialogUp
  {
    BecomesWithoutDialog(s, i);
  }

  lemma CallsKeepDialogDown(s: State, e: Event, i: Input)
    requires !s.m.dialogUp && (CallsForSaver(e) || e.SetActive?)
    ensures !Step(s, e, i).m.dialogUp
  {
    ActivateKeepsDialog(s, if e.SetActive? then e.on else true, i);
    ActivateKeepsDialog(s.(m := EnableLocker(s.m, true)), true, i);
    CallForm(s, e, i);
  }

  lemma DialogKeptDown(s: State, e: Event, i: Input)
    requires Inv(s) && !s.m.dialogUp && MovesDialog(e)
    ensures !Step(s, e, i).m.dialogUp && !FailsToSpawn(s, Occurrence(e, i))
  {
    NoneUnderway(s.m);
    match e
    case PopupIdle(w) => PopupStepForm(s, w, i);
    case DeactivatedIdle(w) => DeactivatedStepForm(s, w, i);
    case DialogOutput(w, o) => DialogStepForm(s, w, o, i);
  }

  /** Nothing but a request to unlock raises the dialog flag. */
  lemma KeptDown(s: State, e: Event, i: Input)
    requires Inv(s) && !s.m.dialogUp && !AsksUnlock(e)
    ensures !Step(s, e, i).m.dialogUp && !FailsToSpawn(s, Occurrence(e, i))
  {
    if MovesDialog(e) {
      DialogKeptDown(s, e, i);
    } else if CallsForSaver(e) || e.SetActive? {
      CallsKeepDialogDown(s, e, i);
    } else if e.Visibility? {
      VisibilityMoves(s, e.win, e.hidden, i);
    } else if e.Hotplug? {
      HotplugMoves(s, e.now, i);
    } else if ChangesTables(e) {
      TablesSame(s, e, i);
    } else if Ticks(e) {
      TicksSame(s, e, i);
    }
  }

  lemma RaisedUnderway(m: Manager, at: Mon)
    requires ManagerOk(m) && !m.dialogUp
    ensures !Stuck(RequestUnlock(m, at))
  {
    if m.active && at in m.table {
      var id := m.table[at];
      assert id in m.win && WinOk(m.win[id]);
      if m.win[id].lockActive {
        RaisedForm(m, id);
        assert Raised(m, id).win[id].popupIdle;
      }
    }
  }

  /** A dialog that was just asked for is under way. */
  lemma NotStuckAtFirst(s: State, e: Event, i: Input)
    requires Inv(s) && !s.m.dialogUp
    ensures !Stuck(Step(s, e, i).m) && !FailsToSpawn(s, Occurrence(e, i))
  {
    if AsksUnlock(e) {
      AskedStep(s, e, i);
      RaisedUnderway(s.m, i.at);
    } else {
      KeptDown(s, e, i);
    }
  }

  // ---------- any run ----------

  predicate HasDialogUp(s: State) {
    s.m.dialogUp
  }

  /** In every run the dialog flag is up with nothing under way if and only if the program tried to start
      the dialog, could not, and the flag has been up ever since. */
  lemma {:induction false} StuckExactly(b: Backend, monitors: seq<Mon>, run: seq<Occurrence>)
    requires NoDup(monitors)
    ensures Stuck(Run(Start(b, monitors), run).m) <==> Since(Start(b, monitors), run, FailsToSpawn, HasDialogUp)
  {
    var s0 := Start(b, monitors);
    if run != [] {
      var most, last := run[..|run| - 1], run[|run| - 1];
      assert run == most + [last];
      StuckExactly(b, monitors, most);
      RunKeeps(b, monitors, most);
      RunOneMore(s0, most, last);
      SinceLonger(s0, most, last, FailsToSpawn, HasDialogUp);
      OneMoreStuck(Run(s0, most), last);
    }
  }

  lemma OneMoreStuck(s: State, o: Occurrence)
    requires Inv(s)
    ensures Stuck(Step(s, o.e, o.i).m)
       <==> Step(s, o.e, o.i).m.dialogUp && (Stuck(s.m) || FailsToSpawn(s, o))
  {
    assert o == Occurrence(o.e, o.i);
    if s.m.dialogUp {
      if Step(s, o.e, o.i).m.dialogUp {
        StaysStuck(s, o.e, o.i);
      }
    } else {
      NotStuckAtFirst(s, o.e, o.i);
    }
  }

  /** With a stuck dialog requests to unlock do nothing, and only the end of the session or a change of
      monitors takes the flag down. */
  lemma StuckUntil(s: State, e: Event, i: Input)
    requires Inv(s) && Stuck(s.m)
    ensures AsksUnlock(e) ==> Step(s, e, i) == s
    ensures e != SetActive(false) && !(e.ManagerIdle? && s.m.idles != []) && !e.Hotplug? ==> Stuck(Step(s, e, i).m)
  {
    if AsksUnlock(e) {
      AskedUnchanged(s, e, i);
    } else if e != SetActive(false) && !(e.ManagerIdle? && s.m.idles != []) && !e.Hotplug? {
      FlagStays(s, e, i);
      StaysStuck(s, e, i);
    }
  }

  lemma FlagStays(s: State, e: Event, i: Input)
    requires Inv(s) && Stuck(s.m) && !AsksUnlock(e)
    requires e != SetActive(false) && !(e.ManagerIdle? && s.m.idles != []) && !e.Hotplug?
    ensures Step(s, e, i).m.dialogUp
  {
    if Elsewhere(e) {
      ElsewhereSame(s, e, i);
    } else if MovesDialog(e) {
      DialogFlagStays(s, e, i);
    }
  }

  lemma DialogFlagStays(s: State, e: Event, i: Input)
    requires Stuck(s.m) && MovesDialog(e)
    ensures Step(s, e, i).m.dialogUp
  {
    match e
    case PopupIdle(w) => PopupStepForm(s, w, i);
    case DeactivatedIdle(w) => DeactivatedStepForm(s, w, i);
    case DialogOutput(w, o) => DialogStepForm(s, w, o, i);
  }
}
