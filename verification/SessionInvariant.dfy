/**
 What holds between any two steps of the session, and the proof that every step keeps it.
 */
module SessionInvariant {
  import opened Basics
  import opened SessionModel

  // ---------- the manager, its windows and its jobs ----------

  ghost predicate Injective(t: map<Mon, WinId>) {
    forall a, b :: a in t && b in t && t[a] == t[b] ==> a == b
  }

  /** The window table, the windows and the jobs name the same windows. */
  ghost predicate TablesMatch(m: Manager) {
    && Injective(m.table)
    && m.table.Values == m.win.Keys == m.jobs.Keys
    && (forall i :: i in m.win ==> i < m.nextWin)
  }

  predicate Justified(c: Cause) {
    match c
    case DialogEnded(_, how) => how == OkLine
    case OpenRequest(_, locked) => !locked
  }

  /** One window's dialog machinery: the pending idle, the child, its watch and its answer. */
  predicate WinOk(w: Win) {
    && (w.dialogUp ==> w.lockActive)
    && (w.popupIdle ==> w.dialogUp && !w.dialogAlive && !w.responseOk)
    && (w.dialogWatch ==> w.dialogAlive && !w.responseOk)
    && (w.dialogAlive ==> w.dialogUp)
    && (w.responseOk ==> w.dialogUp)
    && (w.deactIdle.Some? ==> Justified(w.deactIdle.value))
  }

  ghost predicate WindowsOk(win: map<WinId, Win>, lock: bool, dialog: bool) {
    forall i :: i in win ==>
      && WinOk(win[i])
      && win[i].visible
      && win[i].lockActive == lock
      && win[i].sensitive == (!dialog || win[i].dialogUp)
  }

  ghost predicate OneDialog(win: map<WinId, Win>, dialog: bool) {
    && (dialog ==> exists i :: i in win && win[i].dialogUp)
    && (forall i :: i in win && win[i].dialogUp ==> dialog)
    && (forall i, j :: i in win && j in win && win[i].dialogUp && win[j].dialogUp ==> i == j)
  }

  /** quiet: no job may execute now. */
  predicate JobOk(j: Job, hidden: bool, quiet: bool) {
    && (j.alive ==> (j.status == Running || j.status == Stopped) && !hidden)
    && (!j.alive ==> (j.status == Invalid || j.status == Dead) && !j.watch)
    && (Executing(j) ==> !quiet)
  }

  ghost predicate JobsOk(jobs: map<WinId, Job>, win: map<WinId, Win>, quiet: bool) {
    forall i :: i in jobs ==> i in win && JobOk(jobs[i], win[i].obscured, quiet)
  }

  ghost predicate Alternates(a: seq<Auth>) {
    forall n :: 0 <= n < |a| ==> a[n] == if n % 2 == 0 then Begin else End
  }

  ghost predicate AuthOk(auth: seq<Auth>, dialog: bool) {
    && Alternates(auth)
    && (dialog <==> |auth| % 2 == 1)
  }

  ghost predicate CausesOk(cs: seq<Cause>) {
    forall n :: 0 <= n < |cs| ==> Justified(cs[n])
  }

  predicate Idle(m: Manager) {
    m.table == map[] && m.win == map[] && m.jobs == map[] && m.handlers == 0
    && !m.lockTimer && !m.cycleTimer && !m.dialogUp
  }

  ghost predicate ManagerOk(m: Manager) {
    && TablesMatch(m)
    && WindowsOk(m.win, m.lockActive, m.dialogUp)
    && OneDialog(m.win, m.dialogUp)
    && JobsOk(m.jobs, m.win, Quiet(m))
    && AuthOk(m.auth, m.dialogUp)
    && CausesOk(m.idles) && CausesOk(m.ended)
    && (if m.active then m.handlers == 1 else Idle(m))
  }

  // ---------- the whole session ----------

  ghost predicate MonitorsOk(s: State) {
    && NoDup(s.monitors)
    && (s.m.active ==> s.m.table.Keys == set x | x in s.monitors)
  }

  predicate Agree(s: State) {
    && s.d.active == s.m.active
    && s.d.throttled == s.m.throttled == (s.d.throttlers != map[])
  }

  predicate AlarmsOk(s: State) {
    if !Listening(s.backend) then s.a.armed == map[] else
      && (Deactivate in s.a.armed <==> s.m.active)
      && (Activate in s.a.armed <==> !s.m.active && s.a.enabled)
      && (LockLater in s.a.armed ==> s.m.active)
      && (Activate in s.a.armed ==> s.a.armed[Activate] == s.a.timeout)
      && (Deactivate in s.a.armed ==> s.a.armed[Deactivate] == 0)
  }

  /** Locks are taken one after the other; all but the last are given up, each by one request. */
  ghost predicate LocksOk(k: Locker) {
    && k.next == |k.ended| + (if k.cur.Some? then 1 else 0)
    && (forall n :: 0 <= n < |k.ended| ==>
          k.ended[n].lock == n && (k.ended[n].how == UnlockAndDestroy <==> n in k.received))
    && (forall n :: n in k.received ==> n < k.next)
    && (k.cur.Some? ==> k.cur.value == |k.ended| && (k.locked <==> |k.ended| in k.received))
    && (k.cur.None? ==> !k.locked && k.surfaces == {})
  }

  ghost predicate LockFits(s: State) {
    && LocksOk(s.k)
    && (s.k.cur.Some? ==> s.m.active && s.backend.Wayland? && s.backend.lockManager)
    && (s.k.cur.Some? ==> s.k.surfaces == s.m.win.Keys)
  }

  ghost predicate Inv(s: State) {
    ManagerOk(s.m) && MonitorsOk(s) && Agree(s) && AlarmsOk(s) && LockFits(s)
  }

  lemma StartOk(b: Backend, monitors: seq<Mon>)
    requires NoDup(monitors)
    ensures Inv(Start(b, monitors))
  {
  }

  // ---------- jobs ----------

  lemma StartAllOk(win: map<WinId, Win>, jobs: map<WinId, Job>, starts: map<WinId, bool>, quiet: bool)
    requires JobsOk(jobs, win, quiet)
    ensures JobsOk(StartAll(win, jobs, starts), win, false)
    ensures JobsOk(RenewAll(win, jobs, starts), win, false)
  {
  }

  /** A suspended job comes back only with its window visible: an obscured window has no child. */
  lemma ResumeAllOk(win: map<WinId, Win>, jobs: map<WinId, Job>, starts: map<WinId, bool>)
    requires JobsOk(jobs, win, true)
    ensures JobsOk(ResumeAll(win, jobs, starts), win, false)
  {
  }

  lemma StopAllOk(jobs: map<WinId, Job>, win: map<WinId, Win>, quiet: bool)
    requires JobsOk(jobs, win, quiet)
    ensures JobsOk(StopAll(jobs), win, true)
  {
  }

  lemma ThrottleKeeps(m: Manager, on: bool, starts: map<WinId, bool>)
    requires ManagerOk(m)
    ensures ManagerOk(SetThrottled(m, on, starts))
  {
    if m.throttled != on && !m.dialogUp {
      if on {
        StopAllOk(m.jobs, m.win, false);
      } else {
        StartAllOk(m.win, m.jobs, starts, true);
      }
    }
  }

  lemma CycleKeeps(m: Manager, starts: map<WinId, bool>)
    requires ManagerOk(m)
    ensures ManagerOk(Cycle(m, starts))
  {
    StartAllOk(m.win, m.jobs, starts, Quiet(m));
  }

  lemma OneJobKeeps(m: Manager, id: WinId, j: Job)
    requires ManagerOk(m) && id in m.jobs && JobOk(j, m.win[id].obscured, Quiet(m))
    ensures ManagerOk(m.(jobs := m.jobs[id := j]))
  {
    assert m.jobs[id := j].Keys == m.jobs.Keys;
  }

  lemma StartKeeps(m: Manager, id: WinId, starts: map<WinId, bool>)
    requires ManagerOk(m)
    ensures ManagerOk(MaybeStartIn(m, id, starts))
  {
    if id in m.jobs && !Quiet(m) {
      OneJobKeeps(m, id, MaybeStart(m.win, id, m.jobs[id], starts));
    }
  }

  lemma JobWatchKeeps(m: Manager, id: WinId)
    requires ManagerOk(m) && id in m.jobs
    ensures ManagerOk(m.(jobs := m.jobs[id := JobWatchEnds(m.jobs[id])]))
  {
    OneJobKeeps(m, id, JobWatchEnds(m.jobs[id]));
  }

  // ---------- windows ----------

  lemma TouchWindows(win: map<WinId, Win>, id: WinId, w: Win, lock: bool, dialog: bool)
    requires WindowsOk(win, lock, dialog) && OneDialog(win, dialog) && id in win && WinOk(w)
    requires w.dialogUp == win[id].dialogUp && w.lockActive == win[id].lockActive
    requires w.visible && w.sensitive == win[id].sensitive
    ensures WindowsOk(win[id := w], lock, dialog) && OneDialog(win[id := w], dialog)
  {
    if dialog {
      var i :| i in win && win[i].dialogUp;
      assert win[id := w][i].dialogUp;
    }
  }

  lemma TouchJobs(jobs: map<WinId, Job>, win: map<WinId, Win>, id: WinId, w: Win, quiet: bool)
    requires JobsOk(jobs, win, quiet) && id in win && w.obscured == win[id].obscured
    ensures JobsOk(jobs, win[id := w], quiet)
  {
  }

  /** Changing a window in no way the rest of the manager looks at. */
  lemma TouchWindow(m: Manager, id: WinId, w: Win)
    requires ManagerOk(m) && id in m.win && WinOk(w)
    requires w.dialogUp == m.win[id].dialogUp && w.lockActive == m.win[id].lockActive
    requires w.visible && w.sensitive == m.win[id].sensitive && w.obscured == m.win[id].obscured
    ensures ManagerOk(m.(win := m.win[id := w]))
  {
    TouchWindows(m.win, id, w, m.lockActive, m.dialogUp);
    TouchJobs(m.jobs, m.win, id, w, Quiet(m));
    assert m.win[id := w].Keys == m.win.Keys;
  }

  lemma CoverJobs(jobs: map<WinId, Job>, win: map<WinId, Win>, id: WinId, w: Win, quiet: bool)
    requires JobsOk(jobs, win, quiet) && id in win && id in jobs
    ensures JobsOk(jobs[id := StopJob(jobs[id])], win[id := w], quiet)
  {
  }

  /** A window is covered: its job has no child from then on. */
  lemma CoverKeeps(m: Manager, id: WinId)
    requires ManagerOk(m) && id in m.win
    ensures ManagerOk(MaybeStopIn(m.(win := m.win[id := m.win[id].(obscured := true)]), id))
  {
    var w := m.win[id].(obscured := true);
    TouchWindows(m.win, id, w, m.lockActive, m.dialogUp);
    CoverJobs(m.jobs, m.win, id, w, Quiet(m));
    assert m.win[id := w].Keys == m.win.Keys;
    assert m.jobs[id := StopJob(m.jobs[id])].Keys == m.jobs.Keys;
  }

  lemma UncoverKeeps(m: Manager, id: WinId, starts: map<WinId, bool>)
    requires ManagerOk(m) && id in m.win
    ensures ManagerOk(MaybeStartIn(m.(win := m.win[id := m.win[id].(obscured := false)]), id, starts))
  {
    var w := m.win[id].(obscured := false);
    TouchWindows(m.win, id, w, m.lockActive, m.dialogUp);
    assert m.win[id := w].Keys == m.win.Keys;
    StartKeeps(m.(win := m.win[id := w]), id, starts);
  }

  lemma ObscuredKeeps(m: Manager, id: WinId, hidden: bool, starts: map<WinId, bool>)
    requires ManagerOk(m) && id in m.win
    ensures ManagerOk(SetObscured(m, id, hidden, starts))
  {
    if hidden {
      CoverKeeps(m, id);
    } else {
      UncoverKeeps(m, id, starts);
    }
  }

  lemma LockAllOk(win: map<WinId, Win>, lock: bool, dialog: bool)
    requires WindowsOk(win, lock, dialog) && OneDialog(win, dialog)
    ensures WindowsOk(LockAll(win, win.Keys, true), true, dialog)
    ensures OneDialog(LockAll(win, win.Keys, true), dialog)
    ensures LockAll(win, win.Keys, true).Keys == win.Keys
  {
    var win1 := LockAll(win, win.Keys, true);
    if dialog {
      var i :| i in win && win[i].dialogUp;
      assert win1[i].dialogUp;
    }
  }

  lemma LockerKeeps(m: Manager)
    requires ManagerOk(m)
    ensures ManagerOk(EnableLocker(m, true))
    ensures EnableLocker(m, true).win.Keys == m.win.Keys
  {
    LockAllOk(m.win, m.lockActive, m.dialogUp);
    assert JobsOk(m.jobs, LockAll(m.win, m.win.Keys, true), Quiet(m));
    assert m.win == map[] ==> LockAll(m.win, m.win.Keys, true) == map[];
  }

  // ---------- dialogs ----------

  lemma RaiseWindows(win: map<WinId, Win>, id: WinId, w: Win)
    requires WindowsOk(win, true, false) && OneDialog(win, false) && id in win
    requires w == win[id].(popupIdle := true, dialogUp := true)
    ensures var win1 := Desensitize(win[id := w], win.Keys - {id});
            win1.Keys == win.Keys && WindowsOk(win1, true, true) && OneDialog(win1, true)
  {
    var win1 := Desensitize(win[id := w], win.Keys - {id});
    assert win1[id].dialogUp;
  }

  lemma RaiseJobs(jobs: map<WinId, Job>, win: map<WinId, Win>, id: WinId, w: Win, throttled: bool)
    requires JobsOk(jobs, win, throttled) && id in win && w.obscured == win[id].obscured
    ensures JobsOk(if throttled then jobs else SuspendAll(jobs),
                   Desensitize(win[id := w], win.Keys - {id}), true)
  {
  }

  lemma Toggled(auth: seq<Auth>, dialog: bool)
    requires AuthOk(auth, dialog)
    ensures AuthOk(auth + [if dialog then End else Begin], !dialog)
  {
  }

  function Raised(m: Manager, id: WinId): Manager
    requires id in m.win
  {
    m.(dialogUp := true, auth := m.auth + [Begin],
       win := Desensitize(m.win[id := m.win[id].(popupIdle := true, dialogUp := true)], m.win.Keys - {id}),
       jobs := if m.throttled then m.jobs else SuspendAll(m.jobs))
  }

  lemma RaisedForm(m: Manager, id: WinId)
    requires id in m.win && !m.win[id].dialogUp && m.table.Values == m.win.Keys
    ensures SetDialogUp(m.(win := m.win[id := m.win[id].(popupIdle := true)]), id, true, map[]) == Raised(m, id)
  {
    var w := m.win[id].(popupIdle := true, dialogUp := true);
    assert m.win[id := m.win[id].(popupIdle := true)][id := w] == m.win[id := w];
  }

  lemma RaisedOk(m: Manager, id: WinId)
    requires ManagerOk(m) && m.active && !m.dialogUp && id in m.win && m.win[id].lockActive
    ensures ManagerOk(Raised(m, id))
  {
    var w := m.win[id].(popupIdle := true, dialogUp := true);
    RaiseWindows(m.win, id, w);
    RaiseJobs(m.jobs, m.win, id, w, m.throttled);
    Toggled(m.auth, false);
  }

  lemma DialogRises(m: Manager, id: WinId)
    requires ManagerOk(m) && m.active && !m.dialogUp && id in m.win && m.win[id].lockActive
    ensures ManagerOk(SetDialogUp(m.(win := m.win[id := m.win[id].(popupIdle := true)]), id, true, map[]))
  {
    RaisedForm(m, id);
    RaisedOk(m, id);
  }

  lemma RequestKeeps(m: Manager, at: Mon)
    requires ManagerOk(m)
    ensures ManagerOk(RequestUnlock(m, at))
  {
    if m.active && !m.dialogUp && at in m.table {
      var id := m.table[at];
      assert id in m.win;
      var w := m.win[id];
      if w.lockActive {
        DialogRises(m, id);
      } else {
        TouchWindow(m, id, w.(deactIdle := Some(OpenRequest(id, w.lockActive))));
      }
    }
  }

  function Fallen(win: map<WinId, Win>, id: WinId): map<WinId, Win>
    requires id in win
  {
    Sensitize(win[id := win[id].(dialogAlive := false, dialogUp := false)], win.Keys)
  }

  lemma LowerWindows(win: map<WinId, Win>, id: WinId, lock: bool)
    requires WindowsOk(win, lock, true) && OneDialog(win, true) && id in win
    requires win[id].dialogUp && !win[id].responseOk
    ensures var win1 := Fallen(win, id);
            var win2 := win1[id := win1[id].(popupIdle := false, dialogWatch := false)];
            win2.Keys == win.Keys && WindowsOk(win2, lock, false) && OneDialog(win2, false)
  {
  }

  function Lowered(m: Manager, id: WinId, starts: map<WinId, bool>): Manager
    requires id in m.win
  {
    var win := Fallen(m.win, id);
    m.(dialogUp := false, auth := m.auth + [End],
       win := win[id := win[id].(popupIdle := false, dialogWatch := false)],
       jobs := if m.throttled then m.jobs else ResumeAll(m.win, m.jobs, starts))
  }

  lemma SameHidden(win: map<WinId, Win>, win1: map<WinId, Win>, jobs: map<WinId, Job>, starts: map<WinId, bool>)
    requires win.Keys == win1.Keys && forall i :: i in win ==> win[i].obscured == win1[i].obscured
    ensures ResumeAll(win, jobs, starts) == ResumeAll(win1, jobs, starts)
  {
  }

  lemma SetDown(m: Manager, id: WinId, w: Win, starts: map<WinId, bool>)
    requires id in m.win && w.dialogUp
    ensures SetDialogUp(m.(win := m.win[id := w]), id, false, starts)
         == DialogDown(m.(win := m.win[id := w.(dialogUp := false)]), starts)
  {
    assert m.win[id := w][id := w.(dialogUp := false)] == m.win[id := w.(dialogUp := false)];
  }

  lemma DownWith(m: Manager, win: map<WinId, Win>, starts: map<WinId, bool>)
    requires ResumeAll(m.win, m.jobs, starts) == ResumeAll(win, m.jobs, starts)
    ensures DialogDown(m.(win := win), starts)
         == m.(dialogUp := false, auth := m.auth + [End], win := Sensitize(win, m.table.Values),
               jobs := if m.throttled then m.jobs else ResumeAll(m.win, m.jobs, starts))
  {
  }

  lemma DownWithOne(m: Manager, id: WinId, w: Win, starts: map<WinId, bool>)
    requires id in m.win && w.obscured == m.win[id].obscured
    ensures DialogDown(m.(win := m.win[id := w]), starts)
         == m.(dialogUp := false, auth := m.auth + [End], win := Sensitize(m.win[id := w], m.table.Values),
               jobs := if m.throttled then m.jobs else ResumeAll(m.win, m.jobs, starts))
  {
    SameHidden(m.win, m.win[id := w], m.jobs, starts);
    DownWith(m, m.win[id := w], starts);
  }

  lemma FallenForm(m: Manager, id: WinId, starts: map<WinId, bool>)
    requires id in m.win && m.win[id].dialogUp && m.table.Values == m.win.Keys
    ensures SetDialogUp(m.(win := m.win[id := m.win[id].(dialogAlive := false)]), id, false, starts)
         == m.(dialogUp := false, auth := m.auth + [End], win := Fallen(m.win, id),
               jobs := if m.throttled then m.jobs else ResumeAll(m.win, m.jobs, starts))
  {
    SetDown(m, id, m.win[id].(dialogAlive := false), starts);
    DownWithOne(m, id, m.win[id].(dialogAlive := false, dialogUp := false), starts);
  }

  lemma LoweredForm(m: Manager, id: WinId, starts: map<WinId, bool>)
    requires id in m.win && m.win[id].dialogUp && m.table.Values == m.win.Keys
    ensures PopdownDialog(m, id, starts) == Lowered(m, id, starts)
  {
    FallenForm(m, id, starts);
  }

  lemma LoweredJobs(jobs: map<WinId, Job>, win: map<WinId, Win>, win1: map<WinId, Win>, throttled: bool,
                    starts: map<WinId, bool>)
    requires JobsOk(jobs, win, true)
    requires win.Keys == win1.Keys && forall i :: i in win ==> win[i].obscured == win1[i].obscured
    ensures JobsOk(if throttled then jobs else ResumeAll(win, jobs, starts), win1, throttled)
  {
    ResumeAllOk(win, jobs, starts);
  }

  lemma LoweredOk(m: Manager, id: WinId, starts: map<WinId, bool>)
    requires ManagerOk(m) && m.active && id in m.win && m.win[id].dialogUp && !m.win[id].responseOk
    ensures ManagerOk(Lowered(m, id, starts))
  {
    LowerWindows(m.win, id, m.lockActive);
    LoweredJobs(m.jobs, m.win, Lowered(m, id, starts).win, m.throttled, starts);
    Toggled(m.auth, true);
  }

  lemma PopdownKeeps(m: Manager, id: WinId, starts: map<WinId, bool>)
    requires ManagerOk(m) && m.active && id in m.win && !m.win[id].responseOk
    ensures ManagerOk(PopdownDialog(m, id, starts))
  {
    if m.win[id].dialogUp {
      LoweredForm(m, id, starts);
      LoweredOk(m, id, starts);
    } else {
      assert m.win[id := m.win[id].(dialogAlive := false)] == m.win;
      assert PopdownDialog(m, id, starts).win == m.win;
    }
  }

  lemma AnsweredOk(m: Manager, id: WinId, starts: map<WinId, bool>)
    requires ManagerOk(m) && id in m.win && m.win[id].dialogWatch
    ensures ManagerOk(DialogFinished(Answered(m, id, OkLine), id, OkLine, starts))
  {
    var w := m.win[id].(responseOk := true, deactIdle := Some(DialogEnded(id, OkLine)), dialogWatch := false);
    assert m.win[id := m.win[id].(responseOk := true)][id := w] == m.win[id := w];
    TouchWindow(m, id, w);
  }

  lemma SameAnswer(win: map<WinId, Win>, id: WinId)
    requires id in win && !win[id].responseOk
    ensures win[id := win[id].(responseOk := false)] == win
  {
    var w := win[id];
    assert w.(responseOk := false) == w;
  }

  lemma NotAnswered(m: Manager, id: WinId, e: Ending)
    requires id in m.win && !m.win[id].responseOk && e != OkLine
    ensures Answered(m, id, e) == m
  {
    SameAnswer(m.win, id);
  }

  /** While its output is watched a window's answer is not OK, so only an OK line finishes it so. */
  lemma DialogSaysKeeps(m: Manager, id: WinId, o: Output, starts: map<WinId, bool>)
    requires ManagerOk(m) && m.active && id in m.win && m.win[id].dialogWatch
    ensures ManagerOk(DialogSays(m, id, o, starts))
  {
    if EndingOf(o).Some? {
      if EndingOf(o).value == OkLine {
        AnsweredOk(m, id, starts);
      } else {
        NotAnswered(m, id, EndingOf(o).value);
        PopdownKeeps(m, id, starts);
      }
    }
  }

  lemma PopupKeeps(m: Manager, id: WinId, refused: bool, spawned: bool, starts: map<WinId, bool>)
    requires ManagerOk(m) && m.active && id in m.win && m.win[id].popupIdle
    ensures ManagerOk(PopupDialog(m, id, refused, spawned, starts))
  {
    if refused {
      PopdownKeeps(m, id, starts);
    } else if spawned {
      TouchWindow(m, id, m.win[id].(popupIdle := false, dialogAlive := true, dialogWatch := true));
    } else {
      TouchWindow(m, id, m.win[id].(popupIdle := false));
    }
  }

  lemma QueueCause(m: Manager, c: Cause)
    requires ManagerOk(m) && Justified(c)
    ensures ManagerOk(m.(idles := m.idles + [c]))
  {
  }

  lemma EmitKeeps(m: Manager, id: WinId)
    requires ManagerOk(m) && id in m.win
    ensures ManagerOk(EmitDeactivated(m, id))
  {
    if m.win[id].deactIdle.Some? {
      TouchWindow(m, id, m.win[id].(deactIdle := None));
      QueueCause(m.(win := m.win[id := m.win[id].(deactIdle := None)]), m.win[id].deactIdle.value);
    }
  }

  // ---------- creating and destroying windows ----------

  /** A window joins an active session that shows no dialog. */
  function Joined(m: Manager, mon: Mon, p: Prefs): Manager {
    m.(table := m.table[mon := m.nextWin],
       win := ShowAll(m.win[m.nextWin := NewWin(m.lockActive)], {m.nextWin}),
       nextWin := m.nextWin + 1,
       jobs := AddJobs(m.jobs, {m.nextWin}),
       lockTimer := p.lockEnabled && p.lockWithSaver && !m.lockActive,
       cycleTimer := m.cycleTimer || p.random)
  }

  function LockedFirst(m: Manager, p: Prefs): Manager {
    if LocksAtOnce(p) && !m.lockActive then EnableLocker(m, true) else m
  }

  lemma LockCommutes(win: map<WinId, Win>, id: WinId, ids: set<WinId>)
    requires id in ids
    ensures LockAll(win[id := NewWin(false)], ids, true) == LockAll(win, ids, true)[id := NewWin(true)]
  {
  }

  lemma LockMore(win: map<WinId, Win>, ids: set<WinId>, ids1: set<WinId>)
    requires win.Keys <= ids && win.Keys <= ids1
    ensures LockAll(win, ids, true) == LockAll(win, ids1, true)
  {
  }

  lemma AddedValues(t: map<Mon, WinId>, mon: Mon, id: WinId)
    requires mon !in t
    ensures t[mon := id].Values == t.Values + {id}
    ensures t[mon := id].Keys == t.Keys + {mon}
  {
    var t1 := t[mon := id];
    assert t1[mon] == id;
    assert forall k :: k in t ==> t1[k] == t[k];
    assert t.Values + {id} <= t1.Values;
  }

  lemma JoinedPlain(m: Manager, mon: Mon, p: Prefs)
    requires !(LocksAtOnce(p) && !m.lockActive)
    ensures ShowWindows(AddWindow(m, mon), {m.nextWin}, p) == Joined(m, mon, p)
  {
  }

  lemma JoinedLocking(m: Manager, mon: Mon, p: Prefs)
    requires LocksAtOnce(p) && !m.lockActive
    requires LockAll(m.win[m.nextWin := NewWin(false)], m.table[mon := m.nextWin].Values, true)
          == LockAll(m.win, m.table.Values, true)[m.nextWin := NewWin(true)]
    ensures ShowWindows(AddWindow(m, mon), {m.nextWin}, p) == Joined(EnableLocker(m, true), mon, p)
  {
  }

  lemma JoinedForm(m: Manager, mon: Mon, p: Prefs)
    requires m.table.Values == m.win.Keys && mon !in m.table
    ensures ShowWindows(AddWindow(m, mon), {m.nextWin}, p) == Joined(LockedFirst(m, p), mon, p)
  {
    AddedValues(m.table, mon, m.nextWin);
    if LocksAtOnce(p) && !m.lockActive {
      var ids := m.table.Values + {m.nextWin};
      LockCommutes(m.win, m.nextWin, ids);
      LockMore(m.win, ids, m.table.Values);
      JoinedLocking(m, mon, p);
    } else {
      JoinedPlain(m, mon, p);
    }
  }

  lemma JoinedWindows(win: map<WinId, Win>, id: WinId, lock: bool)
    requires WindowsOk(win, lock, false) && OneDialog(win, false) && id !in win
    ensures var win1 := ShowAll(win[id := NewWin(lock)], {id});
            win1.Keys == win.Keys + {id} && WindowsOk(win1, lock, false) && OneDialog(win1, false)
  {
  }

  lemma JoinedJobs(jobs: map<WinId, Job>, win: map<WinId, Win>, id: WinId, lock: bool, quiet: bool)
    requires JobsOk(jobs, win, quiet) && id !in win
    ensures JobsOk(AddJobs(jobs, {id}), ShowAll(win[id := NewWin(lock)], {id}), quiet)
    ensures AddJobs(jobs, {id}).Keys == jobs.Keys + {id}
  {
  }

  lemma JoinedTables(m: Manager, mon: Mon, p: Prefs)
    requires TablesMatch(m) && mon !in m.table
    ensures TablesMatch(Joined(m, mon, p))
  {
    AddedValues(m.table, mon, m.nextWin);
    var m1 := Joined(m, mon, p);
    assert m1.win.Keys == m.win.Keys + {m.nextWin};
    assert m1.jobs.Keys == m.jobs.Keys + {m.nextWin};
    forall a, b | a in m1.table && b in m1.table && m1.table[a] == m1.table[b] ensures a == b {
      assert a != mon ==> m.table[a] in m.table.Values;
      assert b != mon ==> m.table[b] in m.table.Values;
    }
  }

  lemma JoinedOk(m: Manager, mon: Mon, p: Prefs)
    requires ManagerOk(m) && m.active && !m.dialogUp && mon !in m.table
    ensures ManagerOk(Joined(m, mon, p))
  {
    assert m.nextWin !in m.win;
    JoinedWindows(m.win, m.nextWin, m.lockActive);
    JoinedJobs(m.jobs, m.win, m.nextWin, m.lockActive, Quiet(m));
    JoinedTables(m, mon, p);
  }

  /** What creating windows in an active session leaves alone. */
  ghost predicate OnlyWindows(s: State, s1: State) {
    && s1.backend == s.backend && s1.monitors == s.monitors && s1.d == s.d && s1.a == s.a
    && s1.k == s.k.(surfaces := s1.k.surfaces)
    && s1.m.active == s.m.active && s1.m.throttled == s.m.throttled && s1.m.dialogUp == s.m.dialogUp
    && s1.m.handlers == s.m.handlers && s1.m.idles == s.m.idles && s1.m.ended == s.m.ended
    && s1.m.auth == s.m.auth
  }

  ghost predicate SurfacesMatch(k: Locker, m: Manager) {
    k.surfaces == if k.cur.Some? then m.win.Keys else {}
  }

  /** s1 is s0 with a window for each of mons. */
  ghost predicate Grown(s0: State, s1: State, mons: seq<Mon>) {
    && ManagerOk(s1.m) && OnlyWindows(s0, s1) && s1.m.table.Keys == (set x | x in mons)
    && SurfacesMatch(s1.k, s1.m) && (s0.m.lockActive ==> s1.m.lockActive)
  }

  lemma CreateOneManager(m: Manager, mon: Mon, p: Prefs)
    requires ManagerOk(m) && m.active && !m.dialogUp && mon !in m.table
    ensures var m1 := ShowWindows(AddWindow(m, mon), {m.nextWin}, p);
            ManagerOk(m1) && m1.table.Keys == m.table.Keys + {mon} && m1.win.Keys == m.win.Keys + {m.nextWin}
            && (m.lockActive ==> m1.lockActive)
  {
    JoinedForm(m, mon, p);
    LockerKeeps(m);
    JoinedOk(LockedFirst(m, p), mon, p);
    AddedValues(m.table, mon, m.nextWin);
  }

  lemma CreateOnly(s: State, mon: Mon, p: Prefs)
    ensures OnlyWindows(s, CreateWindow(s, mon, p))
    ensures s.m.active ==> CreateWindow(s, mon, p).m == ShowWindows(AddWindow(s.m, mon), {s.m.nextWin}, p)
    ensures s.m.active && SurfacesMatch(s.k, s.m) ==>
              CreateWindow(s, mon, p).k.surfaces == if s.k.cur.Some? then s.m.win.Keys + {s.m.nextWin} else {}
  {
  }

  lemma OnlyTransitive(s: State, s1: State, s2: State)
    requires OnlyWindows(s, s1) && OnlyWindows(s1, s2)
    ensures OnlyWindows(s, s2)
  {
  }

  lemma GrownBy(s0: State, s: State, s1: State, mons: seq<Mon>, mon: Mon)
    requires Grown(s0, s, mons) && OnlyWindows(s, s1) && ManagerOk(s1.m) && SurfacesMatch(s1.k, s1.m)
    requires s1.m.table.Keys == s.m.table.Keys + {mon} && (s.m.lockActive ==> s1.m.lockActive)
    ensures Grown(s0, s1, mons + [mon])
  {
    OnlyTransitive(s0, s, s1);
    assert (set x | x in mons + [mon]) == (set x | x in mons) + {mon};
  }

  lemma GrowOne(s0: State, s: State, mons: seq<Mon>, mon: Mon, p: Prefs)
    requires Grown(s0, s, mons) && s.m.active && !s.m.dialogUp && mon !in s.m.table
    ensures Grown(s0, CreateWindow(s, mon, p), mons + [mon])
  {
    CreateOneManager(s.m, mon, p);
    CreateOnly(s, mon, p);
    GrownBy(s0, s, CreateWindow(s, mon, p), mons, mon);
  }

  /** Windows for every monitor, created in an active session that has none. */
  lemma CreateActive(s: State, mons: seq<Mon>, p: Prefs)
    requires ManagerOk(s.m) && s.m.active && !s.m.dialogUp && s.m.table == map[] && NoDup(mons)
    requires SurfacesMatch(s.k, s.m)
    ensures Grown(s, CreateWindows(s, mons, p), mons)
  {
    if mons != [] {
      var most, last := mons[..|mons| - 1], mons[|mons| - 1];
      CreateActive(s, most, p);
      GrowOne(s, CreateWindows(s, most, p), most, last, p);
      assert most + [last] == mons;
    }
  }

  /** Windows created but not shown yet. */
  ghost predicate Staged(m: Manager) {
    && Injective(m.table) && m.table.Values == m.win.Keys && m.jobs == map[]
    && !m.dialogUp && m.handlers == 1
    && (forall i :: i in m.win ==> i < m.nextWin && m.win[i] == NewWin(m.lockActive))
  }

  lemma StageOne(m: Manager, mon: Mon)
    requires Staged(m) && mon !in m.table
    ensures Staged(AddWindow(m, mon)) && AddWindow(m, mon).table.Keys == m.table.Keys + {mon}
  {
    AddedValues(m.table, mon, m.nextWin);
    var m1 := AddWindow(m, mon);
    forall a, b | a in m1.table && b in m1.table && m1.table[a] == m1.table[b] ensures a == b {
      assert a != mon ==> m.table[a] in m.table.Values;
      assert b != mon ==> m.table[b] in m.table.Values;
    }
  }

  lemma CreateStaged(s: State, mons: seq<Mon>, p: Prefs)
    requires Staged(s.m) && !s.m.active && s.m.table == map[] && NoDup(mons)
    ensures var s1 := CreateWindows(s, mons, p);
            Staged(s1.m) && OnlyWindows(s, s1) && s1.m.table.Keys == (set x | x in mons)
            && s1.k == s.k && s1.m.lockActive == s.m.lockActive && s1.m.lockTimer == s.m.lockTimer
            && s1.m.cycleTimer == s.m.cycleTimer
  {
    if mons != [] {
      var most, last := mons[..|mons| - 1], mons[|mons| - 1];
      CreateStaged(s, most, p);
      assert last !in most;
      StageOne(CreateWindows(s, most, p).m, last);
      assert (set x | x in mons) == (set x | x in most) + {last};
    }
  }

  lemma ShowStagedParts(m: Manager)
    requires Staged(m)
    ensures var win := ShowAll(m.win, m.win.Keys);
            win.Keys == m.win.Keys && WindowsOk(win, m.lockActive, false) && OneDialog(win, false)
            && JobsOk(AddJobs(m.jobs, m.win.Keys), win, m.throttled)
            && AddJobs(m.jobs, m.win.Keys).Keys == m.win.Keys
  {
  }

  lemma ShowStaged(m: Manager, p: Prefs)
    requires Staged(m) && m.active && (LocksAtOnce(p) ==> m.lockActive)
    requires AuthOk(m.auth, false) && CausesOk(m.idles) && CausesOk(m.ended)
    ensures ManagerOk(ShowWindows(m, m.table.Values, p))
    ensures ShowWindows(m, m.table.Values, p).win.Keys == m.win.Keys
  {
    ShowStagedParts(m);
    assert m.table.Values == {} ==> m.win == map[];
  }

  lemma DestroyedOk(m: Manager)
    requires ManagerOk(m) && m.active
    ensures ManagerOk(DestroyWindows(m)) && !DestroyWindows(m).dialogUp
  {
    if m.dialogUp {
      Toggled(m.auth, true);
    }
  }
}
