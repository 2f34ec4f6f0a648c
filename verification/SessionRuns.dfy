/**
 What the invariant and the single steps say about whole runs of the session.
 */
module SessionRuns {
  import opened Basics
  import opened SessionModel
  import opened SessionInvariant
  import opened SessionSteps

  /** s is what some run from some start leads to. */
  ghost predicate Reachable(s: State) {
    exists b, monitors, run :: NoDup(monitors) && s == Run(Start(b, monitors), run)
  }

  lemma ReachableOk(s: State)
    requires Reachable(s)
    ensures Inv(s)
  {
    var b, monitors, run :| NoDup(monitors) && s == Run(Start(b, monitors), run);
    RunKeeps(b, monitors, run);
  }

  lemma RunOneMore(s0: State, run: seq<Occurrence>, o: Occurrence)
    ensures Run(s0, run + [o]) == Step(Run(s0, run), o.e, o.i)
  {
    assert (run + [o])[..|run|] == run;
  }

  ghost predicate Lasts(s0: State, run: seq<Occurrence>, n: nat, lasting: State -> bool) {
    forall k :: n <= k <= |run| ==> lasting(Run(s0, run[..k]))
  }

  /** At some step of the run cause held, and after that step and ever since lasting holds. */
  ghost predicate Since(s0: State, run: seq<Occurrence>, cause: (State, Occurrence) -> bool, lasting: State -> bool) {
    exists n: nat :: n < |run| && cause(Run(s0, run[..n]), run[n]) && Lasts(s0, run, n + 1, lasting)
  }

  lemma LastsShorter(s0: State, run: seq<Occurrence>, o: Occurrence, n: nat, lasting: State -> bool)
    requires n <= |run| + 1 && Lasts(s0, run + [o], n, lasting)
    ensures Lasts(s0, run, n, lasting) && lasting(Run(s0, run + [o]))
  {
    var longer := run + [o];
    assert longer[..|longer|] == longer;
    forall k | n <= k <= |run| ensures lasting(Run(s0, run[..k])) {
      assert longer[..k] == run[..k];
    }
  }

  lemma LastsLonger(s0: State, run: seq<Occurrence>, o: Occurrence, n: nat, lasting: State -> bool)
    requires Lasts(s0, run, n, lasting) && lasting(Run(s0, run + [o]))
    ensures Lasts(s0, run + [o], n, lasting)
  {
    var longer := run + [o];
    assert longer[..|longer|] == longer;
    forall k | n <= k <= |longer| ensures lasting(Run(s0, longer[..k])) {
      assert k <= |run| ==> longer[..k] == run[..k];
    }
  }

  lemma SinceShorter(s0: State, run: seq<Occurrence>, o: Occurrence,
                     cause: (State, Occurrence) -> bool, lasting: State -> bool)
    requires Since(s0, run + [o], cause, lasting)
    ensures lasting(Run(s0, run + [o])) && (Since(s0, run, cause, lasting) || cause(Run(s0, run), o))
  {
    var longer := run + [o];
    var n: nat :| n < |longer| && cause(Run(s0, longer[..n]), longer[n]) && Lasts(s0, longer, n + 1, lasting);
    LastsShorter(s0, run, o, n + 1, lasting);
    if n < |run| {
      assert longer[..n] == run[..n] && longer[n] == run[n];
    } else {
      assert longer[..n] == run && longer[n] == o;
    }
  }

  lemma SinceEarlier(s0: State, run: seq<Occurrence>, o: Occurrence,
                     cause: (State, Occurrence) -> bool, lasting: State -> bool)
    requires Since(s0, run, cause, lasting) && lasting(Run(s0, run + [o]))
    ensures Since(s0, run + [o], cause, lasting)
  {
    var longer := run + [o];
    var n: nat :| n < |run| && cause(Run(s0, run[..n]), run[n]) && Lasts(s0, run, n + 1, lasting);
    LastsLonger(s0, run, o, n + 1, lasting);
    assert longer[..n] == run[..n] && longer[n] == run[n];
  }

  lemma SinceNow(s0: State, run: seq<Occurrence>, o: Occurrence,
                 cause: (State, Occurrence) -> bool, lasting: State -> bool)
    requires cause(Run(s0, run), o) && lasting(Run(s0, run + [o]))
    ensures Since(s0, run + [o], cause, lasting)
  {
    var longer := run + [o];
    LastsLonger(s0, run, o, |run| + 1, lasting);
    assert longer[..|run|] == run && longer[|run|] == o;
  }

  lemma SinceLonger(s0: State, run: seq<Occurrence>, o: Occurrence,
                    cause: (State, Occurrence) -> bool, lasting: State -> bool)
    ensures Since(s0, run + [o], cause, lasting) <==>
              lasting(Run(s0, run + [o])) && (Since(s0, run, cause, lasting) || cause(Run(s0, run), o))
  {
    if Since(s0, run + [o], cause, lasting) {
      SinceShorter(s0, run, o, cause, lasting);
    } else if lasting(Run(s0, run + [o])) {
      if Since(s0, run, cause, lasting) {
        SinceEarlier(s0, run, o, cause, lasting);
      } else if cause(Run(s0, run), o) {
        SinceNow(s0, run, o, cause, lasting);
      }
    }
  }

  // ---------- savers ----------

  /** A saver executes only on a visible window of an active, unthrottled session without a dialog. */
  lemma SaversExecuteOnlyWhenAllowed(s: State, id: WinId)
    requires Reachable(s) && id in s.m.jobs && Executing(s.m.jobs[id])
    ensures s.m.active && !s.m.throttled && !s.m.dialogUp
    ensures id in s.m.table.Values && id in s.m.win && !s.m.win[id].obscured
  {
    ReachableOk(s);
    assert id in s.m.win;
  }

  /** Ending the throttle starts exactly the jobs that have no child and may start one; a child the
      dialog left suspended stays suspended. */
  lemma UnthrottleRestarts(m: Manager, starts: map<WinId, bool>, id: WinId)
    requires ManagerOk(m) && m.throttled && !m.dialogUp && id in m.jobs
    ensures var j := SetThrottled(m, false, starts).jobs[id];
            Executing(j) <==> !m.jobs[id].alive && !m.win[id].obscured && id in starts
  {
  }

  // ---------- agreement ----------

  lemma ListenerAndManagerAgree(s: State)
    requires Reachable(s)
    ensures s.d.active == s.m.active
    ensures s.d.throttled == s.m.throttled == (s.d.throttlers != map[])
  {
    ReachableOk(s);
  }

  // ---------- windows, jobs and the lock flag ----------

  lemma WindowsFollowMonitors(s: State)
    requires Reachable(s) && s.m.active
    ensures forall x :: x in s.monitors <==> x in s.m.table
    ensures forall x, y :: x in s.m.table && y in s.m.table && x != y ==> s.m.table[x] != s.m.table[y]
    ensures s.m.jobs.Keys == s.m.win.Keys == s.m.table.Values
    ensures forall w :: w in s.m.win ==> s.m.win[w].lockActive == s.m.lockActive && s.m.win[w].visible
    ensures s.m.handlers == 1
  {
    ReachableOk(s);
    assert s.m.table.Keys == set x | x in s.monitors;
  }

  lemma NothingLeftWhenInactive(s: State)
    requires Reachable(s) && !s.m.active
    ensures s.m.table == map[] && s.m.win == map[] && s.m.jobs == map[]
    ensures !s.m.lockTimer && !s.m.cycleTimer && s.m.handlers == 0
    ensures s.k.cur.None? && s.k.surfaces == {}
  {
    ReachableOk(s);
  }

  // ---------- the unlock dialog ----------

  /** The manager's dialog flag stands for exactly one window, a locked one, the only one that takes input. */
  lemma OneDialogAtATime(s: State)
    requires Reachable(s)
    ensures s.m.dialogUp <==> exists w :: w in s.m.win && s.m.win[w].dialogUp
    ensures forall v, w :: v in s.m.win && w in s.m.win && s.m.win[v].dialogUp && s.m.win[w].dialogUp ==> v == w
    ensures forall w :: w in s.m.win ==>
              && (s.m.win[w].dialogUp ==> s.m.win[w].lockActive)
              && (s.m.win[w].sensitive <==> !s.m.dialogUp || s.m.win[w].dialogUp)
              && (s.m.win[w].dialogAlive ==> s.m.win[w].dialogUp)
  {
    ReachableOk(s);
  }

  /** auth-request-begin and auth-request-end alternate, and the last one tells the dialog flag. */
  lemma AuthSignalsAlternate(s: State, n: nat)
    requires Reachable(s) && n < |s.m.auth|
    ensures n == 0 ==> s.m.auth[n] == Begin
    ensures n + 1 < |s.m.auth| ==> s.m.auth[n + 1] != s.m.auth[n]
    ensures n + 1 == |s.m.auth| ==> (s.m.auth[n] == Begin <==> s.m.dialogUp)
  {
    ReachableOk(s);
    AuthPairs(s.m.auth, s.m.dialogUp, n);
  }

  lemma AuthPairs(auth: seq<Auth>, dialog: bool, n: nat)
    requires AuthOk(auth, dialog) && n < |auth|
    ensures n == 0 ==> auth[n] == Begin
    ensures n + 1 < |auth| ==> auth[n + 1] != auth[n]
    ensures n + 1 == |auth| ==> (auth[n] == Begin <==> dialog)
  {
  }

  // ---------- how a session ends ----------

  /** No window got a new reason to end the session. */
  ghost predicate NoNewRequest(win: map<WinId, Win>, win1: map<WinId, Win>) {
    forall w :: w in win1 && win1[w].deactIdle.Some? ==> w in win && win1[w].deactIdle == win[w].deactIdle
  }

  /** The windows below next that are still there have the answers they had. */
  ghost predicate SameAnswers(win: map<WinId, Win>, win1: map<WinId, Win>, next: WinId) {
    forall w :: w in win1 && w < next ==> w in win && win1[w].responseOk == win[w].responseOk
  }

  /** Nothing new is scheduled to end the session, no dialog's answer changes, and the lock flag drops
      only with the session. */
  ghost predicate NoNewCause(m: Manager, m1: Manager) {
    && m1.idles == m.idles && m1.ended == m.ended && m.nextWin <= m1.nextWin
    && NoNewRequest(m.win, m1.win) && SameAnswers(m.win, m1.win, m.nextWin)
    && (m.lockActive && m1.active ==> m1.lockActive)
  }

  lemma Chain(m: Manager, m1: Manager, m2: Manager)
    requires NoNewCause(m, m1) && NoNewCause(m1, m2) && (m2.active ==> m1.active)
    ensures NoNewCause(m, m2)
  {
  }

  lemma ThrottleNoCause(m: Manager, on: bool, starts: map<WinId, bool>)
    ensures NoNewCause(m, SetThrottled(m, on, starts))
  {
  }

  lemma LockerNoCause(m: Manager)
    ensures NoNewCause(m, EnableLocker(m, true))
  {
  }

  lemma TouchNoCause(m: Manager, id: WinId, w: Win)
    requires id in m.win && w.deactIdle == m.win[id].deactIdle && w.responseOk == m.win[id].responseOk
    ensures NoNewCause(m, m.(win := m.win[id := w]))
  {
  }

  lemma JobsNoCause(m: Manager, jobs: map<WinId, Job>)
    ensures NoNewCause(m, m.(jobs := jobs))
  {
  }

  lemma JobCallForm(m: Manager, id: WinId, starts: map<WinId, bool>)
    ensures MaybeStopIn(m, id) == m.(jobs := MaybeStopIn(m, id).jobs)
    ensures MaybeStartIn(m, id, starts) == m.(jobs := MaybeStartIn(m, id, starts).jobs)
  {
  }

  lemma ObscuredForm(m: Manager, id: WinId, hidden: bool, starts: map<WinId, bool>)
    requires id in m.win && m.win[id].obscured != hidden
    ensures var m1 := m.(win := m.win[id := m.win[id].(obscured := hidden)]);
            SetObscured(m, id, hidden, starts) == m1.(jobs := SetObscured(m, id, hidden, starts).jobs)
  {
    JobCallForm(m.(win := m.win[id := m.win[id].(obscured := hidden)]), id, starts);
  }

  lemma ObscuredNoCause(m: Manager, id: WinId, hidden: bool, starts: map<WinId, bool>)
    requires id in m.win
    ensures NoNewCause(m, SetObscured(m, id, hidden, starts))
  {
    if m.win[id].obscured != hidden {
      var m1 := m.(win := m.win[id := m.win[id].(obscured := hidden)]);
      ObscuredForm(m, id, hidden, starts);
      TouchNoCause(m, id, m.win[id].(obscured := hidden));
      JobsNoCause(m1, SetObscured(m, id, hidden, starts).jobs);
      Chain(m, m1, m1.(jobs := SetObscured(m, id, hidden, starts).jobs));
    }
  }

  lemma DialogUpNoCause(m: Manager, id: WinId)
    ensures NoNewCause(m, DialogUp(m, id))
  {
  }

  lemma DialogDownNoCause(m: Manager, starts: map<WinId, bool>)
    ensures NoNewCause(m, DialogDown(m, starts))
  {
  }

  lemma SetDialogUpNoCause(m: Manager, id: WinId, up: bool, starts: map<WinId, bool>)
    requires id in m.win
    ensures NoNewCause(m, SetDialogUp(m, id, up, starts))
  {
    var m1 := m.(win := m.win[id := m.win[id].(dialogUp := up)]);
    TouchNoCause(m, id, m.win[id].(dialogUp := up));
    DialogUpNoCause(m1, id);
    DialogDownNoCause(m1, starts);
    SetDialogUpFrame(m, id, up, starts);
    if m.win[id].dialogUp != up {
      Chain(m, m1, SetDialogUp(m, id, up, starts));
    }
  }

  lemma PopdownNoCause(m: Manager, id: WinId, starts: map<WinId, bool>)
    requires id in m.win
    ensures NoNewCause(m, PopdownDialog(m, id, starts))
  {
    var m1 := m.(win := m.win[id := m.win[id].(dialogAlive := false)]);
    var m2 := SetDialogUp(m1, id, false, starts);
    TouchNoCause(m, id, m.win[id].(dialogAlive := false));
    SetDialogUpNoCause(m1, id, false, starts);
    SetDialogUpFrame(m1, id, false, starts);
    TouchNoCause(m2, id, m2.win[id].(popupIdle := false, dialogWatch := false));
    Chain(m, m1, m2);
    Chain(m, m2, PopdownDialog(m, id, starts));
  }

  lemma PopupNoCause(m: Manager, id: WinId, refused: bool, spawned: bool, starts: map<WinId, bool>)
    requires id in m.win
    ensures NoNewCause(m, PopupDialog(m, id, refused, spawned, starts))
  {
    if refused {
      PopdownNoCause(m, id, starts);
    } else if spawned {
      TouchNoCause(m, id, m.win[id].(popupIdle := false, dialogAlive := true, dialogWatch := true));
    } else {
      TouchNoCause(m, id, m.win[id].(popupIdle := false));
    }
  }

  // creating windows

  lemma ShowAllNoCause(win: map<WinId, Win>, ids: set<WinId>)
    ensures NoNewRequest(win, ShowAll(win, ids)) && forall n :: SameAnswers(win, ShowAll(win, ids), n)
  {
  }

  lemma ShowOnlyNoCause(m: Manager, ids: set<WinId>, p: Prefs)
    requires !LocksAtOnce(p) || m.lockActive
    ensures NoNewCause(m, ShowWindows(m, ids, p))
  {
    ShowAllNoCause(m.win, ids);
    if ids != {} {
      assert ShowWindows(m, ids, p).win == ShowAll(m.win, ids);
    }
  }

  lemma ShowLocked(m: Manager, ids: set<WinId>, p: Prefs)
    requires LocksAtOnce(p) && !m.lockActive && ids != {}
    ensures ShowWindows(m, ids, p) == ShowWindows(EnableLocker(m, true), ids, p)
  {
  }

  lemma ShowNoCause(m: Manager, ids: set<WinId>, p: Prefs)
    ensures NoNewCause(m, ShowWindows(m, ids, p))
    ensures ShowWindows(m, ids, p).active == m.active
  {
    if LocksAtOnce(p) && !m.lockActive && ids != {} {
      var m1 := EnableLocker(m, true);
      ShowLocked(m, ids, p);
      LockerNoCause(m);
      ShowOnlyNoCause(m1, ids, p);
      Chain(m, m1, ShowWindows(m1, ids, p));
    } else if ids != {} {
      ShowOnlyNoCause(m, ids, p);
    }
  }

  lemma AddNoCause(m: Manager, mon: Mon)
    ensures NoNewCause(m, AddWindow(m, mon))
  {
  }

  lemma CreateOneNoCause(s: State, mon: Mon, p: Prefs)
    ensures NoNewCause(s.m, CreateWindow(s, mon, p).m)
    ensures CreateWindow(s, mon, p).m.active == s.m.active && CreateWindow(s, mon, p).d == s.d
  {
    AddNoCause(s.m, mon);
    ShowNoCause(AddWindow(s.m, mon), {s.m.nextWin}, p);
    Chain(s.m, AddWindow(s.m, mon), ShowWindows(AddWindow(s.m, mon), {s.m.nextWin}, p));
  }

  lemma CreateNoCause(s: State, mons: seq<Mon>, p: Prefs)
    ensures NoNewCause(s.m, CreateWindows(s, mons, p).m)
    ensures CreateWindows(s, mons, p).m.active == s.m.active && CreateWindows(s, mons, p).d == s.d
  {
    if mons != [] {
      var s1 := CreateWindows(s, mons[..|mons| - 1], p);
      CreateNoCause(s, mons[..|mons| - 1], p);
      CreateOneNoCause(s1, mons[|mons| - 1], p);
      Chain(s.m, s1.m, CreateWindows(s, mons, p).m);
    }
  }

  lemma DestroyNoCause(m: Manager)
    ensures NoNewCause(m, DestroyWindows(m))
  {
  }

  lemma RecreateNoCause(s: State, p: Prefs)
    ensures NoNewCause(s.m, RecreateWindows(s, p).m)
    ensures RecreateWindows(s, p).m.active == s.m.active && RecreateWindows(s, p).d == s.d
  {
    var s1 := s.(m := DestroyWindows(s.m), k := RemoveSurfaces(s.k, s.m.table.Values));
    DestroyNoCause(s.m);
    CreateNoCause(s1, s.monitors, p);
    Chain(s.m, s1.m, RecreateWindows(s, p).m);
  }

  // activating and deactivating

  lemma AfterActivatedNoCause(s: State, p: Prefs)
    ensures NoNewCause(s.m, AfterActivated(s, p).m) && AfterActivated(s, p).m.active == s.m.active
  {
    LockerNoCause(s.m);
  }

  lemma ShownNoCause(s: State, p: Prefs)
    ensures NoNewCause(s.m, Shown(s, p).m) || s.m.active != Shown(s, p).m.active
    ensures NoNewCause(s.m.(active := true), Shown(s, p).m) && Shown(s, p).m.active
  {
    ShowNoCause(s.m.(active := true), s.m.table.Values, p);
  }

  lemma BecomeActiveNoCause(s: State, i: Input)
    ensures NoNewCause(s.m, BecomeActive(s, i).m)
  {
    var s1 := Entered(s, i);
    var s2 := CreateWindows(s1, s.monitors, i.p);
    var s3 := Shown(s2, i.p);
    BecomeActiveForm(s, i);
    CreateNoCause(s1, s.monitors, i.p);
    ShownNoCause(s2, i.p);
    AfterActivatedNoCause(s3, i.p);
    Chain(s2.m.(active := true), s3.m, AfterActivated(s3, i.p).m);
    CreateKeepsLock(s1, s.monitors, i.p);
  }

  lemma CreateKeepsLock(s: State, mons: seq<Mon>, p: Prefs)
    ensures s.m.lockActive ==> CreateWindows(s, mons, p).m.lockActive
  {
    if mons != [] {
      CreateKeepsLock(s, mons[..|mons| - 1], p);
    }
  }

  lemma ActivateNoCause(s: State, i: Input)
    ensures NoNewCause(s.m, ActivateManager(s, i).m)
  {
    BecomeActiveNoCause(s, i);
  }

  lemma DeactivateNoCause(s: State)
    ensures NoNewCause(s.m, DeactivateManager(s).m)
  {
  }

  lemma DbusActivateNoCause(s: State, on: bool, i: Input)
    ensures NoNewCause(s.m, DbusActivate(s, on, i).m)
  {
    ActivateNoCause(s, i);
    DeactivateNoCause(s);
  }

  lemma DbusLockNoCause(s: State, i: Input)
    ensures NoNewCause(s.m, DbusLock(s, i).m)
  {
    if i.p.lockEnabled {
      var s1 := s.(m := EnableLocker(s.m, true));
      LockerNoCause(s.m);
      DbusActivateNoCause(s1, true, i);
      if s1.m.active || !DbusActivate(s1, true, i).m.active {
        Chain(s.m, s1.m, DbusActivate(s1, true, i).m);
      }
    }
  }

  /** The occurrence o in state s is the reason recorded as c. */
  ghost predicate Explains(s: State, o: Occurrence, c: Cause) {
    match c
    case DialogEnded(w, how) =>
      && how == OkLine && o.e.DialogOutput? && o.e.win == w && EndingOf(o.e.out) == Some(OkLine)
      && w in s.m.win && s.m.win[w].dialogWatch && s.m.win[w].dialogUp && s.m.win[w].lockActive
    case OpenRequest(w, locked) =>
      && !locked && AsksUnlock(o.e) && s.m.active && w in s.m.win && !s.m.win[w].lockActive
  }

  /** Some window is about to emit "deactivated" for the reason c. */
  ghost predicate Awaits(win: map<WinId, Win>, c: Cause) {
    exists w :: w in win && win[w].deactIdle == Some(c)
  }

  /** c waits to end the session. */
  ghost predicate Pending(m: Manager, c: Cause) {
    c in m.idles || Awaits(m.win, c)
  }

  lemma NothingNew(m: Manager, m1: Manager, c: Cause)
    requires NoNewCause(m, m1) && Pending(m1, c)
    ensures Pending(m, c)
  {
    if c !in m1.idles {
      var w :| w in m1.win && m1.win[w].deactIdle == Some(c);
      assert m.win[w].deactIdle == Some(c);
    }
  }

  lemma RequestCause(s: State, e: Event, i: Input, c: Cause)
    requires Inv(s) && AsksUnlock(e) && Pending(RequestUnlock(s.m, i.at), c)
    ensures Pending(s.m, c) || Explains(s, Occurrence(e, i), c)
  {
    var m := s.m;
    if m.active && !m.dialogUp && i.at in m.table && m.table[i.at] in m.win {
      var id := m.table[i.at];
      var w := m.win[id];
      var m1 := m.(win := m.win[id := w.(popupIdle := true)]);
      TouchNoCause(m, id, w.(popupIdle := true));
      SetDialogUpNoCause(m1, id, true, map[]);
      SetDialogUpFrame(m1, id, true, map[]);
      if w.lockActive {
        Chain(m, m1, SetDialogUp(m1, id, true, map[]));
        NothingNew(m, SetDialogUp(m1, id, true, map[]), c);
      } else {
        OneNewCause(m, id, w.(deactIdle := Some(OpenRequest(id, w.lockActive))), c);
      }
    }
  }

  lemma OneNewCause(m: Manager, id: WinId, w: Win, c: Cause)
    requires id in m.win && w.deactIdle.Some? && Pending(m.(win := m.win[id := w]), c)
    ensures Pending(m, c) || c == w.deactIdle.value
  {
    var m1 := m.(win := m.win[id := w]);
    if c !in m.idles {
      var v :| v in m1.win && m1.win[v].deactIdle == Some(c);
      assert v != id ==> m.win[v].deactIdle == Some(c);
    }
  }

  lemma FinishedCause(m: Manager, id: WinId, e: Ending, starts: map<WinId, bool>, c: Cause)
    requires id in m.win && Pending(DialogFinished(m, id, e, starts), c)
    ensures Pending(m, c) || (m.win[id].responseOk && c == DialogEnded(id, e))
  {
    if m.win[id].responseOk {
      OneNewCause(m, id, m.win[id].(deactIdle := Some(DialogEnded(id, e)), dialogWatch := false), c);
    } else {
      PopdownNoCause(m, id, starts);
      NothingNew(m, PopdownDialog(m, id, starts), c);
    }
  }

  lemma AnsweredCause(m: Manager, id: WinId, e: Ending, c: Cause)
    requires id in m.win && Pending(Answered(m, id, e), c)
    ensures Pending(m, c)
  {
    var m1 := Answered(m, id, e);
    if c !in m.idles {
      var w :| w in m1.win && m1.win[w].deactIdle == Some(c);
      assert m.win[w].deactIdle == Some(c);
    }
  }

  lemma SaysCause(s: State, id: WinId, o: Output, i: Input, c: Cause)
    requires Inv(s) && id in s.m.win && s.m.win[id].dialogWatch
    requires Pending(DialogSays(s.m, id, o, i.starts), c)
    ensures Pending(s.m, c) || Explains(s, Occurrence(DialogOutput(id, o), i), c)
  {
    if EndingOf(o).Some? {
      var e := EndingOf(o).value;
      var m1 := Answered(s.m, id, e);
      FinishedCause(m1, id, e, i.starts, c);
      if Pending(m1, c) {
        AnsweredCause(s.m, id, e, c);
      }
    }
  }

  lemma EmitCause(m: Manager, id: WinId, c: Cause)
    requires id in m.win && Pending(EmitDeactivated(m, id), c)
    ensures Pending(m, c)
  {
    if m.win[id].deactIdle.Some? && Awaits(EmitDeactivated(m, id).win, c) {
      EmittedCause(m.win, id, m.win[id].(deactIdle := None), c);
    }
  }

  lemma EmittedCause(win: map<WinId, Win>, id: WinId, w: Win, c: Cause)
    requires id in win && w.deactIdle.None? && Awaits(win[id := w], c)
    ensures Awaits(win, c)
  {
    var win1 := win[id := w];
    var v :| v in win1 && win1[v].deactIdle == Some(c);
    assert win[v].deactIdle == Some(c);
  }

  lemma PoppedCause(m: Manager, c: Cause)
    requires m.idles != [] && Pending(Popped(m), c)
    ensures Pending(m, c)
  {
    var m1 := Popped(m);
    if c !in m1.idles {
      var w :| w in m1.win && m1.win[w].deactIdle == Some(c);
      assert m.win[w].deactIdle == Some(c);
    }
  }

  /** All events but those that answer or time out a request. */
  predicate Neutral(e: Event) {
    !AsksUnlock(e) && !e.DialogOutput? && !e.DeactivatedIdle? && !e.ManagerIdle?
  }

  lemma CallNeutral(s: State, e: Event, i: Input)
    requires CallsForSaver(e) || e.SetActive?
    ensures NoNewCause(s.m, Step(s, e, i).m)
  {
    CallForm(s, e, i);
    DbusActivateNoCause(s, if e.SetActive? then e.on else true, i);
    DbusLockNoCause(s, i);
  }

  lemma TablesNeutral(s: State, e: Event, i: Input)
    requires ChangesTables(e)
    ensures NoNewCause(s.m, Step(s, e, i).m)
  {
    TablesForm(s, e, i);
    ThrottleNoCause(s.m, true, i.starts);
    ThrottleNoCause(s.m, false, i.starts);
  }

  lemma PopupNeutral(s: State, w: WinId, i: Input)
    ensures NoNewCause(s.m, Step(s, PopupIdle(w), i).m)
  {
    PopupStepForm(s, w, i);
    if w in s.m.win {
      PopupNoCause(s.m, w, s.backend.Wayland? && !i.windowActive, i.dialogStarts, i.starts);
    }
  }

  lemma SourceNeutral(s: State, e: Event, i: Input)
    requires FromSource(e) && Neutral(e)
    ensures NoNewCause(s.m, Step(s, e, i).m)
  {
    if e.PopupIdle? {
      PopupNeutral(s, e.win, i);
    } else if e.JobOutputEnds? {
      JobStepForm(s, e.win, i);
    } else {
      TimerStepForm(s, e, i);
      LockerNoCause(s.m);
    }
  }

  lemma DisplayNeutral(s: State, e: Event, i: Input)
    requires !FromBus(e) && !FromIdleWatch(e) && !FromSource(e) && Neutral(e)
    ensures NoNewCause(s.m, Step(s, e, i).m)
  {
    match e
    case Mapped(w) =>
    case Visibility(w, hidden) => if w in s.m.win { ObscuredNoCause(s.m, w, hidden, i.starts); }
    case Hotplug(now) => RecreateNoCause(s.(monitors := now), i.p);
    case SessionLock(ev) =>
  }

  lemma NeutralStep(s: State, e: Event, i: Input)
    requires Neutral(e)
    ensures NoNewCause(s.m, Step(s, e, i).m)
  {
    if CallsForSaver(e) || e.SetActive? {
      CallNeutral(s, e, i);
    } else if ChangesTables(e) {
      TablesNeutral(s, e, i);
    } else if FromSource(e) {
      SourceNeutral(s, e, i);
    } else if !FromBus(e) && !FromIdleWatch(e) {
      DisplayNeutral(s, e, i);
    }
  }

  lemma IdleEndsCause(s: State, i: Input, c: Cause)
    requires Pending(Step(s, ManagerIdle, i).m, c)
    ensures Pending(s.m, c)
  {
    if s.m.idles != [] {
      DeactivateNoCause(s.(m := Popped(s.m)));
      NothingNew(Popped(s.m), DeactivateManager(s.(m := Popped(s.m))).m, c);
      PoppedCause(s.m, c);
    }
  }

  lemma AskedCause(s: State, e: Event, i: Input, c: Cause)
    requires Inv(s) && AsksUnlock(e) && Pending(Step(s, e, i).m, c)
    ensures Pending(s.m, c) || Explains(s, Occurrence(e, i), c)
  {
    if Step(s, e, i) != s {
      assert Step(s, e, i).m == RequestUnlock(s.m, i.at);
      RequestCause(s, e, i, c);
    }
  }

  /** A waiting reason is old, or the step at hand is that reason. */
  lemma StepCause(s: State, e: Event, i: Input, c: Cause)
    requires Inv(s) && Pending(Step(s, e, i).m, c)
    ensures Pending(s.m, c) || Explains(s, Occurrence(e, i), c)
  {
    if AsksUnlock(e) {
      AskedCause(s, e, i, c);
    } else if Neutral(e) {
      NeutralStep(s, e, i);
      NothingNew(s.m, Step(s, e, i).m, c);
    } else if e.ManagerIdle? {
      IdleEndsCause(s, i, c);
    } else if e.DialogOutput? {
      DialogStepForm(s, e.win, e.out, i);
      if e.win in s.m.win && s.m.win[e.win].dialogWatch {
        SaysCause(s, e.win, e.out, i, c);
      }
    } else {
      DeactivatedStepForm(s, e.win, i);
      if e.win in s.m.win {
        EmitCause(s.m, e.win, c);
      }
    }
  }

  ghost predicate ExplainedIn(s0: State, run: seq<Occurrence>, c: Cause) {
    exists n: nat :: n < |run| && Explains(Run(s0, run[..n]), run[n], c)
  }

  lemma ExplainedLonger(s0: State, run: seq<Occurrence>, o: Occurrence, c: Cause)
    requires ExplainedIn(s0, run, c)
    ensures ExplainedIn(s0, run + [o], c)
  {
    var n: nat :| n < |run| && Explains(Run(s0, run[..n]), run[n], c);
    assert (run + [o])[..n] == run[..n] && (run + [o])[n] == run[n];
  }

  /** What a dialog's output and a request to unlock leave alone. */
  predicate SameFlags(m: Manager, m1: Manager) {
    && m1.active == m.active && m1.lockActive == m.lockActive && m1.nextWin == m.nextWin
    && m1.idles == m.idles && m1.ended == m.ended
  }

  lemma SetDialogUpFlags(m: Manager, id: WinId, up: bool, starts: map<WinId, bool>)
    requires id in m.win
    ensures SameFlags(m, SetDialogUp(m, id, up, starts))
  {
    var m1 := m.(win := m.win[id := m.win[id].(dialogUp := up)]);
    ToggleFlags(m1, id, starts);
  }

  lemma ToggleFlags(m: Manager, id: WinId, starts: map<WinId, bool>)
    ensures SameFlags(m, DialogUp(m, id)) && SameFlags(m, DialogDown(m, starts))
  {
  }

  lemma AnsweredFlags(m: Manager, id: WinId, e: Ending)
    requires id in m.win
    ensures SameFlags(m, Answered(m, id, e))
  {
  }

  lemma PopdownFlags(m: Manager, id: WinId, starts: map<WinId, bool>)
    requires id in m.win
    ensures SameFlags(m, PopdownDialog(m, id, starts))
  {
    SetDialogUpFlags(m.(win := m.win[id := m.win[id].(dialogAlive := false)]), id, false, starts);
  }

  lemma FinishedFlags(m: Manager, id: WinId, e: Ending, starts: map<WinId, bool>)
    requires id in m.win
    ensures SameFlags(m, DialogFinished(m, id, e, starts))
  {
    PopdownFlags(m, id, starts);
  }

  lemma FlagsChain(m: Manager, m1: Manager, m2: Manager)
    requires SameFlags(m, m1) && SameFlags(m1, m2)
    ensures SameFlags(m, m2)
  {
  }

  lemma SaysFlags(m: Manager, id: WinId, o: Output, starts: map<WinId, bool>)
    requires id in m.win
    ensures SameFlags(m, DialogSays(m, id, o, starts))
  {
    if EndingOf(o).Some? {
      var e := EndingOf(o).value;
      AnsweredFlags(m, id, e);
      FinishedFlags(Answered(m, id, e), id, e, starts);
      FlagsChain(m, Answered(m, id, e), DialogSays(m, id, o, starts));
    }
  }

  lemma RequestFlags(m: Manager, at: Mon)
    ensures SameFlags(m, RequestUnlock(m, at))
  {
  }

  lemma OutputFlags(s: State, e: Event, i: Input)
    requires e.DialogOutput?
    ensures SameFlags(s.m, Step(s, e, i).m)
  {
    DialogStepForm(s, e.win, e.out, i);
    if e.win in s.m.win {
      SaysFlags(s.m, e.win, e.out, i.starts);
    }
  }

  lemma AskedFlags(s: State, e: Event, i: Input)
    requires AsksUnlock(e)
    ensures SameFlags(s.m, Step(s, e, i).m)
  {
    AskedStep(s, e, i);
    RequestFlags(s.m, i.at);
  }

  /** A reason recorded as having ended a session was the first in the queue just before. */
  lemma EndedWaited(s: State, e: Event, i: Input)
    ensures var ended := Step(s, e, i).m.ended;
            ended == s.m.ended || (s.m.idles != [] && ended == s.m.ended + [s.m.idles[0]])
  {
    if Neutral(e) {
      NeutralStep(s, e, i);
    } else if AsksUnlock(e) {
      AskedFlags(s, e, i);
    } else if e.DialogOutput? {
      OutputFlags(s, e, i);
    } else if e.ManagerIdle? {
      if s.m.idles != [] {
        DeactivateNoCause(s.(m := Popped(s.m)));
      }
    }
  }

  /** Whatever waits to end a session, or did end one, was caused earlier in the run by an OK line
      of that window's watched dialog or by an unlock request while its lock flag was off. */
  lemma {:induction false} EveryCauseExplained(b: Backend, monitors: seq<Mon>, run: seq<Occurrence>, c: Cause)
    requires NoDup(monitors)
    requires var m := Run(Start(b, monitors), run).m; Pending(m, c) || c in m.ended
    ensures ExplainedIn(Start(b, monitors), run, c)
  {
    var s0 := Start(b, monitors);
    if run == [] {
      assert false;
    } else {
      var most, last := run[..|run| - 1], run[|run| - 1];
      assert run == most + [last];
      RunOneMore(s0, most, last);
      RunKeeps(b, monitors, most);
      CauseBefore(Run(s0, most), last, c);
      if Pending(Run(s0, most).m, c) || c in Run(s0, most).m.ended {
        EveryCauseExplained(b, monitors, most, c);
        ExplainedLonger(s0, most, last, c);
      } else {
        assert run[..|most|] == most && run[|most|] == last;
      }
    }
  }

  lemma CauseBefore(s: State, o: Occurrence, c: Cause)
    requires Inv(s) && (Pending(Step(s, o.e, o.i).m, c) || c in Step(s, o.e, o.i).m.ended)
    ensures Pending(s.m, c) || c in s.m.ended || Explains(s, o, c)
  {
    assert o == Occurrence(o.e, o.i);
    if Pending(Step(s, o.e, o.i).m, c) {
      StepCause(s, o.e, o.i, c);
    } else {
      EndedWaited(s, o.e, o.i);
    }
  }
}
