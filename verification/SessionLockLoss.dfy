/**
 When an active Wayland session holds its session lock, and when it has lost it.
 */
module SessionLockLoss {
  import opened Basics
  import opened SessionModel
  import opened SessionInvariant
  import opened SessionSteps
  import opened SessionRuns
  import opened SessionOutcomes

  lemma CallsKeepLock(s: State, i: Input)
    requires Inv(s) && s.m.active
    ensures DbusActivate(s, true, i).k == s.k && DbusLock(s, i).k == s.k
  {
  }

  lemma SaverCallKeepsLock(s: State, e: Event, i: Input)
    requires Inv(s) && s.m.active && CallsForSaver(e)
    ensures Step(s, e, i).k == s.k
  {
    CallsKeepLock(s, i);
    CallForm(s, e, i);
  }

  lemma TablesKeepLock(s: State, e: Event, i: Input)
    requires ChangesTables(e)
    ensures Step(s, e, i).k == s.k
  {
    TablesForm(s, e, i);
  }

  lemma CreateKeepsCur(s: State, mons: seq<Mon>, p: Prefs)
    ensures CreateWindows(s, mons, p).k.cur == s.k.cur
  {
    if mons != [] {
      CreateKeepsCur(s, mons[..|mons| - 1], p);
      CreateOnly(CreateWindows(s, mons[..|mons| - 1], p), mons[|mons| - 1], p);
    }
  }

  lemma WindowKeepsCur(s: State, e: Event, i: Input)
    requires MovesWindow(e)
    ensures Step(s, e, i).k.cur == s.k.cur
  {
    if e.Hotplug? && s.m.handlers > 0 {
      HotplugStepForm(s, e.now, i);
      var s1 := s.(monitors := e.now);
      CreateKeepsCur(s1.(m := DestroyWindows(s1.m), k := RemoveSurfaces(s1.k, s1.m.table.Values)), e.now, i.p);
    }
  }

  /** While a session lasts its lock is neither taken nor lost, but for a finished event. */
  lemma LockWhileLasting(s: State, e: Event, i: Input)
    requires Inv(s) && s.m.active && Step(s, e, i).m.active
    ensures Step(s, e, i).k.cur == if e == SessionLock(Finished) then None else s.k.cur
  {
    if AsksUnlock(e) {
      AskedStep(s, e, i);
    } else if ChangesTables(e) {
      TablesKeepLock(s, e, i);
    } else if CallsForSaver(e) {
      SaverCallKeepsLock(s, e, i);
    } else if MovesWindow(e) {
      WindowKeepsCur(s, e, i);
    } else if e.SetActive? {
      DeactivateKeeps(s);
    }
  }

  predicate IsActive(s: State) {
    s.m.active
  }

  predicate FinishedIn(s: State, o: Occurrence) {
    s.m.active && o.e == SessionLock(Finished)
  }

  /** A finished event came in the session that is active now. */
  ghost predicate FinishedSince(s0: State, run: seq<Occurrence>) {
    Since(s0, run, FinishedIn, IsActive)
  }

  /** Over any run on Wayland, an active session is without its lock if and only if a finished event
      came since it became active. */
  lemma {:induction false} LockLostExactly(b: Backend, monitors: seq<Mon>, run: seq<Occurrence>)
    requires NoDup(monitors) && b.Wayland?
    ensures var s := Run(Start(b, monitors), run);
            s.m.active ==> (s.k.cur.None? <==> FinishedSince(Start(b, monitors), run))
  {
    var s0 := Start(b, monitors);
    if run != [] {
      var most, last := run[..|run| - 1], run[|run| - 1];
      assert run == most + [last];
      LockLostExactly(b, monitors, most);
      OneMoreForLock(b, monitors, most, last);
    }
  }

  lemma BackendStays(b: Backend, monitors: seq<Mon>, run: seq<Occurrence>)
    ensures Run(Start(b, monitors), run).backend == b
  {
    if run != [] {
      BackendStays(b, monitors, run[..|run| - 1]);
      StepBackend(Run(Start(b, monitors), run[..|run| - 1]), run[|run| - 1].e, run[|run| - 1].i);
    }
  }

  lemma OneMoreForLock(b: Backend, monitors: seq<Mon>, run: seq<Occurrence>, o: Occurrence)
    requires NoDup(monitors) && b.Wayland?
    requires var s := Run(Start(b, monitors), run);
             s.m.active ==> (s.k.cur.None? <==> FinishedSince(Start(b, monitors), run))
    ensures var s1 := Run(Start(b, monitors), run + [o]);
            s1.m.active ==> (s1.k.cur.None? <==> FinishedSince(Start(b, monitors), run + [o]))
  {
    var s0 := Start(b, monitors);
    var s := Run(s0, run);
    RunKeeps(b, monitors, run);
    BackendStays(b, monitors, run);
    RunOneMore(s0, run, o);
    if Step(s, o.e, o.i).m.active {
      SinceLonger(s0, run, o, FinishedIn, IsActive);
      if s.m.active {
        LockWhileLasting(s, o.e, o.i);
      } else {
        ActivationHoldsALock(s, o.e, o.i);
      }
    }
  }

  lemma CreateBackend(s: State, mons: seq<Mon>, p: Prefs)
    ensures CreateWindows(s, mons, p).backend == s.backend
  {
    if mons != [] {
      CreateBackend(s, mons[..|mons| - 1], p);
    }
  }

  lemma ActivateBackend(s: State, on: bool, i: Input)
    ensures DbusActivate(s, on, i).backend == s.backend
  {
    CreateBackend(Entered(s, i), s.monitors, i.p);
  }

  lemma CallBackend(s: State, e: Event, i: Input)
    requires CallsForSaver(e) || e.SetActive?
    ensures Step(s, e, i).backend == s.backend
  {
    ActivateBackend(s, if e.SetActive? then e.on else true, i);
    ActivateBackend(s.(m := EnableLocker(s.m, true)), true, i);
    CallForm(s, e, i);
  }

  lemma StepBackend(s: State, e: Event, i: Input)
    ensures Step(s, e, i).backend == s.backend
  {
    if CallsForSaver(e) || e.SetActive? {
      CallBackend(s, e, i);
    } else if e.Hotplug? {
      HotplugStepForm(s, e.now, i);
      var s1 := s.(monitors := e.now);
      CreateBackend(s1.(m := DestroyWindows(s1.m), k := RemoveSurfaces(s1.k, s1.m.table.Values)), e.now, i.p);
    }
  }

  // ---------- the roundtrips of window_realized ----------

  /** What realizing windows leads to: the client goes on, or it hands a null lock to the protocol. */
  datatype Realizing = Goes(k: Locker) | NullLock

  /** Windows are realized one after the other, each with the events its roundtrip delivers. */
  function RealizeAll(k: Locker, ids: seq<WinId>, evs: seq<seq<LockEvent>>): Realizing
    requires |evs| == |ids|
  {
    if ids == [] then Goes(k) else
    var n := |ids| - 1;
    match RealizeAll(k, ids[..n], evs[..n])
    case NullLock => NullLock
    case Goes(k1) =>
      if k1.cur.None? then NullLock else Goes(LockSaysAll(k1.(surfaces := k1.surfaces + {ids[n]}), evs[n]))
  }

  lemma {:induction false} FinishedEnds(k: Locker, evs: seq<LockEvent>)
    requires k.cur.Some?
    ensures LockSaysAll(k, evs).cur == if Finished in evs then None else k.cur
    ensures Finished !in evs ==> LockSaysAll(k, evs).surfaces == k.surfaces
  {
    if evs != [] {
      FinishedEnds(k, evs[..|evs| - 1]);
      assert evs == evs[..|evs| - 1] + [evs[|evs| - 1]];
    }
  }

  /** Some window but the last had a finished event in its roundtrip. */
  ghost predicate FinishedEarly(evs: seq<seq<LockEvent>>) {
    exists j :: 0 <= j < |evs| - 1 && Finished in evs[j]
  }

  lemma FinishedEarlyLonger(evs: seq<seq<LockEvent>>, last: seq<LockEvent>)
    ensures FinishedEarly(evs + [last]) <==> FinishedEarly(evs) || (evs != [] && Finished in evs[|evs| - 1])
  {
    var longer := evs + [last];
    if FinishedEarly(evs) {
      var j :| 0 <= j < |evs| - 1 && Finished in evs[j];
      assert longer[j] == evs[j];
    }
    if evs != [] && Finished in evs[|evs| - 1] {
      assert longer[|evs| - 1] == evs[|evs| - 1];
    }
  }

  /** The client was given a null lock exactly after an early finished event.  Without one it holds its
      lock exactly if none came in the last roundtrip either, and then each window has its surface. */
  ghost predicate Realized(k: Locker, ids: seq<WinId>, evs: seq<seq<LockEvent>>)
    requires |evs| == |ids|
  {
    && k.cur.Some?
    && (RealizeAll(k, ids, evs).NullLock? <==> FinishedEarly(evs))
    && (!FinishedEarly(evs) ==>
          var k1 := RealizeAll(k, ids, evs).k;
          && k1.cur == (if evs != [] && Finished in evs[|evs| - 1] then None else k.cur)
          && (k1.cur.Some? ==> k1.surfaces == k.surfaces + set x | x in ids))
  }

  /** What realizing any windows leads to while a lock is held, whatever events the roundtrips deliver. */
  lemma {:induction false} RealizeExactly(k: Locker, ids: seq<WinId>, evs: seq<seq<LockEvent>>)
    requires |evs| == |ids| && k.cur.Some?
    ensures Realized(k, ids, evs)
  {
    if ids == [] {
      assert (set x | x in ids) == {};
    } else {
      var n := |ids| - 1;
      RealizeExactly(k, ids[..n], evs[..n]);
      RealizeOneMore(k, ids[..n], evs[..n], ids[n], evs[n]);
      assert evs == evs[..n] + [evs[n]] && ids == ids[..n] + [ids[n]];
    }
  }

  lemma RealizeOneMore(k: Locker, ids: seq<WinId>, evs: seq<seq<LockEvent>>, id: WinId, ev: seq<LockEvent>)
    requires |evs| == |ids| && Realized(k, ids, evs)
    ensures Realized(k, ids + [id], evs + [ev])
  {
    FinishedEarlyLonger(evs, ev);
    assert (ids + [id])[..|ids|] == ids && (evs + [ev])[..|evs|] == evs;
    if !FinishedEarly(evs + [ev]) {
      var k1 := RealizeAll(k, ids, evs).k;
      FinishedEnds(k1.(surfaces := k1.surfaces + {id}), ev);
      assert (set x | x in ids + [id]) == (set x | x in ids) + {id};
    }
  }
}
