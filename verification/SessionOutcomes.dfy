/**
 What single steps of a reachable session may and may not do: who can end it, what a lock call
 achieves, what happens to the session lock, the idle alarms and the ActiveChanged broadcasts.
 */
module SessionOutcomes {
  import opened Basics
  import opened SessionModel
  import opened SessionInvariant
  import opened SessionSteps
  import opened SessionRuns

  // ---------- who ends a session ----------

  lemma ThrottleStays(s: State, starts: map<WinId, bool>)
    ensures CheckThrottle(s, starts).m.active == s.m.active
    ensures CheckThrottle(s, starts).d.active == s.d.active && CheckThrottle(s, starts).d.sent == s.d.sent
  {
  }

  /** The session goes on and nothing is broadcast. */
  predicate Stays(s: State, s1: State) {
    s1.m.active && s1.d.sent == s.d.sent
  }

  lemma AskedStays(s: State, e: Event, i: Input)
    requires s.m.active && AsksUnlock(e)
    ensures Stays(s, Step(s, e, i))
  {
    RequestFrame(s.m, i.at);
    AskedStep(s, e, i);
  }

  lemma TablesStay(s: State, e: Event, i: Input)
    requires ChangesTables(e)
    ensures Step(s, e, i).m.active == s.m.active && Step(s, e, i).d.sent == s.d.sent
  {
    TablesForm(s, e, i);
    ThrottleStays(s.(d := s.d.(throttlers := ThrottlersAfter(s.d.throttlers, e))), i.starts);
    if e.NameLost? {
      ThrottleStays(s.(d := s.d.(throttlers := WithoutConn(s.d.throttlers, e.name))), i.starts);
    }
  }

  lemma ActiveStays(s: State, i: Input)
    requires Inv(s) && s.m.active
    ensures Stays(s, DbusActivate(s, true, i)) && Stays(s, DbusLock(s, i))
  {
  }

  lemma CallsStay(s: State, e: Event, i: Input)
    requires Inv(s) && s.m.active && CallsForSaver(e)
    ensures Stays(s, Step(s, e, i))
  {
    ActiveStays(s, i);
    CallForm(s, e, i);
  }

  lemma TicksKeepActive(s: State, e: Event, i: Input)
    requires Ticks(e)
    ensures Step(s, e, i).m.active == s.m.active && Step(s, e, i).d == s.d
  {
    if e.LockTimeout? || e.CycleTimeout? {
      TimerStepForm(s, e, i);
    }
  }

  lemma PopupStays(s: State, w: WinId, i: Input)
    ensures Step(s, PopupIdle(w), i).m.active == s.m.active && Step(s, PopupIdle(w), i).d == s.d
  {
    PopupStepForm(s, w, i);
    if w in s.m.win {
      PopupFrame(s.m, w, s.backend.Wayland? && !i.windowActive, i.dialogStarts, i.starts);
    }
  }

  lemma DialogStays(s: State, e: Event, i: Input)
    requires MovesDialog(e)
    ensures Step(s, e, i).m.active == s.m.active && Step(s, e, i).d == s.d
  {
    if e.PopupIdle? {
      PopupStays(s, e.win, i);
    } else if e.DeactivatedIdle? {
      DeactivatedStepForm(s, e.win, i);
      if e.win in s.m.win {
        EmitFrame(s.m, e.win);
      }
    } else {
      DialogStepForm(s, e.win, e.out, i);
      if e.win in s.m.win {
        SaysFrame(s.m, e.win, e.out, i.starts);
      }
    }
  }

  lemma WindowStays(s: State, e: Event, i: Input)
    requires MovesWindow(e)
    ensures Step(s, e, i).m.active == s.m.active && Step(s, e, i).d == s.d
  {
    if MovesDialog(e) {
      DialogStays(s, e, i);
    } else if e.Visibility? {
      if e.win in s.m.win {
        ObscuredFrame(s.m, e.win, e.hidden, i.starts);
      }
    } else {
      RecreateNoCause(s.(monitors := e.now), i.p);
    }
  }

  lemma SessionStays(s: State, e: Event, i: Input)
    requires Inv(s) && s.m.active && e != SetActive(false) && !e.ManagerIdle?
    ensures Stays(s, Step(s, e, i))
  {
    if AsksUnlock(e) {
      AskedStays(s, e, i);
    } else if ChangesTables(e) {
      TablesStay(s, e, i);
    } else if CallsForSaver(e) {
      CallsStay(s, e, i);
    } else if Ticks(e) {
      TicksKeepActive(s, e, i);
    } else {
      WindowStays(s, e, i);
    }
  }

  /** Over any run, a session ends by a SetActive(false) call or for one recorded reason: an OK line
      of the dialog a window was showing, or an unlock request while that window was not locked. */
  lemma OnlyTheseEndASession(b: Backend, monitors: seq<Mon>, run: seq<Occurrence>, e: Event, i: Input)
    requires NoDup(monitors)
    ensures var s := Run(Start(b, monitors), run);
            s.m.active && !Step(s, e, i).m.active ==>
              || e == SetActive(false)
              || (&& e.ManagerIdle? && s.m.idles != [] && Justified(s.m.idles[0])
                  && Step(s, e, i).m.ended == s.m.ended + [s.m.idles[0]]
                  && ExplainedIn(Start(b, monitors), run, s.m.idles[0]))
  {
    var s := Run(Start(b, monitors), run);
    RunKeeps(b, monitors, run);
    if s.m.active && e != SetActive(false) {
      if e.ManagerIdle? {
        if s.m.idles != [] {
          assert s.m.idles[0] in s.m.idles;
          EveryCauseExplained(b, monitors, run, s.m.idles[0]);
        }
      } else {
        SessionStays(s, e, i);
      }
    }
  }

  // ---------- the lock flag ----------

  lemma LoudKeepsFlag(s: State, e: Event, i: Input)
    requires s.m.active && s.m.lockActive && (e.DialogOutput? || e.DeactivatedIdle? || e.ManagerIdle?)
    ensures Step(s, e, i).m.active ==> Step(s, e, i).m.lockActive
  {
    if e.DialogOutput? {
      OutputFlags(s, e, i);
    }
  }

  /** Once a session is locked it stays locked until it ends. */
  lemma LockFlagHolds(s: State, e: Event, i: Input)
    requires s.m.active && s.m.lockActive
    ensures Step(s, e, i).m.active ==> Step(s, e, i).m.lockActive
  {
    if Neutral(e) {
      NeutralStep(s, e, i);
    } else if AsksUnlock(e) {
      AskedFlags(s, e, i);
    } else {
      LoudKeepsFlag(s, e, i);
    }
  }

  /** A lock call that is allowed always raises the lock flag; the session becomes active exactly
      when the screen could be taken, so the flag can be up in an inactive session. */
  lemma LockCallOutcome(s: State, i: Input)
    requires Inv(s) && i.p.lockEnabled
    ensures var s1 := Step(s, LockCall, i);
            && s1.m.lockActive
            && (s1.m.active <==> s.m.active || CanActivate(s, i))
  {
    var s0 := s.(m := EnableLocker(s.m, true));
    LockerStep(s);
    LockerKeeps(s.m);
    ActivateKeeps(s0, i);
    ActivateNoCause(s0, i);
    if !s.m.active && CanActivate(s, i) {
      assert CanActivate(s0, i);
      BecomesLocked(s0, i);
    }
  }

  lemma BecomesLocked(s: State, i: Input)
    requires s.m.lockActive
    ensures BecomeActive(s, i).m.lockActive
  {
    var s1 := CreateWindows(Entered(s, i), s.monitors, i.p);
    CreateKeepsLock(Entered(s, i), s.monitors, i.p);
    ShownNoCause(s1, i.p);
    AfterActivatedNoCause(Shown(s1, i.p), i.p);
    BecomeActiveForm(s, i);
  }

  // ---------- the session lock ----------

  /** Every lock object but the current one was given up by exactly one request, and that request
      was unlock_and_destroy exactly when "locked" had been received on it. */
  lemma LocksEndOnce(s: State, l: nat, n: nat)
    requires Reachable(s)
    ensures l < s.k.next && s.k.cur != Some(l) ==>
              && l < |s.k.ended| && s.k.ended[l].lock == l
              && (s.k.ended[l].how == UnlockAndDestroy <==> l in s.k.received)
    ensures n < |s.k.ended| && s.k.ended[n].lock == l ==> n == l && s.k.cur != Some(l)
  {
    ReachableOk(s);
  }

  /** While a lock is held its surfaces are those of the windows in the table, and it is held only
      by an active session on a compositor that has the protocol. */
  lemma LockSurfaces(s: State)
    requires Reachable(s)
    ensures s.k.cur.Some? ==> s.k.surfaces == s.m.table.Values && s.m.active && s.backend.Wayland?
    ensures s.k.cur.None? ==> s.k.surfaces == {}
  {
    ReachableOk(s);
  }

  lemma CallActivates(s: State, i: Input)
    requires Inv(s) && !s.m.active
    ensures DbusActivate(s, true, i).m.active ==>
              CanActivate(s, i) && DbusActivate(s, true, i).k == BecomeActive(s, i).k
    ensures !DbusActivate(s, false, i).m.active
  {
    ActivateKeeps(s, i);
  }

  lemma LockActivates(s: State, i: Input)
    requires Inv(s) && !s.m.active && DbusLock(s, i).m.active
    ensures CanActivate(s, i) && DbusLock(s, i).k == BecomeActive(s.(m := EnableLocker(s.m, true)), i).k
  {
    LockerStep(s);
    CallActivates(s.(m := EnableLocker(s.m, true)), i);
  }

  lemma ActivatesOnlyHere(s: State, e: Event, i: Input)
    requires Inv(s) && !s.m.active && Step(s, e, i).m.active
    ensures CanActivate(s, i)
    ensures Step(s, e, i).k == BecomeActive(s, i).k
         || Step(s, e, i).k == BecomeActive(s.(m := EnableLocker(s.m, true)), i).k
  {
    if CallsForSaver(e) || e.SetActive? {
      CallActivates(s, i);
      if DbusLock(s, i).m.active {
        LockActivates(s, i);
      }
      CallForm(s, e, i);
    } else {
      InactiveStays(s, e, i);
    }
  }

  /** On Wayland a session becomes active only with a live lock that has a surface per window, the
      lock being the one requested just then. */
  lemma ActivationHoldsALock(s: State, e: Event, i: Input)
    requires Inv(s) && s.backend.Wayland? && !s.m.active && Step(s, e, i).m.active
    ensures s.k.cur.None? && Step(s, e, i).k.cur == Some(s.k.next)
    ensures Step(s, e, i).k.surfaces == Step(s, e, i).m.table.Values
  {
    ActivatesOnlyHere(s, e, i);
    StepKeeps(s, e, i);
    LockerStep(s);
    TakenLock(s, i);
    TakenLock(s.(m := EnableLocker(s.m, true)), i);
  }

  lemma LockSaysCur(k: Locker, evs: seq<LockEvent>)
    ensures LockSaysAll(k, evs).cur.Some? ==> LockSaysAll(k, evs).cur == k.cur
  {
    if evs != [] {
      LockSaysCur(k, evs[..|evs| - 1]);
    }
  }

  lemma TakenLock(s: State, i: Input)
    requires Inv(s) && s.backend.Wayland? && !s.m.active && CanActivate(s, i)
    ensures BecomeActive(s, i).k.cur == Some(s.k.next)
  {
    var s1 := Entered(s, i);
    LockSaysCur(s.k.(cur := Some(s.k.next), next := s.k.next + 1), i.lockEvents);
    assert s1.k.cur == Some(s.k.next);
    EnteredStaged(s, i);
    CreateStaged(s1, s.monitors, i.p);
    BecomeActiveForm(s, i);
    ReactionKeepsLock(Shown(CreateWindows(s1, s.monitors, i.p), i.p), i.p);
  }

  lemma ReactionKeepsLock(s: State, p: Prefs)
    ensures AfterActivated(s, p).k == s.k
  {
  }

  /** A compositor that ends the lock leaves the session active without one: nothing tells the manager. */
  lemma FinishedLeavesSessionActive(s: State, i: Input)
    requires Inv(s) && s.k.cur.Some?
    ensures var s1 := Step(s, SessionLock(Finished), i);
            && s1.m == s.m && s1.m.active && s1.k.cur.None? && s1.k.surfaces == {}
            && s1.k.ended == s.k.ended + [LockEnd(s.k.cur.value, if s.k.locked then UnlockAndDestroy else Destroy)]
  {
  }

  // ---------- the idle alarms ----------

  lemma AlarmsExactly(s: State)
    requires Reachable(s) && Listening(s.backend)
    ensures Deactivate in s.a.armed <==> s.m.active
    ensures Activate in s.a.armed <==> !s.m.active && s.a.enabled
    ensures LockLater in s.a.armed ==> s.m.active
    ensures Activate in s.a.armed ==> s.a.armed[Activate] == s.a.timeout
    ensures Deactivate in s.a.armed ==> s.a.armed[Deactivate] == 0
  {
    ReachableOk(s);
  }

  // ---------- ActiveChanged broadcasts ----------

  /** The Wayland listener answers "activated" by a lock signal that is let through. */
  predicate LocksBack(s: State, p: Prefs) {
    Listening(s.backend) && p.lockWithSaver && s.a.lockTimeout == 0
    && s.d.inhibitors == map[] && p.lockEnabled
  }

  /** What one step broadcasts. */
  function Broadcasts(s: State, s1: State, e: Event, p: Prefs): seq<bool> {
    if s1.m.active == s.m.active then []
    else if s1.m.active then (if LocksBack(s, p) then [true, true] else [true])
    else if e.SetActive? then [false, false]
    else [false]
  }

  lemma ActivatedSends(s: State, i: Input)
    requires Inv(s) && !s.m.active
    ensures BecomeActive(s, i).d == if LocksBack(s, i.p) then s.d.(active := true, sent := s.d.sent + [true]) else s.d
  {
    var s1 := Entered(s, i);
    EnteredStaged(s, i);
    CreateStaged(s1, s.monitors, i.p);
    BecomeActiveForm(s, i);
  }

  lemma DbusActivateSends(s: State, on: bool, i: Input)
    requires Inv(s)
    ensures DbusActivate(s, on, i).d.sent == s.d.sent + Broadcasts(s, DbusActivate(s, on, i), SetActive(on), i.p)
  {
    if s.m.active != on {
      if on {
        ActivateKeeps(s, i);
        ActivatedSends(s, i);
      } else {
        DeactivateKeeps(s);
      }
    }
  }

  lemma DbusLockSends(s: State, i: Input)
    requires Inv(s)
    ensures DbusLock(s, i).d.sent == s.d.sent + Broadcasts(s, DbusLock(s, i), LockCall, i.p)
  {
    LockerStep(s);
    DbusActivateSends(s.(m := EnableLocker(s.m, true)), true, i);
  }

  lemma CallsSend(s: State, e: Event, i: Input)
    requires Inv(s) && !s.m.active && (CallsForSaver(e) || e.SetActive?)
    ensures Step(s, e, i).d.sent == s.d.sent + Broadcasts(s, Step(s, e, i), e, i.p)
  {
    if e.SetActive? && !e.on {
      DbusActivateSends(s, false, i);
    } else {
      DbusActivateSends(s, true, i);
      DbusLockSends(s, i);
    }
    CallForm(s, e, i);
  }

  lemma InactiveStays(s: State, e: Event, i: Input)
    requires !s.m.active && !CallsForSaver(e) && !e.SetActive?
    ensures !Step(s, e, i).m.active && Step(s, e, i).d.sent == s.d.sent
  {
    if AsksUnlock(e) {
      AskedFlags(s, e, i);
      AskedStep(s, e, i);
    } else if ChangesTables(e) {
      TablesStay(s, e, i);
    } else if MovesWindow(e) {
      WindowStays(s, e, i);
    } else if e.ManagerIdle? {
      ManagerIdleStepForm(s, i);
    } else {
      TicksKeepActive(s, e, i);
    }
  }

  lemma ActiveSends(s: State, e: Event, i: Input)
    requires Inv(s) && s.m.active
    ensures Step(s, e, i).d.sent == s.d.sent + Broadcasts(s, Step(s, e, i), e, i.p)
  {
    if e == SetActive(false) {
      DbusActivateSends(s, false, i);
    } else if !e.ManagerIdle? {
      SessionStays(s, e, i);
    }
  }

  /** Exactly which ActiveChanged signals a step sends: none without a change, two for a call that
      ends the session, and two for an activation the idle listener turns into a lock. */
  lemma BroadcastsExactly(s: State, e: Event, i: Input)
    requires Inv(s)
    ensures Step(s, e, i).d.sent == s.d.sent + Broadcasts(s, Step(s, e, i), e, i.p)
    ensures forall n :: |s.d.sent| <= n < |Step(s, e, i).d.sent| ==> Step(s, e, i).d.sent[n] == Step(s, e, i).d.active
  {
    StepKeeps(s, e, i);
    if s.m.active {
      ActiveSends(s, e, i);
    } else if CallsForSaver(e) || e.SetActive? {
      CallsSend(s, e, i);
    } else {
      InactiveStays(s, e, i);
    }
  }
}
