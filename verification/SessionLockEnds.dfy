/**
 How each session lock is given up, told from the events of the run alone: by unlock_and_destroy if the
 compositor had sent "locked" for it, by destroy otherwise.
 */
module SessionLockEnds {
  import opened Basics
  import opened SessionModel
  import opened SessionInvariant
  import opened SessionSteps
  import opened SessionRuns
  import opened SessionOutcomes
  import opened SessionLockLoss

  /** The locked event is noted for the lock that is held, and does nothing else. */
  lemma LockedNoted(k: Locker, l: nat)
    requires k.cur == Some(l)
    ensures LockSays(k, Locked).locked && l in LockSays(k, Locked).received
    ensures LockSays(k, Locked) == k.(locked := true, received := k.received + {l})
  {
  }

  /** An Unlock ends the lock by the request its flag asks for, and takes its surfaces along. */
  lemma UnlockEnds(k: Locker, l: nat)
    requires k.cur == Some(l)
    ensures Unlock(k).cur.None? && !Unlock(k).locked && Unlock(k).surfaces == {}
    ensures |Unlock(k).ended| == |k.ended| + 1
    ensures Unlock(k).ended[|k.ended|].lock == l
    ensures Unlock(k).ended[|k.ended|].how == UnlockAndDestroy <==> k.locked
  {
  }

  /** Among these events locked comes while the lock is still held. */
  predicate LockedFirst(evs: seq<LockEvent>) {
    exists j :: 0 <= j < |evs| && evs[j] == Locked && Finished !in evs[..j]
  }

  lemma LockedFirstLonger(evs: seq<LockEvent>, ev: LockEvent)
    ensures LockedFirst(evs + [ev]) <==> LockedFirst(evs) || (ev == Locked && Finished !in evs)
  {
    var longer := evs + [ev];
    assert longer[..|evs|] == evs;
    if j :| 0 <= j < |longer| && longer[j] == Locked && Finished !in longer[..j] {
      assert j < |evs| ==> longer[..j] == evs[..j] && evs[j] == Locked;
    }
    if j :| 0 <= j < |evs| && evs[j] == Locked && Finished !in evs[..j] {
      assert longer[..j] == evs[..j] && longer[j] == Locked;
    }
    if ev == Locked && Finished !in evs {
      assert longer[|evs|] == Locked;
    }
  }

  lemma {:induction false} HeardAll(k: Locker, evs: seq<LockEvent>, l: nat)
    requires k.cur == Some(l)
    ensures LockSaysAll(k, evs).received == if LockedFirst(evs) then k.received + {l} else k.received
  {
    if evs != [] {
      var most, ev := evs[..|evs| - 1], evs[|evs| - 1];
      assert evs == most + [ev];
      HeardAll(k, most, l);
      FinishedEnds(k, most);
      LockedFirstLonger(most, ev);
    }
  }

  /** The occurrence tells of lock l that it is locked: by an event of its own, or in the roundtrip of the
      request for l. */
  predicate Hears(s: State, o: Occurrence, l: nat) {
    || (o.e == SessionLock(Locked) && s.k.cur == Some(l))
    || (Step(s, o.e, o.i).k.next == s.k.next + 1 && s.k.next == l && LockedFirst(o.i.lockEvents))
  }

  // ---------- what each kind of event leaves of the history ----------

  predicate SameHistory(k: Locker, k1: Locker) {
    k1.received == k.received && k1.next == k.next
  }

  lemma CreateHistory(s: State, mons: seq<Mon>, p: Prefs)
    ensures SameHistory(s.k, CreateWindows(s, mons, p).k)
  {
    if mons != [] {
      CreateHistory(s, mons[..|mons| - 1], p);
      CreateOnly(CreateWindows(s, mons[..|mons| - 1], p), mons[|mons| - 1], p);
    }
  }

  lemma BecomeHistory(s: State, i: Input)
    ensures SameHistory(LockerAfterTry(s, i), BecomeActive(s, i).k)
  {
    var s1 := Entered(s, i);
    CreateHistory(s1, s.monitors, i.p);
    BecomeActiveForm(s, i);
    ReactionKeepsLock(Shown(CreateWindows(s1, s.monitors, i.p), i.p), i.p);
  }

  /** What a try to activate the manager adds to the history. */
  ghost predicate Tried(k: Locker, k1: Locker, i: Input) {
    || SameHistory(k, k1)
    || (k1.next == k.next + 1
        && k1.received == if LockedFirst(i.lockEvents) then k.received + {k.next} else k.received)
  }

  lemma {:induction false} NextStays(k: Locker, evs: seq<LockEvent>)
    ensures LockSaysAll(k, evs).next == k.next
  {
    if evs != [] {
      NextStays(k, evs[..|evs| - 1]);
    }
  }

  lemma TryHistory(s: State, i: Input)
    ensures Tried(s.k, LockerAfterTry(s, i), i)
  {
    if CanTryLock(s.backend, s.k) {
      var k := s.k.(cur := Some(s.k.next), next := s.k.next + 1);
      HeardAll(k, i.lockEvents, s.k.next);
      NextStays(k, i.lockEvents);
    }
  }

  lemma ActivateHistory(s: State, on: bool, i: Input)
    ensures Tried(s.k, DbusActivate(s, on, i).k, i)
  {
    TryHistory(s, i);
    BecomeHistory(s, i);
  }

  lemma CallHistory(s: State, e: Event, i: Input)
    requires CallsForSaver(e) || e.SetActive?
    ensures Tried(s.k, Step(s, e, i).k, i)
  {
    ActivateHistory(s, if e.SetActive? then e.on else true, i);
    ActivateHistory(s.(m := EnableLocker(s.m, true)), true, i);
    CallForm(s, e, i);
  }

  lemma HotplugHistory(s: State, now: seq<Mon>, i: Input)
    ensures SameHistory(s.k, Step(s, Hotplug(now), i).k)
  {
    HotplugStepForm(s, now, i);
    var s1 := s.(monitors := now);
    CreateHistory(s1.(m := DestroyWindows(s1.m), k := RemoveSurfaces(s1.k, s1.m.table.Values)), now, i.p);
  }

  lemma QuietHistory(s: State, e: Event, i: Input)
    requires !CallsForSaver(e) && !e.SetActive? && e != SessionLock(Locked)
    ensures SameHistory(s.k, Step(s, e, i).k)
  {
    if AsksUnlock(e) {
      AskedStep(s, e, i);
    } else if ChangesTables(e) {
      TablesKeepLock(s, e, i);
    } else if e.Hotplug? {
      HotplugHistory(s, e.now, i);
    } else if e.ManagerIdle? {
      ManagerIdleStepForm(s, i);
    }
  }

  /** A step adds a lock to those that were locked exactly if it tells so. */
  lemma StepHears(s: State, o: Occurrence, l: nat)
    ensures l in Step(s, o.e, o.i).k.received <==> l in s.k.received || Hears(s, o, l)
  {
    if CallsForSaver(o.e) || o.e.SetActive? {
      CallHistory(s, o.e, o.i);
    } else if o.e == SessionLock(Locked) {
      LockedStep(s, o.i);
    } else {
      QuietHistory(s, o.e, o.i);
    }
  }

  lemma LockedStep(s: State, i: Input)
    ensures Step(s, SessionLock(Locked), i) == s.(k := LockSays(s.k, Locked))
  {
  }

  // ---------- over whole runs ----------

  /** During the run the compositor told of lock l that it is locked. */
  ghost predicate WasLocked(s0: State, run: seq<Occurrence>, l: nat) {
    exists n: nat :: n < |run| && Hears(Run(s0, run[..n]), run[n], l)
  }

  lemma WasLockedLonger(s0: State, run: seq<Occurrence>, o: Occurrence, l: nat)
    ensures WasLocked(s0, run + [o], l) <==> WasLocked(s0, run, l) || Hears(Run(s0, run), o, l)
  {
    var longer := run + [o];
    assert longer[..|run|] == run && longer[|run|] == o;
    if WasLocked(s0, longer, l) {
      var n: nat :| n < |longer| && Hears(Run(s0, longer[..n]), longer[n], l);
      assert n < |run| ==> longer[..n] == run[..n] && longer[n] == run[n];
    }
    if WasLocked(s0, run, l) {
      var n: nat :| n < |run| && Hears(Run(s0, run[..n]), run[n], l);
      assert longer[..n] == run[..n] && longer[n] == run[n];
    }
  }

  lemma {:induction false} ReceivedMeans(b: Backend, monitors: seq<Mon>, run: seq<Occurrence>, l: nat)
    ensures l in Run(Start(b, monitors), run).k.received <==> WasLocked(Start(b, monitors), run, l)
  {
    var s0 := Start(b, monitors);
    if run != [] {
      var most, last := run[..|run| - 1], run[|run| - 1];
      assert run == most + [last];
      ReceivedMeans(b, monitors, most, l);
      RunOneMore(s0, most, last);
      WasLockedLonger(s0, most, last, l);
      StepHears(Run(s0, most), last, l);
    }
  }

  /** Over every run, the n-th lock given up was the n-th requested, and it was given up by
      unlock_and_destroy if and only if a locked event had come for it. */
  lemma LockEndsByEvents(b: Backend, monitors: seq<Mon>, run: seq<Occurrence>, n: nat)
    requires NoDup(monitors) && n < |Run(Start(b, monitors), run).k.ended|
    ensures var end := Run(Start(b, monitors), run).k.ended[n];
            end.lock == n && (end.how == UnlockAndDestroy <==> WasLocked(Start(b, monitors), run, n))
  {
    RunKeeps(b, monitors, run);
    ReceivedMeans(b, monitors, run, n);
  }
}
