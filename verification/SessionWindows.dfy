/**
 The screensaver windows, the session lock client and the manager that owns them.

 The methods follow the program's own functions and their order of effects.  Each is proved to
 change the snapshot of the manager exactly as the function of SessionModel with its name says, and
 to keep the process table matched with the recorded pids.
 */
module SessionWindows {
  import opened Basics
  import opened SessionModel
  import opened SessionInvariant
  import opened SessionProcesses
  import opened SessionSteps

  /** The ext-session-lock-v1 client. */
  class GSSessionLockManager {
    var wlLock: Option<nat>
    var locked: bool
    var lockSurfaces: set<WinId>
    var next: nat
    ghost var received: set<nat>
    ghost var ended: seq<LockEnd>

    ghost function Snap(): Locker
      reads this
    {
      Locker(wlLock, locked, lockSurfaces, next, received, ended)
    }

    constructor ()
      ensures Snap() == Locker(None, false, {}, 0, {}, [])
    {
      wlLock, locked, lockSurfaces, next := None, false, {}, 0;
      received, ended := {}, [];
    }

    method Unlock()
      modifies this
      ensures Snap() == SessionModel.Unlock(old(Snap()))
    {
      if wlLock.None? {
        return;
      }
      if locked {
        ended := ended + [LockEnd(wlLock.value, UnlockAndDestroy)];
      } else {
        ended := ended + [LockEnd(wlLock.value, Destroy)];
      }
      lockSurfaces := {};
      wlLock := None;
      locked := false;
    }

    /** The locked and finished handlers. */
    method Event(ev: LockEvent)
      modifies this
      ensures Snap() == LockSays(old(Snap()), ev)
    {
      if wlLock.None? {
        return;   // no lock object, no event
      }
      match ev
      case Locked =>
        locked := true;
        received := received + {wlLock.value};
      case Finished =>
        Unlock();
    }

    /** A roundtrip delivers these events. */
    method Roundtrip(roundtrip: seq<LockEvent>)
      modifies this
      ensures Snap() == LockSaysAll(old(Snap()), roundtrip)
    {
      ghost var k := Snap();
      for n := 0 to |roundtrip|
        invariant Snap() == LockSaysAll(k, roundtrip[..n])
      {
        assert roundtrip[..n + 1][..n] == roundtrip[..n];
        Event(roundtrip[n]);
      }
      assert roundtrip[..|roundtrip|] == roundtrip;
    }

    method Lock(roundtrip: seq<LockEvent>) returns (held: bool)
      modifies this
      ensures Snap() == TakeLock(old(Snap()), roundtrip)
      ensures held == (old(wlLock).None? && wlLock.Some?)
    {
      if wlLock.Some? {
        return false;
      }
      wlLock := Some(next);
      next := next + 1;
      Roundtrip(roundtrip);
      held := wlLock.Some?;
    }

    /** window_realized; the handler is connected only if a lock was held when the window was added. */
    method WindowRealized(id: WinId, roundtrip: seq<LockEvent>)
      modifies this
      ensures Snap() == if old(wlLock).Some?
                        then LockSaysAll(old(Snap()).(surfaces := old(lockSurfaces) + {id}), roundtrip)
                        else old(Snap())
    {
      if wlLock.Some? {
        lockSurfaces := lockSurfaces + {id};
        Roundtrip(roundtrip);
      }
    }

    method RemoveWindow(id: WinId)
      modifies this
      ensures Snap() == RemoveSurfaces(old(Snap()), {id})
    {
      if wlLock.Some? {
        lockSurfaces := lockSurfaces - {id};
      }
    }
  }

  class GSWindow {
    const id: WinId
    const kernel: Kernel
    var lockActive: bool
    var obscured: bool
    var visible: bool
    var sensitive: bool
    var dialogUp: bool
    var popupDialogIdle: bool
    var lockPid: Pid
    var lockWatch: bool
    var responseOk: bool
    var deactivatedIdle: Option<Cause>

    function Value(): Win
      reads this
    {
      Win(lockActive, obscured, visible, sensitive, dialogUp, popupDialogIdle, lockPid > 0, lockWatch,
          responseOk, deactivatedIdle)
    }

    /** The recorded pid is this window's only child. */
    ghost predicate Linked()
      reads this`lockPid, kernel
    {
      kernel.Balanced() && ChildIs(kernel.children, DialogOf(id), lockPid, false)
    }

    constructor (id: WinId, lockActive: bool, kernel: Kernel)
      requires kernel.Balanced() && forall p :: p in kernel.children ==> kernel.children[p].owner != DialogOf(id)
      ensures this.id == id && this.kernel == kernel && Value() == NewWin(lockActive) && Linked()
    {
      this.id, this.kernel, this.lockActive := id, kernel, lockActive;
      obscured, visible, sensitive := false, false, true;
      dialogUp, popupDialogIdle, lockPid, lockWatch, responseOk := false, false, 0, false, false;
      deactivatedIdle := None;
    }

    method Apply(call: WindowCall)
      modifies `lockActive, `sensitive
      ensures Value() == WinAfter(old(Value()), call, id)
    {
      match call
      case Locking(on) => lockActive := on;
      case Sensing => sensitive := true;
      case Numbing(spare) =>
        if id != spare {
          sensitive := false;
        }
    }

    /** Kills the dialog and waits for it. */
    method DialogFinish()
      requires Linked()
      modifies `lockPid, kernel
      ensures Linked() && OnlyChildOf(DialogOf(id), old(kernel.children), kernel.children) && lockPid == 0
      ensures kernel.stoppedWaits == old(kernel.stoppedWaits)
    {
      if lockPid > 0 {
        kernel.Wait(lockPid);
        lockPid := 0;
      }
    }

    ghost predicate In(manager: GSManager)
      reads manager`memory
    {
      id in manager.memory && manager.memory[id] == this && manager.kernel == kernel
    }

    /** Fields of this window changed, but not its child. */
    twostate lemma Touched(manager: GSManager)
      requires old(manager.Ready()) && old(In(manager)) && unchanged(manager) && unchanged(kernel)
      requires manager.OnlyWindow(id) && lockPid == old(lockPid)
      ensures manager.SameObjects() && manager.Ready()
      ensures manager.Snap() == old(manager.Snap()).(win := old(manager.WinValues())[id := Value()])
    {
      manager.WindowSnap(id);
      manager.WindowOwned(id);
    }

    method MarkDialog(manager: GSManager, up: bool)
      requires manager.Ready() && In(manager)
      modifies `dialogUp
      ensures manager.SameObjects() && manager.Ready()
      ensures manager.Snap() == old(manager.Snap()).(
                win := old(manager.WinValues())[id := old(Value()).(dialogUp := up)])
    {
      dialogUp := up;
      Touched(manager);
    }

    method SetDialogUp(manager: GSManager, up: bool, starts: map<WinId, bool>)
      requires manager.Ready() && In(manager)
      modifies this, manager`dialogUp, manager`auth, manager.memory.Values, manager.jobs.Values, manager.kernel
      ensures manager.SameObjects() && manager.Ready()
      ensures manager.Snap() == SessionModel.SetDialogUp(old(manager.Snap()), id, up, starts)
    {
      if dialogUp == up {
        return;
      }
      MarkDialog(manager, up);
      manager.WindowDialogUpChanged(id, up, starts);
    }

    /** gs_window_dialog_finish as the manager sees it. */
    method FinishDialog(manager: GSManager)
      requires manager.Ready() && In(manager)
      modifies `lockPid, manager.kernel
      ensures manager.SameObjects() && manager.Ready()
      ensures manager.Snap() == old(manager.Snap()).(
                win := old(manager.WinValues())[id := old(Value()).(dialogAlive := false)])
    {
      DialogFinish();
      manager.WindowSnap(id);
      manager.WindowOwned(id);
    }

    method RemoveDialogSources(manager: GSManager)
      requires manager.Ready() && In(manager)
      modifies `popupDialogIdle, `lockWatch
      ensures manager.SameObjects() && manager.Ready()
      ensures manager.Snap() == old(manager.Snap()).(
                win := old(manager.WinValues())[id := old(Value()).(popupIdle := false, dialogWatch := false)])
    {
      popupDialogIdle := false;
      lockWatch := false;
      Touched(manager);
    }

    method PopdownDialog(manager: GSManager, starts: map<WinId, bool>)
      requires manager.Ready() && In(manager)
      modifies this, manager`dialogUp, manager`auth, manager.memory.Values, manager.jobs.Values, manager.kernel
      ensures manager.SameObjects() && manager.Ready()
      ensures manager.Snap() == SessionModel.PopdownDialog(old(manager.Snap()), id, starts)
    {
      FinishDialog(manager);
      SetDialogUp(manager, false, starts);
      RemoveDialogSources(manager);
    }

    method AddEmitDeactivatedIdle(manager: GSManager, why: Cause)
      requires manager.Ready() && In(manager)
      modifies `deactivatedIdle
      ensures manager.SameObjects() && manager.Ready()
      ensures manager.Snap() == old(manager.Snap()).(
                win := old(manager.WinValues())[id := old(Value()).(deactIdle := Some(why))])
    {
      deactivatedIdle := Some(why);
      Touched(manager);
    }

    method AddPopupDialogIdle(manager: GSManager)
      requires manager.Ready() && In(manager)
      modifies `popupDialogIdle
      ensures manager.SameObjects() && manager.Ready()
      ensures manager.Snap() == old(manager.Snap()).(
                win := old(manager.WinValues())[id := old(Value()).(popupIdle := true)])
    {
      popupDialogIdle := true;
      Touched(manager);
    }

    method RequestUnlock(manager: GSManager)
      requires manager.Ready() && In(manager)
      modifies this, manager`dialogUp, manager`auth, manager.memory.Values, manager.jobs.Values, manager.kernel
      ensures manager.SameObjects() && manager.Ready()
      ensures manager.Snap() == WindowRequestUnlock(old(manager.Snap()), id)
    {
      if !visible || lockWatch {
        return;
      }
      if !lockActive {
        AddEmitDeactivatedIdle(manager, OpenRequest(id, lockActive));
        return;
      }
      AddPopupDialogIdle(manager);
      SetDialogUp(manager, true, map[]);
    }

    method SetResponse(manager: GSManager, ok: bool)
      requires manager.Ready() && In(manager)
      modifies `responseOk
      ensures manager.SameObjects() && manager.Ready()
      ensures manager.Snap() == old(manager.Snap()).(
                win := old(manager.WinValues())[id := old(Value()).(responseOk := ok)])
    {
      responseOk := ok;
      Touched(manager);
    }

    /** What the read end of the dialog's pipe delivered, by the order of the program's tests. */
    static method ReadDialog(o: Output) returns (e: Option<Ending>)
      ensures e == EndingOf(o)
      ensures e == Some(OkLine) <==> o.Line? && Plain(o.text) && Contains(o.text, "RESPONSE=OK")
    {
      EndingMeans(o);
      match o
      case Line(text) =>
        if Contains(text, "WINDOW ID=") || Contains(text, "NOTICE=") {
          return None;
        } else if Contains(text, "RESPONSE=") {
          if Contains(text, "RESPONSE=OK") {
            return Some(OkLine);
          } else {
            return Some(CancelLine);
          }
        }
        return None;
      case Eof => return Some(AtEof);
      case ReadError => return Some(AtError);
      case HangUp => return Some(AtHangUp);
      case Again => return None;
      case OtherCondition => return None;
    }

    method DialogProcessWatch(manager: GSManager, o: Output, starts: map<WinId, bool>)
      requires manager.Ready() && In(manager) && lockWatch
      modifies this, manager`dialogUp, manager`auth, manager.memory.Values, manager.jobs.Values, manager.kernel
      ensures manager.SameObjects() && manager.Ready()
      ensures manager.Snap() == DialogSays(old(manager.Snap()), id, o, starts)
    {
      var e := ReadDialog(o);
      if e.Some? {
        if e.value == OkLine {
          SetResponse(manager, true);
        } else if e.value == CancelLine {
          SetResponse(manager, false);
        }
        DialogFinished(manager, e.value, starts);
      }
    }

    method Deactivate(manager: GSManager, e: Ending)
      requires manager.Ready() && In(manager)
      modifies `deactivatedIdle, `lockWatch
      ensures manager.SameObjects() && manager.Ready()
      ensures manager.Snap() == old(manager.Snap()).(
                win := old(manager.WinValues())[
                  id := old(Value()).(deactIdle := Some(DialogEnded(id, e)), dialogWatch := false)])
    {
      deactivatedIdle := Some(DialogEnded(id, e));
      lockWatch := false;
      Touched(manager);
    }

    /** The end of the watch. */
    method DialogFinished(manager: GSManager, e: Ending, starts: map<WinId, bool>)
      requires manager.Ready() && In(manager)
      modifies this, manager`dialogUp, manager`auth, manager.memory.Values, manager.jobs.Values, manager.kernel
      ensures manager.SameObjects() && manager.Ready()
      ensures manager.Snap() == SessionModel.DialogFinished(old(manager.Snap()), id, e, starts)
    {
      if responseOk {
        Deactivate(manager, e);
      } else {
        PopdownDialog(manager, starts);
      }
    }

    method StartDialog()
      requires Linked() && lockPid == 0
      modifies `lockPid, `lockWatch, `popupDialogIdle, kernel
      ensures Linked() && OnlyChildOf(DialogOf(id), old(kernel.children), kernel.children)
      ensures Value() == old(Value()).(popupIdle := false, dialogAlive := true, dialogWatch := true)
      ensures kernel.stoppedWaits == old(kernel.stoppedWaits)
    {
      lockPid := kernel.Spawn(DialogOf(id));
      lockWatch := true;
      popupDialogIdle := false;
    }

    method SpawnDialog(manager: GSManager)
      requires manager.Ready() && In(manager) && lockPid == 0
      modifies `lockPid, `lockWatch, `popupDialogIdle, manager.kernel
      ensures manager.SameObjects() && manager.Ready()
      ensures manager.Snap() == old(manager.Snap()).(
                win := old(manager.WinValues())[
                  id := old(Value()).(popupIdle := false, dialogAlive := true, dialogWatch := true)])
    {
      StartDialog();
      manager.WindowSnap(id);
      manager.WindowOwned(id);
    }

    method RemovePopupDialogIdle(manager: GSManager)
      requires manager.Ready() && In(manager)
      modifies `popupDialogIdle
      ensures manager.SameObjects() && manager.Ready()
      ensures manager.Snap() == old(manager.Snap()).(
                win := old(manager.WinValues())[id := old(Value()).(popupIdle := false)])
    {
      popupDialogIdle := false;
      Touched(manager);
    }

    /** popup_dialog_idle.  No dialog of this window is running, so none is forgotten. */
    method PopupDialogIdle(manager: GSManager, refused: bool, spawned: bool, starts: map<WinId, bool>)
      requires manager.Ready() && In(manager) && lockPid == 0
      modifies this, manager`dialogUp, manager`auth, manager.memory.Values, manager.jobs.Values, manager.kernel
      ensures manager.SameObjects() && manager.Ready()
      ensures manager.Snap() == PopupDialog(old(manager.Snap()), id, refused, spawned, starts)
    {
      if refused {
        PopdownDialog(manager, starts);
      } else if spawned {
        SpawnDialog(manager);
      } else {
        RemovePopupDialogIdle(manager);
      }
    }

    method RemoveDeactivatedIdle(manager: GSManager)
      requires manager.Ready() && In(manager)
      modifies `deactivatedIdle
      ensures manager.SameObjects() && manager.Ready()
      ensures manager.Snap() == old(manager.Snap()).(
                win := old(manager.WinValues())[id := old(Value()).(deactIdle := None)])
    {
      deactivatedIdle := None;
      Touched(manager);
    }

    method EmitDeactivatedIdle(manager: GSManager)
      requires manager.Ready() && In(manager) && deactivatedIdle.Some?
      modifies `deactivatedIdle, manager`deactivatedIdles
      ensures manager.SameObjects() && manager.Ready()
      ensures manager.Snap() == EmitDeactivated(old(manager.Snap()), id)
    {
      manager.WindowDeactivated(deactivatedIdle.value);
      RemoveDeactivatedIdle(manager);
    }

    method MarkObscured(manager: GSManager, hidden: bool)
      requires manager.Ready() && In(manager)
      modifies `obscured
      ensures manager.SameObjects() && manager.Ready() && obscured == hidden
      ensures manager.Snap() == old(manager.Snap()).(
                win := old(manager.WinValues())[id := old(Value()).(obscured := hidden)])
    {
      obscured := hidden;
      Touched(manager);
    }

    method SetObscured(manager: GSManager, hidden: bool, starts: map<WinId, bool>)
      requires manager.Ready() && In(manager)
      modifies `obscured, manager.jobs.Values, manager.kernel
      ensures manager.SameObjects() && manager.Ready()
      ensures manager.Snap() == SessionModel.SetObscured(old(manager.Snap()), id, hidden, starts)
    {
      if obscured != hidden {
        MarkObscured(manager, hidden);
        manager.WindowObscured(id, hidden, starts);
      }
    }

    method MarkVisible(manager: GSManager)
      requires manager.Ready() && In(manager)
      modifies `visible
      ensures manager.SameObjects() && manager.Ready()
      ensures manager.Snap() == old(manager.Snap()).(
                win := old(manager.WinValues())[id := old(Value()).(visible := true)])
    {
      visible := true;
      Touched(manager);
    }
  }

  class GSManager {
    const kernel: Kernel
    const locker: GSSessionLockManager
    var active: bool
    var lockActive: bool
    var dialogUp: bool
    var throttled: bool
    var lockTimer: bool
    var cycleTimer: bool
    var monitorHandlers: nat
    var windows: map<Mon, WinId>
    var jobs: map<WinId, GSJob>
    var memory: map<WinId, GSWindow>   // the window objects that exist, by address
    var nextWindow: WinId
    var deactivatedIdles: seq<Cause>
    ghost var auth: seq<Auth>
    ghost var ended: seq<Cause>

    constructor (kernel: Kernel, locker: GSSessionLockManager)
      requires kernel.Balanced() && kernel.children == map[]
      ensures this.kernel == kernel && this.locker == locker && Ready()
      ensures Snap() == Manager(false, false, false, false, false, false, 0, map[], map[], map[], 0, [], [], [])
    {
      this.kernel, this.locker := kernel, locker;
      active, lockActive, dialogUp, throttled, lockTimer, cycleTimer := false, false, false, false, false, false;
      monitorHandlers, windows, jobs, memory, nextWindow := 0, map[], map[], map[], 0;
      deactivatedIdles, auth, ended := [], [], [];
    }

    ghost function WinValues(): map<WinId, Win>
      reads this`memory, memory.Values
    {
      map i | i in memory :: memory[i].Value()
    }

    ghost function JobValues(): map<WinId, Job>
      reads this`jobs, jobs.Values
    {
      map i | i in jobs :: jobs[i].Value()
    }

    ghost function Snap(): Manager
      reads this, memory.Values, jobs.Values
    {
      Manager(active, lockActive, dialogUp, throttled, lockTimer, cycleTimer, monitorHandlers, windows,
              WinValues(), JobValues(), nextWindow, deactivatedIdles, auth, ended)
    }

    ghost predicate JobsOwned()
      reads this`jobs, jobs.Values, kernel
    {
      forall i :: i in jobs ==> jobs[i].id == i && jobs[i].kernel == kernel && jobs[i].Linked()
    }

    ghost predicate DialogsOwned()
      reads this`memory, memory.Values, kernel
    {
      forall i :: i in memory ==> memory[i].id == i && memory[i].kernel == kernel && memory[i].Linked()
    }

    ghost predicate Known(o: Owner)
      reads this`jobs, this`memory
    {
      match o
      case JobOf(i) => i in jobs
      case DialogOf(i) => i in memory
    }

    /** The live children are exactly those of the jobs and windows that have a pid. */
    ghost predicate Owned()
      reads this`jobs, this`memory, jobs.Values, memory.Values, kernel
    {
      && kernel.Balanced() && JobsOwned() && DialogsOwned()
      && (forall p :: p in kernel.children ==> Known(kernel.children[p].owner))
    }

    /** Owned, and the table and the jobs name existing windows. */
    ghost predicate Ready()
      reads this`jobs, this`memory, this`windows, this`nextWindow, jobs.Values, memory.Values, kernel
    {
      && Owned() && windows.Values <= memory.Keys && jobs.Keys <= memory.Keys
      && (forall i :: i in memory ==> i < nextWindow)
    }

    /** No job or window came or went, and no saver was waited for while stopped. */
    twostate predicate SameObjects()
      reads this`jobs, this`memory, this`windows, this`nextWindow, kernel
    {
      jobs == old(jobs) && memory == old(memory) && windows == old(windows) && nextWindow == old(nextWindow)
      && kernel.stoppedWaits == old(kernel.stoppedWaits)
    }

    // ---------- one job or one window changes ----------

    twostate predicate OnlyJob(id: WinId)
      reads this`jobs, this`memory, jobs.Values, memory.Values
    {
      && jobs == old(jobs) && memory == old(memory) && id in jobs
      && (forall k :: k in jobs && k != id ==> unchanged(jobs[k]))
      && (forall k :: k in memory ==> unchanged(memory[k]))
    }

    twostate lemma JobSnap(id: WinId)
      requires OnlyJob(id)
      ensures JobValues() == old(JobValues())[id := jobs[id].Value()] && WinValues() == old(WinValues())
    {
    }

    twostate lemma JobOwned(id: WinId)
      requires old(Owned()) && OnlyJob(id) && jobs[id].Linked()
      requires OnlyChildOf(JobOf(id), old(kernel.children), kernel.children)
      ensures Owned()
    {
      forall k | k in jobs ensures jobs[k].id == k && jobs[k].kernel == kernel && jobs[k].Linked() {
        if k != id {
          ChildStays(old(kernel.children), kernel.children, JobOf(id), JobOf(k), jobs[k].pid,
                     jobs[k].status == Stopped);
        }
      }
      forall k | k in memory ensures memory[k].id == k && memory[k].kernel == kernel && memory[k].Linked() {
        ChildStays(old(kernel.children), kernel.children, JobOf(id), DialogOf(k), memory[k].lockPid, false);
      }
    }

    twostate predicate OnlyWindow(id: WinId)
      reads this`jobs, this`memory, jobs.Values, memory.Values
    {
      && jobs == old(jobs) && memory == old(memory) && id in memory
      && (forall k :: k in memory && k != id ==> unchanged(memory[k]))
      && (forall k :: k in jobs ==> unchanged(jobs[k]))
    }

    twostate lemma WindowSnap(id: WinId)
      requires OnlyWindow(id)
      ensures WinValues() == old(WinValues())[id := memory[id].Value()] && JobValues() == old(JobValues())
    {
    }

    twostate lemma WindowOwned(id: WinId)
      requires old(Owned()) && OnlyWindow(id) && memory[id].Linked()
      requires OnlyChildOf(DialogOf(id), old(kernel.children), kernel.children)
      ensures Owned()
    {
      forall k | k in jobs ensures jobs[k].id == k && jobs[k].kernel == kernel && jobs[k].Linked() {
        ChildStays(old(kernel.children), kernel.children, DialogOf(id), JobOf(k), jobs[k].pid,
                   jobs[k].status == Stopped);
      }
      forall k | k in memory ensures memory[k].id == k && memory[k].kernel == kernel && memory[k].Linked() {
        if k != id {
          ChildStays(old(kernel.children), kernel.children, DialogOf(id), DialogOf(k), memory[k].lockPid, false);
        }
      }
    }

    /** Only the table entry of window id may be another job object. */
    twostate predicate OnlyEntry(id: WinId)
      reads this`jobs, this`memory, jobs.Values, memory.Values
    {
      && memory == old(memory) && id in jobs && jobs.Keys == old(jobs.Keys) + {id}
      && (forall k :: k in jobs && k != id ==> k in old(jobs) && jobs[k] == old(jobs[k]) && unchanged(jobs[k]))
      && (forall k :: k in memory ==> unchanged(memory[k]))
    }

    twostate lemma EntryValues(id: WinId)
      requires OnlyEntry(id)
      ensures JobValues() == old(JobValues())[id := jobs[id].Value()] && WinValues() == old(WinValues())
    {
    }

    twostate lemma EntryOwned(id: WinId)
      requires old(Owned()) && OnlyEntry(id) && unchanged(kernel)
      requires jobs[id].id == id && jobs[id].kernel == kernel && jobs[id].Linked()
      ensures Owned()
    {
      assert DialogsOwned();
      assert JobsOwned();
    }

    /** The objects in both tables are as they were. */
    twostate predicate SameContents()
      reads this`jobs, this`memory, jobs.Values, memory.Values
    {
      && (forall k :: k in jobs && k in old(jobs) ==> jobs[k] == old(jobs)[k] && unchanged(jobs[k]))
      && (forall k :: k in memory && k in old(memory) ==> memory[k] == old(memory)[k] && unchanged(memory[k]))
    }

    /** Window id lost its job object. */
    twostate lemma EntryRemoved(id: WinId)
      requires old(Owned()) && unchanged(kernel) && SameContents()
      requires memory == old(memory) && jobs.Keys == old(jobs.Keys) - {id}
      requires forall p :: p in kernel.children ==> kernel.children[p].owner != JobOf(id)
      ensures Owned()
    {
      assert JobsOwned();
      assert DialogsOwned();
      forall p | p in kernel.children ensures Known(kernel.children[p].owner) {
        assert old(Known(kernel.children[p].owner));
      }
    }

    /** Window id is gone. */
    twostate lemma WindowRemoved(id: WinId)
      requires old(Owned()) && unchanged(kernel) && SameContents()
      requires jobs == old(jobs) && memory.Keys == old(memory.Keys) - {id}
      requires forall p :: p in kernel.children ==> kernel.children[p].owner != DialogOf(id)
      ensures Owned()
    {
      assert JobsOwned();
      assert DialogsOwned();
      forall p | p in kernel.children ensures Known(kernel.children[p].owner) {
        assert old(Known(kernel.children[p].owner));
      }
    }

    /** Window id is new. */
    twostate lemma WindowAdded(id: WinId)
      requires old(Owned()) && unchanged(kernel) && SameContents()
      requires jobs == old(jobs) && memory.Keys == old(memory.Keys) + {id} && id !in old(memory)
      requires memory[id].id == id && memory[id].kernel == kernel && memory[id].Linked()
      ensures Owned()
    {
      assert JobsOwned();
      assert DialogsOwned();
    }

    /** Only fields of the manager itself changed. */
    twostate lemma SameValues()
      requires jobs == old(jobs) && memory == old(memory)
      requires forall k :: k in jobs ==> unchanged(jobs[k])
      requires forall k :: k in memory ==> unchanged(memory[k])
      ensures WinValues() == old(WinValues()) && JobValues() == old(JobValues())
    {
    }

    // ---------- jobs ----------

    method StopJob(id: WinId)
      requires Owned() && id in jobs
      modifies jobs[id], kernel
      ensures Owned() && kernel.stoppedWaits == old(kernel.stoppedWaits) && WinValues() == old(WinValues())
      ensures JobValues() == old(JobValues())[id := SessionModel.StopJob(old(JobValues())[id])]
    {
      jobs[id].Stop();
      JobSnap(id);
      JobOwned(id);
    }

    method SuspendJob(id: WinId, suspend: bool)
      requires Owned() && id in jobs
      modifies jobs[id], kernel
      ensures Owned() && kernel.stoppedWaits == old(kernel.stoppedWaits) && WinValues() == old(WinValues())
      ensures JobValues() == old(JobValues())[id := SessionModel.SuspendJob(old(JobValues())[id], suspend)]
    {
      jobs[id].Suspend(suspend);
      JobSnap(id);
      JobOwned(id);
    }

    method StartJob(id: WinId, starts: map<WinId, bool>)
      requires Owned() && id in jobs
      modifies jobs[id], kernel
      ensures Owned() && kernel.stoppedWaits == old(kernel.stoppedWaits) && WinValues() == old(WinValues())
      ensures JobValues() == old(JobValues())[id := SessionModel.StartJob(old(JobValues())[id], id, starts)]
    {
      jobs[id].Start(starts);
      JobSnap(id);
      JobOwned(id);
    }

    method MaybeStopJobForWindow(id: WinId)
      requires Owned()
      modifies if id in jobs then {jobs[id], kernel} else {}
      ensures Owned() && kernel.stoppedWaits == old(kernel.stoppedWaits) && WinValues() == old(WinValues())
      ensures JobValues() == if id in jobs then old(JobValues())[id := SessionModel.StopJob(old(JobValues())[id])]
                             else old(JobValues())
    {
      if id in jobs {
        StopJob(id);
      }
    }

    method MaybeStartJobForWindow(id: WinId, starts: map<WinId, bool>)
      requires Owned()
      modifies if id in jobs then {jobs[id], kernel} else {}
      ensures Owned() && kernel.stoppedWaits == old(kernel.stoppedWaits) && WinValues() == old(WinValues())
      ensures JobValues() == if id !in jobs then old(JobValues())
                             else old(JobValues())[id := Started(old(dialogUp || throttled), old(WinValues()), id,
                                                                 old(JobValues())[id], starts)]
    {
      if id !in jobs {
        return;
      }
      assert JobValues()[id := JobValues()[id]] == JobValues();
      if dialogUp || throttled || jobs[id].IsRunning() {
        return;
      }
      if id in memory && memory[id].obscured {
        return;
      }
      StartJob(id, starts);
    }

    method ThrottleJob(id: WinId, starts: map<WinId, bool>)
      requires Owned() && id in jobs
      modifies jobs[id], kernel
      ensures Owned() && kernel.stoppedWaits == old(kernel.stoppedWaits) && WinValues() == old(WinValues())
      ensures JobValues() == old(JobValues())[id := JobAfter(Throttling, old(throttled), old(dialogUp || throttled),
                                                             old(WinValues()), id, old(JobValues())[id], starts)]
    {
      if throttled {
        StopJob(id);
      } else {
        MaybeStartJobForWindow(id, starts);
      }
    }

    method ResumeJob(id: WinId, starts: map<WinId, bool>)
      requires Owned() && id in jobs
      modifies jobs[id], kernel
      ensures Owned() && kernel.stoppedWaits == old(kernel.stoppedWaits) && WinValues() == old(WinValues())
      ensures JobValues() == old(JobValues())[id := JobAfter(Resuming, old(throttled), old(dialogUp || throttled),
                                                             old(WinValues()), id, old(JobValues())[id], starts)]
    {
      if jobs[id].IsRunning() {
        SuspendJob(id, false);
      } else {
        MaybeStartJobForWindow(id, starts);
      }
    }

    method CallJob(call: JobCallback, id: WinId, starts: map<WinId, bool>)
      requires Owned() && id in jobs
      modifies jobs[id], kernel
      ensures Owned() && kernel.stoppedWaits == old(kernel.stoppedWaits) && WinValues() == old(WinValues())
      ensures JobValues() == old(JobValues())[id := JobAfter(call, old(throttled), old(dialogUp || throttled),
                                                             old(WinValues()), id, old(JobValues())[id], starts)]
    {
      match call
      case Throttling => ThrottleJob(id, starts);
      case Resuming => ResumeJob(id, starts);
      case Suspending => SuspendJob(id, true);
    }

    /** g_hash_table_foreach over the jobs. */
    method ForeachJob(call: JobCallback, starts: map<WinId, bool>)
      requires Owned()
      modifies jobs.Values, kernel
      ensures Owned() && kernel.stoppedWaits == old(kernel.stoppedWaits) && WinValues() == old(WinValues())
      ensures JobValues() == JobsAfter(call, old(throttled), old(dialogUp || throttled), old(WinValues()),
                                       old(JobValues()), starts, {})
    {
      ghost var win, js := WinValues(), JobValues();
      ghost var quiet := dialogUp || throttled;
      var todo := jobs.Keys;
      assert JobsAfter(call, throttled, quiet, win, js, starts, todo) == js;
      while todo != {}
        invariant todo <= jobs.Keys
        invariant Owned() && kernel.stoppedWaits == old(kernel.stoppedWaits) && WinValues() == win
        invariant JobValues() == JobsAfter(call, throttled, quiet, win, js, starts, todo)
      {
        var i :| i in todo;
        OneMoreJob(call, throttled, quiet, win, js, starts, todo, i);
        CallJob(call, i, starts);
        todo := todo - {i};
      }
    }

    method StopJobIn(id: WinId)
      requires Ready()
      modifies jobs.Values, kernel
      ensures Ready() && SameObjects()
      ensures Snap() == MaybeStopIn(old(Snap()), id)
    {
      MaybeStopJobForWindow(id);
    }

    method StartJobIn(id: WinId, starts: map<WinId, bool>)
      requires Ready()
      modifies jobs.Values, kernel
      ensures Ready() && SameObjects()
      ensures Snap() == MaybeStartIn(old(Snap()), id, starts)
    {
      if id in jobs {
        ghost var m := Snap();
        StartedForm(m, id, starts);
        MaybeStartJobForWindow(id, starts);
        assert JobValues() == m.jobs[id := Started(Quiet(m), m.win, id, m.jobs[id], starts)];
      }
    }

    method WindowObscured(id: WinId, hidden: bool, starts: map<WinId, bool>)
      requires Ready()
      modifies jobs.Values, kernel
      ensures Ready() && SameObjects()
      ensures Snap() == if hidden then MaybeStopIn(old(Snap()), id) else MaybeStartIn(old(Snap()), id, starts)
    {
      if hidden {
        StopJobIn(id);
      } else {
        StartJobIn(id, starts);
      }
    }

    /** command_watch of a job. */
    method JobOutputEnds(id: WinId)
      requires Ready() && id in jobs && jobs[id].watch
      modifies jobs.Values, kernel
      ensures Ready() && jobs == old(jobs) && memory == old(memory) && windows == old(windows)
      ensures Snap() == old(Snap()).(jobs := old(JobValues())[id := JobWatchEnds(old(JobValues())[id])])
      ensures kernel.stoppedWaits == old(kernel.stoppedWaits) + if Suspended(old(jobs[id].Value())) then 1 else 0
    {
      jobs[id].CommandWatch();
      JobSnap(id);
      JobOwned(id);
    }

    method InsertJob(id: WinId)
      requires Owned() && forall p :: p in kernel.children ==> kernel.children[p].owner != JobOf(id)
      modifies `jobs
      ensures Owned() && WinValues() == old(WinValues())
      ensures id in jobs && fresh(jobs[id]) && jobs == old(jobs)[id := jobs[id]]
      ensures JobValues() == old(JobValues())[id := NEW_JOB]
    {
      var job := new GSJob(id, kernel);
      jobs := jobs[id := job];
      EntryValues(id);
      EntryOwned(id);
    }

    /** The job of a window gives way to a new one.  The old one is stopped as it leaves the table. */
    method ReplaceJob(id: WinId)
      requires Owned() && id in jobs
      modifies `jobs, jobs[id], kernel
      ensures Owned() && kernel.stoppedWaits == old(kernel.stoppedWaits) && WinValues() == old(WinValues())
      ensures id in jobs && fresh(jobs[id]) && jobs == old(jobs)[id := jobs[id]]
      ensures JobValues() == old(JobValues())[id := NEW_JOB]
    {
      ghost var js := JobValues();
      StopJob(id);
      NoJobChild(id);
      InsertJob(id);
      Overwritten(js, id, SessionModel.StopJob(js[id]), NEW_JOB);
    }

    lemma NoJobChild(id: WinId)
      requires Owned() && id in jobs && !JobValues()[id].alive
      ensures forall p :: p in kernel.children ==> kernel.children[p].owner != JobOf(id)
    {
      assert jobs[id].Value() == JobValues()[id];
      assert jobs[id].pid == 0 && jobs[id].Linked();
    }

    /** A new job may be started at once. */
    method StartNewJob(id: WinId, starts: map<WinId, bool>)
      requires Owned() && id in jobs && !dialogUp && !throttled && JobValues()[id] == NEW_JOB
      modifies jobs[id], kernel
      ensures Owned() && kernel.stoppedWaits == old(kernel.stoppedWaits) && WinValues() == old(WinValues())
      ensures JobValues() == old(JobValues())[id := MaybeStart(old(WinValues()), id, NEW_JOB, starts)]
    {
      MaybeStartJobForWindow(id, starts);
    }

    method CycleJob(id: WinId, starts: map<WinId, bool>)
      requires Owned() && id in jobs && !dialogUp && !throttled
      modifies `jobs, jobs[id], kernel
      ensures Owned() && kernel.stoppedWaits == old(kernel.stoppedWaits) && WinValues() == old(WinValues())
      ensures jobs.Keys == old(jobs.Keys) && forall k :: k in jobs && k != id ==> jobs[k] == old(jobs)[k]
      ensures JobValues() == old(JobValues())[id := MaybeStart(old(WinValues()), id, NEW_JOB, starts)]
    {
      ghost var win, js := WinValues(), JobValues();
      ReplaceJob(id);
      StartNewJob(id, starts);
      StartedNew(js, id, MaybeStart(win, id, NEW_JOB, starts));
    }

    method CycleJobs(starts: map<WinId, bool>)
      requires Owned() && !dialogUp && !throttled
      modifies `jobs, jobs.Values, kernel
      ensures Owned() && kernel.stoppedWaits == old(kernel.stoppedWaits) && WinValues() == old(WinValues())
      ensures jobs.Keys == old(jobs.Keys)
      ensures JobValues() == RenewAll(old(WinValues()), old(JobValues()), starts)
    {
      ghost var win, js, table := WinValues(), JobValues(), jobs;
      RenewedForm(win, js, starts);
      var todo := jobs.Keys;
      assert Renewed(win, js, starts, todo) == js;
      while todo != {}
        invariant todo <= table.Keys && jobs.Keys == table.Keys
        invariant forall k :: k in todo ==> jobs[k] == table[k]
        invariant Owned() && kernel.stoppedWaits == old(kernel.stoppedWaits) && WinValues() == win
        invariant JobValues() == Renewed(win, js, starts, todo)
      {
        var i :| i in todo;
        OneMoreRenewed(win, js, starts, todo, i);
        CycleJob(i, starts);
        todo := todo - {i};
      }
    }

    method Cycle(starts: map<WinId, bool>)
      requires Ready()
      modifies `jobs, jobs.Values, kernel
      ensures Ready() && memory == old(memory) && windows == old(windows)
      ensures kernel.stoppedWaits == old(kernel.stoppedWaits)
      ensures Snap() == SessionModel.Cycle(old(Snap()), starts)
    {
      if active && !dialogUp && !throttled {
        ghost var m := Snap();
        CycleJobs(starts);
        assert Snap() == m.(jobs := JobValues());
      }
    }

    method ThrottleJobs(starts: map<WinId, bool>)
      requires Ready() && !dialogUp
      modifies jobs.Values, kernel
      ensures Ready() && SameObjects()
      ensures Snap() == old(Snap()).(jobs := if throttled then StopAll(old(JobValues()))
                                             else StartAll(WinValues(), old(JobValues()), starts))
    {
      ThrottledForm(throttled, WinValues(), JobValues(), starts);
      ForeachJob(Throttling, starts);
    }

    method SetThrottledFlag(on: bool)
      requires Ready()
      modifies `throttled
      ensures Ready() && SameObjects()
      ensures Snap() == old(Snap()).(throttled := on)
    {
      throttled := on;
      SameValues();
    }

    method SetThrottled(on: bool, starts: map<WinId, bool>)
      requires Ready()
      modifies `throttled, jobs.Values, kernel
      ensures SameObjects() && Ready()
      ensures Snap() == SessionModel.SetThrottled(old(Snap()), on, starts)
    {
      if throttled != on {
        SetThrottledFlag(on);
        if !dialogUp {
          ThrottleJobs(starts);
        }
      }
    }

    // ---------- the windows ----------

    method CallWindow(call: WindowCall, id: WinId)
      requires Owned() && id in memory
      modifies memory[id]
      ensures Owned()
      ensures WinValues() == old(WinValues())[id := WinAfter(old(memory[id].Value()), call, id)]
    {
      memory[id].Apply(call);
      WindowSnap(id);
      WindowOwned(id);
    }

    /** The loops over the window table: all holds the windows to visit. */
    method ForeachWindow(all: set<WinId>, call: WindowCall)
      requires Owned() && all <= memory.Keys
      modifies memory.Values
      ensures Owned()
      ensures WinValues() == WinsAfter(old(WinValues()), all, call, {})
    {
      ghost var win := WinValues();
      var todo := all;
      assert WinsAfter(win, all, call, todo) == win;
      while todo != {}
        invariant todo <= all
        invariant Owned()
        invariant WinValues() == WinsAfter(win, all, call, todo)
      {
        var i :| i in todo;
        OneMoreWindow(win, all, call, todo, i);
        CallWindow(call, i);
        todo := todo - {i};
      }
    }

    method EnableLocker(on: bool)
      requires Ready()
      modifies `lockActive, memory.Values
      ensures SameObjects() && Ready()
      ensures Snap() == SessionModel.EnableLocker(old(Snap()), on)
    {
      lockActive := on;
      SameValues();
      var all := windows.Values;
      LockingForm(WinValues(), all, on);
      ForeachWindow(all, Locking(on));
    }

    method WindowDeactivated(why: Cause)
      requires Ready()
      modifies `deactivatedIdles
      ensures Ready() && SameObjects()
      ensures Snap() == old(Snap()).(idles := old(deactivatedIdles) + [why])
    {
      deactivatedIdles := deactivatedIdles + [why];
      SameValues();
    }

    method RequestUnlock(at: Mon)
      requires Ready()
      modifies `dialogUp, `auth, memory.Values, jobs.Values, kernel
      ensures Ready() && SameObjects()
      ensures Snap() == SessionModel.RequestUnlock(old(Snap()), at)
    {
      if !active || dialogUp || at !in windows {
        return;
      }
      var window := memory[windows[at]];
      window.RequestUnlock(this);
    }

    // ---------- the dialog ----------

    method Numb(spare: WinId)
      requires Ready()
      modifies memory.Values
      ensures SameObjects() && Ready()
      ensures Snap() == old(Snap()).(win := Desensitize(old(WinValues()), windows.Values - {spare}))
    {
      var all := windows.Values;
      NumbingForm(WinValues(), all, spare);
      ForeachWindow(all, Numbing(spare));
    }

    method Sense()
      requires Ready()
      modifies memory.Values
      ensures SameObjects() && Ready()
      ensures Snap() == old(Snap()).(win := Sensitize(old(WinValues()), windows.Values))
    {
      var all := windows.Values;
      SensingForm(WinValues(), all);
      ForeachWindow(all, Sensing);
    }

    method SuspendJobs()
      requires Ready()
      modifies jobs.Values, kernel
      ensures SameObjects() && Ready()
      ensures Snap() == old(Snap()).(jobs := SuspendAll(old(JobValues())))
    {
      SuspendingForm(throttled, dialogUp || throttled, WinValues(), JobValues());
      ForeachJob(Suspending, map[]);
    }

    method ResumeJobs(starts: map<WinId, bool>)
      requires Ready() && !dialogUp && !throttled
      modifies jobs.Values, kernel
      ensures SameObjects() && Ready()
      ensures Snap() == old(Snap()).(jobs := ResumeAll(WinValues(), old(JobValues()), starts))
    {
      ResumingForm(WinValues(), JobValues(), starts);
      ForeachJob(Resuming, starts);
    }

    method SetDialogFlag(up: bool)
      requires Ready()
      modifies `dialogUp
      ensures SameObjects() && Ready()
      ensures Snap() == old(Snap()).(dialogUp := up)
    {
      dialogUp := up;
      SameValues();
    }

    method EmitAuth(a: Auth)
      requires Ready()
      modifies `auth
      ensures SameObjects() && Ready()
      ensures Snap() == old(Snap()).(auth := old(auth) + [a])
    {
      auth := auth + [a];
      SameValues();
    }

    method HandleWindowDialogUp(id: WinId)
      requires Ready()
      modifies `dialogUp, `auth, memory.Values, jobs.Values, kernel
      ensures SameObjects() && Ready()
      ensures Snap() == DialogUp(old(Snap()), id)
    {
      EmitAuth(Begin);
      SetDialogFlag(true);
      Numb(id);
      if !throttled {
        SuspendJobs();
      }
    }

    method HandleWindowDialogDown(starts: map<WinId, bool>)
      requires Ready()
      modifies `dialogUp, `auth, memory.Values, jobs.Values, kernel
      ensures SameObjects() && Ready()
      ensures Snap() == DialogDown(old(Snap()), starts)
    {
      SensedHidden(Snap(), starts);
      Sense();
      SetDialogFlag(false);
      if !throttled {
        ResumeJobs(starts);
      }
      EmitAuth(End);
    }

    method WindowDialogUpChanged(id: WinId, up: bool, starts: map<WinId, bool>)
      requires Ready()
      modifies `dialogUp, `auth, memory.Values, jobs.Values, kernel
      ensures SameObjects() && Ready()
      ensures Snap() == if up then DialogUp(old(Snap()), id) else DialogDown(old(Snap()), starts)
    {
      if up {
        HandleWindowDialogUp(id);
      } else {
        HandleWindowDialogDown(starts);
      }
    }

    method ActivateLockTimeout()
      requires Ready()
      modifies `lockTimer, `lockActive, memory.Values
      ensures SameObjects() && Ready()
      ensures Snap() == SessionModel.EnableLocker(old(Snap()), true).(lockTimer := false)
    {
      EnableLocker(true);
      RemoveLockTimer();
    }

    /** One queued window_deactivated_idle source runs. */
    method TakeDeactivatedIdle()
      requires Ready() && deactivatedIdles != []
      modifies `deactivatedIdles, `ended
      ensures SameObjects() && Ready()
      ensures Snap() == Popped(old(Snap()))
    {
      if active {
        ended := ended + [deactivatedIdles[0]];
      }
      deactivatedIdles := deactivatedIdles[1..];
      SameValues();
    }

    // ---------- taking windows down ----------

    method DropJob(id: WinId)
      requires Owned() && id in jobs && jobs[id].pid == 0
      modifies `jobs
      ensures Owned() && jobs == old(jobs) - {id} && WinValues() == old(WinValues())
    {
      assert jobs[id].Linked();
      jobs := jobs - {id};
      EntryRemoved(id);
    }

    /** remove_job: stopped before the last reference goes. */
    method RemoveJob(id: WinId)
      requires Owned() && id in jobs
      modifies `jobs, jobs[id], kernel
      ensures Owned() && kernel.stoppedWaits == old(kernel.stoppedWaits) && WinValues() == old(WinValues())
      ensures jobs == old(jobs) - {id}
    {
      StopJob(id);
      assert jobs[id].Value() == JobValues()[id];
      DropJob(id);
    }

    /** g_hash_table_remove_all on the jobs. */
    method RemoveJobs()
      requires Owned()
      modifies `jobs, jobs.Values, kernel
      ensures Owned() && kernel.stoppedWaits == old(kernel.stoppedWaits) && WinValues() == old(WinValues())
      ensures jobs == map[]
    {
      ghost var win, table := WinValues(), jobs;
      while jobs.Keys != {}
        invariant jobs.Keys <= table.Keys && forall k :: k in jobs ==> jobs[k] == table[k]
        invariant Owned() && kernel.stoppedWaits == old(kernel.stoppedWaits) && WinValues() == win
        decreases |jobs.Keys|
      {
        var i :| i in jobs.Keys;
        RemoveJob(i);
      }
    }

    /** g_hash_table_remove_all on the jobs, as seen in the snapshot. */
    method ClearJobs()
      requires Ready()
      modifies `jobs, jobs.Values, kernel
      ensures Ready() && kernel.stoppedWaits == old(kernel.stoppedWaits)
      ensures jobs == map[] && memory == old(memory) && windows == old(windows) && nextWindow == old(nextWindow)
      ensures Snap() == old(Snap()).(jobs := map[])
    {
      ghost var m := Snap();
      RemoveJobs();
      assert JobValues() == map[];
      assert Snap() == m.(jobs := JobValues());
    }

    /** gs_window_destroy for a window that left the table. */
    method DestroyWindow(id: WinId, starts: map<WinId, bool>)
      requires Ready() && id in memory && windows == map[] && jobs == map[]
      modifies `memory, `dialogUp, `auth, memory.Values, jobs.Values, kernel
      ensures Owned() && kernel.stoppedWaits == old(kernel.stoppedWaits)
      ensures jobs == map[] && windows == map[] && nextWindow == old(nextWindow)
      ensures memory == old(memory) - {id}
      ensures Snap() == Gone(PopdownDialog(old(Snap()), id, starts), id)
    {
      ghost var m := Snap();
      PopdownEnds(m, id, starts);
      memory[id].PopdownDialog(this, starts);
      assert memory[id].Value() == Snap().win[id];
      ForgetWindow(id);
    }

    twostate lemma ForgottenValues(id: WinId)
      requires SameContents() && memory.Keys == old(memory.Keys) - {id}
      ensures WinValues() == old(WinValues()) - {id}
    {
      var win, win1 := old(WinValues()) - {id}, WinValues();
      assert win1.Keys == win.Keys;
      forall k | k in win1 ensures win1[k] == win[k] {
      }
    }

    method RemoveFromMemory(id: WinId)
      requires Owned() && id in memory && memory[id].lockPid == 0
      modifies `memory
      ensures Owned() && memory == old(memory) - {id}
      ensures WinValues() == old(WinValues()) - {id} && JobValues() == old(JobValues())
    {
      NoDialogChild(id);
      memory := memory - {id};
      WindowRemoved(id);
      ForgottenValues(id);
      SameJobs();
    }

    twostate lemma SameJobs()
      requires jobs == old(jobs) && forall k :: k in jobs ==> unchanged(jobs[k])
      ensures JobValues() == old(JobValues())
    {
    }

    lemma NoDialogChild(id: WinId)
      requires Owned() && id in memory && memory[id].lockPid == 0
      ensures forall p :: p in kernel.children ==> kernel.children[p].owner != DialogOf(id)
    {
      assert memory[id].Linked();
    }

    /** The window's memory is given back; its dialog was waited for. */
    method ForgetWindow(id: WinId)
      requires Owned() && id in memory && memory[id].lockPid == 0
      modifies `memory
      ensures Owned() && memory == old(memory) - {id}
      ensures Snap() == Gone(old(Snap()), id)
    {
      RemoveFromMemory(id);
    }

    lemma ReadyEmpty()
      requires Owned() && windows == map[] && jobs == map[] && forall i :: i in memory ==> i < nextWindow
      ensures Ready()
    {
    }

    method EmptyTable()
      requires Ready()
      modifies `windows
      ensures Ready() && windows == map[]
      ensures Snap() == old(Snap()).(table := map[])
    {
      windows := map[];
      SameValues();
    }

    method DestroyAll()
      requires Ready() && jobs == map[] && windows == map[] && AtMostOneDialog(WinValues())
      modifies `memory, `dialogUp, `auth, memory.Values, kernel
      ensures Ready() && kernel.stoppedWaits == old(kernel.stoppedWaits)
      ensures jobs == map[] && windows == map[] && memory == map[] && nextWindow == old(nextWindow)
      ensures Snap() == Left(old(Snap()), {})
    {
      ghost var m, objects := Snap(), memory;
      NoneGone(m);
      while memory.Keys != {}
        invariant memory.Keys <= objects.Keys && forall k :: k in memory ==> memory[k] == objects[k]
        invariant forall k :: k in memory ==> k < nextWindow
        invariant Owned() && kernel.stoppedWaits == old(kernel.stoppedWaits)
        invariant jobs == map[] && windows == map[] && nextWindow == old(nextWindow)
        invariant Snap() == Left(m, memory.Keys)
        decreases |memory.Keys|
      {
        var i :| i in memory.Keys;
        DestroyNext(i, m);
      }
      ReadyEmpty();
    }

    method DestroyNext(id: WinId, ghost m: Manager)
      requires Owned() && jobs == map[] && windows == map[] && id in memory
      requires forall k :: k in memory ==> k < nextWindow
      requires Snap() == Left(m, memory.Keys) && memory.Keys <= m.win.Keys
      requires m.table == map[] && m.jobs == map[] && AtMostOneDialog(m.win)
      modifies `memory, `dialogUp, `auth, memory.Values, kernel
      ensures Owned() && kernel.stoppedWaits == old(kernel.stoppedWaits)
      ensures jobs == map[] && windows == map[] && nextWindow == old(nextWindow)
      ensures memory == old(memory) - {id} && Snap() == Left(m, memory.Keys)
    {
      OneMoreGone(m, memory.Keys, id);
      ReadyEmpty();
      DestroyWindow(id, map[]);
    }

    /** g_hash_table_remove_all on the windows: the table is empty before the first window goes. */
    method ClearWindows()
      requires Ready() && jobs == map[] && windows.Values == memory.Keys
      requires AtMostOneDialog(WinValues())
      modifies `windows, `memory, `dialogUp, `auth, memory.Values, kernel
      ensures Ready() && kernel.stoppedWaits == old(kernel.stoppedWaits)
      ensures jobs == map[] && windows == map[] && memory == map[] && nextWindow == old(nextWindow)
      ensures Snap() == SessionModel.DestroyWindows(old(Snap()))
    {
      AllGone(Snap());
      EmptyTable();
      DestroyAll();
    }

    method RemoveLockSurfaces()
      modifies locker
      ensures locker.Snap() == RemoveSurfaces(old(locker.Snap()), windows.Values)
    {
      ghost var k := locker.Snap();
      var all := windows.Values;
      var todo := all;
      assert RemoveSurfaces(k, all - todo) == k;
      while todo != {}
        invariant todo <= all
        invariant locker.Snap() == RemoveSurfaces(k, all - todo)
      {
        var i :| i in todo;
        locker.RemoveWindow(i);
        assert k.surfaces - (all - todo) - {i} == k.surfaces - (all - (todo - {i}));
        todo := todo - {i};
      }
      assert all - {} == all;
    }

    // ---------- putting windows up ----------

    method AddLockTimer(p: Prefs)
      requires Ready()
      modifies `lockTimer, `lockActive, memory.Values
      ensures SameObjects() && Ready()
      ensures Snap() == LockTimerAdded(old(Snap()), p)
    {
      RemoveLockTimer();
      if !p.lockEnabled || !p.lockWithSaver || lockActive {
        return;
      }
      if p.lockTimeout == 0 {
        EnableLocker(true);
        return;
      }
      StartLockTimer();
    }

    method RemoveLockTimer()
      requires Ready()
      modifies `lockTimer
      ensures SameObjects() && Ready() && Snap() == old(Snap()).(lockTimer := false)
    {
      lockTimer := false;
      SameValues();
    }

    method StartLockTimer()
      requires Ready()
      modifies `lockTimer
      ensures SameObjects() && Ready() && Snap() == old(Snap()).(lockTimer := true)
    {
      lockTimer := true;
      SameValues();
    }

    method StartCycleTimer()
      requires Ready()
      modifies `cycleTimer
      ensures SameObjects() && Ready() && Snap() == old(Snap()).(cycleTimer := true)
    {
      cycleTimer := true;
      SameValues();
    }

    method AddJob(id: WinId)
      requires Ready() && id in memory && id !in jobs
      modifies `jobs
      ensures Ready() && memory == old(memory) && windows == old(windows) && nextWindow == old(nextWindow)
      ensures jobs.Keys == old(jobs.Keys) + {id}
      ensures Snap() == old(Snap()).(jobs := old(JobValues())[id := NEW_JOB])
    {
      InsertJob(id);
    }

    /** manager_show_window. */
    method ShowWindow(id: WinId, p: Prefs)
      requires Ready() && id in memory && id !in jobs
      modifies `jobs, `lockTimer, `cycleTimer, `lockActive, memory.Values
      ensures Ready() && memory == old(memory) && windows == old(windows) && nextWindow == old(nextWindow)
      ensures jobs.Keys == old(jobs.Keys) + {id} && kernel.stoppedWaits == old(kernel.stoppedWaits)
      ensures Snap() == WindowShown(old(Snap()), id, p)
    {
      AddJob(id);
      AddLockTimer(p);
      if p.random {
        StartCycleTimer();
      }
    }

    method CreateLockSurface(id: WinId)
      requires Ready()
      modifies locker
      ensures SameObjects() && Ready() && Snap() == old(Snap())
      ensures locker.Snap() == Surfaced(old(locker.Snap()), {id})
    {
      locker.WindowRealized(id, []);
      SameValues();
    }

    /** The window becomes visible and, being realized, gets a lock surface if a lock is held. */
    method Realize(id: WinId)
      requires Ready() && id in memory
      modifies memory[id], locker
      ensures SameObjects() && Ready()
      ensures Snap() == old(Snap()).(win := Visible(old(WinValues()), id))
      ensures locker.Snap() == Surfaced(old(locker.Snap()), {id})
    {
      memory[id].MarkVisible(this);
      CreateLockSurface(id);
    }

    /** gtk_widget_show: the window is realized, then the "show" handler runs. */
    method Show(id: WinId, p: Prefs)
      requires Ready() && id in memory && id !in jobs
      modifies `jobs, `lockTimer, `cycleTimer, `lockActive, memory.Values, locker
      ensures Ready() && memory == old(memory) && windows == old(windows) && nextWindow == old(nextWindow)
      ensures jobs.Keys == old(jobs.Keys) + {id} && kernel.stoppedWaits == old(kernel.stoppedWaits)
      ensures Snap() == WindowShown(old(Snap()).(win := Visible(old(WinValues()), id)), id, p)
      ensures locker.Snap() == Surfaced(old(locker.Snap()), {id})
    {
      Realize(id);
      ShowWindow(id, p);
    }

    method ShowNext(id: WinId, p: Prefs, ghost m: Manager, ghost k: Locker, ghost shown: set<WinId>)
      requires Ready() && id in memory && id !in jobs
      requires Snap() == ShowWindows(m, shown, p) && m.win.Keys == memory.Keys && shown <= memory.Keys
      requires locker.Snap() == Surfaced(k, shown)
      modifies `jobs, `lockTimer, `cycleTimer, `lockActive, memory.Values, locker
      ensures Ready() && memory == old(memory) && windows == old(windows) && nextWindow == old(nextWindow)
      ensures jobs.Keys == old(jobs.Keys) + {id} && kernel.stoppedWaits == old(kernel.stoppedWaits)
      ensures Snap() == ShowWindows(m, shown + {id}, p)
      ensures locker.Snap() == Surfaced(k, shown + {id})
    {
      OneMoreShown(m, shown, id, p);
      OneMoreSurface(k, shown, id);
      Show(id, p);
    }

    /** show_windows. */
    method ShowTable(p: Prefs)
      requires Ready() && jobs == map[]
      modifies `jobs, `lockTimer, `cycleTimer, `lockActive, memory.Values, locker
      ensures Ready() && memory == old(memory) && windows == old(windows) && nextWindow == old(nextWindow)
      ensures kernel.stoppedWaits == old(kernel.stoppedWaits)
      ensures Snap() == ShowWindows(old(Snap()), old(windows.Values), p)
      ensures locker.Snap() == Surfaced(old(locker.Snap()), old(windows.Values))
    {
      ghost var m, k := Snap(), locker.Snap();
      var all := windows.Values;
      var shown: set<WinId> := {};
      assert k.surfaces + {} == k.surfaces;
      while shown != all
        invariant shown <= all
        invariant Ready() && memory == old(memory) && windows == old(windows) && nextWindow == old(nextWindow)
        invariant kernel.stoppedWaits == old(kernel.stoppedWaits) && jobs.Keys == shown
        invariant Snap() == ShowWindows(m, shown, p) && locker.Snap() == Surfaced(k, shown)
        decreases all - shown
      {
        var i :| i in all && i !in shown;
        ShowNext(i, p, m, k, shown);
        shown := shown + {i};
      }
    }

    twostate lemma NewValues(id: WinId)
      requires SameContents() && memory.Keys == old(memory.Keys) + {id} && id !in old(memory)
      ensures WinValues() == old(WinValues())[id := memory[id].Value()]
    {
    }

    method AllocateWindow() returns (id: WinId)
      requires Owned() && forall i :: i in memory ==> i < nextWindow
      modifies `memory, `nextWindow
      ensures Owned() && id == old(nextWindow) && nextWindow == id + 1
      ensures id in memory && id !in old(memory) && fresh(memory[id]) && memory == old(memory)[id := memory[id]]
      ensures WinValues() == old(WinValues())[id := NewWin(lockActive)] && JobValues() == old(JobValues())
    {
      id := TakeAddress();
      AddWindowObject(id);
    }

    method TakeAddress() returns (id: WinId)
      requires Owned()
      modifies `nextWindow
      ensures Owned() && WinValues() == old(WinValues()) && JobValues() == old(JobValues())
      ensures id == old(nextWindow) && nextWindow == id + 1
    {
      id := nextWindow;
      nextWindow := nextWindow + 1;
    }

    method AddWindowObject(id: WinId)
      requires Owned() && id !in memory
      modifies `memory
      ensures Owned() && id in memory && fresh(memory[id]) && memory == old(memory)[id := memory[id]]
      ensures WinValues() == old(WinValues())[id := NewWin(lockActive)] && JobValues() == old(JobValues())
    {
      var window := MakeWindow(id);
      InsertInMemory(id, window);
    }

    method MakeWindow(id: WinId) returns (window: GSWindow)
      requires Owned() && id !in memory
      ensures Owned() && WinValues() == old(WinValues()) && JobValues() == old(JobValues())
      ensures fresh(window) && window.id == id && window.kernel == kernel && window.Linked()
      ensures window.Value() == NewWin(lockActive)
    {
      NobodysDialog(id);
      window := new GSWindow(id, lockActive, kernel);
    }

    lemma NobodysDialog(id: WinId)
      requires Owned() && id !in memory
      ensures forall p :: p in kernel.children ==> kernel.children[p].owner != DialogOf(id)
    {
    }

    method InsertInMemory(id: WinId, window: GSWindow)
      requires Owned() && id !in memory && window.id == id && window.kernel == kernel && window.Linked()
      modifies `memory
      ensures Owned() && memory == old(memory)[id := window]
      ensures WinValues() == old(WinValues())[id := window.Value()] && JobValues() == old(JobValues())
    {
      memory := memory[id := window];
      WindowAdded(id);
      NewValues(id);
      SameJobs();
    }

    method NewWindow() returns (id: WinId)
      requires Ready()
      modifies `memory, `nextWindow
      ensures Ready() && jobs == old(jobs) && windows == old(windows) && id == old(nextWindow)
      ensures id in memory && id !in old(memory) && fresh(memory[id]) && memory == old(memory)[id := memory[id]]
      ensures Snap() == old(Snap()).(win := old(WinValues())[id := NewWin(lockActive)], nextWin := id + 1)
    {
      id := AllocateWindow();
    }

    method InsertWindow(mon: Mon, id: WinId)
      requires Ready() && id in memory
      modifies `windows
      ensures Ready()
      ensures Snap() == old(Snap()).(table := old(windows)[mon := id])
    {
      InsertedValues(windows, mon, id);
      windows := windows[mon := id];
      SameValues();
    }

    method PutWindow(mon: Mon) returns (id: WinId)
      requires Ready()
      modifies `memory, `nextWindow, `windows
      ensures Ready() && jobs == old(jobs) && id == old(nextWindow)
      ensures id in memory && id !in old(memory) && fresh(memory[id]) && memory == old(memory)[id := memory[id]]
      ensures Snap() == AddWindow(old(Snap()), mon)
    {
      id := NewWindow();
      InsertWindow(mon, id);
    }

    /** Shows a window just created.  objects holds all window objects. */
    method ShowNew(id: WinId, p: Prefs, ghost objects: set<GSWindow>)
      requires Ready() && id in memory && id !in jobs && memory.Values <= objects
      modifies `jobs, `lockTimer, `cycleTimer, `lockActive, objects, locker
      ensures Ready() && memory == old(memory) && kernel.stoppedWaits == old(kernel.stoppedWaits)
      ensures Snap() == ShowWindows(old(Snap()), {id}, p)
      ensures locker.Snap() == Surfaced(old(locker.Snap()), {id})
    {
      ShownForm(Snap(), id, p);
      Show(id, p);
    }

    method CreateHidden(mon: Mon, ghost objects: set<GSWindow>) returns (id: WinId, ghost objects1: set<GSWindow>)
      requires Ready() && memory.Values <= objects
      modifies `memory, `nextWindow, `windows
      ensures Ready() && jobs == old(jobs) && id in memory && id !in jobs && id == old(nextWindow)
      ensures objects <= objects1 && fresh(objects1 - objects) && memory.Values <= objects1
      ensures Snap() == AddWindow(old(Snap()), mon)
    {
      id := PutWindow(mon);
      assert id !in jobs;
      objects1 := objects + {memory[id]};
      ValuesWith(old(memory), memory, id, objects);
    }

    method CreateWindowForMonitor(mon: Mon, p: Prefs, ghost s: State, ghost objects: set<GSWindow>)
      returns (ghost objects1: set<GSWindow>)
      requires Ready() && s.m == Snap() && s.k == locker.Snap() && memory.Values <= objects
      modifies `memory, `nextWindow, `windows, `jobs, `lockTimer, `cycleTimer, `lockActive, objects, locker
      ensures Ready() && kernel.stoppedWaits == old(kernel.stoppedWaits)
      ensures objects <= objects1 && fresh(objects1 - objects) && memory.Values <= objects1
      ensures !active ==> jobs == old(jobs)
      ensures Snap() == CreateWindow(s, mon, p).m && locker.Snap() == CreateWindow(s, mon, p).k
    {
      var id: WinId;
      id, objects1 := CreateHidden(mon, objects);
      assert locker.Snap() == s.k;
      CreateForm(s, mon, p);
      if active {
        ShowNew(id, p, objects1);
        assert locker.Snap() == Surfaced(s.k, {id});
      }
    }

    method CreateWindows(mons: seq<Mon>, p: Prefs, ghost s: State)
      requires Ready() && s.m == Snap() && s.k == locker.Snap() && memory == map[]
      modifies `memory, `nextWindow, `windows, `jobs, `lockTimer, `cycleTimer, `lockActive, locker
      ensures Ready() && kernel.stoppedWaits == old(kernel.stoppedWaits)
      ensures !active ==> jobs == old(jobs)
      ensures fresh(memory.Values)
      ensures Snap() == SessionModel.CreateWindows(s, mons, p).m
      ensures locker.Snap() == SessionModel.CreateWindows(s, mons, p).k
    {
      ghost var objects: set<GSWindow> := {};
      for n := 0 to |mons|
        invariant Ready() && kernel.stoppedWaits == old(kernel.stoppedWaits)
        invariant !active ==> jobs == old(jobs)
        invariant fresh(objects) && memory.Values <= objects
        invariant Snap() == SessionModel.CreateWindows(s, mons[..n], p).m
        invariant locker.Snap() == SessionModel.CreateWindows(s, mons[..n], p).k
      {
        assert mons[..n + 1][..n] == mons[..n];
        objects := CreateWindowForMonitor(mons[n], p, SessionModel.CreateWindows(s, mons[..n], p), objects);
      }
      assert mons[..|mons|] == mons;
    }

    // ---------- monitors, activation, deactivation ----------

    /** Both tables are emptied, the lock surfaces first. */
    method TearDown()
      requires Ready() && windows.Values == memory.Keys && AtMostOneDialog(WinValues())
      modifies `jobs, `windows, `memory, `dialogUp, `auth, memory.Values, jobs.Values, kernel, locker
      ensures Ready() && kernel.stoppedWaits == old(kernel.stoppedWaits)
      ensures jobs == map[] && windows == map[] && memory == map[]
      ensures Snap() == SessionModel.DestroyWindows(old(Snap()))
      ensures locker.Snap() == RemoveSurfaces(old(locker.Snap()), old(windows.Values))
    {
      ghost var k := locker.Snap();
      DestroySame(Snap());
      ClearJobs();
      assert locker.Snap() == k;
      ClearSurfaces();
      ghost var k1 := locker.Snap();
      ClearWindows();
      assert locker.Snap() == k1;
    }

    method ClearSurfaces()
      requires Ready()
      modifies locker
      ensures Ready() && SameObjects() && Snap() == old(Snap())
      ensures locker.Snap() == RemoveSurfaces(old(locker.Snap()), windows.Values)
    {
      RemoveLockSurfaces();
      SameValues();
    }

    /** recreate_windows. */
    method RecreateWindows(p: Prefs, ghost s: State, monitors: seq<Mon>)
      requires Ready() && windows.Values == memory.Keys && AtMostOneDialog(WinValues())
      requires s.m == Snap() && s.k == locker.Snap() && s.monitors == monitors
      modifies `memory, `nextWindow, `windows, `jobs, `lockTimer, `cycleTimer, `lockActive, `dialogUp, `auth,
               memory.Values, jobs.Values, kernel, locker
      ensures Ready() && kernel.stoppedWaits == old(kernel.stoppedWaits)
      ensures Snap() == SessionModel.RecreateWindows(s, p).m
      ensures locker.Snap() == SessionModel.RecreateWindows(s, p).k
    {
      TearDown();
      ghost var s1 := s.(m := SessionModel.DestroyWindows(s.m), k := RemoveSurfaces(s.k, s.m.table.Values));
      CreateWindows(monitors, p, s1);
    }

    method BeginActivation(p: Prefs)
      requires Ready()
      modifies `lockActive, `monitorHandlers
      ensures Ready() && SameObjects()
      ensures Snap() == old(Snap()).(lockActive := old(lockActive) || LocksAtOnce(p),
                                     handlers := old(monitorHandlers) + 1)
    {
      if LocksAtOnce(p) {
        lockActive := true;
      }
      monitorHandlers := monitorHandlers + 1;
      SameValues();
    }

    method SetActiveFlag(on: bool)
      requires Ready()
      modifies `active
      ensures Ready() && SameObjects()
      ensures Snap() == old(Snap()).(active := on)
    {
      active := on;
      SameValues();
    }

    /** The grab or the session lock; false when the screen cannot be taken. */
    method TakeScreen(b: Backend, i: Input, ghost s: State) returns (taken: bool)
      requires s.backend == b && s.k == locker.Snap()
      modifies locker
      ensures taken == CanActivate(s, i)
      ensures locker.Snap() == LockerAfterTry(s, i)
    {
      match b
      case X11 =>
        taken := i.grabOk;
      case Wayland(notifier, compositor, lockManager) =>
        if !compositor || !lockManager {
          return false;
        }
        taken := locker.Lock(i.lockEvents);
    }

    method TryScreen(b: Backend, i: Input, ghost s: State) returns (taken: bool)
      requires Ready() && s.backend == b && s.k == locker.Snap()
      modifies locker
      ensures Ready() && SameObjects() && Snap() == old(Snap())
      ensures taken == CanActivate(s, i)
      ensures locker.Snap() == LockerAfterTry(s, i)
    {
      taken := TakeScreen(b, i, s);
      SameValues();
    }

    /** What gs_manager_activate does once the screen is taken, up to the "activated" signal. */
    method PutUp(i: Input, monitors: seq<Mon>, ghost s: State)
      requires Ready() && !active && memory == map[] && jobs == map[]
      requires s.m == Snap() && LockerAfterTry(s, i) == locker.Snap()
      modifies `memory, `nextWindow, `windows, `jobs, `lockTimer, `cycleTimer, `lockActive, `active, `monitorHandlers,
               locker
      ensures Ready() && kernel.stoppedWaits == old(kernel.stoppedWaits) && active && fresh(memory.Values)
      ensures var s1 := Shown(SessionModel.CreateWindows(Entered(s, i), monitors, i.p), i.p);
              Snap() == s1.m && locker.Snap() == s1.k
    {
      BeginActivation(i.p);
      ghost var s1 := Entered(s, i);
      assert locker.Snap() == s1.k;
      CreateWindows(monitors, i.p, s1);
      ghost var s2 := SessionModel.CreateWindows(s1, monitors, i.p);
      SetActiveFlag(true);
      assert locker.Snap() == s2.k;
      ShowTable(i.p);
    }

    /** gs_manager_activate up to its signal.  emits tells whether "activated" is to be emitted. */
    method Activate(b: Backend, i: Input, monitors: seq<Mon>, ghost s: State) returns (ok: bool, emits: bool)
      requires Ready() && (!active ==> memory == map[] && jobs == map[])
      requires s.m == Snap() && s.k == locker.Snap() && s.backend == b
      modifies `memory, `nextWindow, `windows, `jobs, `lockTimer, `cycleTimer, `lockActive, `active, `monitorHandlers,
               locker
      ensures Ready() && kernel.stoppedWaits == old(kernel.stoppedWaits)
      ensures ok == active && emits == (!old(active) && ok) && (emits ==> fresh(memory.Values))
      ensures var s1 := if s.m.active then s
                        else if CanActivate(s, i)
                        then Shown(SessionModel.CreateWindows(Entered(s, i), monitors, i.p), i.p)
                        else s.(k := LockerAfterTry(s, i));
              Snap() == s1.m && locker.Snap() == s1.k
    {
      if active {
        return true, false;
      }
      var taken := TryScreen(b, i, s);
      if !taken {
        return false, false;
      }
      PutUp(i, monitors, s);
      return true, true;
    }

    method RemoveTimers()
      requires Ready()
      modifies `lockTimer, `cycleTimer
      ensures Ready() && SameObjects()
      ensures Snap() == old(Snap()).(lockTimer := false, cycleTimer := false)
    {
      lockTimer := false;
      cycleTimer := false;
      SameValues();
    }

    method ResetState()
      requires Ready()
      modifies `active, `dialogUp, `monitorHandlers
      ensures Ready() && SameObjects()
      ensures Snap() == old(Snap()).(active := false, dialogUp := false, handlers := 0)
    {
      monitorHandlers := 0;
      active := false;
      dialogUp := false;
      SameValues();
    }

    method Unlock(b: Backend)
      requires Ready()
      modifies locker
      ensures Ready() && SameObjects() && Snap() == old(Snap())
      ensures locker.Snap() == if b.Wayland? && b.lockManager then SessionModel.Unlock(old(locker.Snap()))
                               else old(locker.Snap())
    {
      if b.Wayland? && b.lockManager {
        locker.Unlock();
      }
      SameValues();
    }

    /** gs_manager_deactivate up to its signal.  emits tells whether "deactivated" is to be emitted. */
    method Deactivate(b: Backend) returns (emits: bool)
      requires Ready() && windows.Values == memory.Keys && AtMostOneDialog(WinValues())
      modifies `jobs, `windows, `memory, `dialogUp, `auth, `lockTimer, `cycleTimer, `active, `monitorHandlers,
               `lockActive, memory.Values, jobs.Values, kernel, locker
      ensures Ready() && kernel.stoppedWaits == old(kernel.stoppedWaits)
      ensures emits == old(active) && !active
      ensures Snap() == if old(active) then Emptied(old(Snap())) else old(Snap())
      ensures locker.Snap() == if old(active) then LockerGivenUp(b, old(locker.Snap()), old(windows.Values))
                               else old(locker.Snap())
    {
      if !active {
        return false;
      }
      ghost var m, k := Snap(), locker.Snap();
      EmptiedForm(m);
      RemoveTimers();
      assert locker.Snap() == k;
      TearDown();
      Unlock(b);
      ghost var k1 := locker.Snap();
      ResetState();
      EnableLocker(false);
      assert locker.Snap() == k1;
      return true;
    }
  }

  function LockerGivenUp(b: Backend, k: Locker, ids: set<WinId>): Locker {
    var k1 := RemoveSurfaces(k, ids);
    if b.Wayland? && b.lockManager then SessionModel.Unlock(k1) else k1
  }

  lemma DestroySame(m: Manager)
    ensures SessionModel.DestroyWindows(m.(jobs := map[])) == SessionModel.DestroyWindows(m)
  {
  }

  lemma EmptiedForm(m: Manager)
    ensures Emptied(m) ==
              SessionModel.EnableLocker(SessionModel.DestroyWindows(m.(lockTimer := false, cycleTimer := false))
                                          .(active := false, dialogUp := false, handlers := 0), false)
  {
  }

  lemma ValuesWith(t: map<WinId, GSWindow>, t1: map<WinId, GSWindow>, id: WinId, objects: set<GSWindow>)
    requires id in t1 && t1 == t[id := t1[id]] && t.Values <= objects
    ensures t1.Values <= objects + {t1[id]}
  {
  }

  // ---------- putting windows up ----------

  function Surfaced(k: Locker, ids: set<WinId>): Locker {
    if k.cur.Some? then k.(surfaces := k.surfaces + ids) else k
  }

  lemma CreateForm(s: State, mon: Mon, p: Prefs)
    ensures var m1 := AddWindow(s.m, mon);
            && CreateWindow(s, mon, p).m == (if s.m.active then ShowWindows(m1, {s.m.nextWin}, p) else m1)
            && CreateWindow(s, mon, p).k == (if s.m.active then Surfaced(s.k, {s.m.nextWin}) else s.k)
  {
  }

  lemma OneMoreSurface(k: Locker, ids: set<WinId>, i: WinId)
    ensures Surfaced(Surfaced(k, ids), {i}) == Surfaced(k, ids + {i})
  {
    assert k.surfaces + ids + {i} == k.surfaces + (ids + {i});
  }

  function LockTimerAdded(m: Manager, p: Prefs): Manager {
    if LocksAtOnce(p) && !m.lockActive then SessionModel.EnableLocker(m.(lockTimer := false), true)
    else m.(lockTimer := p.lockEnabled && p.lockWithSaver && !m.lockActive)
  }

  function WindowShown(m: Manager, id: WinId, p: Prefs): Manager {
    var m1 := LockTimerAdded(m.(jobs := m.jobs[id := NEW_JOB]), p);
    m1.(cycleTimer := m.cycleTimer || p.random)
  }

  function Visible(win: map<WinId, Win>, id: WinId): map<WinId, Win>
    requires id in win
  {
    win[id := win[id].(visible := true)]
  }

  lemma ShowOne(win: map<WinId, Win>, jobs: map<WinId, Job>, ids: set<WinId>, id: WinId)
    requires id in win
    ensures ShowAll(win, {id}) == Visible(win, id)
    ensures ShowAll(LockAll(win, ids, true), {id}) == LockAll(Visible(win, id), ids, true)
    ensures AddJobs(jobs, {id}) == jobs[id := NEW_JOB]
  {
  }

  lemma ShownPlain(m: Manager, id: WinId, p: Prefs)
    requires id in m.win && !(LocksAtOnce(p) && !m.lockActive)
    requires ShowAll(m.win, {id}) == Visible(m.win, id) && AddJobs(m.jobs, {id}) == m.jobs[id := NEW_JOB]
    ensures ShowWindows(m, {id}, p) == WindowShown(m.(win := Visible(m.win, id)), id, p)
  {
  }

  lemma ShownLocking(m: Manager, id: WinId, p: Prefs)
    requires id in m.win && LocksAtOnce(p) && !m.lockActive
    requires ShowAll(LockAll(m.win, m.table.Values, true), {id}) == LockAll(Visible(m.win, id), m.table.Values, true)
    requires AddJobs(m.jobs, {id}) == m.jobs[id := NEW_JOB]
    ensures ShowWindows(m, {id}, p) == WindowShown(m.(win := Visible(m.win, id)), id, p)
  {
  }

  lemma ShownForm(m: Manager, id: WinId, p: Prefs)
    requires id in m.win
    ensures ShowWindows(m, {id}, p) == WindowShown(m.(win := Visible(m.win, id)), id, p)
  {
    ShowOne(m.win, m.jobs, m.table.Values, id);
    if LocksAtOnce(p) && !m.lockActive {
      ShownLocking(m, id, p);
    } else {
      ShownPlain(m, id, p);
    }
  }

  lemma AddMoreJobs(jobs: map<WinId, Job>, ids: set<WinId>, i: WinId)
    ensures AddJobs(AddJobs(jobs, ids), {i}) == AddJobs(jobs, ids + {i})
  {
  }

  lemma ShowMore(win: map<WinId, Win>, ids: set<WinId>, i: WinId)
    ensures ShowAll(ShowAll(win, ids), {i}) == ShowAll(win, ids + {i})
  {
  }

  lemma ShowWindowsMore(m: Manager, ids: set<WinId>, i: WinId, p: Prefs)
    requires ids != {}
    ensures ShowWindows(ShowWindows(m, ids, p), {i}, p) == ShowWindows(m, ids + {i}, p)
  {
    var m1 := if LocksAtOnce(p) && !m.lockActive then SessionModel.EnableLocker(m, true) else m;
    AddMoreJobs(m.jobs, ids, i);
    ShowMore(m1.win, ids, i);
  }

  lemma OneMoreShown(m: Manager, ids: set<WinId>, i: WinId, p: Prefs)
    requires i in m.win && ids <= m.win.Keys
    ensures var m1 := ShowWindows(m, ids, p);
            i in m1.win && WindowShown(m1.(win := Visible(m1.win, i)), i, p) == ShowWindows(m, ids + {i}, p)
  {
    var m1 := ShowWindows(m, ids, p);
    ShownForm(m1, i, p);
    if ids == {} {
      assert ids + {i} == {i};
    } else {
      ShowWindowsMore(m, ids, i, p);
    }
  }

  // ---------- taking windows down ----------

  ghost predicate AtMostOneDialog(win: map<WinId, Win>) {
    forall i, j :: i in win && j in win && win[i].dialogUp && win[j].dialogUp ==> i == j
  }

  function Gone(m: Manager, id: WinId): Manager {
    m.(win := m.win - {id})
  }

  function Kept(win: map<WinId, Win>, left: set<WinId>): map<WinId, Win> {
    map i | i in win && i in left :: win[i]
  }

  predicate DialogGone(win: map<WinId, Win>, left: set<WinId>) {
    exists i | i in win :: i !in left && win[i].dialogUp
  }

  /** m when only the windows in left are still there. */
  function Left(m: Manager, left: set<WinId>): Manager {
    m.(win := Kept(m.win, left),
       dialogUp := if DialogGone(m.win, left) then false else m.dialogUp,
       auth := if DialogGone(m.win, left) then m.auth + [End] else m.auth)
  }

  lemma PopdownEnds(m: Manager, id: WinId, starts: map<WinId, bool>)
    requires id in m.win
    ensures var m1 := PopdownDialog(m, id, starts);
            id in m1.win && !m1.win[id].dialogAlive && m1.win.Keys == m.win.Keys
  {
  }

  lemma NoneGone(m: Manager)
    ensures Left(m, m.win.Keys) == m
  {
    assert Kept(m.win, m.win.Keys) == m.win;
  }

  lemma AllGone(m: Manager)
    requires m.jobs == map[]
    ensures Left(m.(table := map[]), {}) == SessionModel.DestroyWindows(m)
  {
    assert DialogGone(m.win, {}) == SomeDialog(m);
    assert Kept(m.win, {}) == map[];
  }

  function Undone(w: Win): Win {
    w.(dialogAlive := false, dialogUp := false, popupIdle := false, dialogWatch := false)
  }

  lemma SetDownAlone(m: Manager, id: WinId)
    requires m.table == map[] && m.jobs == map[] && id in m.win
    ensures SessionModel.SetDialogUp(m, id, false, map[]) ==
              m.(win := m.win[id := m.win[id].(dialogUp := false)],
                 dialogUp := if m.win[id].dialogUp then false else m.dialogUp,
                 auth := if m.win[id].dialogUp then m.auth + [End] else m.auth)
  {
    assert m.table.Values == {};
    if m.win[id].dialogUp {
      var m1 := m.(win := m.win[id := m.win[id].(dialogUp := false)]);
      assert Sensitize(m1.win, {}) == m1.win;
      assert ResumeAll(m1.win, m1.jobs, map[]) == map[];
    } else {
      assert m.win[id].(dialogUp := false) == m.win[id];
      assert m.win[id := m.win[id]] == m.win;
    }
  }

  /** With both tables empty the end of a dialog reaches no other window and no job. */
  lemma PopdownAlone(m: Manager, id: WinId)
    requires m.table == map[] && m.jobs == map[] && id in m.win
    ensures PopdownDialog(m, id, map[]) ==
              m.(win := m.win[id := Undone(m.win[id])], dialogUp := if m.win[id].dialogUp then false else m.dialogUp,
                 auth := if m.win[id].dialogUp then m.auth + [End] else m.auth)
  {
    var w := m.win[id].(dialogAlive := false);
    var m1 := m.(win := m.win[id := w]);
    SetDownAlone(m1, id);
    ThreeWrites(m.win, id, w, w.(dialogUp := false), Undone(m.win[id]));
  }

  lemma ThreeWrites(win: map<WinId, Win>, id: WinId, w: Win, w1: Win, w2: Win)
    ensures win[id := w][id := w1] == win[id := w1] && win[id := w1][id := w2] == win[id := w2]
  {
  }

  lemma KeptLess(win: map<WinId, Win>, left: set<WinId>, i: WinId, w: Win)
    requires i in left && i in win
    ensures Kept(win, left)[i := w] - {i} == Kept(win, left - {i})
  {
  }

  lemma DialogGoneMore(win: map<WinId, Win>, left: set<WinId>, i: WinId)
    requires i in left && i in win && AtMostOneDialog(win)
    ensures DialogGone(win, left - {i}) == (DialogGone(win, left) || win[i].dialogUp)
    ensures DialogGone(win, left) ==> !win[i].dialogUp
  {
    if win[i].dialogUp {
      assert i !in left - {i};
    }
  }

  lemma OneMoreGone(m: Manager, left: set<WinId>, i: WinId)
    requires m.table == map[] && m.jobs == map[] && i in left && i in m.win && AtMostOneDialog(m.win)
    ensures Gone(PopdownDialog(Left(m, left), i, map[]), i) == Left(m, left - {i})
  {
    var m0 := Left(m, left);
    PopdownAlone(m0, i);
    KeptLess(m.win, left, i, Undone(m.win[i]));
    DialogGoneMore(m.win, left, i);
    var m1 := PopdownDialog(m0, i, map[]);
    assert m1.win - {i} == Kept(m.win, left - {i});
  }

  // ---------- what the loops add up to ----------

  /** What a loop over the windows does to each of them. */
  datatype WindowCall = Locking(on: bool) | Sensing | Numbing(spare: WinId)

  function WinAfter(w: Win, call: WindowCall, id: WinId): Win {
    match call
    case Locking(on) => w.(lockActive := on)
    case Sensing => w.(sensitive := true)
    case Numbing(spare) => if id != spare then w.(sensitive := false) else w
  }

  function WinsAfter(win: map<WinId, Win>, all: set<WinId>, call: WindowCall, todo: set<WinId>): map<WinId, Win> {
    map i | i in win :: if i in all && i !in todo then WinAfter(win[i], call, i) else win[i]
  }

  lemma OneMoreWindow(win: map<WinId, Win>, all: set<WinId>, call: WindowCall, todo: set<WinId>, i: WinId)
    requires i in todo && i in win && i in all
    ensures var win1 := WinsAfter(win, all, call, todo);
            win1[i := WinAfter(win1[i], call, i)] == WinsAfter(win, all, call, todo - {i})
  {
  }

  lemma LockingForm(win: map<WinId, Win>, all: set<WinId>, on: bool)
    ensures WinsAfter(win, all, Locking(on), {}) == LockAll(win, all, on)
  {
  }

  lemma NumbingForm(win: map<WinId, Win>, all: set<WinId>, spare: WinId)
    ensures WinsAfter(win, all, Numbing(spare), {}) == Desensitize(win, all - {spare})
  {
  }

  lemma SensingForm(win: map<WinId, Win>, all: set<WinId>)
    ensures WinsAfter(win, all, Sensing, {}) == Sensitize(win, all)
  {
  }

  lemma SuspendingForm(throttled: bool, quiet: bool, win: map<WinId, Win>, jobs: map<WinId, Job>)
    ensures JobsAfter(Suspending, throttled, quiet, win, jobs, map[], {}) == SuspendAll(jobs)
  {
  }

  lemma ResumingForm(win: map<WinId, Win>, jobs: map<WinId, Job>, starts: map<WinId, bool>)
    ensures JobsAfter(Resuming, false, false, win, jobs, starts, {}) == ResumeAll(win, jobs, starts)
  {
  }

  /** Which windows are obscured does not depend on who takes input. */
  lemma SensedHidden(m: Manager, starts: map<WinId, bool>)
    ensures ResumeAll(Sensitize(m.win, m.table.Values), m.jobs, starts) == ResumeAll(m.win, m.jobs, starts)
  {
    SameHidden(m.win, Sensitize(m.win, m.table.Values), m.jobs, starts);
  }

  function Renewed(win: map<WinId, Win>, jobs: map<WinId, Job>, starts: map<WinId, bool>,
                   todo: set<WinId>): map<WinId, Job> {
    map i | i in jobs :: if i in todo then jobs[i] else MaybeStart(win, i, NEW_JOB, starts)
  }

  lemma RenewedForm(win: map<WinId, Win>, jobs: map<WinId, Job>, starts: map<WinId, bool>)
    ensures Renewed(win, jobs, starts, {}) == RenewAll(win, jobs, starts)
  {
  }

  lemma InsertedValues(t: map<Mon, WinId>, mon: Mon, id: WinId)
    ensures t[mon := id].Values <= t.Values + {id}
  {
  }

  lemma Overwritten(js: map<WinId, Job>, id: WinId, j: Job, j1: Job)
    ensures js[id := j][id := j1] == js[id := j1]
  {
  }

  lemma StartedNew(jobs: map<WinId, Job>, id: WinId, j: Job)
    ensures jobs[id := NEW_JOB][id := j] == jobs[id := j]
  {
  }

  lemma OneMoreRenewed(win: map<WinId, Win>, jobs: map<WinId, Job>, starts: map<WinId, bool>, todo: set<WinId>,
                       i: WinId)
    requires i in todo && i in jobs
    ensures Renewed(win, jobs, starts, todo - {i})
         == Renewed(win, jobs, starts, todo)[i := MaybeStart(win, i, NEW_JOB, starts)]
  {
  }

  lemma StartedForm(m: Manager, id: WinId, starts: map<WinId, bool>)
    ensures MaybeStartIn(m, id, starts) ==
              if id !in m.jobs then m
              else m.(jobs := m.jobs[id := Started(Quiet(m), m.win, id, m.jobs[id], starts)])
  {
    if id in m.jobs && Quiet(m) {
      assert m.jobs[id := m.jobs[id]] == m.jobs;
    }
  }

  function Started(quiet: bool, win: map<WinId, Win>, id: WinId, j: Job, starts: map<WinId, bool>): Job {
    if quiet then j else MaybeStart(win, id, j, starts)
  }

  /** What a loop over the jobs does to each of them. */
  datatype JobCallback = Throttling | Resuming | Suspending

  function JobAfter(call: JobCallback, throttled: bool, quiet: bool, win: map<WinId, Win>, id: WinId, j: Job,
                    starts: map<WinId, bool>): Job {
    match call
    case Throttling => if throttled then SessionModel.StopJob(j) else Started(quiet, win, id, j, starts)
    case Resuming => if j.alive then SessionModel.SuspendJob(j, false) else Started(quiet, win, id, j, starts)
    case Suspending => SessionModel.SuspendJob(j, true)
  }

  function JobsAfter(call: JobCallback, throttled: bool, quiet: bool, win: map<WinId, Win>, jobs: map<WinId, Job>,
                     starts: map<WinId, bool>, todo: set<WinId>): map<WinId, Job> {
    map i | i in jobs :: if i in todo then jobs[i] else JobAfter(call, throttled, quiet, win, i, jobs[i], starts)
  }

  lemma OneMoreJob(call: JobCallback, throttled: bool, quiet: bool, win: map<WinId, Win>, jobs: map<WinId, Job>,
                   starts: map<WinId, bool>, todo: set<WinId>, i: WinId)
    requires i in todo && i in jobs
    ensures var jobs1 := JobsAfter(call, throttled, quiet, win, jobs, starts, todo);
            JobsAfter(call, throttled, quiet, win, jobs, starts, todo - {i})
              == jobs1[i := JobAfter(call, throttled, quiet, win, i, jobs1[i], starts)]
  {
  }

  lemma ThrottledForm(throttled: bool, win: map<WinId, Win>, jobs: map<WinId, Job>, starts: map<WinId, bool>)
    ensures JobsAfter(Throttling, throttled, throttled, win, jobs, starts, {}) ==
              if throttled then StopAll(jobs) else StartAll(win, jobs, starts)
  {
  }

  lemma ChildStays(c0: map<Pid, Child>, c1: map<Pid, Child>, o: Owner, o1: Owner, pid: Pid, stopped: bool)
    requires OnlyChildOf(o, c0, c1) && o1 != o && ChildIs(c0, o1, pid, stopped)
    ensures ChildIs(c1, o1, pid, stopped)
  {
  }
}
