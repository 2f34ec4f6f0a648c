/**
 The two listeners and the monitor that connects them to the manager.

 A signal is a call.  The chain of calls may come back to the listener that started it; the measure
 that shows it ends is whether the manager already is in the state asked for.
 */
module SessionWiring {
  import opened Basics
  import opened SessionModel
  import opened SessionInvariant
  import opened SessionProcesses
  import opened SessionSteps
  import opened SessionWindows

  class GSListenerDBus {
    var active: bool
    var throttled: bool
    var inhibitors: map<Cookie, Option<Conn>>
    var throttlers: map<Cookie, Option<Conn>>
    ghost var sent: seq<bool>

    ghost function Snap(): Dbus
      reads this
    {
      Dbus(active, throttled, inhibitors, throttlers, sent)
    }

    constructor ()
      ensures Snap() == Dbus(false, false, map[], map[], [])
    {
      active, throttled, inhibitors, throttlers := false, false, map[], map[];
      sent := [];
    }

    predicate IsInhibited()
      reads this
    {
      inhibitors != map[]
    }

    /** listener_set_active_internal with its ActiveChanged broadcast. */
    method SetActiveInternal(monitor: GSMonitor, on: bool)
      requires monitor.dbus == this && monitor.Held()
      modifies this
      ensures monitor.Held()
      ensures monitor.Snap() == old(monitor.Snap()).(d := old(Snap()).(active := on, sent := old(sent) + [on]))
    {
      active := on;
      sent := sent + [on];
    }

    /** gs_listener_dbus_activate_saver. */
    method ActivateSaver(monitor: GSMonitor, on: bool, i: Input)
      requires monitor.dbus == this && monitor.Ready(on)
      modifies this, monitor.wayland, monitor.Reach(on)
      ensures monitor.Held() && monitor.Snap() == DbusActivate(old(monitor.Snap()), on, i)
      ensures monitor.SafeWaits()
      decreases monitor.Turn(on), 3
    {
      if active == on {
        return;
      }
      var res := monitor.ListenerDbusActiveChanged(on, i);
      if res {
        SetActiveInternal(monitor, on);
      }
    }

    // ---------- inhibitors and throttlers ----------

    method CheckThrottle(monitor: GSMonitor, starts: map<WinId, bool>)
      requires monitor.dbus == this && monitor.Held()
      modifies this, monitor.manager`throttled, monitor.manager.jobs.Values, monitor.manager.kernel
      ensures monitor.Held() && monitor.SafeWaits()
      ensures monitor.Snap() == SessionModel.CheckThrottle(old(monitor.Snap()), starts)
    {
      var on := throttlers != map[];
      if on != throttled {
        SetThrottledFlag(monitor, on);
        monitor.ListenerDbusThrottleChanged(on, starts);
      }
    }

    /** listener_ref_entry_remove_for_connection: every entry of that connection goes, and no other. */
    static method RemoveForConnection(t: map<Cookie, Option<Conn>>, name: Conn)
      returns (t1: map<Cookie, Option<Conn>>, removed: bool)
      ensures t1 == WithoutConn(t, name) && removed == (t1 != t)
    {
      t1 := t;
      removed := false;
      var todo := t.Keys;
      while todo != {}
        invariant todo <= t.Keys
        invariant t1 == map c | c in t && (c in todo || t[c] != Some(name)) :: t[c]
        invariant removed == (t1 != t)
      {
        var c :| c in todo;
        if t[c] == Some(name) {
          t1 := t1 - {c};
          removed := true;
          assert c in t && c !in t1;
        }
        todo := todo - {c};
      }
    }

    method SetThrottledFlag(monitor: GSMonitor, on: bool)
      requires monitor.dbus == this && monitor.Held()
      modifies `throttled
      ensures monitor.Held() && monitor.SafeWaits()
      ensures monitor.Snap() == old(monitor.Snap()).(d := old(Snap()).(throttled := on))
      ensures throttlers == old(throttlers)
    {
      throttled := on;
    }

    method SetThrottlers(monitor: GSMonitor, t: map<Cookie, Option<Conn>>)
      requires monitor.dbus == this && monitor.Held()
      modifies this
      ensures monitor.Held() && monitor.Snap() == old(monitor.Snap()).(d := old(Snap()).(throttlers := t))
    {
      throttlers := t;
    }

    method SetInhibitors(monitor: GSMonitor, t: map<Cookie, Option<Conn>>)
      requires monitor.dbus == this && monitor.Held()
      modifies this
      ensures monitor.Held() && monitor.Snap() == old(monitor.Snap()).(d := old(Snap()).(inhibitors := t))
    {
      inhibitors := t;
    }
  }

  class GSListenerWayland {
    var alarms: map<Alarm, nat>
    var enabled: bool
    var timeout: nat
    var lockTimeout: nat

    ghost function Snap(): Alarms
      reads this
    {
      Alarms(alarms, enabled, timeout, lockTimeout)
    }

    constructor ()
      ensures Snap() == Alarms(map[], false, 0, 0)
    {
      alarms, enabled, timeout, lockTimeout := map[], false, 0, 0;
    }

    method AlarmAdd(alarm: Alarm)
      modifies `alarms
      ensures alarms == old(alarms)[alarm := match alarm
                                             case Activate => timeout
                                             case LockLater => lockTimeout
                                             case Deactivate => 0]
    {
      match alarm
      case Activate => alarms := alarms[Activate := timeout];
      case LockLater => alarms := alarms[LockLater := lockTimeout];
      case Deactivate => alarms := alarms[Deactivate := 0];
    }

    method AlarmRemove(alarm: Alarm)
      modifies `alarms
      ensures alarms == old(alarms) - {alarm}
    {
      alarms := alarms - {alarm};
    }

    /** manager_deactivated. */
    method ManagerDeactivated()
      modifies `alarms
      ensures Snap() == old(Snap()).(armed := var a := old(alarms) - {Deactivate, LockLater};
                                              if enabled then a[Activate := timeout] else a)
    {
      AlarmRemove(Deactivate);
      AlarmRemove(LockLater);
      assert alarms == old(alarms) - {Deactivate, LockLater};
      if enabled {
        AlarmAdd(Activate);
      }
    }

    /** gs_listener_wayland_set_timeouts. */
    method SetTimeouts(b: Backend, on: bool, secs: nat, lockSecs: nat, p: Prefs, ghost s: State)
      requires s.backend == b && s.a == Snap()
      modifies this
      ensures Snap() == TimeoutsSet(s, on, secs, lockSecs, p).a
    {
      var oldTimeout := timeout;
      if !(b.Wayland? && b.notifier) {
        return;
      }
      enabled := on;
      if !on {
        AlarmRemove(Activate);
        AlarmRemove(LockLater);
        assert alarms == old(alarms) - {Activate, LockLater};
        return;
      }
      timeout := Millis(secs);
      lockTimeout := Millis(lockSecs);
      if !p.lockWithSaver {
        AlarmRemove(LockLater);
      }
      if Deactivate !in alarms {
        if timeout != oldTimeout || Activate !in alarms {
          AlarmAdd(Activate);
        }
      }
    }

    /** The "lock" signal or the lock alarm. */
    method AnswerActivated(monitor: GSMonitor, i: Input)
      requires monitor.wayland == this && monitor.Held() && monitor.manager.active
      modifies this, monitor.dbus, monitor.manager`lockActive, monitor.manager.memory.Values
      ensures monitor.Held() && monitor.manager.active && monitor.SafeWaits()
      ensures monitor.Snap() == Reacted(old(monitor.Snap()), i.p)
      decreases 0, 6
    {
      if i.p.lockWithSaver {
        if lockTimeout == 0 {
          LockActiveForm(monitor.Snap(), i);
          monitor.ListenerLock(i);
        } else {
          AlarmAdd(LockLater);
        }
      }
    }

    method Swap()
      modifies `alarms
      ensures alarms == (old(alarms) - {Activate})[Deactivate := 0]
    {
      AlarmRemove(Activate);
      AlarmAdd(Deactivate);
    }

    method SwapAlarms(monitor: GSMonitor)
      requires monitor.wayland == this && monitor.Held()
      modifies `alarms
      ensures monitor.Held() && monitor.SafeWaits()
      ensures monitor.Snap() == old(monitor.Snap()).(
                a := old(Snap()).(armed := (old(alarms) - {Activate})[Deactivate := 0]))
    {
      Swap();
    }

    /** manager_activated. */
    method ManagerActivated(monitor: GSMonitor, i: Input)
      requires monitor.wayland == this && monitor.Held() && monitor.manager.active && Listening(monitor.backend)
      modifies this, monitor.dbus, monitor.manager`lockActive, monitor.manager.memory.Values
      ensures monitor.Held() && monitor.manager.active && monitor.SafeWaits()
      ensures monitor.Snap() == AfterActivated(old(monitor.Snap()), i.p)
      decreases 0, 7
    {
      AnswerActivated(monitor, i);
      SwapAlarms(monitor);
    }
  }

  class GSMonitor {
    const backend: Backend
    const manager: GSManager
    const dbus: GSListenerDBus
    const wayland: GSListenerWayland
    var monitors: seq<Mon>   // of the display

    ghost function Snap(): State
      reads this`monitors, manager, manager.memory.Values, manager.jobs.Values, dbus, wayland, manager.locker
    {
      State(backend, monitors, manager.Snap(), dbus.Snap(), wayland.Snap(), manager.locker.Snap())
    }

    constructor (b: Backend, monitors: seq<Mon>, manager: GSManager, dbus: GSListenerDBus, wayland: GSListenerWayland)
      requires manager.Ready() && manager.Snap() == Start(b, monitors).m
      requires manager.locker.Snap() == Start(b, monitors).k
      requires dbus.Snap() == Start(b, monitors).d && wayland.Snap() == Start(b, monitors).a
      ensures Held() && Snap() == Start(b, monitors) && this.manager == manager
    {
      backend, this.monitors := b, monitors;
      this.manager, this.dbus, this.wayland := manager, dbus, wayland;
    }

    /** How many times the manager still has to change to reach on. */
    function Turn(on: bool): nat
      reads manager`active
    {
      if manager.active == on then 0 else 1
    }

    ghost predicate Held()
      reads manager`jobs, manager`memory, manager`windows, manager`nextWindow, manager.jobs.Values,
            manager.memory.Values, manager.kernel
    {
      manager.Ready()
    }

    /** No child was waited for while SIGSTOP kept it from exiting. */
    twostate predicate SafeWaits()
      reads manager.kernel
    {
      manager.kernel.stoppedWaits == old(manager.kernel.stoppedWaits)
    }

    /** A stopped child was waited for once, or none was. */
    twostate predicate Waits(stopped: bool)
      reads manager.kernel
    {
      manager.kernel.stoppedWaits == old(manager.kernel.stoppedWaits) + if stopped then 1 else 0
    }

    /** The manager can be turned on or off. */
    ghost predicate Ready(on: bool)
      reads manager, manager.jobs.Values, manager.memory.Values, manager.kernel
    {
      && Held()
      && (on && !manager.active ==> manager.memory == map[] && manager.jobs == map[])
      && (!on && manager.active ==>
            manager.windows.Values == manager.memory.Keys && AtMostOneDialog(manager.WinValues()))
    }

    ghost function Reach(on: bool): set<object>
      reads manager
    {
      if manager.active == on then {}
      else {manager, manager.kernel, manager.locker} + manager.memory.Values + manager.jobs.Values
    }

    // ---------- signals of the D-Bus listener ----------

    /** "active-changed". */
    method ListenerDbusActiveChanged(on: bool, i: Input) returns (done: bool)
      requires Ready(on)
      modifies dbus, wayland, Reach(on)
      ensures Held() && SafeWaits()
      ensures done == (manager.active == on)
      ensures Snap() == if on then SessionModel.ActivateManager(old(Snap()), i)
                        else SessionModel.DeactivateManager(old(Snap()))
      decreases Turn(on), 2
    {
      if on {
        done := ActivateManager(i);
      } else {
        DeactivateManager(i);
        done := true;
      }
    }

    method ListenerDbusThrottleChanged(on: bool, starts: map<WinId, bool>)
      requires Held()
      modifies manager`throttled, manager.jobs.Values, manager.kernel
      ensures Held() && SafeWaits()
      ensures Snap() == old(Snap()).(m := SetThrottled(old(Snap()).m, on, starts))
    {
      manager.SetThrottled(on, starts);
    }

    method EnableLocker()
      requires Held()
      modifies manager`lockActive, manager.memory.Values
      ensures Held() && SafeWaits() && manager.memory == old(manager.memory) && manager.jobs == old(manager.jobs)
      ensures manager.windows == old(manager.windows)
      ensures Snap() == old(Snap()).(m := SessionModel.EnableLocker(old(Snap()).m, true))
    {
      manager.EnableLocker(true);
    }

    /** "lock". */
    method ListenerDbusLock(i: Input)
      requires Ready(true)
      modifies dbus, wayland, manager`lockActive, manager.memory.Values, Reach(true)
      ensures Held() && SafeWaits() && Snap() == DbusLock(old(Snap()), i)
      decreases Turn(true), 4
    {
      if i.p.lockEnabled {
        EnableLocker();
        dbus.ActivateSaver(this, true, i);
      }
    }

    // ---------- signals of the idle listener ----------

    method ListenerActivate(i: Input)
      requires Ready(true)
      modifies dbus, wayland, Reach(true)
      ensures Held() && SafeWaits() && Snap() == SessionModel.ListenerActivate(old(Snap()), i)
    {
      if !dbus.IsInhibited() {
        dbus.ActivateSaver(this, true, i);
      }
    }

    method ListenerLock(i: Input)
      requires Ready(true)
      modifies dbus, wayland, manager`lockActive, manager.memory.Values, Reach(true)
      ensures Held() && SafeWaits() && Snap() == SessionModel.ListenerLock(old(Snap()), i)
      decreases Turn(true), 5
    {
      if !dbus.IsInhibited() {
        ListenerDbusLock(i);
      }
    }

    // ---------- the manager and its signals ----------

    method StartManager(i: Input, ghost s: State) returns (ok: bool, emits: bool)
      requires Ready(true) && s == Snap()
      modifies Reach(true)
      ensures Held() && SafeWaits() && ok == manager.active
      ensures emits == (!old(manager.active) && ok) && (emits ==> fresh(manager.memory.Values))
      ensures Snap() == if s.m.active then s
                        else if CanActivate(s, i) then Shown(CreateWindows(Entered(s, i), s.monitors, i.p), i.p)
                        else s.(k := LockerAfterTry(s, i))
    {
      if manager.active {
        return true, false;
      }
      CreatesOnly(Entered(s, i), s.monitors, i.p);
      ok, emits := manager.Activate(backend, i, monitors, s);
    }

    /** gs_manager_activate with its "activated" signal. */
    method ActivateManager(i: Input) returns (ok: bool)
      requires Ready(true)
      modifies dbus, wayland, Reach(true)
      ensures Held() && SafeWaits() && ok == manager.active
      ensures Snap() == SessionModel.ActivateManager(old(Snap()), i)
      decreases Turn(true), 1
    {
      ghost var s := Snap();
      BecomeActiveForm(s, i);
      var emits;
      ok, emits := StartManager(i, s);
      if emits {
        if Listening(backend) {
          wayland.ManagerActivated(this, i);
        }
      }
    }

    method StopManager() returns (emits: bool)
      requires Ready(false)
      modifies Reach(false)
      ensures Held() && SafeWaits() && !manager.active && emits == old(manager.active)
      ensures var s := old(Snap());
              Snap() == if emits then s.(m := Emptied(s.m), k := LockerGivenUp(backend, s.k, s.m.table.Values)) else s
    {
      if !manager.active {
        return false;
      }
      emits := manager.Deactivate(backend);
    }

    method EmitDeactivatedToAlarms()
      requires Held()
      modifies wayland
      ensures Held() && SafeWaits()
      ensures Snap() == old(Snap()).(a := AlarmsAfterDeactivated(backend, old(Snap()).a))
    {
      if Listening(backend) {
        wayland.ManagerDeactivated();
      }
    }

    /** gs_manager_deactivate with its "deactivated" signal. */
    method DeactivateManager(i: Input)
      requires Ready(false)
      modifies dbus, wayland, Reach(false)
      ensures Held() && SafeWaits() && !manager.active
      ensures Snap() == SessionModel.DeactivateManager(old(Snap()))
      decreases Turn(false), 1
    {
      DeactivateForm(Snap(), i);
      var emits := StopManager();
      if emits {
        EmitDeactivatedToAlarms();
        dbus.ActivateSaver(this, false, i);
      }
    }

    /** The children not waited for are exactly those the jobs and windows record, each recorded once,
        and at most one of them is a dialog. */
    lemma ChildrenAccounted()
      requires Held() && Inv(Snap())
      ensures manager.kernel.spawned == manager.kernel.reaped + |manager.kernel.children|
      ensures forall i :: i in manager.jobs && manager.jobs[i].pid > 0 ==>
                manager.jobs[i].pid in manager.kernel.children
                && manager.kernel.children[manager.jobs[i].pid] == Child(JobOf(i), manager.jobs[i].status == Stopped)
      ensures forall i :: i in manager.memory && manager.memory[i].lockPid > 0 ==>
                manager.memory[i].lockPid in manager.kernel.children
                && manager.kernel.children[manager.memory[i].lockPid] == Child(DialogOf(i), false)
      ensures forall p :: p in manager.kernel.children ==>
                match manager.kernel.children[p].owner
                case JobOf(i) => i in manager.jobs && manager.jobs[i].pid == p
                case DialogOf(i) => i in manager.memory && manager.memory[i].lockPid == p
      ensures forall i, j | i in manager.memory && j in manager.memory ::
                (manager.memory[i].lockPid > 0 && manager.memory[j].lockPid > 0 ==> i == j)
    {
      forall p | p in manager.kernel.children
        ensures match manager.kernel.children[p].owner
                case JobOf(i) => i in manager.jobs && manager.jobs[i].pid == p
                case DialogOf(i) => i in manager.memory && manager.memory[i].lockPid == p
      {
        match manager.kernel.children[p].owner
        case JobOf(i) => assert manager.jobs[i].Linked();
        case DialogOf(i) => assert manager.memory[i].Linked();
      }
      DialogsAlone(Snap().m);
      forall i | i in manager.memory && manager.memory[i].lockPid > 0 ensures Snap().m.win[i].dialogAlive {
      }
    }

    // ---------- one external event ----------

    ghost function World(): set<object>
      reads manager
    {
      {manager, manager.kernel, manager.locker, dbus, wayland} + manager.memory.Values + manager.jobs.Values
    }

    lemma CanTurn()
      requires Held() && Inv(Snap())
      ensures Ready(true) && Ready(false)
    {
      var m := manager.Snap();
      assert m.win.Keys == manager.memory.Keys && m.jobs.Keys == manager.jobs.Keys;
      if !m.active {
        assert manager.memory.Keys == {} && manager.jobs.Keys == {};
      }
    }

    method RequestUnlock(at: Mon)
      requires Held()
      modifies manager`dialogUp, manager`auth, manager.memory.Values, manager.jobs.Values, manager.kernel
      ensures Held() && SafeWaits()
      ensures Snap() == old(Snap()).(m := SessionModel.RequestUnlock(old(Snap()).m, at))
    {
      manager.RequestUnlock(at);
    }

    method Cycle(starts: map<WinId, bool>)
      requires Held()
      modifies manager`jobs, manager.jobs.Values, manager.kernel
      ensures Held() && SafeWaits()
      ensures Snap() == old(Snap()).(m := SessionModel.Cycle(old(Snap()).m, starts))
    {
      manager.Cycle(starts);
    }

    method SimulateUserActivity(i: Input)
      requires Held()
      modifies manager`dialogUp, manager`auth, manager.memory.Values, manager.jobs.Values, manager.kernel
      ensures Held() && SafeWaits() && Snap() == Step(old(Snap()), SimulateActivity, i)
    {
      RequestUnlock(i.at);
    }

    method CalledForUnlock(e: Event, i: Input)
      requires Held() && (e.ShowMessage? || e.SimulateActivity? || e.PasswordPrompt?)
      modifies manager`dialogUp, manager`auth, manager.memory.Values, manager.jobs.Values, manager.kernel
      ensures Held() && SafeWaits() && Snap() == Step(old(Snap()), e, i)
    {
      match e
      case ShowMessage =>
        if dbus.active && i.p.lockEnabled {
          RequestUnlock(i.at);
        }
      case SimulateActivity =>
        SimulateUserActivity(i);
      case PasswordPrompt =>
        if i.p.lockEnabled {
          RequestUnlock(i.at);
        }
    }

    method CallForSaver(e: Event, i: Input)
      requires Ready(true) && Ready(false) && (e.SetActive? || e.LockCall?)
      modifies World()
      ensures Held() && SafeWaits() && Snap() == Step(old(Snap()), e, i)
    {
      match e
      case SetActive(on) => dbus.ActivateSaver(this, on, i);
      case LockCall => ListenerDbusLock(i);
    }

    method ThrottleCookies(t: map<Cookie, Option<Conn>>, starts: map<WinId, bool>)
      requires Held()
      modifies dbus, manager`throttled, manager.jobs.Values, manager.kernel
      ensures Held() && SafeWaits()
      ensures Snap() == CheckThrottle(old(Snap()).(d := old(Snap()).d.(throttlers := t)), starts)
    {
      dbus.SetThrottlers(this, t);
      dbus.CheckThrottle(this, starts);
    }

    method InhibitCall(c: Cookie, conn: Option<Conn>, i: Input)
      requires Held()
      modifies dbus
      ensures Held() && SafeWaits() && Snap() == Step(old(Snap()), Inhibit(c, conn), i)
    {
      InhibitStepForm(Snap(), c, conn, i);
      if c !in dbus.inhibitors {
        dbus.SetInhibitors(this, dbus.inhibitors[c := conn]);
      }
    }

    method UnInhibitCall(c: Cookie, i: Input)
      requires Held()
      modifies dbus
      ensures Held() && SafeWaits() && Snap() == Step(old(Snap()), UnInhibit(c), i)
    {
      UnInhibitStepForm(Snap(), c, i);
      dbus.SetInhibitors(this, dbus.inhibitors - {c});
    }

    method ThrottleCall(c: Cookie, conn: Option<Conn>, i: Input)
      requires Held()
      modifies World()
      ensures Held() && SafeWaits() && Snap() == Step(old(Snap()), Throttle(c, conn), i)
    {
      ThrottleStepForm(Snap(), c, conn, i);
      if c !in dbus.throttlers {
        ThrottleCookies(dbus.throttlers[c := conn], i.starts);
      }
    }

    method UnThrottleCall(c: Cookie, i: Input)
      requires Held()
      modifies World()
      ensures Held() && SafeWaits() && Snap() == Step(old(Snap()), UnThrottle(c), i)
    {
      UnThrottleStepForm(Snap(), c, i);
      if c in dbus.throttlers {
        ThrottleCookies(dbus.throttlers - {c}, i.starts);
      }
    }

    method NameLostCall(name: Conn, i: Input)
      requires Held() && Agree(Snap())
      modifies World()
      ensures Held() && SafeWaits() && Snap() == Step(old(Snap()), NameLost(name), i)
    {
      NameLostStepForm(Snap(), name, i);
      NameOwnerGone(name, i.starts);
    }

    method CookieCall(e: Event, i: Input)
      requires Held() && Agree(Snap()) && ChangesTables(e)
      modifies World()
      ensures Held() && SafeWaits() && Snap() == Step(old(Snap()), e, i)
    {
      match e
      case Inhibit(c, conn) => InhibitCall(c, conn, i);
      case UnInhibit(c) => UnInhibitCall(c, i);
      case Throttle(c, conn) => ThrottleCall(c, conn, i);
      case UnThrottle(c) => UnThrottleCall(c, i);
      case NameLost(name) => NameLostCall(name, i);
    }

    /** The throttle is checked again only if an entry went; without one the check would change nothing. */
    method DropThrottlers(name: Conn, starts: map<WinId, bool>)
      requires Held() && Agree(Snap())
      modifies dbus, manager`throttled, manager.jobs.Values, manager.kernel
      ensures Held() && SafeWaits()
      ensures var s := old(Snap());
              Snap() == CheckThrottle(s.(d := s.d.(throttlers := WithoutConn(s.d.throttlers, name))), starts)
    {
      var t, removed := GSListenerDBus.RemoveForConnection(dbus.throttlers, name);
      if removed {
        ThrottleCookies(t, starts);
      } else {
        NothingToCheck(Snap(), t, starts);
      }
    }

    method DropInhibitors(name: Conn)
      requires Held()
      modifies dbus
      ensures Held() && SafeWaits()
      ensures Snap() == old(Snap()).(d := old(Snap()).d.(inhibitors := WithoutConn(old(Snap()).d.inhibitors, name)))
    {
      var t, _ := GSListenerDBus.RemoveForConnection(dbus.inhibitors, name);
      dbus.SetInhibitors(this, t);
    }

    /** listener_service_deleted: both tables lose the entries of a connection that closed. */
    method NameOwnerGone(name: Conn, starts: map<WinId, bool>)
      requires Held() && Agree(Snap())
      modifies World()
      ensures Held() && SafeWaits() && Snap() == NameLostIn(old(Snap()), name, starts)
    {
      DropThrottlers(name, starts);
      DropInhibitors(name);
    }

    // the idle listener

    method RearmActivate()
      requires Held()
      modifies wayland`alarms
      ensures Held() && SafeWaits()
      ensures Snap() == old(Snap()).(a := old(Snap()).a.(armed := old(wayland.alarms)[Activate := wayland.timeout]))
    {
      wayland.AlarmAdd(Activate);
    }

    method DropLockAlarm()
      requires Held()
      modifies wayland`alarms
      ensures Held() && SafeWaits()
      ensures Snap() == old(Snap()).(a := old(Snap()).a.(armed := old(wayland.alarms) - {LockLater}))
    {
      wayland.AlarmRemove(LockLater);
    }

    /** notification_idled. */
    method NotificationIdled(alarm: Alarm, i: Input)
      requires Ready(true)
      modifies World()
      ensures Held() && SafeWaits() && Snap() == AlarmIdled(old(Snap()), alarm, i)
    {
      match alarm
      case Activate =>
        if i.p.fullscreenInhibit && i.fullscreen {
          RearmActivate();
        } else if i.p.lockWithSaver && wayland.lockTimeout == 0 {
          ListenerLock(i);
        } else {
          ListenerActivate(i);
        }
      case LockLater =>
        ListenerLock(i);
        DropLockAlarm();
      case Deactivate =>
    }

    method SetTimeouts(on: bool, secs: nat, lockSecs: nat, p: Prefs)
      requires Held()
      modifies wayland
      ensures Held() && SafeWaits() && Snap() == TimeoutsSet(old(Snap()), on, secs, lockSecs, p)
    {
      TimeoutsOnly(Snap(), on, secs, lockSecs, p);
      wayland.SetTimeouts(backend, on, secs, lockSecs, p, Snap());
    }

    /** The signals of the X11 listener. */
    method X11IdleEvent(e: Event, i: Input)
      requires Ready(true) && (e.IdleActivate? || e.IdleLock? || e.IdlePoke?)
      modifies World()
      ensures Held() && SafeWaits() && Snap() == Step(old(Snap()), e, i)
    {
      X11StepForm(Snap(), e, i);
      if backend.X11? {
        if e.IdleActivate? {
          ListenerActivate(i);
        } else if e.IdleLock? {
          ListenerLock(i);
        } else {
          RequestUnlock(i.at);
        }
      }
    }

    method IdledEvent(alarm: Alarm, i: Input)
      requires Ready(true)
      modifies World()
      ensures Held() && SafeWaits() && Snap() == Step(old(Snap()), Idled(alarm), i)
    {
      IdledStepForm(Snap(), alarm, i);
      if alarm in wayland.alarms {
        NotificationIdled(alarm, i);
      }
    }

    method ResumedEvent(alarm: Alarm, i: Input)
      requires Ready(true)
      modifies World()
      ensures Held() && SafeWaits() && Snap() == Step(old(Snap()), Resumed(alarm), i)
    {
      ResumedStepForm(Snap(), alarm, i);
      if alarm in wayland.alarms {
        RequestUnlock(i.at);
      }
    }

    method PreferencesEvent(on: bool, secs: nat, lockSecs: nat, i: Input)
      requires Held()
      modifies World()
      ensures Held() && SafeWaits() && Snap() == Step(old(Snap()), Event.SetTimeouts(on, secs, lockSecs), i)
    {
      SetTimeoutsStepForm(Snap(), on, secs, lockSecs, i);
      SetTimeouts(on, secs, lockSecs, i.p);
    }

    method IdleEvent(e: Event, i: Input)
      requires Ready(true) && FromIdleWatch(e)
      modifies World()
      ensures Held() && SafeWaits() && Snap() == Step(old(Snap()), e, i)
    {
      if e.Idled? {
        IdledEvent(e.alarm, i);
      } else if e.Resumed? {
        ResumedEvent(e.alarm, i);
      } else if e.SetTimeouts? {
        PreferencesEvent(e.on, e.secs, e.lockSecs, i);
      } else {
        X11IdleEvent(e, i);
      }
    }

    // main loop sources

    method LockTimerFires()
      requires Held()
      modifies manager`lockTimer, manager`lockActive, manager.memory.Values
      ensures Held() && SafeWaits()
      ensures Snap() == old(Snap()).(m := SessionModel.EnableLocker(old(Snap()).m, true).(lockTimer := false))
    {
      manager.ActivateLockTimeout();
    }

    method PopupIdleFires(w: WinId, refused: bool, spawned: bool, starts: map<WinId, bool>)
      requires Held() && w in manager.memory && manager.memory[w].lockPid == 0
      modifies manager`dialogUp, manager`auth, manager.memory.Values, manager.jobs.Values, manager.kernel
      ensures Held() && SafeWaits()
      ensures Snap() == old(Snap()).(m := PopupDialog(old(Snap()).m, w, refused, spawned, starts))
    {
      manager.memory[w].PopupDialogIdle(manager, refused, spawned, starts);
    }

    method DeactivatedIdleFires(w: WinId)
      requires Held() && w in manager.memory && manager.memory[w].deactivatedIdle.Some?
      modifies manager`deactivatedIdles, manager.memory.Values
      ensures Held() && SafeWaits()
      ensures Snap() == old(Snap()).(m := EmitDeactivated(old(Snap()).m, w))
    {
      manager.memory[w].EmitDeactivatedIdle(manager);
    }

    method DialogWatchFires(w: WinId, o: Output, starts: map<WinId, bool>)
      requires Held() && w in manager.memory && manager.memory[w].lockWatch
      modifies manager`dialogUp, manager`auth, manager.memory.Values, manager.jobs.Values, manager.kernel
      ensures Held() && SafeWaits()
      ensures Snap() == old(Snap()).(m := DialogSays(old(Snap()).m, w, o, starts))
    {
      manager.memory[w].DialogProcessWatch(manager, o, starts);
    }

    method JobWatchFires(w: WinId)
      requires Held() && w in manager.jobs && manager.jobs[w].watch
      modifies manager.jobs.Values, manager.kernel
      ensures Held() && Waits(Suspended(old(manager.jobs[w].Value())))
      ensures var js := old(manager.JobValues());
              Snap() == old(Snap()).(m := old(Snap()).m.(jobs := js[w := JobWatchEnds(js[w])]))
    {
      manager.JobOutputEnds(w);
    }

    method TakeIdle()
      requires Held() && manager.deactivatedIdles != []
      modifies manager`deactivatedIdles, manager`ended
      ensures Held() && SafeWaits() && manager.active == old(manager.active)
      ensures manager.windows == old(manager.windows) && manager.memory == old(manager.memory)
      ensures manager.WinValues() == old(manager.WinValues())
      ensures Snap() == old(Snap()).(m := Popped(old(Snap()).m))
    {
      manager.TakeDeactivatedIdle();
      assert manager.WinValues() == manager.Snap().win;
    }

    /** window_deactivated_idle. */
    method ManagerIdleFires(i: Input)
      requires Ready(false) && manager.deactivatedIdles != []
      modifies World()
      ensures Held() && SafeWaits()
      ensures Snap() == SessionModel.DeactivateManager(old(Snap()).(m := Popped(old(Snap()).m)))
    {
      TakeIdle();
      DeactivateManager(i);
    }

    method PopupSource(w: WinId, i: Input)
      requires Held()
      requires w in manager.memory && manager.memory[w].popupDialogIdle ==> manager.memory[w].lockPid == 0
      modifies World()
      ensures Held() && SafeWaits() && Snap() == Step(old(Snap()), PopupIdle(w), i)
    {
      PopupStepForm(Snap(), w, i);
      if w in manager.memory && manager.memory[w].popupDialogIdle {
        PopupIdleFires(w, backend.Wayland? && !i.windowActive, i.dialogStarts, i.starts);
      }
    }

    method DeactivatedSource(w: WinId, i: Input)
      requires Held()
      modifies World()
      ensures Held() && SafeWaits() && Snap() == Step(old(Snap()), DeactivatedIdle(w), i)
    {
      DeactivatedStepForm(Snap(), w, i);
      if w in manager.memory {
        if manager.memory[w].deactivatedIdle.Some? {
          DeactivatedIdleFires(w);
        }
      }
    }

    method DialogSource(w: WinId, o: Output, i: Input)
      requires Held()
      modifies World()
      ensures Held() && SafeWaits() && Snap() == Step(old(Snap()), DialogOutput(w, o), i)
    {
      DialogStepForm(Snap(), w, o, i);
      if w in manager.memory {
        if manager.memory[w].lockWatch {
          DialogWatchFires(w, o, i.starts);
        }
      }
    }

    method TimerSource(e: Event, i: Input)
      requires Held() && (e.LockTimeout? || e.CycleTimeout?)
      modifies World()
      ensures Held() && SafeWaits() && Snap() == Step(old(Snap()), e, i)
    {
      TimerStepForm(Snap(), e, i);
      if e.LockTimeout? {
        if manager.lockTimer {
          LockTimerFires();
        }
      } else if manager.cycleTimer {
        Cycle(i.starts);
      }
    }

    method ManagerIdleSource(i: Input)
      requires Ready(false)
      modifies World()
      ensures Held() && SafeWaits() && Snap() == Step(old(Snap()), ManagerIdle, i)
    {
      ManagerIdleStepForm(Snap(), i);
      if manager.deactivatedIdles != [] {
        ManagerIdleFires(i);
      }
    }

    method ManagerSource(e: Event, i: Input)
      requires Ready(false) && (e.LockTimeout? || e.CycleTimeout? || e.ManagerIdle?)
      modifies World()
      ensures Held() && SafeWaits() && Snap() == Step(old(Snap()), e, i)
    {
      if e.ManagerIdle? {
        ManagerIdleSource(i);
      } else {
        TimerSource(e, i);
      }
    }

    /** The one source that may wait for a stopped child: its stderr can end before it does. */
    method JobSource(w: WinId, i: Input)
      requires Held()
      modifies World()
      ensures Held() && Snap() == Step(old(Snap()), JobOutputEnds(w), i)
      ensures Waits(WaitsForStopped(old(Snap()).m, JobOutputEnds(w)))
    {
      JobStepForm(Snap(), w, i);
      if w in manager.jobs {
        if manager.jobs[w].watch {
          JobWatchFires(w);
        }
      }
    }

    // the display

    method MapEvent(w: WinId, starts: map<WinId, bool>)
      requires Held() && w in manager.memory
      modifies manager.jobs.Values, manager.kernel
      ensures Held() && SafeWaits()
      ensures Snap() == old(Snap()).(m := MaybeStartIn(old(Snap()).m, w, starts))
    {
      manager.StartJobIn(w, starts);
    }

    method VisibilityEvent(w: WinId, hidden: bool, starts: map<WinId, bool>)
      requires Held() && w in manager.memory
      modifies manager.memory.Values, manager.jobs.Values, manager.kernel
      ensures Held() && SafeWaits()
      ensures Snap() == old(Snap()).(m := SetObscured(old(Snap()).m, w, hidden, starts))
    {
      manager.memory[w].SetObscured(manager, hidden, starts);
    }

    method MonitorsChange(now: seq<Mon>)
      requires Held()
      modifies this`monitors
      ensures Held() && SafeWaits() && Snap() == old(Snap()).(monitors := now)
    {
      monitors := now;
    }

    /** on_display_monitor_added and on_display_monitor_removed. */
    method MonitorsChanged(i: Input)
      requires Ready(false) && manager.active
      modifies World()
      ensures Held() && SafeWaits() && Snap() == RecreateWindows(old(Snap()), i.p)
    {
      ghost var s := Snap();
      RecreatesOnly(s, i.p);
      manager.RecreateWindows(i.p, s, monitors);
    }

    method Hotplugged(now: seq<Mon>, i: Input)
      requires Ready(false) && (manager.monitorHandlers > 0 ==> manager.active)
      modifies this`monitors, World()
      ensures Held() && SafeWaits() && Snap() == Step(old(Snap()), Hotplug(now), i)
    {
      HotplugStepForm(Snap(), now, i);
      if NoDup(now) {
        MonitorsChange(now);
        if manager.monitorHandlers > 0 {
          MonitorsChanged(i);
        }
      }
    }

    method LockEventArrives(ev: LockEvent)
      requires Held()
      modifies manager.locker
      ensures Held() && SafeWaits() && Snap() == old(Snap()).(k := LockSays(old(Snap()).k, ev))
    {
      manager.locker.Event(ev);
    }

    method MappedEvent(w: WinId, i: Input)
      requires Held()
      modifies World()
      ensures Held() && SafeWaits() && Snap() == Step(old(Snap()), Mapped(w), i)
    {
      MappedStepForm(Snap(), w, i);
      if w in manager.memory {
        MapEvent(w, i.starts);
      }
    }

    method ObscuredEvent(w: WinId, hidden: bool, i: Input)
      requires Held()
      modifies World()
      ensures Held() && SafeWaits() && Snap() == Step(old(Snap()), Visibility(w, hidden), i)
    {
      VisibilityStepForm(Snap(), w, hidden, i);
      if w in manager.memory {
        VisibilityEvent(w, hidden, i.starts);
      }
    }

    method ActivityEvent(w: WinId, i: Input)
      requires Held()
      modifies World()
      ensures Held() && SafeWaits() && Snap() == Step(old(Snap()), Activity(w), i)
    {
      ActivityStepForm(Snap(), w, i);
      if w in manager.memory {
        if manager.memory[w].sensitive {
          RequestUnlock(i.at);
        }
      }
    }

    lemma SourcesFit()
      requires Held() && Inv(Snap())
      ensures forall w :: w in manager.memory && manager.memory[w].popupDialogIdle ==> manager.memory[w].lockPid == 0
      ensures manager.monitorHandlers > 0 ==> manager.active
    {
      var m := manager.Snap();
      forall w | w in manager.memory && manager.memory[w].popupDialogIdle ensures manager.memory[w].lockPid == 0 {
        assert m.win[w] == manager.memory[w].Value();
        assert WinOk(m.win[w]);
      }
    }

    method BusEvent(e: Event, i: Input)
      requires Ready(true) && Ready(false) && Agree(Snap()) && FromBus(e)
      modifies World()
      ensures Held() && SafeWaits() && Snap() == Step(old(Snap()), e, i)
    {
      if e.SetActive? || e.LockCall? {
        CallForSaver(e, i);
      } else if e.CycleCall? {
        Cycle(i.starts);
      } else if ChangesTables(e) {
        CookieCall(e, i);
      } else {
        CalledForUnlock(e, i);
      }
    }

    method SourceEvent(e: Event, i: Input)
      requires Ready(false) && FromSource(e) && !e.JobOutputEnds?
      requires forall w :: w in manager.memory && manager.memory[w].popupDialogIdle ==> manager.memory[w].lockPid == 0
      modifies World()
      ensures Held() && SafeWaits() && Snap() == Step(old(Snap()), e, i)
    {
      if e.PopupIdle? {
        PopupSource(e.win, i);
      } else if e.DeactivatedIdle? {
        DeactivatedSource(e.win, i);
      } else if e.DialogOutput? {
        DialogSource(e.win, e.out, i);
      } else {
        ManagerSource(e, i);
      }
    }

    method DisplayEvent(e: Event, i: Input)
      requires Ready(false) && (manager.monitorHandlers > 0 ==> manager.active)
      requires !FromBus(e) && !FromIdleWatch(e) && !FromSource(e)
      modifies this`monitors, World()
      ensures Held() && SafeWaits() && Snap() == Step(old(Snap()), e, i)
    {
      if e.Mapped? {
        MappedEvent(e.win, i);
      } else if e.Visibility? {
        ObscuredEvent(e.win, e.hidden, i);
      } else if e.Activity? {
        ActivityEvent(e.win, i);
      } else if e.Hotplug? {
        Hotplugged(e.now, i);
      } else {
        LockEventArrives(e.ev);
      }
    }

    method Dispatch(e: Event, i: Input)
      requires Ready(true) && Ready(false) && Agree(Snap()) && (manager.monitorHandlers > 0 ==> manager.active)
      requires forall w :: w in manager.memory && manager.memory[w].popupDialogIdle ==> manager.memory[w].lockPid == 0
      modifies this`monitors, World()
      ensures Held() && Snap() == Step(old(Snap()), e, i)
      ensures Waits(WaitsForStopped(old(Snap()).m, e))
    {
      if FromBus(e) {
        BusEvent(e, i);
      } else if FromIdleWatch(e) {
        IdleEvent(e, i);
      } else if e.JobOutputEnds? {
        JobSource(e.win, i);
      } else if FromSource(e) {
        SourceEvent(e, i);
      } else {
        DisplayEvent(e, i);
      }
    }

    /** Any external event: the objects end in the state Step computes, the session invariant holds
        again, and a child is waited for while SIGSTOP keeps it from exiting exactly when the watched
        output of a suspended saver ended. */
    method Handle(e: Event, i: Input)
      requires Held() && Inv(Snap())
      modifies this`monitors, World()
      ensures Held() && Inv(Snap()) && Snap() == Step(old(Snap()), e, i)
      ensures Waits(WaitsForStopped(old(Snap()).m, e))
    {
      CanTurn();
      SourcesFit();
      ghost var s := Snap();
      Dispatch(e, i);
      StepKeeps(s, e, i);
    }
  }

  lemma DialogsAlone(m: Manager)
    requires ManagerOk(m)
    ensures forall i, j :: i in m.win && j in m.win && m.win[i].dialogAlive && m.win[j].dialogAlive ==> i == j
  {
  }

  lemma NothingToCheck(s: State, t: map<Cookie, Option<Conn>>, starts: map<WinId, bool>)
    requires Agree(s) && t == s.d.throttlers
    ensures CheckThrottle(s.(d := s.d.(throttlers := t)), starts) == s
  {
  }

  lemma RecreatesOnly(s: State, p: Prefs)
    ensures RecreateWindows(s, p) == s.(m := RecreateWindows(s, p).m, k := RecreateWindows(s, p).k)
  {
    CreatesOnly(s.(m := DestroyWindows(s.m), k := RemoveSurfaces(s.k, s.m.table.Values)), s.monitors, p);
  }

  lemma TimeoutsOnly(s: State, on: bool, secs: nat, lockSecs: nat, p: Prefs)
    ensures TimeoutsSet(s, on, secs, lockSecs, p) == s.(a := TimeoutsSet(s, on, secs, lockSecs, p).a)
  {
  }

  lemma CreatesOnly(s: State, mons: seq<Mon>, p: Prefs)
    ensures OnlyWindows(s, CreateWindows(s, mons, p))
  {
    if mons != [] {
      CreatesOnly(s, mons[..|mons| - 1], p);
      CreateOnly(CreateWindows(s, mons[..|mons| - 1], p), mons[|mons| - 1], p);
      OnlyTransitive(s, CreateWindows(s, mons[..|mons| - 1], p), CreateWindows(s, mons, p));
    }
  }

  lemma DeactivateForm(s: State, i: Input)
    ensures SessionModel.DeactivateManager(s) ==
              if !s.m.active then s
              else DbusActivate(s.(m := Emptied(s.m), k := LockerGivenUp(s.backend, s.k, s.m.table.Values),
                                   a := AlarmsAfterDeactivated(s.backend, s.a)), false, i)
  {
  }

  lemma LockActiveForm(s: State, i: Input)
    requires s.m.active
    ensures ListenerLock(s, i) == LockWhileActive(s, i.p)
  {
  }
}
