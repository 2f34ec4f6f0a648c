/** Small definitions every module shares. */
module Basics {
  datatype Option<+T> = None | Some(value: T)

  /** C integer division by a positive number: towards zero. */
  function Quotient(a: int, b: int): (q: int)
    requires b > 0
    ensures a >= 0 ==> q * b <= a < q * b + b
    ensures a < 0 ==> q * b - b < a <= q * b
  {
    if a >= 0 then a / b else -(-a / b)
  }

  /** C conversion of a double to an integer: towards zero. */
  function Truncated(x: real): (i: int)
    ensures x >= 0.0 ==> i as real <= x < i as real + 1.0
    ensures x < 0.0 ==> i as real - 1.0 < x <= i as real
  {
    if x >= 0.0 then x.Floor else -(-x).Floor
  }
}

/**
 The screensaver session as a value: the manager with its windows and jobs, the D-Bus listener,
 the Wayland idle alarms and the Wayland session lock.

 The functions say what each entry point of the program does to that value once every signal it
 emits has been handled.  They contain no signals and no recursion; the classes in SessionProcesses,
 SessionWindows and SessionWiring follow the program's call structure and are proved to compute
 exactly these functions.
 */
module SessionModel {
  import opened Basics

  // ---------- entities ----------

  type Mon = int      // a GdkMonitor
  type WinId = nat    // a GSWindow pointer; never reused
  type Cookie = nat
  type Conn = string  // a D-Bus connection name

  datatype JobStatus = Invalid | Running | Stopped | Killed | Dead

  /** A saver job: whether its child lives, the recorded status, whether stderr is watched. */
  datatype Job = Job(alive: bool, status: JobStatus, watch: bool)

  const NEW_JOB := Job(false, Invalid, false)

  predicate Executing(j: Job) {
    j.alive && j.status == Running
  }

  predicate Suspended(j: Job) {
    j.alive && j.status == Stopped
  }

  /** How a dialog's output stream made the window finish the dialog. */
  datatype Ending = OkLine | CancelLine | AtEof | AtError | AtHangUp

  /** What scheduled the "deactivated" signal of a window (history). */
  datatype Cause =
    | DialogEnded(win: WinId, how: Ending)
    | OpenRequest(win: WinId, locked: bool)

  datatype Win = Win(
    lockActive: bool, obscured: bool, visible: bool, sensitive: bool,
    dialogUp: bool, popupIdle: bool, dialogAlive: bool, dialogWatch: bool,
    responseOk: bool, deactIdle: Option<Cause>)

  function NewWin(lockActive: bool): Win {
    Win(lockActive, false, false, true, false, false, false, false, false, None)
  }

  datatype Auth = Begin | End

  datatype Manager = Manager(
    active: bool, lockActive: bool, dialogUp: bool, throttled: bool,
    lockTimer: bool, cycleTimer: bool, handlers: nat,
    table: map<Mon, WinId>,     // the windows hash table
    win: map<WinId, Win>,       // the windows that exist
    jobs: map<WinId, Job>,
    nextWin: WinId,
    idles: seq<Cause>,          // queued window_deactivated_idle sources
    auth: seq<Auth>,            // auth-request signals emitted so far (history)
    ended: seq<Cause>)          // deactivations started by a window (history)

  datatype Dbus = Dbus(
    active: bool, throttled: bool,
    inhibitors: map<Cookie, Option<Conn>>, throttlers: map<Cookie, Option<Conn>>,
    sent: seq<bool>)            // ActiveChanged broadcasts (history)

  datatype Alarm = Activate | LockLater | Deactivate

  datatype Alarms = Alarms(armed: map<Alarm, nat>, enabled: bool, timeout: nat, lockTimeout: nat)

  datatype LockEvent = Locked | Finished
  datatype LockRequest = UnlockAndDestroy | Destroy
  datatype LockEnd = LockEnd(lock: nat, how: LockRequest)

  datatype Locker = Locker(
    cur: Option<nat>, locked: bool, surfaces: set<WinId>,
    next: nat,
    received: set<nat>,         // locks on which the locked event arrived (history)
    ended: seq<LockEnd>)        // lock objects given up, in order (history)

  /** The windowing system, fixed for the life of the process. */
  datatype Backend = X11 | Wayland(notifier: bool, compositor: bool, lockManager: bool)

  datatype State = State(
    backend: Backend, monitors: seq<Mon>,
    m: Manager, d: Dbus, a: Alarms, k: Locker)

  // ---------- inputs ----------

  datatype Prefs = Prefs(
    lockEnabled: bool, lockWithSaver: bool, lockTimeout: nat, random: bool, fullscreenInhibit: bool)

  /**
   Everything a step reads from outside.  A window in starts has a saver command that can be
   spawned now; the value says whether its stderr is watched.  at is the monitor of the window
   find_window_at_pointer picks.
   */
  datatype Input = Input(
    p: Prefs, starts: map<WinId, bool>, at: Mon,
    grabOk: bool, lockEvents: seq<LockEvent>,
    windowActive: bool, dialogStarts: bool, fullscreen: bool)

  datatype Output = Line(text: string) | Eof | ReadError | Again | HangUp | OtherCondition

  datatype Event =
    // D-Bus
    | SetActive(on: bool) | LockCall | CycleCall | ShowMessage | SimulateActivity | PasswordPrompt
    | Inhibit(cookie: Cookie, conn: Option<Conn>) | UnInhibit(cookie: Cookie)
    | Throttle(cookie: Cookie, conn: Option<Conn>) | UnThrottle(cookie: Cookie)
    | NameLost(name: Conn)
    // idle detection
    | IdleActivate | IdleLock | IdlePoke
    | Idled(alarm: Alarm) | Resumed(alarm: Alarm) | SetTimeouts(on: bool, secs: nat, lockSecs: nat)
    // main loop sources
    | LockTimeout | CycleTimeout | PopupIdle(win: WinId) | DeactivatedIdle(win: WinId) | ManagerIdle
    | DialogOutput(win: WinId, out: Output) | JobOutputEnds(win: WinId)
    // display
    | Mapped(win: WinId) | Visibility(win: WinId, hidden: bool) | Activity(win: WinId)
    | Hotplug(now: seq<Mon>) | SessionLock(ev: LockEvent)

  predicate NoDup<T(==)>(s: seq<T>) {
    forall i, j :: 0 <= i < j < |s| ==> s[i] != s[j]
  }

  // ---------- jobs ----------

  function StopJob(j: Job): Job {
    if j.alive then Job(false, Dead, false) else j
  }

  function SuspendJob(j: Job, suspend: bool): Job {
    if j.alive then j.(status := if suspend then Stopped else Running) else j
  }

  function StartJob(j: Job, id: WinId, starts: map<WinId, bool>): Job {
    if j.alive || id !in starts then j else Job(true, Running, starts[id])
  }

  /** command_watch at end of file or hang-up: the child is waited for. */
  function JobWatchEnds(j: Job): Job {
    if j.watch then Job(false, if j.alive then Dead else j.status, false) else j
  }

  // ---------- manager ----------

  predicate Hidden(win: map<WinId, Win>, id: WinId) {
    id in win && win[id].obscured
  }

  /** No job may be started: a dialog is up or the session is throttled. */
  predicate Quiet(m: Manager) {
    m.dialogUp || m.throttled
  }

  function MaybeStart(win: map<WinId, Win>, id: WinId, j: Job, starts: map<WinId, bool>): Job {
    if j.alive || Hidden(win, id) then j else StartJob(j, id, starts)
  }

  /** manager_maybe_start_job_for_window. */
  function MaybeStartIn(m: Manager, id: WinId, starts: map<WinId, bool>): Manager {
    if id !in m.jobs || Quiet(m) then m
    else m.(jobs := m.jobs[id := MaybeStart(m.win, id, m.jobs[id], starts)])
  }

  function MaybeStopIn(m: Manager, id: WinId): Manager {
    if id in m.jobs then m.(jobs := m.jobs[id := StopJob(m.jobs[id])]) else m
  }

  function ResumeJob(win: map<WinId, Win>, id: WinId, j: Job, starts: map<WinId, bool>): Job {
    if j.alive then SuspendJob(j, false) else MaybeStart(win, id, j, starts)
  }

  // what the loops over the two hash tables do

  function StopAll(jobs: map<WinId, Job>): map<WinId, Job> {
    map i | i in jobs :: StopJob(jobs[i])
  }

  function SuspendAll(jobs: map<WinId, Job>): map<WinId, Job> {
    map i | i in jobs :: SuspendJob(jobs[i], true)
  }

  function StartAll(win: map<WinId, Win>, jobs: map<WinId, Job>, starts: map<WinId, bool>): map<WinId, Job> {
    map i | i in jobs :: MaybeStart(win, i, jobs[i], starts)
  }

  function ResumeAll(win: map<WinId, Win>, jobs: map<WinId, Job>, starts: map<WinId, bool>): map<WinId, Job> {
    map i | i in jobs :: ResumeJob(win, i, jobs[i], starts)
  }

  function RenewAll(win: map<WinId, Win>, jobs: map<WinId, Job>, starts: map<WinId, bool>): map<WinId, Job> {
    map i | i in jobs :: MaybeStart(win, i, NEW_JOB, starts)
  }

  function LockAll(win: map<WinId, Win>, ids: set<WinId>, on: bool): map<WinId, Win> {
    map i | i in win :: if i in ids then win[i].(lockActive := on) else win[i]
  }

  function Sensitize(win: map<WinId, Win>, ids: set<WinId>): map<WinId, Win> {
    map i | i in win :: if i in ids then win[i].(sensitive := true) else win[i]
  }

  function Desensitize(win: map<WinId, Win>, ids: set<WinId>): map<WinId, Win> {
    map i | i in win :: if i in ids then win[i].(sensitive := false) else win[i]
  }

  function ShowAll(win: map<WinId, Win>, ids: set<WinId>): map<WinId, Win> {
    map i | i in win :: if i in ids then win[i].(visible := true) else win[i]
  }

  function AddJobs(jobs: map<WinId, Job>, ids: set<WinId>): map<WinId, Job> {
    map i | i in jobs.Keys + ids :: if i in ids then NEW_JOB else jobs[i]
  }

  function SetThrottled(m: Manager, on: bool, starts: map<WinId, bool>): Manager {
    if m.throttled == on then m else
    m.(throttled := on,
       jobs := if m.dialogUp then m.jobs
               else if on then StopAll(m.jobs)
               else StartAll(m.win, m.jobs, starts))
  }

  function EnableLocker(m: Manager, on: bool): Manager {
    m.(lockActive := on, win := LockAll(m.win, m.table.Values, on))
  }

  function Cycle(m: Manager, starts: map<WinId, bool>): Manager {
    if !m.active || Quiet(m) then m
    else m.(jobs := RenewAll(m.win, m.jobs, starts))
  }

  function DialogUp(m: Manager, id: WinId): Manager {
    m.(dialogUp := true,
       auth := m.auth + [Begin],
       win := Desensitize(m.win, m.table.Values - {id}),
       jobs := if m.throttled then m.jobs else SuspendAll(m.jobs))
  }

  function DialogDown(m: Manager, starts: map<WinId, bool>): Manager {
    m.(dialogUp := false,
       auth := m.auth + [End],
       win := Sensitize(m.win, m.table.Values),
       jobs := if m.throttled then m.jobs else ResumeAll(m.win, m.jobs, starts))
  }

  // ---------- windows ----------

  function SetDialogUp(m: Manager, id: WinId, up: bool, starts: map<WinId, bool>): Manager
    requires id in m.win
  {
    if m.win[id].dialogUp == up then m else
    var m1 := m.(win := m.win[id := m.win[id].(dialogUp := up)]);
    if up then DialogUp(m1, id) else DialogDown(m1, starts)
  }

  function PopdownDialog(m: Manager, id: WinId, starts: map<WinId, bool>): Manager
    requires id in m.win
  {
    var m1 := m.(win := m.win[id := m.win[id].(dialogAlive := false)]);
    var m2 := SetDialogUp(m1, id, false, starts);
    m2.(win := m2.win[id := m2.win[id].(popupIdle := false, dialogWatch := false)])
  }

  function WindowRequestUnlock(m: Manager, id: WinId): Manager
    requires id in m.win
  {
    var w := m.win[id];
    if !w.visible || w.dialogWatch then m
    else if !w.lockActive then
      m.(win := m.win[id := w.(deactIdle := Some(OpenRequest(id, w.lockActive)))])
    else
      SetDialogUp(m.(win := m.win[id := w.(popupIdle := true)]), id, true, map[])
  }

  predicate At(line: string, i: nat, sub: string) {
    i + |sub| <= |line| && line[i..i + |sub|] == sub
  }

  /** strstr (line, sub) != NULL. */
  predicate Contains(line: string, sub: string) {
    exists i: nat | i <= |line| :: At(line, i, sub)
  }

  datatype LineKind = WindowLine | NoticeLine | OkResponse | OtherResponse | QuitRequest | NoiseLine

  function Classify(line: string): LineKind {
    if Contains(line, "WINDOW ID=") then WindowLine
    else if Contains(line, "NOTICE=") then NoticeLine
    else if Contains(line, "RESPONSE=") then
      if Contains(line, "RESPONSE=OK") then OkResponse else OtherResponse
    else if Contains(line, "REQUEST QUIT") then QuitRequest
    else NoiseLine
  }

  /** The ending a piece of dialog output stands for, if it finishes the dialog. */
  function EndingOf(o: Output): Option<Ending> {
    match o
    case Line(text) =>
      (match Classify(text)
       case OkResponse => Some(OkLine)
       case OtherResponse => Some(CancelLine)
       case _ => None)
    case Eof => Some(AtEof)
    case ReadError => Some(AtError)
    case HangUp => Some(AtHangUp)
    case _ => None
  }

  lemma ContainsPart(line: string, sub: string, part: string)
    requires Contains(line, sub) && part <= sub
    ensures Contains(line, part)
  {
    var i: nat :| i <= |line| && At(line, i, sub);
    assert line[i..i + |part|] == line[i..i + |sub|][..|part|];
    assert At(line, i, part);
  }

  /** A line in which no word is found that the program looks for before the response. */
  predicate Plain(line: string) {
    !Contains(line, "WINDOW ID=") && !Contains(line, "NOTICE=")
  }

  /** What each ending means: OK is a plain line with RESPONSE=OK in it, wherever and whatever else it
      contains; any other plain line with RESPONSE= cancels; no other line finishes the dialog. */
  lemma EndingMeans(o: Output)
    ensures EndingOf(o) == Some(OkLine) <==> o.Line? && Plain(o.text) && Contains(o.text, "RESPONSE=OK")
    ensures EndingOf(o) == Some(CancelLine) <==>
              o.Line? && Plain(o.text) && Contains(o.text, "RESPONSE=") && !Contains(o.text, "RESPONSE=OK")
    ensures EndingOf(o).None? <==>
              o.Again? || o.OtherCondition? || (o.Line? && (Plain(o.text) ==> !Contains(o.text, "RESPONSE=")))
  {
    if o.Line? && Contains(o.text, "RESPONSE=OK") {
      ContainsPart(o.text, "RESPONSE=OK", "RESPONSE=");
    }
  }

  /** A response line sets the answer; nothing else does, and nothing resets it. */
  function Answered(m: Manager, id: WinId, e: Ending): Manager
    requires id in m.win
  {
    if e == OkLine || e == CancelLine then m.(win := m.win[id := m.win[id].(responseOk := e == OkLine)]) else m
  }

  /** The end of dialog_process_watch, once the dialog finished. */
  function DialogFinished(m: Manager, id: WinId, e: Ending, starts: map<WinId, bool>): Manager
    requires id in m.win
  {
    if m.win[id].responseOk then
      m.(win := m.win[id := m.win[id].(deactIdle := Some(DialogEnded(id, e)), dialogWatch := false)])
    else PopdownDialog(m, id, starts)
  }

  /** dialog_process_watch. */
  function DialogSays(m: Manager, id: WinId, o: Output, starts: map<WinId, bool>): Manager
    requires id in m.win
  {
    match EndingOf(o)
    case None => m
    case Some(e) => DialogFinished(Answered(m, id, e), id, e, starts)
  }

  /** popup_dialog_idle. */
  function PopupDialog(m: Manager, id: WinId, refused: bool, spawned: bool, starts: map<WinId, bool>): Manager
    requires id in m.win
  {
    if refused then PopdownDialog(m, id, starts)
    else if spawned then
      m.(win := m.win[id := m.win[id].(popupIdle := false, dialogAlive := true, dialogWatch := true)])
    else
      m.(win := m.win[id := m.win[id].(popupIdle := false)])
  }

  function EmitDeactivated(m: Manager, id: WinId): Manager
    requires id in m.win
  {
    match m.win[id].deactIdle
    case None => m
    case Some(c) => m.(idles := m.idles + [c], win := m.win[id := m.win[id].(deactIdle := None)])
  }

  /** One queued window_deactivated_idle source leaves the main loop. */
  function Popped(m: Manager): Manager
    requires m.idles != []
  {
    m.(idles := m.idles[1..], ended := if m.active then m.ended + [m.idles[0]] else m.ended)
  }

  function RequestUnlock(m: Manager, at: Mon): Manager {
    if !m.active || m.dialogUp || at !in m.table || m.table[at] !in m.win then m
    else WindowRequestUnlock(m, m.table[at])
  }

  function SetObscured(m: Manager, id: WinId, hidden: bool, starts: map<WinId, bool>): Manager
    requires id in m.win
  {
    if m.win[id].obscured == hidden then m else
    var m1 := m.(win := m.win[id := m.win[id].(obscured := hidden)]);
    if hidden then MaybeStopIn(m1, id) else MaybeStartIn(m1, id, starts)
  }

  // ---------- creating, showing and destroying windows ----------

  predicate LocksAtOnce(p: Prefs) {
    p.lockEnabled && p.lockWithSaver && p.lockTimeout == 0
  }

  /** The manager after the windows in ids were shown, in any order. */
  function ShowWindows(m: Manager, ids: set<WinId>, p: Prefs): Manager {
    if ids == {} then m else
    var m1 := if LocksAtOnce(p) && !m.lockActive then EnableLocker(m, true) else m;
    m1.(jobs := AddJobs(m.jobs, ids),
        win := ShowAll(m1.win, ids),
        lockTimer := p.lockEnabled && p.lockWithSaver && !m1.lockActive,
        cycleTimer := m.cycleTimer || p.random)
  }

  function AddWindow(m: Manager, mon: Mon): Manager {
    m.(table := m.table[mon := m.nextWin],
       win := m.win[m.nextWin := NewWin(m.lockActive)],
       nextWin := m.nextWin + 1)
  }

  function CreateWindow(s: State, mon: Mon, p: Prefs): State {
    var id := s.m.nextWin;
    var m1 := AddWindow(s.m, mon);
    if s.m.active then
      s.(m := ShowWindows(m1, {id}, p),
         k := if s.k.cur.Some? then s.k.(surfaces := s.k.surfaces + {id}) else s.k)
    else s.(m := m1)
  }

  function CreateWindows(s: State, mons: seq<Mon>, p: Prefs): State {
    if mons == [] then s
    else CreateWindow(CreateWindows(s, mons[..|mons| - 1], p), mons[|mons| - 1], p)
  }

  predicate SomeDialog(m: Manager) {
    exists i | i in m.win :: m.win[i].dialogUp
  }

  /** Both hash tables emptied: every job stopped, every window destroyed, its dialog ended. */
  function DestroyWindows(m: Manager): Manager {
    m.(jobs := map[], table := map[], win := map[],
       dialogUp := if SomeDialog(m) then false else m.dialogUp,
       auth := if SomeDialog(m) then m.auth + [End] else m.auth)
  }

  function RemoveSurfaces(k: Locker, ids: set<WinId>): Locker {
    if k.cur.Some? then k.(surfaces := k.surfaces - ids) else k
  }

  function RecreateWindows(s: State, p: Prefs): State {
    var s1 := s.(m := DestroyWindows(s.m), k := RemoveSurfaces(s.k, s.m.table.Values));
    CreateWindows(s1, s.monitors, p)
  }

  // ---------- the session lock ----------

  function Unlock(k: Locker): Locker {
    match k.cur
    case None => k
    case Some(l) =>
      k.(cur := None, locked := false, surfaces := {},
         ended := k.ended + [LockEnd(l, if k.locked then UnlockAndDestroy else Destroy)])
  }

  function LockSays(k: Locker, ev: LockEvent): Locker {
    match (k.cur, ev)
    case (None, _) => k
    case (Some(l), Locked) => k.(locked := true, received := k.received + {l})
    case (Some(l), Finished) => Unlock(k)
  }

  function LockSaysAll(k: Locker, evs: seq<LockEvent>): Locker {
    if evs == [] then k else LockSays(LockSaysAll(k, evs[..|evs| - 1]), evs[|evs| - 1])
  }

  /** gs_session_lock_manager_lock with the events its roundtrip delivers. */
  function TakeLock(k: Locker, evs: seq<LockEvent>): Locker {
    if k.cur.Some? then k else LockSaysAll(k.(cur := Some(k.next), next := k.next + 1), evs)
  }

  // ---------- activation ----------

  predicate CanTryLock(b: Backend, k: Locker) {
    b.Wayland? && b.compositor && b.lockManager && k.cur.None?
  }

  /** Whether gs_manager_activate gets past the grab or the session lock. */
  predicate CanActivate(s: State, i: Input) {
    match s.backend
    case X11 => i.grabOk
    case Wayland(_, _, _) => CanTryLock(s.backend, s.k) && TakeLock(s.k, i.lockEvents).cur.Some?
  }

  function LockerAfterTry(s: State, i: Input): Locker {
    if CanTryLock(s.backend, s.k) then TakeLock(s.k, i.lockEvents) else s.k
  }

  predicate Listening(b: Backend) {
    b.Wayland? && b.notifier
  }

  /** The listener's flag catching up with a manager that is already active. */
  function NoteActive(d: Dbus, on: bool): Dbus {
    if d.active == on then d else d.(active := on, sent := d.sent + [on])
  }

  /** The "lock" signal of the idle listener, emitted while the manager is active. */
  function LockWhileActive(s: State, p: Prefs): State {
    if s.d.inhibitors != map[] || !p.lockEnabled then s
    else s.(m := EnableLocker(s.m, true), d := NoteActive(s.d, true))
  }

  /** The Wayland listener's reaction to "activated". */
  function AfterActivated(s: State, p: Prefs): State {
    if !Listening(s.backend) then s else
    var s1 :=
      if !p.lockWithSaver then s
      else if s.a.lockTimeout == 0 then LockWhileActive(s, p)
      else s.(a := s.a.(armed := s.a.armed[LockLater := s.a.lockTimeout]));
    s1.(a := s1.a.(armed := (s1.a.armed - {Activate})[Deactivate := 0]))
  }

  function BecomeActive(s: State, i: Input): State {
    var s1 := s.(k := LockerAfterTry(s, i),
                 m := s.m.(lockActive := s.m.lockActive || LocksAtOnce(i.p), handlers := s.m.handlers + 1));
    var s2 := CreateWindows(s1, s.monitors, i.p);
    var s3 := s2.(m := ShowWindows(s2.m.(active := true), s2.m.table.Values, i.p),
                  k := if s2.k.cur.Some? then s2.k.(surfaces := s2.k.surfaces + s2.m.table.Values) else s2.k);
    AfterActivated(s3, i.p)
  }

  function ActivateManager(s: State, i: Input): State {
    if s.m.active then s
    else if CanActivate(s, i) then BecomeActive(s, i)
    else s.(k := LockerAfterTry(s, i))
  }

  function AlarmsAfterDeactivated(b: Backend, a: Alarms): Alarms {
    if !Listening(b) then a else
    var armed := a.armed - {Deactivate, LockLater};
    a.(armed := if a.enabled then armed[Activate := a.timeout] else armed)
  }

  function DeactivateManager(s: State): State {
    if !s.m.active then s else
    var k := RemoveSurfaces(s.k, s.m.table.Values);
    s.(m := EnableLocker(DestroyWindows(s.m).(lockTimer := false, cycleTimer := false, handlers := 0,
                                              active := false, dialogUp := false), false),
       k := if s.backend.Wayland? && s.backend.lockManager then Unlock(k) else k,
       a := AlarmsAfterDeactivated(s.backend, s.a),
       d := NoteActive(s.d, false))
  }

  /** gs_listener_dbus_activate_saver. */
  function DbusActivate(s: State, on: bool, i: Input): State {
    if s.d.active == on then s else
    var s1 := if on then ActivateManager(s, i) else DeactivateManager(s);
    if s1.m.active == on then s1.(d := s1.d.(active := on, sent := s1.d.sent + [on])) else s1
  }

  function DbusLock(s: State, i: Input): State {
    if i.p.lockEnabled then DbusActivate(s.(m := EnableLocker(s.m, true)), true, i) else s
  }

  predicate Inhibited(s: State) {
    s.d.inhibitors != map[]
  }

  function ListenerActivate(s: State, i: Input): State {
    if Inhibited(s) then s else DbusActivate(s, true, i)
  }

  function ListenerLock(s: State, i: Input): State {
    if Inhibited(s) then s else DbusLock(s, i)
  }

  // ---------- throttling ----------

  function CheckThrottle(s: State, starts: map<WinId, bool>): State {
    var on := s.d.throttlers != map[];
    if s.d.throttled == on then s
    else s.(d := s.d.(throttled := on), m := SetThrottled(s.m, on, starts))
  }

  function WithoutConn(t: map<Cookie, Option<Conn>>, name: Conn): map<Cookie, Option<Conn>> {
    map c | c in t && t[c] != Some(name) :: t[c]
  }

  function NameLostIn(s: State, name: Conn, starts: map<WinId, bool>): State {
    var s1 := CheckThrottle(s.(d := s.d.(throttlers := WithoutConn(s.d.throttlers, name))), starts);
    s1.(d := s1.d.(inhibitors := WithoutConn(s1.d.inhibitors, name)))
  }

  // ---------- Wayland idle alarms ----------

  const UINT_MODULUS := 0x1_0000_0000

  function Millis(secs: nat): nat {
    (secs * 1000) % UINT_MODULUS
  }

  function TimeoutsSet(s: State, on: bool, secs: nat, lockSecs: nat, p: Prefs): State {
    if !Listening(s.backend) then s
    else if !on then s.(a := s.a.(enabled := false, armed := s.a.armed - {Activate, LockLater}))
    else
      var a1 := s.a.(enabled := true, timeout := Millis(secs), lockTimeout := Millis(lockSecs));
      var a2 := if p.lockWithSaver then a1 else a1.(armed := a1.armed - {LockLater});
      if Deactivate !in a2.armed && (a2.timeout != s.a.timeout || Activate !in a2.armed)
      then s.(a := a2.(armed := a2.armed[Activate := a2.timeout]))
      else s.(a := a2)
  }

  function AlarmIdled(s: State, alarm: Alarm, i: Input): State {
    match alarm
    case Activate =>
      if i.p.fullscreenInhibit && i.fullscreen then
        s.(a := s.a.(armed := s.a.armed[Activate := s.a.timeout]))
      else if i.p.lockWithSaver && s.a.lockTimeout == 0 then ListenerLock(s, i)
      else ListenerActivate(s, i)
    case LockLater =>
      var s1 := ListenerLock(s, i);
      s1.(a := s1.a.(armed := s1.a.armed - {LockLater}))
    case Deactivate => s
  }

  /** Handling e waits for a saver that is suspended: nothing continues it before it is waited for. */
  predicate WaitsForStopped(m: Manager, e: Event) {
    e.JobOutputEnds? && e.win in m.jobs && m.jobs[e.win].watch && Suspended(m.jobs[e.win])
  }

  // ---------- one step ----------

  predicate FromBus(e: Event) {
    e.SetActive? || e.LockCall? || e.CycleCall? || e.ShowMessage? || e.SimulateActivity? || e.PasswordPrompt?
    || e.Inhibit? || e.UnInhibit? || e.Throttle? || e.UnThrottle? || e.NameLost?
  }

  predicate FromIdleWatch(e: Event) {
    e.IdleActivate? || e.IdleLock? || e.IdlePoke? || e.Idled? || e.Resumed? || e.SetTimeouts?
  }

  predicate FromSource(e: Event) {
    e.LockTimeout? || e.CycleTimeout? || e.PopupIdle? || e.DeactivatedIdle? || e.ManagerIdle?
    || e.DialogOutput? || e.JobOutputEnds?
  }

  function BusStep(s: State, e: Event, i: Input): State
    requires FromBus(e)
  {
    match e
    case SetActive(on) => DbusActivate(s, on, i)
    case LockCall => DbusLock(s, i)
    case CycleCall => s.(m := Cycle(s.m, i.starts))
    case ShowMessage => if s.d.active && i.p.lockEnabled then s.(m := RequestUnlock(s.m, i.at)) else s
    case SimulateActivity => s.(m := RequestUnlock(s.m, i.at))
    case PasswordPrompt => if i.p.lockEnabled then s.(m := RequestUnlock(s.m, i.at)) else s
    case Inhibit(c, conn) =>
      if c in s.d.inhibitors then s else s.(d := s.d.(inhibitors := s.d.inhibitors[c := conn]))
    case UnInhibit(c) => s.(d := s.d.(inhibitors := s.d.inhibitors - {c}))
    case Throttle(c, conn) =>
      if c in s.d.throttlers then s
      else CheckThrottle(s.(d := s.d.(throttlers := s.d.throttlers[c := conn])), i.starts)
    case UnThrottle(c) =>
      if c !in s.d.throttlers then s
      else CheckThrottle(s.(d := s.d.(throttlers := s.d.throttlers - {c})), i.starts)
    case NameLost(name) => NameLostIn(s, name, i.starts)
  }

  function IdleStep(s: State, e: Event, i: Input): State
    requires FromIdleWatch(e)
  {
    match e
    case IdleActivate => if s.backend.X11? then ListenerActivate(s, i) else s
    case IdleLock => if s.backend.X11? then ListenerLock(s, i) else s
    case IdlePoke => if s.backend.X11? then s.(m := RequestUnlock(s.m, i.at)) else s
    case Idled(alarm) => if alarm in s.a.armed then AlarmIdled(s, alarm, i) else s
    case Resumed(alarm) => if alarm in s.a.armed then s.(m := RequestUnlock(s.m, i.at)) else s
    case SetTimeouts(on, secs, lockSecs) => TimeoutsSet(s, on, secs, lockSecs, i.p)
  }

  function SourceStep(s: State, e: Event, i: Input): State
    requires FromSource(e)
  {
    match e
    case LockTimeout =>
      if s.m.lockTimer then s.(m := EnableLocker(s.m, true).(lockTimer := false)) else s
    case CycleTimeout => if s.m.cycleTimer then s.(m := Cycle(s.m, i.starts)) else s
    case PopupIdle(w) =>
      if w in s.m.win && s.m.win[w].popupIdle
      then s.(m := PopupDialog(s.m, w, s.backend.Wayland? && !i.windowActive, i.dialogStarts, i.starts))
      else s
    case DeactivatedIdle(w) => if w in s.m.win then s.(m := EmitDeactivated(s.m, w)) else s
    case ManagerIdle =>
      if s.m.idles == [] then s else DeactivateManager(s.(m := Popped(s.m)))
    case DialogOutput(w, o) =>
      if w in s.m.win && s.m.win[w].dialogWatch then s.(m := DialogSays(s.m, w, o, i.starts)) else s
    case JobOutputEnds(w) =>
      if w in s.m.jobs then s.(m := s.m.(jobs := s.m.jobs[w := JobWatchEnds(s.m.jobs[w])])) else s
  }

  function DisplayStep(s: State, e: Event, i: Input): State
    requires !FromBus(e) && !FromIdleWatch(e) && !FromSource(e)
  {
    match e
    case Mapped(w) => if w in s.m.win then s.(m := MaybeStartIn(s.m, w, i.starts)) else s
    case Visibility(w, hidden) => if w in s.m.win then s.(m := SetObscured(s.m, w, hidden, i.starts)) else s
    case Activity(w) =>
      if w in s.m.win && s.m.win[w].sensitive then s.(m := RequestUnlock(s.m, i.at)) else s
    case Hotplug(now) =>
      if !NoDup(now) then s
      else if s.m.handlers > 0 then RecreateWindows(s.(monitors := now), i.p)
      else s.(monitors := now)
    case SessionLock(ev) => s.(k := LockSays(s.k, ev))
  }

  /** One external event, run until the program is idle again.  An event whose source is not
      armed cannot happen and leaves the state alone. */
  function Step(s: State, e: Event, i: Input): State {
    if FromBus(e) then BusStep(s, e, i)
    else if FromIdleWatch(e) then IdleStep(s, e, i)
    else if FromSource(e) then SourceStep(s, e, i)
    else DisplayStep(s, e, i)
  }

  datatype Occurrence = Occurrence(e: Event, i: Input)

  function Run(s: State, run: seq<Occurrence>): State {
    if run == [] then s else
    var last := run[|run| - 1];
    Step(Run(s, run[..|run| - 1]), last.e, last.i)
  }

  /** The process right after start-up. */
  function Start(b: Backend, monitors: seq<Mon>): State {
    State(b, monitors,
          Manager(false, false, false, false, false, false, 0, map[], map[], map[], 0, [], [], []),
          Dbus(false, false, map[], map[], []),
          Alarms(map[], false, 0, 0),
          Locker(None, false, {}, 0, {}, []))
  }
}
