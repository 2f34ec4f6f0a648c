/**
 The PAM conversation: the authentication thread hands each message to the main thread and waits,
 on a mutex and a condition, until the callback there has answered.
 */
module PamConversation {
  import opened Basics

  datatype Ret = Success | ConvErr

  datatype AuthAt =
    | Allocating
    | Loop(k: nat)         // before message k
    | WantsLock(k: nat)
    | HasLock(k: nat)
    | HasQueued(k: nat)    // the idle source is added
    | Waits(k: nat)        // in g_cond_wait, mutex released
    | Woken(k: nat)        // in g_cond_wait, needs the mutex again
    | HasLockAgain(k: nat)
    | ReadsResult(k: nat)  // mutex unlocked
    | Freeing(k: nat, i: nat)
    | Done(ret: Ret, reply: bool)   // reply: the array is handed over, not NULL

  datatype GuiAt =
    | GuiIdle
    | Dispatched(k: nat)   // gs_auth_queued_message_handler, before its lock
    | Answers(k: nat)      // in the callback, mutex held
    | Answered(k: nat)
    | Signalled(k: nat)

  datatype Holder = Free | Auth | Gui

  datatype Callback = Callback(message: nat, answer: bool)

  datatype State = State(
    n: nat, hasCallback: bool,
    auth: AuthAt, gui: GuiAt, holder: Holder,
    queue: seq<nat>,             // idle sources
    interrupt: bool,             // should_interrupt_stack of the call in progress
    callbacks: seq<Callback>,    // callbacks that ran, with their answers (history)
    freed: seq<nat>,             // responses freed, in order (history)
    stale: bool)                 // a callback wrote to the record of a call that had returned (history)

  datatype Action =
    | Allocate(ok: bool) | Next | LockToQueue | Queue | Wait | Relock | Unlock | Read | FreeOne
    | Dispatch | LockToAnswer | Answer(ok: bool) | Signal | UnlockAfterAnswer
    | SpuriousWakeUp

  function Start(n: nat, hasCallback: bool): State {
    State(n, hasCallback, Allocating, GuiIdle, Free, [], true, [], [], false)
  }

  function AuthStep(s: State, a: Action): State {
    match (a, s.auth)
    case (Allocate(ok), Allocating) => if ok then s.(auth := Loop(0)) else s.(auth := Done(ConvErr, false))
    case (Next, Loop(k)) =>
      if k >= s.n then s.(auth := Done(Success, true))
      else if s.hasCallback then s.(auth := WantsLock(k), interrupt := true)
      else s.(auth := Loop(k + 1))
    case (LockToQueue, WantsLock(k)) => if s.holder == Free then s.(holder := Auth, auth := HasLock(k)) else s
    case (Queue, HasLock(k)) => s.(queue := s.queue + [k], auth := HasQueued(k))
    case (Wait, HasQueued(k)) => s.(holder := Free, auth := Waits(k))
    case (SpuriousWakeUp, Waits(k)) => s.(auth := Woken(k))
    case (Relock, Woken(k)) => if s.holder == Free then s.(holder := Auth, auth := HasLockAgain(k)) else s
    case (Unlock, HasLockAgain(k)) => s.(holder := Free, auth := ReadsResult(k))
    case (Read, ReadsResult(k)) => s.(auth := if s.interrupt then Freeing(k, 0) else Loop(k + 1))
    case (FreeOne, Freeing(k, i)) =>
      if i <= k then s.(freed := s.freed + [i], auth := Freeing(k, i + 1)) else s.(auth := Done(ConvErr, false))
    case _ => s
  }

  /** Whether the record of call k is still on the authentication thread's stack. */
  predicate InCall(a: AuthAt, k: nat) {
    match a
    case HasQueued(j) => j == k
    case Waits(j) => j == k
    case Woken(j) => j == k
    case HasLockAgain(j) => j == k
    case ReadsResult(j) => j == k
    case _ => false
  }

  function GuiStep(s: State, a: Action): State {
    match (a, s.gui)
    case (Dispatch, GuiIdle) => if s.queue == [] then s else s.(queue := s.queue[1..], gui := Dispatched(s.queue[0]))
    case (LockToAnswer, Dispatched(k)) => if s.holder == Free then s.(holder := Gui, gui := Answers(k)) else s
    case (Answer(ok), Answers(k)) =>
      s.(callbacks := s.callbacks + [Callback(k, ok)], interrupt := !ok, gui := Answered(k),
         stale := s.stale || !InCall(s.auth, k))
    case (Signal, Answered(k)) =>
      // a signal with nobody waiting is lost
      s.(gui := Signalled(k), auth := if s.auth.Waits? then Woken(s.auth.k) else s.auth)
    case (UnlockAfterAnswer, Signalled(k)) => s.(holder := Free, gui := GuiIdle)
    case _ => s
  }

  predicate OfGui(a: Action) {
    a.Dispatch? || a.LockToAnswer? || a.Answer? || a.Signal? || a.UnlockAfterAnswer?
  }

  function Step(s: State, a: Action): State {
    if OfGui(a) then GuiStep(s, a) else AuthStep(s, a)
  }

  function Run(s: State, run: seq<Action>): State {
    if run == [] then s else Step(Run(s, run[..|run| - 1]), run[|run| - 1])
  }

  /** A wake-up without a signal does no harm once the callback has begun: the thread cannot have the
      mutex back before the answer is in its record. */
  predicate Harmless(s: State, a: Action) {
    a.SpuriousWakeUp? && s.auth.Waits? ==> s.gui.Answers? || s.gui.Answered?
  }

  /** All wake-ups without a signal that the run has are harmless ones. */
  predicate HarmlessRun(s: State, run: seq<Action>) {
    run == [] || (HarmlessRun(s, run[..|run| - 1]) && Harmless(Run(s, run[..|run| - 1]), run[|run| - 1]))
  }

  // ---------- what every interleaving keeps ----------

  /** The first k callbacks ran in order and all said yes. */
  predicate Accepted(cs: seq<Callback>, k: nat) {
    k <= |cs| && forall j :: 0 <= j < k ==> cs[j] == Callback(j, true)
  }

  /** Nothing of call k has begun in the main thread. */
  predicate Quiet(s: State) {
    s.queue == [] && s.gui.GuiIdle?
  }

  /** Callback k has not run; it is queued or dispatched. */
  predicate Handed(s: State, k: nat) {
    && s.interrupt && Accepted(s.callbacks, k) && |s.callbacks| == k
    && ((s.queue == [k] && s.gui.GuiIdle?) || (s.queue == [] && s.gui == Dispatched(k)))
  }

  /** Callback k ran and the record holds its answer. */
  predicate HasAnswer(s: State, k: nat) {
    Accepted(s.callbacks, k) && |s.callbacks| == k + 1 && s.callbacks[k] == Callback(k, !s.interrupt) && s.queue == []
  }

  /** Callback k runs, or ran and the thread was not signalled yet. */
  predicate Answering(s: State, k: nat) {
    || (s.queue == [] && s.gui == Answers(k) && Upto(s, k))
    || (s.gui == Answered(k) && HasAnswer(s, k))
  }

  predicate Refused(s: State, k: nat) {
    Accepted(s.callbacks, k) && |s.callbacks| == k + 1 && s.callbacks[k] == Callback(k, false)
  }

  predicate FreedTo(s: State, i: nat) {
    |s.freed| == i && forall j :: 0 <= j < i ==> s.freed[j] == j
  }

  /** Callbacks so far when message k is next. */
  predicate Upto(s: State, k: nat) {
    if s.hasCallback then Accepted(s.callbacks, k) && |s.callbacks| == k else s.callbacks == []
  }

  predicate Phase(s: State) {
    match s.auth
    case Allocating => Quiet(s) && s.callbacks == [] && s.freed == []
    case Loop(k) => k <= s.n && Quiet(s) && Upto(s, k) && s.freed == []
    case WantsLock(k) => k < s.n && s.hasCallback && s.interrupt && Quiet(s) && Upto(s, k) && s.freed == []
    case HasLock(k) => k < s.n && s.hasCallback && s.interrupt && Quiet(s) && Upto(s, k) && s.freed == []
    case HasQueued(k) => k < s.n && s.hasCallback && Handed(s, k) && s.freed == []
    case Waits(k) =>
      k < s.n && s.hasCallback && s.freed == [] && (Handed(s, k) || Answering(s, k))
    case Woken(k) =>
      && k < s.n && s.hasCallback && s.freed == []
      && (Answering(s, k) || (HasAnswer(s, k) && (s.gui == Signalled(k) || s.gui.GuiIdle?)))
    case HasLockAgain(k) => k < s.n && s.hasCallback && s.freed == [] && HasAnswer(s, k) && s.gui.GuiIdle?
    case ReadsResult(k) => k < s.n && s.hasCallback && s.freed == [] && HasAnswer(s, k) && s.gui.GuiIdle?
    case Freeing(k, i) => k < s.n && s.hasCallback && i <= k + 1 && Refused(s, k) && FreedTo(s, i) && Quiet(s)
    case Done(Success, reply) => reply && Upto(s, s.n) && s.freed == [] && Quiet(s)
    case Done(ConvErr, reply) =>
      && !reply && Quiet(s)
      && ((s.callbacks == [] && s.freed == [])
          || (s.hasCallback && 0 < |s.callbacks| <= s.n && Refused(s, |s.callbacks| - 1) && FreedTo(s, |s.callbacks|)))
  }

  predicate MutexOk(s: State) {
    && (s.holder == Auth <==> s.auth.HasLock? || s.auth.HasQueued? || s.auth.HasLockAgain?)
    && (s.holder == Gui <==> s.gui.Answers? || s.gui.Answered? || s.gui.Signalled?)
  }

  predicate Inv(s: State) {
    Phase(s) && MutexOk(s) && !s.stale
  }

  /** A message is with the main thread, or its answer just came back. */
  predicate HandsOver(a: AuthAt) {
    a.HasQueued? || a.Waits? || a.Woken? || a.HasLockAgain?
  }

  lemma HandoverKeeps(s: State, a: Action)
    requires Inv(s) && !OfGui(a) && Harmless(s, a) && HandsOver(s.auth)
    ensures Inv(AuthStep(s, a)) && AuthStep(s, a).n == s.n && AuthStep(s, a).hasCallback == s.hasCallback
  {
  }

  lemma LoopKeeps(s: State, a: Action)
    requires Inv(s) && !OfGui(a) && !HandsOver(s.auth) && !s.auth.ReadsResult? && !s.auth.Freeing? && !s.auth.Done?
    ensures Inv(AuthStep(s, a)) && AuthStep(s, a).n == s.n && AuthStep(s, a).hasCallback == s.hasCallback
  {
  }

  lemma ResultKeeps(s: State, a: Action)
    requires Inv(s) && !OfGui(a) && (s.auth.ReadsResult? || s.auth.Freeing? || s.auth.Done?)
    ensures Inv(AuthStep(s, a)) && AuthStep(s, a).n == s.n && AuthStep(s, a).hasCallback == s.hasCallback
  {
  }

  lemma AuthKeeps(s: State, a: Action)
    requires Inv(s) && !OfGui(a) && Harmless(s, a)
    ensures Inv(AuthStep(s, a)) && AuthStep(s, a).n == s.n && AuthStep(s, a).hasCallback == s.hasCallback
  {
    if HandsOver(s.auth) {
      HandoverKeeps(s, a);
    } else if s.auth.ReadsResult? || s.auth.Freeing? || s.auth.Done? {
      ResultKeeps(s, a);
    } else {
      LoopKeeps(s, a);
    }
  }

  lemma GuiKeeps(s: State, a: Action)
    requires Inv(s) && OfGui(a)
    ensures Inv(GuiStep(s, a)) && GuiStep(s, a).n == s.n && GuiStep(s, a).hasCallback == s.hasCallback
  {
  }

  lemma {:induction false} RunKeeps(n: nat, hasCallback: bool, run: seq<Action>)
    requires HarmlessRun(Start(n, hasCallback), run)
    ensures var s := Run(Start(n, hasCallback), run);
            Inv(s) && s.n == n && s.hasCallback == hasCallback
  {
    if run != [] {
      var most, a := run[..|run| - 1], run[|run| - 1];
      RunKeeps(n, hasCallback, most);
      if OfGui(a) {
        GuiKeeps(Run(Start(n, hasCallback), most), a);
      } else {
        AuthKeeps(Run(Start(n, hasCallback), most), a);
      }
    }
  }

  // ---------- the guarantees ----------

  lemma AllButLastAccepted(s: State)
    requires Inv(s) && s.callbacks != []
    ensures var k := |s.callbacks| - 1;
            k < s.n && Accepted(s.callbacks, k) && s.callbacks[k].message == k
  {
  }

  /** Each message's callback runs at most once and in order, and none follows a refusal. */
  lemma CallbacksInOrder(n: nat, hasCallback: bool, run: seq<Action>, j: nat)
    requires HarmlessRun(Start(n, hasCallback), run)
    ensures var cs := Run(Start(n, hasCallback), run).callbacks;
            |cs| <= n && (j < |cs| ==> cs[j].message == j) && (j + 1 < |cs| ==> cs[j].answer)
  {
    var s := Run(Start(n, hasCallback), run);
    RunKeeps(n, hasCallback, run);
    if s.callbacks != [] {
      AllButLastAccepted(s);
    }
  }

  /** The authentication thread reads the result only after that message's callback, and reads its
      answer; no callback ever writes to the record of a call that has returned. */
  lemma ReadsAfterCallback(n: nat, hasCallback: bool, run: seq<Action>)
    requires HarmlessRun(Start(n, hasCallback), run)
    ensures var s := Run(Start(n, hasCallback), run);
            && (s.auth.ReadsResult? ==>
                  && |s.callbacks| == s.auth.k + 1 && s.callbacks[s.auth.k] == Callback(s.auth.k, !s.interrupt)
                  && s.gui.GuiIdle?)
            && !s.stale
  {
    RunKeeps(n, hasCallback, run);
  }

  /** How a conversation ends.  Success: every one of the n messages was answered, nothing was freed and
      the array is handed over.  Refusal at k: callbacks 0 to k and no others ran, the responses 0 to k
      were freed once each and the array is NULL.  Otherwise the array could not be allocated. */
  lemma Outcome(n: nat, hasCallback: bool, run: seq<Action>)
    requires HarmlessRun(Start(n, hasCallback), run) && Run(Start(n, hasCallback), run).auth.Done?
    ensures var s := Run(Start(n, hasCallback), run);
            && (s.auth.ret == Success ==>
                  && s.auth.reply && s.freed == []
                  && (hasCallback ==> |s.callbacks| == n)
                  && (hasCallback ==> forall j :: 0 <= j < n ==> s.callbacks[j] == Callback(j, true)))
            && (s.auth.ret == ConvErr ==> !s.auth.reply && |s.freed| == |s.callbacks|)
            && (s.auth.ret == ConvErr && s.callbacks != [] ==>
                  && s.callbacks[|s.callbacks| - 1] == Callback(|s.callbacks| - 1, false)
                  && (forall j :: 0 <= j < |s.callbacks| - 1 ==> s.callbacks[j] == Callback(j, true))
                  && (forall j :: 0 <= j < |s.freed| ==> s.freed[j] == j))
  {
    RunKeeps(n, hasCallback, run);
  }

  // ---------- no deadlock, no lost wake-up ----------

  /** Something a thread can do. */
  function Possible(s: State): Action {
    match s.gui
    case Answers(_) => Answer(true)
    case Answered(_) => Signal
    case Signalled(_) => UnlockAfterAnswer
    case _ =>
      match s.auth
      case Allocating => Allocate(true)
      case Loop(_) => Next
      case WantsLock(_) => LockToQueue
      case HasLock(_) => Queue
      case HasQueued(_) => Wait
      case Waits(_) => if s.gui.Dispatched? then LockToAnswer else Dispatch
      case Woken(_) => Relock
      case HasLockAgain(_) => Unlock
      case ReadsResult(_) => Read
      case Freeing(_, _) => FreeOne
      case Done(_, _) => Dispatch
  }

  lemma CanStep(s: State)
    requires Inv(s) && !s.auth.Done?
    ensures Step(s, Possible(s)) != s && !Possible(s).SpuriousWakeUp?
  {
  }

  /** Until the conversation is over some thread can always go on: no deadlock and no lost wake-up. */
  lemma NeverStuck(n: nat, hasCallback: bool, run: seq<Action>)
    requires HarmlessRun(Start(n, hasCallback), run) && !Run(Start(n, hasCallback), run).auth.Done?
    ensures var s := Run(Start(n, hasCallback), run);
            Step(s, Possible(s)) != s && !Possible(s).SpuriousWakeUp?
  {
    RunKeeps(n, hasCallback, run);
    CanStep(Run(Start(n, hasCallback), run));
  }

  /** What is left to do. */
  function Left(s: State): int {
    var base := (k: nat) => 20 * (s.n - k) + s.n + 4;
    var auth :=
      match s.auth
      case Allocating => base(0) + 1
      case Loop(k) => base(k)
      case WantsLock(k) => base(k) - 1
      case HasLock(k) => base(k) - 2
      case HasQueued(k) => base(k) - 8
      case Waits(k) => base(k) - 9
      case Woken(k) => base(k) - 10
      case HasLockAgain(k) => base(k) - 11
      case ReadsResult(k) => base(k) - 12
      case Freeing(k, i) => k - i + 3
      case Done(_, _) => 0;
    var gui :=
      match s.gui
      case GuiIdle => 0
      case Dispatched(_) => 4
      case Answers(_) => 3
      case Answered(_) => 2
      case Signalled(_) => 1;
    auth + gui + 5 * |s.queue|
  }

  lemma LeftPositive(s: State)
    requires Inv(s)
    ensures 0 <= Left(s)
  {
  }

  lemma GuiShrinks(s: State, a: Action)
    requires Inv(s) && OfGui(a)
    ensures Step(s, a) == s || Left(Step(s, a)) < Left(s)
  {
  }

  lemma AuthShrinks(s: State, a: Action)
    requires Inv(s) && !OfGui(a)
    ensures Step(s, a) == s || Left(Step(s, a)) < Left(s)
  {
  }

  lemma LeftShrinks(s: State, a: Action)
    requires Inv(s)
    ensures 0 <= Left(s) && (Step(s, a) == s || Left(Step(s, a)) < Left(s))
  {
    LeftPositive(s);
    if OfGui(a) {
      GuiShrinks(s, a);
    } else {
      AuthShrinks(s, a);
    }
  }

  /** Every action that does anything brings the end nearer, so under any scheduling the conversation
      ends after at most 21 n + 5 effective steps. */
  lemma AlwaysEnds(n: nat, hasCallback: bool, run: seq<Action>, a: Action)
    requires HarmlessRun(Start(n, hasCallback), run)
    ensures var s := Run(Start(n, hasCallback), run);
            0 <= Left(s) <= 21 * n + 5 && (Step(s, a) == s || Left(Step(s, a)) < Left(s))
  {
    RunKeeps(n, hasCallback, run);
    LeftShrinks(Run(Start(n, hasCallback), run), a);
    LeftBounded(n, hasCallback, run);
  }

  lemma {:induction false} LeftBounded(n: nat, hasCallback: bool, run: seq<Action>)
    requires HarmlessRun(Start(n, hasCallback), run)
    ensures Left(Run(Start(n, hasCallback), run)) <= 21 * n + 5
  {
    if run != [] {
      LeftBounded(n, hasCallback, run[..|run| - 1]);
      RunKeeps(n, hasCallback, run[..|run| - 1]);
      LeftShrinks(Run(Start(n, hasCallback), run[..|run| - 1]), run[|run| - 1]);
    }
  }

  // ---------- which wake-ups do harm ----------

  /** The thread wakes, finds the initial value of its record and reads it as a refusal. */
  function WokenFalsely(s: State): State {
    Step(Step(Step(Step(s, SpuriousWakeUp), Relock), Unlock), Read)
  }

  /** g_cond_wait is called without a loop around it.  If the thread wakes without a signal before
      callback k has begun, the conversation fails although nobody refused, and the callback that runs
      later writes to the record of a call that has returned. */
  lemma SpuriousWakeUpBreaks(n: nat, run: seq<Action>, k: nat)
    requires HarmlessRun(Start(n, true), run) && Run(Start(n, true), run).auth == Waits(k)
    requires !Harmless(Run(Start(n, true), run), SpuriousWakeUp)
    ensures var s := Run(Start(n, true), run);
            var t := WokenFalsely(s);
            && t.auth == Freeing(k, 0) && t.callbacks == s.callbacks && |s.callbacks| == k
            && (t.queue == [k] || t.gui == Dispatched(k))
            && Step(Step(Step(t, Dispatch), LockToAnswer), Answer(true)).stale
  {
    RunKeeps(n, true, run);
    WokenFalselyIs(Run(Start(n, true), run), k);
  }

  lemma WokenFalselyIs(s: State, k: nat)
    requires Inv(s) && s.auth == Waits(k) && !Harmless(s, SpuriousWakeUp)
    ensures var t := WokenFalsely(s);
            && t == s.(auth := Freeing(k, 0)) && (t.queue == [k] || t.gui == Dispatched(k))
            && Step(Step(Step(t, Dispatch), LockToAnswer), Answer(true)).stale
  {
    WakeSteps(s, k);
    LateAnswer(s.(auth := Freeing(k, 0)), k);
  }

  lemma LateAnswer(t: State, k: nat)
    requires t.auth == Freeing(k, 0) && t.holder == Free
    requires (t.queue == [k] && t.gui == GuiIdle) || (t.queue == [] && t.gui == Dispatched(k))
    ensures Step(Step(Step(t, Dispatch), LockToAnswer), Answer(true)).stale
  {
    var u := Step(t, Dispatch);
    assert u.gui == Dispatched(k) && u.holder == Free && u.auth == Freeing(k, 0);
    var v := Step(u, LockToAnswer);
    assert v.gui == Answers(k) && v.auth == Freeing(k, 0);
  }

  lemma WakeSteps(s: State, k: nat)
    requires s.auth == Waits(k) && s.holder == Free && s.interrupt
    ensures WokenFalsely(s) == s.(auth := Freeing(k, 0))
  {
    var s1 := s.(auth := Woken(k));
    var s2 := s.(auth := HasLockAgain(k), holder := Auth);
    var s3 := s.(auth := ReadsResult(k));
    assert Step(s, SpuriousWakeUp) == s1;
    assert Step(s1, Relock) == s2;
    assert Step(s2, Unlock) == s3;
  }

  lemma RunOneMore(s: State, run: seq<Action>, a: Action)
    ensures Run(s, run + [a]) == Step(Run(s, run), a)
  {
    assert (run + [a])[..|run|] == run;
  }

  lemma {:induction false} RunOn(s: State, run: seq<Action>, more: seq<Action>)
    ensures Run(s, run + more) == Run(Run(s, run), more)
  {
    if more == [] {
      assert run + more == run;
    } else {
      var most, last := more[..|more| - 1], more[|more| - 1];
      RunOn(s, run, most);
      RunOneMore(s, run + most, last);
      assert run + more == run + most + [last];
    }
  }

  /** No wake-up without a signal. */
  predicate Honest(run: seq<Action>) {
    forall i :: 0 <= i < |run| ==> run[i] != SpuriousWakeUp
  }

  /** Some run without spurious wake-ups leads from s to t. */
  ghost predicate Leads(s: State, t: State) {
    exists more :: Honest(more) && Run(s, more) == t
  }

  lemma Stay(s: State)
    ensures Leads(s, s)
  {
    assert Honest([]) && Run(s, []) == s;
  }

  lemma Hop(s: State, t: State, a: Action, u: State)
    requires Leads(s, t) && u == Step(t, a) && !a.SpuriousWakeUp?
    ensures Leads(s, u)
  {
    var more :| Honest(more) && Run(s, more) == t;
    RunOneMore(s, more, a);
    assert Honest(more + [a]);
  }

  lemma LeadsOn(s: State, t: State, u: State)
    requires Leads(s, t) && Leads(t, u)
    ensures Leads(s, u)
  {
    var more :| Honest(more) && Run(s, more) == t;
    var rest :| Honest(rest) && Run(t, rest) == u;
    RunOn(s, more, rest);
    assert Honest(more + rest);
  }

  lemma {:induction false} StaysSound(n: nat, hasCallback: bool, run: seq<Action>, t: State)
    requires HarmlessRun(Start(n, hasCallback), run) && Leads(Run(Start(n, hasCallback), run), t)
    ensures Inv(t)
  {
    var more :| Honest(more) && Run(Run(Start(n, hasCallback), run), more) == t;
    HonestlyOn(Start(n, hasCallback), run, more);
    RunOn(Start(n, hasCallback), run, more);
    RunKeeps(n, hasCallback, run + more);
  }

  lemma {:induction false} HonestFrom(s: State, run: seq<Action>, n: nat)
    requires n <= |run| && HarmlessRun(s, run[..n]) && forall i :: n <= i < |run| ==> run[i] != SpuriousWakeUp
    ensures HarmlessRun(s, run)
  {
    if n < |run| {
      var most := run[..|run| - 1];
      assert most[..n] == run[..n];
      HonestFrom(s, most, n);
      assert run[|run| - 1] != SpuriousWakeUp;
    } else {
      assert run[..n] == run;
    }
  }

  lemma HonestlyOn(s: State, run: seq<Action>, more: seq<Action>)
    requires HarmlessRun(s, run) && Honest(more)
    ensures HarmlessRun(s, run + more)
  {
    assert (run + more)[..|run|] == run;
    forall i | |run| <= i < |run + more| ensures (run + more)[i] != SpuriousWakeUp {
      assert (run + more)[i] == more[i - |run|];
    }
    HonestFrom(s, run + more, |run|);
  }

  lemma {:induction false} PrefixHarmless(s: State, run: seq<Action>, i: nat)
    requires HarmlessRun(s, run) && i <= |run|
    ensures HarmlessRun(s, run[..i])
  {
    if i < |run| {
      PrefixHarmless(s, run[..|run| - 1], i);
      assert run[..|run| - 1][..i] == run[..i];
    } else {
      assert run[..i] == run;
    }
  }

  lemma {:induction false} FirstHarm(s: State, run: seq<Action>) returns (i: nat)
    requires !HarmlessRun(s, run)
    ensures i < |run| && HarmlessRun(s, run[..i]) && !Harmless(Run(s, run[..i]), run[i])
  {
    var most := run[..|run| - 1];
    if HarmlessRun(s, most) {
      i := |run| - 1;
    } else {
      i := FirstHarm(s, most);
      assert most[..i] == run[..i];
    }
  }

  lemma HarmFollows(s: State, a: Action) returns (t: State)
    requires Inv(s) && !Harmless(s, a)
    ensures Leads(Step(s, a), t) && t.stale
  {
    WokenFalselyIs(s, s.auth.k);
    var t1 := WokenFalsely(s);
    WokenLeads(s);
    t := LateAnswerLeads(Step(s, a), t1);
  }

  lemma LateAnswerLeads(s: State, t1: State) returns (t: State)
    requires Leads(s, t1)
    ensures Leads(s, t) && t == Step(Step(Step(t1, Dispatch), LockToAnswer), Answer(true))
  {
    var t2 := Step(t1, Dispatch);
    var t3 := Step(t2, LockToAnswer);
    t := Step(t3, Answer(true));
    Hop(s, t1, Dispatch, t2);
    Hop(s, t2, LockToAnswer, t3);
    Hop(s, t3, Answer(true), t);
  }

  lemma WokenLeads(s: State)
    ensures Leads(Step(s, SpuriousWakeUp), WokenFalsely(s))
  {
    var s1 := Step(s, SpuriousWakeUp);
    var s2 := Step(s1, Relock);
    var s3 := Step(s2, Unlock);
    Stay(s1);
    Hop(s1, s1, Relock, s2);
    Hop(s1, s2, Unlock, s3);
    Hop(s1, s3, Read, WokenFalsely(s));
  }

  /** No callback ever writes to a dead record, from any point of the run on and whatever both threads do
      next, if and only if every wake-up without a signal in it was harmless. */
  lemma HarmlessExactly(n: nat, run: seq<Action>)
    ensures HarmlessRun(Start(n, true), run) <==>
              forall i: nat, t :: i <= |run| && Leads(Run(Start(n, true), run[..i]), t) ==> !t.stale
  {
    var s := Start(n, true);
    if HarmlessRun(s, run) {
      forall i: nat, t | i <= |run| && Leads(Run(s, run[..i]), t) ensures !t.stale {
        PrefixHarmless(s, run, i);
        StaysSound(n, true, run[..i], t);
      }
    } else {
      var i := FirstHarm(s, run);
      var t := HarmAt(n, run, i);
    }
  }

  lemma NextIs(s: State, run: seq<Action>, i: nat)
    requires i < |run|
    ensures Run(s, run[..i + 1]) == Step(Run(s, run[..i]), run[i])
  {
    assert run[..i + 1][..i] == run[..i];
  }

  lemma HarmAt(n: nat, run: seq<Action>, i: nat) returns (t: State)
    requires i < |run| && HarmlessRun(Start(n, true), run[..i])
    requires !Harmless(Run(Start(n, true), run[..i]), run[i])
    ensures Leads(Run(Start(n, true), run[..i + 1]), t) && t.stale
  {
    RunKeeps(n, true, run[..i]);
    NextIs(Start(n, true), run, i);
    t := HarmFollows(Run(Start(n, true), run[..i]), run[i]);
  }

  // what both threads do for one message that is accepted

  /** At the loop for message k, nothing going on in the main thread. */
  predicate AtLoop(s: State, n: nat, k: nat) {
    s.auth == Loop(k) && s.n == n && s.hasCallback && s.holder == Free && s.queue == [] && s.gui == GuiIdle
  }

  predicate AtWait(s: State, n: nat, k: nat) {
    s.auth == Waits(k) && s.n == n && s.hasCallback && s.holder == Free && s.queue == [k] && s.gui == GuiIdle
  }

  lemma UntilWait(s: State, n: nat, k: nat) returns (t: State)
    requires AtLoop(s, n, k) && k < n
    ensures Leads(s, t) && AtWait(t, n, k)
  {
    var s1 := Step(s, Next);
    var s2 := Step(s1, LockToQueue);
    var s3 := Step(s2, Queue);
    t := Step(s3, Wait);
    Stay(s);
    Hop(s, s, Next, s1);
    Hop(s, s1, LockToQueue, s2);
    Hop(s, s2, Queue, s3);
    Hop(s, s3, Wait, t);
  }

  lemma UntilAnswered(s: State, n: nat, k: nat) returns (t: State)
    requires AtWait(s, n, k)
    ensures Leads(s, t) && t == s.(queue := [], holder := Gui, gui := Answered(k), interrupt := false,
                                   callbacks := s.callbacks + [Callback(k, true)])
  {
    var s1 := Step(s, Dispatch);
    var s2 := Step(s1, LockToAnswer);
    t := Step(s2, Answer(true));
    Stay(s);
    Hop(s, s, Dispatch, s1);
    Hop(s, s1, LockToAnswer, s2);
    Hop(s, s2, Answer(true), t);
  }

  lemma UntilWoken(s: State, k: nat) returns (t: State)
    requires s.auth == Waits(k) && s.holder == Gui && s.gui == Answered(k)
    ensures Leads(s, t) && t == s.(gui := GuiIdle, holder := Free, auth := Woken(k))
  {
    var s1 := Step(s, Signal);
    t := Step(s1, UnlockAfterAnswer);
    Stay(s);
    Hop(s, s, Signal, s1);
    Hop(s, s1, UnlockAfterAnswer, t);
  }

  lemma UntilRead(s: State, k: nat) returns (t: State)
    requires s.auth == Woken(k) && s.holder == Free && !s.interrupt
    ensures Leads(s, t) && t == s.(auth := Loop(k + 1))
  {
    var s1 := Step(s, Relock);
    var s2 := Step(s1, Unlock);
    t := Step(s2, Read);
    Stay(s);
    Hop(s, s, Relock, s1);
    Hop(s, s1, Unlock, s2);
    Hop(s, s2, Read, t);
  }

  lemma UntilNextMessage(s: State, n: nat, k: nat) returns (t: State)
    requires AtWait(s, n, k)
    ensures Leads(s, t) && AtLoop(t, n, k + 1)
  {
    var s1 := UntilAnswered(s, n, k);
    var s2 := UntilWoken(s1, k);
    t := UntilRead(s2, k);
    LeadsOn(s, s1, s2);
    LeadsOn(s, s2, t);
  }

  lemma {:induction false} LoopReached(n: nat, k: nat) returns (s: State)
    requires k <= n
    ensures Leads(Start(n, true), s) && AtLoop(s, n, k)
  {
    if k == 0 {
      s := LoopBegins(n);
    } else {
      var s1 := LoopReached(n, k - 1);
      s := OneMessageOn(Start(n, true), s1, n, k - 1);
    }
  }

  lemma LoopBegins(n: nat) returns (s: State)
    ensures Leads(Start(n, true), s) && AtLoop(s, n, 0)
  {
    s := Step(Start(n, true), Allocate(true));
    Stay(Start(n, true));
    Hop(Start(n, true), Start(n, true), Allocate(true), s);
  }

  lemma OneMessageOn(s0: State, s1: State, n: nat, k: nat) returns (s: State)
    requires Leads(s0, s1) && AtLoop(s1, n, k) && k < n
    ensures Leads(s0, s) && AtLoop(s, n, k + 1)
  {
    var s2 := UntilWait(s1, n, k);
    s := UntilNextMessage(s2, n, k);
    LeadsOn(s0, s1, s2);
    LeadsOn(s0, s2, s);
  }

  /** For every message, runs without any spurious wake-up come to a wait where one would do harm. */
  lemma HarmReached(n: nat, k: nat) returns (s: State)
    requires k < n
    ensures Leads(Start(n, true), s) && s.auth == Waits(k) && !Harmless(s, SpuriousWakeUp)
  {
    var s1 := LoopReached(n, k);
    s := UntilWait(s1, n, k);
    LeadsOn(Start(n, true), s1, s);
  }

  // ---------- pam_conversation itself ----------

  /** A slot of the reply array: the response and how often it was freed. */
  datatype Reply = Reply(resp: Option<string>, frees: nat)

  /** What the handler did for one message: its return value and the response it left. */
  datatype Handled = Handled(ok: bool, resp: Option<string>)

  /** Where the first refusal is, or the number of messages. */
  function FirstRefusal(hs: seq<Handled>): (k: nat)
    ensures k <= |hs| && (k < |hs| ==> !hs[k].ok) && forall j :: 0 <= j < k ==> hs[j].ok
  {
    if hs == [] || !hs[0].ok then 0 else 1 + FirstRefusal(hs[1..])
  }

  /** The loop over the messages, hs telling what the message handler would do for each.  On success the
      array holds every response; after a refusal exactly the responses up to it were freed, once each,
      and *resp is NULL. */
  method Converse(hs: seq<Handled>) returns (ret: Ret, resp: array?<Reply>, ghost reply: array<Reply>)
    ensures fresh(reply) && reply.Length == |hs|
    ensures ret == Success <==> FirstRefusal(hs) == |hs|
    ensures resp == if ret == Success then reply else null
    ensures ret == Success ==> forall j :: 0 <= j < |hs| ==> reply[j] == Reply(hs[j].resp, 0)
    ensures ret == ConvErr ==> forall j :: 0 <= j < |hs| ==>
              reply[j] == if j <= FirstRefusal(hs) then Reply(hs[j].resp, 1) else Reply(None, 0)
  {
    var slots := new Reply[|hs|](_ => Reply(None, 0));
    reply := slots;
    ret := Success;
    var replies := 0;
    while replies < |hs| && ret == Success
      invariant 0 <= replies <= |hs|
      invariant ret == Success ==>
                  && (forall j :: 0 <= j < replies ==> hs[j].ok)
                  && (forall j :: 0 <= j < |hs| ==>
                        slots[j] == if j < replies then Reply(hs[j].resp, 0) else Reply(None, 0))
      invariant ret == ConvErr ==>
                  && 0 < replies && !hs[replies - 1].ok && (forall j :: 0 <= j < replies - 1 ==> hs[j].ok)
                  && (forall j :: 0 <= j < |hs| ==>
                        slots[j] == if j < replies then Reply(hs[j].resp, 1) else Reply(None, 0))
    {
      slots[replies] := Reply(hs[replies].resp, 0);
      if !hs[replies].ok {
        for i := 0 to replies + 1
          invariant forall j :: 0 <= j < |hs| ==>
                      slots[j] == if j < i then Reply(hs[j].resp, 1)
                                  else if j <= replies then Reply(hs[j].resp, 0)
                                  else Reply(None, 0)
        {
          slots[i] := slots[i].(frees := slots[i].frees + 1);
        }
        ret := ConvErr;
      }
      replies := replies + 1;
    }
    if ret == ConvErr {
      FirstIs(hs, replies - 1);
      resp := null;
    } else {
      AllAccepted(hs);
      resp := slots;
    }
  }

  lemma FirstIs(hs: seq<Handled>, k: nat)
    requires k < |hs| && !hs[k].ok && forall j :: 0 <= j < k ==> hs[j].ok
    ensures FirstRefusal(hs) == k
  {
  }

  lemma AllAccepted(hs: seq<Handled>)
    requires forall j :: 0 <= j < |hs| ==> hs[j].ok
    ensures FirstRefusal(hs) == |hs|
  {
  }
}
