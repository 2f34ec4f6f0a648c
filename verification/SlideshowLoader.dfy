/**
 The two threads of the slideshow saver: the main loop, which asks for images and shows them, and
 the loader, which reads them.  One action is one statement another thread can observe.
 */
module SlideshowLoader {

  /** What the loader puts into the result queue: an image, or none when reading failed. */
  datatype Result = Image(id: nat) | Nothing

  /** Where the main thread is. */
  datatype MainAt =
    | MainIdle
    | OpPushed           // push_load_image_func, before it clears update_image_id
    | WantsResults       // results_pull_func, before it has the lock
    | FirstPop
    | Popped(r: Result)
    | NextPop
    | Drained
    | PullCleared
    | AssertionFailed    // g_assert (result) found no result

  /** Where the loader thread is. */
  datatype LoaderAt =
    | LoaderIdle
    | Loading
    | WantsLock(r: Result)
    | HasLock(r: Result)
    | Pushed
    | SourceAdded        // g_idle_add_full returned, results_pull_id not assigned yet
    | Releasing

  datatype Holder = Free | Main | Loader

  datatype State = State(
    main: MainAt, loader: LoaderAt, holder: Holder,
    updateId: bool, updateSource: bool,     // update_image_id, and its timeout source waiting
    ops: nat,                               // requests in op_q
    results: seq<Result>,
    pullId: bool, pullSource: bool,         // results_pull_id, and its idle source waiting
    fading: bool,                           // pat2 != NULL
    dropped: nat,                           // loads given up by the size check (history)
    overwritten: nat)                       // fades start_fade cut short (history)

  datatype Action =
    // main thread
    | TimeoutFires | ClearUpdateId | DispatchPull | LockForPull | TryPop | Process
    | ClearPullId | UnlockAfterPull | DrawTick(finishes: bool)
    // loader thread
    | TakeOp | Load(tooSmall: bool, r: Result) | LockForPush | PushResult | AddSource | AssignPullId | UnlockAfterPush

  /** start_new_load. */
  function StartNewLoad(s: State): State {
    if s.updateId then s else s.(updateId := true, updateSource := true)
  }

  function MainStep(s: State, a: Action): State {
    match (a, s.main)
    case (TimeoutFires, MainIdle) =>
      if s.updateSource then s.(updateSource := false, ops := s.ops + 1, main := OpPushed) else s
    case (ClearUpdateId, OpPushed) => s.(updateId := false, main := MainIdle)
    case (DispatchPull, MainIdle) => if s.pullSource then s.(pullSource := false, main := WantsResults) else s
    case (LockForPull, WantsResults) => if s.holder == Free then s.(holder := Main, main := FirstPop) else s
    case (TryPop, FirstPop) =>
      if s.results == [] then s.(main := AssertionFailed)
      else s.(results := s.results[1..], main := Popped(s.results[0]))
    case (TryPop, NextPop) =>
      if s.results == [] then s.(main := Drained)
      else s.(results := s.results[1..], main := Popped(s.results[0]))
    case (Process, Popped(r)) =>
      (match r
       case Image(_) =>
         s.(fading := true, overwritten := s.overwritten + (if s.fading then 1 else 0), main := NextPop)
       case Nothing => StartNewLoad(s).(main := NextPop))
    case (ClearPullId, Drained) => s.(pullId := false, main := PullCleared)
    case (UnlockAfterPull, PullCleared) => s.(holder := Free, main := MainIdle)
    case (DrawTick(finishes), MainIdle) =>
      if s.fading && finishes then StartNewLoad(s.(fading := false)) else s
    case _ => s
  }

  function LoaderStep(s: State, a: Action): State {
    match (a, s.loader)
    case (TakeOp, LoaderIdle) => if s.ops > 0 then s.(ops := s.ops - 1, loader := Loading) else s
    case (Load(tooSmall, r), Loading) =>
      if tooSmall then s.(loader := LoaderIdle, dropped := s.dropped + 1) else s.(loader := WantsLock(r))
    case (LockForPush, WantsLock(r)) => if s.holder == Free then s.(holder := Loader, loader := HasLock(r)) else s
    case (PushResult, HasLock(r)) => s.(results := s.results + [r], loader := Pushed)
    case (AddSource, Pushed) =>
      if s.pullId then s.(loader := Releasing) else s.(pullSource := true, loader := SourceAdded)
    case (AssignPullId, SourceAdded) => s.(pullId := true, loader := Releasing)
    case (UnlockAfterPush, Releasing) => s.(holder := Free, loader := LoaderIdle)
    case _ => s
  }

  predicate OfLoader(a: Action) {
    a.TakeOp? || a.Load? || a.LockForPush? || a.PushResult? || a.AddSource? || a.AssignPullId? || a.UnlockAfterPush?
  }

  function Step(s: State, a: Action): State {
    if OfLoader(a) then LoaderStep(s, a) else MainStep(s, a)
  }

  function Run(s: State, run: seq<Action>): State {
    if run == [] then s else Step(Run(s, run[..|run| - 1]), run[|run| - 1])
  }

  /** Right after the widget is shown: the first load is scheduled. */
  const START := State(MainIdle, LoaderIdle, Free, true, true, 0, [], false, false, false, 0, 0)

  // ---------- what every interleaving keeps ----------

  predicate MainHolds(m: MainAt) {
    m.FirstPop? || m.Popped? || m.NextPop? || m.Drained? || m.PullCleared?
  }

  predicate LoaderHolds(l: LoaderAt) {
    l.HasLock? || l.Pushed? || l.SourceAdded? || l.Releasing?
  }

  predicate LockOk(s: State) {
    && (s.holder == Main <==> MainHolds(s.main))
    && (s.holder == Loader <==> LoaderHolds(s.loader))
    && (s.updateSource ==> s.updateId)
    && (s.updateId ==> s.updateSource || s.main.OpPushed?)
    && (s.main.OpPushed? ==> s.updateId && !s.updateSource)
  }

  /** A pull is on its way: waiting in the main loop, or already begun. */
  predicate PullComing(s: State) {
    s.pullSource || s.main.WantsResults?
  }

  /** What the two ids and the queue say to each other, by who holds the lock. */
  predicate PullOk(s: State) {
    && !(s.pullSource && (s.main.WantsResults? || MainHolds(s.main)))
    && (s.holder == Free ==> (s.pullId <==> s.results != []) && (s.pullId <==> PullComing(s)))
    && (s.holder == Main ==> s.pullId == !s.main.PullCleared?)
    && (s.main.FirstPop? ==> s.results != [])
    && (s.main.Drained? || s.main.PullCleared? ==> s.results == [])
    && (s.loader.HasLock? ==> (s.pullId <==> s.results != []) && (s.pullId <==> PullComing(s)))
    && (s.loader.Pushed? ==> s.results != [] && (s.pullId <==> PullComing(s)))
    && (s.loader.SourceAdded? ==> s.results != [] && !s.pullId && PullComing(s))
    && (s.loader.Releasing? ==> s.results != [] && s.pullId && PullComing(s))
  }

  /** How many loads are under way. */
  function Tokens(s: State): nat {
    (if s.updateSource then 1 else 0) + s.ops
    + (if s.loader.Loading? || s.loader.WantsLock? || s.loader.HasLock? then 1 else 0)
    + |s.results| + (if s.main.Popped? then 1 else 0) + (if s.fading then 1 else 0)
  }

  predicate TokenOk(s: State) {
    && Tokens(s) + s.dropped == 1
    && s.overwritten == 0
    && !s.main.AssertionFailed?
  }

  predicate Inv(s: State) {
    LockOk(s) && PullOk(s) && TokenOk(s)
  }

  lemma MainKeeps(s: State, a: Action)
    requires Inv(s) && !OfLoader(a)
    ensures Inv(MainStep(s, a))
  {
  }

  lemma LoaderKeeps(s: State, a: Action)
    requires Inv(s) && OfLoader(a)
    ensures Inv(LoaderStep(s, a))
  {
  }

  lemma {:induction false} RunKeeps(run: seq<Action>)
    ensures Inv(Run(START, run))
  {
    if run != [] {
      var s, a := Run(START, run[..|run| - 1]), run[|run| - 1];
      RunKeeps(run[..|run| - 1]);
      if OfLoader(a) {
        LoaderKeeps(s, a);
      } else {
        MainKeeps(s, a);
      }
    }
  }

  // ---------- the guarantees ----------

  /** Whenever nobody holds the result lock, results_pull_id is set exactly when there are results,
      and then results_pull_func is waiting to run or about to take the lock. */
  lemma PullScheduledIffResults(run: seq<Action>)
    ensures var s := Run(START, run);
            s.holder == Free ==> (s.pullId <==> s.results != []) && (s.pullId <==> s.pullSource || s.main.WantsResults?)
  {
    RunKeeps(run);
  }

  /** results_pull_func always finds a result: its assertion never fails. */
  lemma AssertionHolds(run: seq<Action>)
    ensures !Run(START, run).main.AssertionFailed?
    ensures Run(START, run).main.FirstPop? ==> Run(START, run).results != []
  {
    RunKeeps(run);
  }

  /** There is one load under way, in exactly one place, until the size check drops it; then none. */
  lemma OneLoadAtATime(run: seq<Action>)
    ensures var s := Run(START, run);
            Tokens(s) == (if s.dropped == 0 then 1 else 0) && s.dropped <= 1
  {
    RunKeeps(run);
  }

  /** start_fade never destroys an unfinished fade. */
  lemma NoFadeCutShort(run: seq<Action>)
    ensures Run(START, run).overwritten == 0
    ensures Run(START, run).main.Popped? ==> !Run(START, run).fading
  {
    RunKeeps(run);
  }

  /** Some action changes the state: an action of the thread that holds the lock if one does. */
  function Ready(s: State): Action {
    match s.main
    case OpPushed => ClearUpdateId
    case FirstPop => TryPop
    case NextPop => TryPop
    case Popped(_) => Process
    case Drained => ClearPullId
    case PullCleared => UnlockAfterPull
    case _ =>
      match s.loader
      case Loading => Load(false, Nothing)
      case WantsLock(_) => LockForPush
      case HasLock(_) => PushResult
      case Pushed => AddSource
      case SourceAdded => AssignPullId
      case Releasing => UnlockAfterPush
      case LoaderIdle =>
        if s.ops > 0 then TakeOp
        else if s.main.WantsResults? then LockForPull
        else if s.pullSource then DispatchPull
        else if s.updateSource then TimeoutFires
        else DrawTick(true)
  }

  lemma MainMoves(s: State)
    requires Inv(s) && (s.main.OpPushed? || MainHolds(s.main))
    ensures Step(s, Ready(s)) != s
  {
  }

  lemma LoaderMoves(s: State)
    requires Inv(s) && !s.main.OpPushed? && !MainHolds(s.main) && !s.loader.LoaderIdle?
    ensures Step(s, Ready(s)) != s
  {
  }

  lemma IdleMoves(s: State)
    requires Inv(s) && !s.main.OpPushed? && !MainHolds(s.main) && s.loader.LoaderIdle? && s.dropped == 0
    ensures Step(s, Ready(s)) != s
  {
  }

  /** The threads never block each other: while a load is under way some action moves it on. */
  lemma NeverStuck(run: seq<Action>)
    ensures var s := Run(START, run);
            s.dropped == 0 ==> Step(s, Ready(s)) != s
  {
    var s := Run(START, run);
    RunKeeps(run);
    if s.main.OpPushed? || MainHolds(s.main) {
      MainMoves(s);
    } else if !s.loader.LoaderIdle? {
      LoaderMoves(s);
    } else if s.dropped == 0 {
      IdleMoves(s);
    }
  }

  lemma NothingLeft(s: State)
    requires Inv(s) && s.dropped > 0
    ensures Tokens(s) == 0 && s.ops == 0 && s.results == [] && !s.updateSource && !s.fading
  {
  }

  /** A load given up by the size check ends the slideshow: whatever happens next, nothing is loaded,
      queued, shown or requested again. */
  lemma {:induction false} DroppedForGood(run: seq<Action>, more: seq<Action>)
    requires Run(START, run).dropped > 0
    ensures var s := Run(START, run + more);
            Tokens(s) == 0 && !s.updateSource && s.ops == 0 && s.results == [] && !s.fading
  {
    assert (run + more)[..|run|] == run;
    DropsStay(START, run + more, |run|);
    RunKeeps(run + more);
    NothingLeft(Run(START, run + more));
  }

  ghost predicate Reached(s: State) {
    exists run :: Run(START, run) == s
  }

  lemma Hop(s: State, a: Action, t: State)
    requires Reached(s) && t == Step(s, a)
    ensures Reached(t)
  {
    var run :| Run(START, run) == s;
    RunOneMore(START, run, a);
  }

  lemma FirstRequest() returns (s: State)
    ensures Reached(s) && s == START.(updateSource := false, updateId := false, ops := 1)
  {
    assert Run(START, []) == START;
    var s1 := Step(START, TimeoutFires);
    s := Step(s1, ClearUpdateId);
    Hop(START, TimeoutFires, s1);
    Hop(s1, ClearUpdateId, s);
  }

  /** The first image already may be too small: then the slideshow is over after four actions. */
  lemma DropReached(r: Result) returns (s: State)
    ensures Reached(s) && s.dropped == 1
  {
    var s2 := FirstRequest();
    var s3 := Step(s2, TakeOp);
    s := Step(s3, Load(true, r));
    Hop(s2, TakeOp, s3);
    Hop(s3, Load(true, r), s);
  }

  lemma StepDrops(s: State, a: Action)
    ensures Step(s, a).dropped >= s.dropped
  {
    if OfLoader(a) {
      LoaderDrops(s, a);
    } else {
      MainDrops(s, a);
    }
  }

  lemma LoaderDrops(s: State, a: Action)
    ensures LoaderStep(s, a).dropped >= s.dropped
  {
  }

  lemma MainDrops(s: State, a: Action)
    ensures MainStep(s, a).dropped == s.dropped
  {
  }

  lemma RunOneMore(s: State, run: seq<Action>, a: Action)
    ensures Run(s, run + [a]) == Step(Run(s, run), a)
  {
    assert (run + [a])[..|run|] == run;
  }

  lemma {:induction false} DropsStay(s: State, run: seq<Action>, n: nat)
    requires n <= |run|
    ensures Run(s, run).dropped >= Run(s, run[..n]).dropped
  {
    if n < |run| {
      var most := run[..|run| - 1];
      DropsStay(s, most, n);
      StepDrops(Run(s, most), run[|run| - 1]);
      assert most[..n] == run[..n];
    } else {
      assert run[..n] == run;
    }
  }
}
