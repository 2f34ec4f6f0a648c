/**
 How a locked session can end.

 What a locker is for is that a window ends a locked session only after the user answered its dialog in
 that session.  The program keeps this for whatever is asked in the locked session, but a "deactivated"
 signal scheduled before the lock flag went up, or before the session began, still runs.  The theorems
 say that this is the only exception.
 */
module SessionUnlock {
  import opened Basics
  import opened SessionModel
  import opened SessionInvariant
  import opened SessionSteps
  import opened SessionRuns
  import opened SessionOutcomes

  predicate IsLocked(s: State) {
    s.m.active && s.m.lockActive
  }

  /** The occurrence is the OK line c stands for, from a dialog that a locked session shows. */
  ghost function AnswerIn(c: Cause): (State, Occurrence) -> bool {
    (s: State, o: Occurrence) => c.DialogEnded? && IsLocked(s) && Explains(s, o, c)
  }

  /** c was waiting already when the occurrence locked the session. */
  ghost function LeftOver(c: Cause): (State, Occurrence) -> bool {
    (s: State, o: Occurrence) => !IsLocked(s) && Pending(s.m, c)
  }

  // ---------- what waits in a locked session ----------

  lemma AnswerNeedsLock(s: State, o: Occurrence, c: Cause)
    requires Inv(s) && c.DialogEnded? && Explains(s, o, c)
    ensures IsLocked(s)
  {
    assert s.m.win != map[];
  }

  lemma AskingLocksNothing(s: State, o: Occurrence, c: Cause)
    requires Inv(s) && c.OpenRequest? && Explains(s, o, c)
    ensures !IsLocked(Step(s, o.e, o.i))
  {
    AskedFlags(s, o.e, o.i);
  }

  lemma StepWaits(s: State, o: Occurrence, c: Cause)
    requires Inv(s) && IsLocked(Step(s, o.e, o.i)) && Pending(Step(s, o.e, o.i).m, c)
    ensures (IsLocked(s) && Pending(s.m, c)) || AnswerIn(c)(s, o) || LeftOver(c)(s, o)
  {
    assert o == Occurrence(o.e, o.i);
    StepCause(s, o.e, o.i, c);
    if !Pending(s.m, c) {
      if c.DialogEnded? {
        AnswerNeedsLock(s, o, c);
      } else {
        AskingLocksNothing(s, o, c);
      }
    }
  }

  /** What waits in a locked session is answered in it or left over from before. */
  lemma {:induction false} WaitingInLocked(b: Backend, monitors: seq<Mon>, run: seq<Occurrence>, c: Cause)
    requires NoDup(monitors)
    requires var s := Run(Start(b, monitors), run); IsLocked(s) && Pending(s.m, c)
    ensures Since(Start(b, monitors), run, AnswerIn(c), IsLocked)
            || Since(Start(b, monitors), run, LeftOver(c), IsLocked)
  {
    var s0 := Start(b, monitors);
    if run == [] {
      assert false;
    } else {
      var most, last := run[..|run| - 1], run[|run| - 1];
      assert run == most + [last];
      RunKeeps(b, monitors, most);
      RunOneMore(s0, most, last);
      StepWaits(Run(s0, most), last, c);
      if IsLocked(Run(s0, most)) && Pending(Run(s0, most).m, c) {
        WaitingInLocked(b, monitors, most, c);
      }
      SinceLonger(s0, most, last, AnswerIn(c), IsLocked);
      SinceLonger(s0, most, last, LeftOver(c), IsLocked);
    }
  }

  predicate IsActive(s: State) {
    s.m.active
  }

  ghost function CausedIn(c: Cause): (State, Occurrence) -> bool {
    (s: State, o: Occurrence) => s.m.active && Explains(s, o, c)
  }

  /** c was waiting already when the occurrence began a session. */
  ghost function Stale(c: Cause): (State, Occurrence) -> bool {
    (s: State, o: Occurrence) => !s.m.active && Pending(s.m, c)
  }

  lemma CausedWhileActive(s: State, o: Occurrence, c: Cause)
    requires Inv(s) && Explains(s, o, c)
    ensures s.m.active
  {
    assert s.m.win != map[];
  }

  /** In any session, locked or not, what waits was caused in that session or is left over from before it. */
  lemma {:induction false} WaitingInSession(b: Backend, monitors: seq<Mon>, run: seq<Occurrence>, c: Cause)
    requires NoDup(monitors)
    requires var s := Run(Start(b, monitors), run); s.m.active && Pending(s.m, c)
    ensures Since(Start(b, monitors), run, CausedIn(c), IsActive) || Since(Start(b, monitors), run, Stale(c), IsActive)
  {
    var s0 := Start(b, monitors);
    if run == [] {
      assert false;
    } else {
      var most, last := run[..|run| - 1], run[|run| - 1];
      assert run == most + [last] && last == Occurrence(last.e, last.i);
      RunKeeps(b, monitors, most);
      RunOneMore(s0, most, last);
      StepCause(Run(s0, most), last.e, last.i, c);
      if !Pending(Run(s0, most).m, c) {
        CausedWhileActive(Run(s0, most), last, c);
      } else if Run(s0, most).m.active {
        WaitingInSession(b, monitors, most, c);
      }
      SinceLonger(s0, most, last, CausedIn(c), IsActive);
      SinceLonger(s0, most, last, Stale(c), IsActive);
    }
  }

  // ---------- a dialog answers once ----------

  /** Window w has answered OK, or is gone. */
  predicate HasAnswered(m: Manager, w: WinId) {
    w < m.nextWin && (w in m.win ==> m.win[w].responseOk)
  }

  lemma NoCauseKeepsAnswer(m: Manager, m1: Manager, w: WinId)
    requires NoNewCause(m, m1) && HasAnswered(m, w)
    ensures HasAnswered(m1, w)
  {
  }

  lemma RequestNoAnswer(m: Manager, at: Mon, w: WinId)
    requires HasAnswered(m, w)
    ensures HasAnswered(RequestUnlock(m, at), w)
  {
    if m.active && !m.dialogUp && at in m.table && m.table[at] in m.win {
      var id := m.table[at];
      var m1 := m.(win := m.win[id := m.win[id].(popupIdle := true)]);
      SetDialogUpNoCause(m1, id, true, map[]);
      NoCauseKeepsAnswer(m1, SetDialogUp(m1, id, true, map[]), w);
    }
  }

  lemma FinishedNoAnswer(m: Manager, id: WinId, e: Ending, starts: map<WinId, bool>, w: WinId)
    requires HasAnswered(m, w) && id in m.win
    ensures HasAnswered(DialogFinished(m, id, e, starts), w)
  {
    if !m.win[id].responseOk {
      PopdownNoCause(m, id, starts);
      NoCauseKeepsAnswer(m, PopdownDialog(m, id, starts), w);
    }
  }

  lemma SaysKeepsAnswer(m: Manager, id: WinId, o: Output, starts: map<WinId, bool>, w: WinId)
    requires ManagerOk(m) && HasAnswered(m, w) && id in m.win && m.win[id].dialogWatch
    ensures HasAnswered(DialogSays(m, id, o, starts), w)
  {
    if EndingOf(o).Some? {
      var e := EndingOf(o).value;
      assert WinOk(m.win[id]) && w != id;
      AnsweredElsewhere(m, id, e, w);
      FinishedNoAnswer(Answered(m, id, e), id, e, starts, w);
    }
  }

  lemma AnsweredElsewhere(m: Manager, id: WinId, e: Ending, w: WinId)
    requires HasAnswered(m, w) && id in m.win && w != id
    ensures HasAnswered(Answered(m, id, e), w)
  {
  }

  lemma OutputKeepsAnswer(s: State, e: Event, i: Input, w: WinId)
    requires Inv(s) && HasAnswered(s.m, w) && e.DialogOutput?
    ensures HasAnswered(Step(s, e, i).m, w)
  {
    DialogStepForm(s, e.win, e.out, i);
    if e.win in s.m.win && s.m.win[e.win].dialogWatch {
      SaysKeepsAnswer(s.m, e.win, e.out, i.starts, w);
    }
  }

  lemma EmitKeepsAnswer(s: State, e: Event, i: Input, w: WinId)
    requires HasAnswered(s.m, w) && e.DeactivatedIdle?
    ensures HasAnswered(Step(s, e, i).m, w)
  {
    DeactivatedStepForm(s, e.win, i);
  }

  lemma ManagerIdleKeepsAnswer(s: State, i: Input, w: WinId)
    requires HasAnswered(s.m, w)
    ensures HasAnswered(Step(s, ManagerIdle, i).m, w)
  {
    if s.m.idles != [] {
      DeactivateNoCause(s.(m := Popped(s.m)));
      NoCauseKeepsAnswer(Popped(s.m), DeactivateManager(s.(m := Popped(s.m))).m, w);
    }
  }

  lemma AnswerLasts(s: State, e: Event, i: Input, w: WinId)
    requires Inv(s) && HasAnswered(s.m, w)
    ensures HasAnswered(Step(s, e, i).m, w)
  {
    if Neutral(e) {
      NeutralStep(s, e, i);
      NoCauseKeepsAnswer(s.m, Step(s, e, i).m, w);
    } else if AsksUnlock(e) {
      AskedStep(s, e, i);
      RequestNoAnswer(s.m, i.at, w);
    } else if e.DialogOutput? {
      OutputKeepsAnswer(s, e, i, w);
    } else if e.DeactivatedIdle? {
      EmitKeepsAnswer(s, e, i, w);
    } else {
      ManagerIdleKeepsAnswer(s, i, w);
    }
  }

  lemma AnswerCounts(s: State, o: Occurrence, c: Cause)
    requires Inv(s) && c.DialogEnded? && Explains(s, o, c)
    ensures HasAnswered(Step(s, o.e, o.i).m, c.win)
  {
    var m, w := s.m, c.win;
    DialogStepForm(s, w, o.e.out, o.i);
    assert o.e == DialogOutput(w, o.e.out);
    assert DialogSays(m, w, o.e.out, o.i.starts).win[w].responseOk;
    SaysFlags(m, w, o.e.out, o.i.starts);
  }

  lemma AnswerLastsOn(b: Backend, monitors: seq<Mon>, run: seq<Occurrence>, o: Occurrence, w: WinId)
    requires NoDup(monitors) && HasAnswered(Run(Start(b, monitors), run).m, w)
    ensures HasAnswered(Run(Start(b, monitors), run + [o]).m, w)
  {
    RunKeeps(b, monitors, run);
    RunOneMore(Start(b, monitors), run, o);
    AnswerLasts(Run(Start(b, monitors), run), o.e, o.i, w);
  }

  /** After its window answered a cause is never explained again. */
  lemma {:induction false} AnswerStays(b: Backend, monitors: seq<Mon>, run: seq<Occurrence>, n: nat, k: nat, w: WinId)
    requires NoDup(monitors) && n <= k <= |run| && HasAnswered(Run(Start(b, monitors), run[..n]).m, w)
    ensures HasAnswered(Run(Start(b, monitors), run[..k]).m, w)
  {
    if n < k {
      AnswerStays(b, monitors, run, n, k - 1, w);
      assert run[..k] == run[..k - 1] + [run[k - 1]];
      AnswerLastsOn(b, monitors, run[..k - 1], run[k - 1], w);
    }
  }

  lemma NoSecondAnswer(b: Backend, monitors: seq<Mon>, run: seq<Occurrence>, n: nat, k: nat, c: Cause)
    requires NoDup(monitors) && c.DialogEnded? && n < k < |run|
    requires Explains(Run(Start(b, monitors), run[..n]), run[n], c)
    ensures !Explains(Run(Start(b, monitors), run[..k]), run[k], c)
  {
    var s0 := Start(b, monitors);
    RunKeeps(b, monitors, run[..n]);
    RunKeeps(b, monitors, run[..k]);
    AnswerCounts(Run(s0, run[..n]), run[n], c);
    assert run[..n + 1] == run[..n] + [run[n]];
    RunOneMore(s0, run[..n], run[n]);
    AnswerStays(b, monitors, run, n + 1, k, c.win);
    var m := Run(s0, run[..k]).m;
    assert c.win in m.win ==> WinOk(m.win[c.win]);
  }

  lemma LeftOverUnanswered(b: Backend, monitors: seq<Mon>, run: seq<Occurrence>, n: nat, k: nat, c: Cause)
    requires NoDup(monitors) && c.DialogEnded? && n < k < |run|
    requires Pending(Run(Start(b, monitors), run[..n]).m, c)
    ensures !Explains(Run(Start(b, monitors), run[..k]), run[k], c)
  {
    EveryCauseExplained(b, monitors, run[..n], c);
    var j: nat :| j < n && Explains(Run(Start(b, monitors), run[..n][..j]), run[..n][j], c);
    assert run[..n][..j] == run[..j];
    NoSecondAnswer(b, monitors, run, j, k, c);
  }

  lemma Ordered(s0: State, run: seq<Occurrence>, n: nat, k: nat)
    requires n < |run| && k < |run| && Lasts(s0, run, k + 1, IsLocked)
    requires !IsLocked(Run(s0, run[..n])) && IsLocked(Run(s0, run[..k]))
    ensures n < k
  {
  }

  /** What is left over from before the lock is not answered in the locked session. */
  lemma NotBoth(b: Backend, monitors: seq<Mon>, run: seq<Occurrence>, c: Cause)
    requires NoDup(monitors)
    requires Since(Start(b, monitors), run, AnswerIn(c), IsLocked)
    ensures !Since(Start(b, monitors), run, LeftOver(c), IsLocked)
  {
    var s0 := Start(b, monitors);
    if Since(s0, run, LeftOver(c), IsLocked) {
      var n: nat :| n < |run| && LeftOver(c)(Run(s0, run[..n]), run[n]) && Lasts(s0, run, n + 1, IsLocked);
      var k: nat :| k < |run| && AnswerIn(c)(Run(s0, run[..k]), run[k]) && Lasts(s0, run, k + 1, IsLocked);
      Ordered(s0, run, n, k);
      LeftOverUnanswered(b, monitors, run, n, k, c);
    }
  }

  // ---------- the end of a locked session ----------

  /** A locked session ends by a SetActive(false) call or for the first waiting reason.  That reason is the
      OK line of a dialog shown in this locked session, if and only if it was not waiting already when the
      session was locked. */
  lemma LockedSessionEnds(b: Backend, monitors: seq<Mon>, run: seq<Occurrence>, e: Event, i: Input)
    requires NoDup(monitors) && IsLocked(Run(Start(b, monitors), run))
    ensures var s := Run(Start(b, monitors), run);
            !Step(s, e, i).m.active <==> e == SetActive(false) || (e.ManagerIdle? && s.m.idles != [])
    ensures var s := Run(Start(b, monitors), run);
            e.ManagerIdle? && s.m.idles != [] ==>
              && Step(s, e, i).m.ended == s.m.ended + [s.m.idles[0]]
              && (Since(Start(b, monitors), run, AnswerIn(s.m.idles[0]), IsLocked)
                  <==> !Since(Start(b, monitors), run, LeftOver(s.m.idles[0]), IsLocked))
  {
    var s := Run(Start(b, monitors), run);
    RunKeeps(b, monitors, run);
    EndsExactly(s, e, i);
    if e.ManagerIdle? && s.m.idles != [] {
      assert s.m.idles[0] in s.m.idles;
      WaitingInLocked(b, monitors, run, s.m.idles[0]);
      if Since(Start(b, monitors), run, AnswerIn(s.m.idles[0]), IsLocked) {
        NotBoth(b, monitors, run, s.m.idles[0]);
      }
    }
  }

  lemma EndsExactly(s: State, e: Event, i: Input)
    requires Inv(s) && s.m.active
    ensures !Step(s, e, i).m.active <==> e == SetActive(false) || (e.ManagerIdle? && s.m.idles != [])
    ensures e.ManagerIdle? && s.m.idles != [] ==> Step(s, e, i).m.ended == s.m.ended + [s.m.idles[0]]
  {
    if e == SetActive(false) {
      DeactivateKeeps(s);
    } else if !e.ManagerIdle? {
      SessionStays(s, e, i);
    }
  }

  /** Nothing waits to end a session. */
  ghost predicate NothingWaits(m: Manager) {
    m.idles == [] && forall w :: w in m.win ==> m.win[w].deactIdle.None?
  }

  /** Nothing waited whenever the run locked a session. */
  ghost predicate LocksOnlyWhenNothingWaits(s0: State, run: seq<Occurrence>) {
    forall n :: 0 <= n < |run| && !IsLocked(Run(s0, run[..n])) && IsLocked(Run(s0, run[..n + 1])) ==>
                  NothingWaits(Run(s0, run[..n]).m)
  }

  lemma NothingLeftOver(s0: State, run: seq<Occurrence>, c: Cause)
    requires LocksOnlyWhenNothingWaits(s0, run)
    ensures !Since(s0, run, LeftOver(c), IsLocked)
  {
    if Since(s0, run, LeftOver(c), IsLocked) {
      var n: nat :| n < |run| && LeftOver(c)(Run(s0, run[..n]), run[n]) && Lasts(s0, run, n + 1, IsLocked);
      LastsAt(s0, run, n + 1);
    }
  }

  lemma LastsAt(s0: State, run: seq<Occurrence>, n: nat)
    requires n <= |run| && Lasts(s0, run, n, IsLocked)
    ensures IsLocked(Run(s0, run[..n]))
  {
  }

  /** In such runs no window ends a locked session without an OK line of its dialog in that session. */
  lemma AnsweredInTheSession(b: Backend, monitors: seq<Mon>, run: seq<Occurrence>, i: Input)
    requires NoDup(monitors) && LocksOnlyWhenNothingWaits(Start(b, monitors), run)
    requires var s := Run(Start(b, monitors), run); IsLocked(s) && s.m.idles != []
    ensures var c := Run(Start(b, monitors), run).m.idles[0];
            c.DialogEnded? && Since(Start(b, monitors), run, AnswerIn(c), IsLocked)
  {
    var s0 := Start(b, monitors);
    var c := Run(s0, run).m.idles[0];
    LockedSessionEnds(b, monitors, run, ManagerIdle, i);
    NothingLeftOver(s0, run, c);
    assert exists n: nat :: n < |run| && AnswerIn(c)(Run(s0, run[..n]), run[n]);
  }

  /** And whatever waits in an active session can end it at once, whether the session is locked or not. */
  lemma WaitingEnds(s: State, c: Cause, i: Input) returns (sources: seq<Occurrence>)
    requires Inv(s) && s.m.active && Pending(s.m, c)
    ensures !Run(s, sources).m.active
    ensures forall n :: 0 <= n < |sources| ==> sources[n].e.ManagerIdle? || sources[n].e.DeactivatedIdle?
  {
    if s.m.idles != [] {
      sources := [Occurrence(ManagerIdle, i)];
      QueueEnds(s, i);
    } else {
      var w := WaitsIn(s.m.win, c);
      sources := [Occurrence(DeactivatedIdle(w), i), Occurrence(ManagerIdle, i)];
      WindowEnds(s, w, i);
    }
  }

  lemma WaitsIn(win: map<WinId, Win>, c: Cause) returns (w: WinId)
    requires Awaits(win, c)
    ensures w in win && win[w].deactIdle == Some(c)
  {
    w :| w in win && win[w].deactIdle == Some(c);
  }

  lemma WindowEnds(s: State, w: WinId, i: Input)
    requires Inv(s) && s.m.active && w in s.m.win && s.m.win[w].deactIdle.Some?
    ensures !Run(s, [Occurrence(DeactivatedIdle(w), i), Occurrence(ManagerIdle, i)]).m.active
  {
    EmittedWaits(s, w, i);
    StepKeeps(s, DeactivatedIdle(w), i);
    QueueEnds(Step(s, DeactivatedIdle(w), i), i);
    TwoSteps(s, Occurrence(DeactivatedIdle(w), i), Occurrence(ManagerIdle, i));
  }

  lemma OneStep(s: State, o: Occurrence)
    ensures Run(s, [o]) == Step(s, o.e, o.i)
  {
    assert [] + [o] == [o];
    RunOneMore(s, [], o);
  }

  lemma TwoSteps(s: State, o: Occurrence, p: Occurrence)
    ensures Run(s, [o, p]) == Run(Step(s, o.e, o.i), [p])
  {
    assert [o] + [p] == [o, p];
    OneStep(s, o);
    RunOneMore(s, [o], p);
    OneStep(Step(s, o.e, o.i), p);
  }

  lemma QueueEnds(s: State, i: Input)
    requires Inv(s) && s.m.active && s.m.idles != []
    ensures !Run(s, [Occurrence(ManagerIdle, i)]).m.active
  {
    OneStep(s, Occurrence(ManagerIdle, i));
    EndsExactly(s, ManagerIdle, i);
  }

  lemma EmittedWaits(s: State, w: WinId, i: Input)
    requires w in s.m.win && s.m.win[w].deactIdle.Some?
    ensures var m := Step(s, DeactivatedIdle(w), i).m; m.active == s.m.active && m.idles != []
  {
    DeactivatedStepForm(s, w, i);
  }
}
