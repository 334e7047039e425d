/**
 What the verdicts on the attempts say: which verdict a run gets, and that the count of failures in a row is told by
 the attempts alone.
 */
module BatchVerdicts {
  import opened SetFacts
  import opened Batch
  import opened BatchRecovery
  import RunStateMachine

  // ----- The verdict on a run -----

  /** The state of the run decides the verdict, and its eligibility if it is completed; nothing else changes. */
  lemma {:induction false} VerdictIs(c: Campaign, i: nat, run: RunOutcome)
    requires i < |c.attempts|
    ensures var d := Judged(c, i, run);
            var a := d.attempts[i];
            && (a.state == Valid <==> run.state == RunStateMachine.Completed && (run.eligible || !c.cfg.eligibleOnly))
            && (a.state == Invalid <==> run.state == RunStateMachine.Completed && !run.eligible && c.cfg.eligibleOnly)
            && (a.state == CancelledAttempt <==> run.state == RunStateMachine.Cancelled)
            && (a.state == FailedAttempt <==>
                run.state != RunStateMachine.Completed && run.state != RunStateMachine.Cancelled)
            && (a.outcome == Ok <==> a.state == Valid && run.eligible)
            && (a.outcome == OkDiagnostic <==> a.state == Valid && !run.eligible)
            && (a.outcome == IneligibleRun <==> a.state == Invalid)
            && (a.outcome == ByUser <==> a.state == CancelledAttempt)
            && (a.state == FailedAttempt ==> a.outcome == RunEndedAs(run.state))
            && a.number == c.attempts[i].number && a.hasRun && a.version == run.version
            && d.attempts == c.attempts[i := a] && d.state == c.state && d.attemptCount == c.attemptCount
  {
  }

  /** How an attempt ends without a verdict, by its preconditions or by drift, and what it counts as. */
  lemma {:induction false} EndsAs(c: Campaign, e: Event)
    requires Enabled(c, e) && (e.PreconditionFailed? || e.Drifted?)
    ensures var d := Apply(c, e);
            var a, n := LastAttempt(d), if e.PreconditionFailed? && e.code != "USER_CANCELLED" then 1 else 0;
            && (e.PreconditionFailed? ==>
                  if e.code == "USER_CANCELLED" then a.state == CancelledAttempt && a.outcome == ByUser
                  else a.state == Skipped && a.outcome == Unmet(e.code))
            && (e.Drifted? ==> a.state == Invalid && a.outcome == VersionChanged && a.version == e.run.version)
            && d.failed == c.failed + n && d.consecutive == c.consecutive + n
            && d.valid == c.valid && d.invalid == c.invalid && d.attemptCount == c.attemptCount
            && |d.attempts| == |c.attempts| && d.attempts[..|d.attempts| - 1] == c.attempts[..|d.attempts| - 1]
  {
    hide Reconciled, Judged, StateOf, ReasonOf, AfterFailing;
  }

  lemma {:induction false} RunIsNewest(c: Campaign)
    requires Inv(c) && c.phase == InRun
    ensures LastAttempt(c).hasRun && NewestOpen(c.attempts) == |c.attempts| - 1 && Active(c.state)
  {
    hide CountersAgree, WithinLimits;
    NewestOpenIs(c.attempts);
  }

  /**
   What a restart makes of the newest open attempt: cancelled, if the batch is to be cancelled; judged, if its run is
   completed; failed, if it has any other run, or none that can be found; and left as it is without a run.
   */
  lemma {:induction false} RestartMakes(c: Campaign, found: Option<RunOutcome>)
    requires Inv(c) && !Terminal(c.state) && NewestOpen(c.attempts) >= 0
    ensures var i, d := NewestOpen(c.attempts), Apply(c, Restart(found));
            var a := d.attempts[i];
            if c.state == BatchState.CancelRequested
            then a == c.attempts[i].(state := CancelledAttempt, outcome := ByUser) && SameCounters(c, d)
            else if !c.attempts[i].hasRun then a == c.attempts[i] && SameCounters(c, d)
            else if found.Some? && found.value.state == RunStateMachine.Completed
            then a == Judged(c, i, found.value).attempts[i] && d.failed == c.failed
            else
              && a == c.attempts[i].(state := FailedAttempt, outcome := WorkerRestarted)
              && d.failed == c.failed + 1 && d.consecutive == c.consecutive + 1 && d.valid == c.valid
  {
    hide Inv, Apply, Judged;
    RestartIdles(c, found);
    var i := NewestOpen(c.attempts);
    if c.attempts[i].hasRun {
      RestartFindsNewest(c);
      RunIsNewest(c);
      if found.Some? {
        VerdictIs(c, i, found.value);
        JudgedFailures(c, i, found.value);
      }
    }
  }

  lemma {:induction false} JudgedFailures(c: Campaign, i: nat, run: RunOutcome)
    requires i < |c.attempts|
    ensures Judged(c, i, run).failed ==
            c.failed + if run.state == RunStateMachine.Completed || run.state == RunStateMachine.Cancelled then 0 else 1
  {
  }

  // ----- Failures in a row -----

  /** An attempt that failed, was skipped, or whose run was cancelled. */
  predicate Lengthens(a: Attempt) {
    a.state == FailedAttempt || a.state == Skipped || (a.state == CancelledAttempt && a.hasRun)
  }

  /** An attempt whose run was completed. */
  predicate Breaks(a: Attempt) { a.state == Valid || (a.state == Invalid && a.outcome == IneligibleRun) }

  /** How many attempts failed since the last one whose run was completed. */
  function Streak(attempts: seq<Attempt>): nat {
    if attempts == [] then 0
    else
      var a := attempts[|attempts| - 1];
      if Breaks(a) then 0 else Streak(attempts[..|attempts| - 1]) + if Lengthens(a) then 1 else 0
  }

  lemma {:induction false} StreakSnoc(s: seq<Attempt>, a: Attempt)
    ensures Streak(s + [a]) == if Breaks(a) then 0 else Streak(s) + if Lengthens(a) then 1 else 0
  {
    assert (s + [a])[..|s|] == s;
  }

  /** Replacing the newest attempt. */
  lemma {:induction false} StreakNewest(s: seq<Attempt>, a: Attempt)
    requires s != [] && !Breaks(s[|s| - 1]) && !Lengthens(s[|s| - 1])
    ensures Streak(s[|s| - 1 := a]) == if Breaks(a) then 0 else Streak(s) + if Lengthens(a) then 1 else 0
  {
    var front := s[..|s| - 1];
    assert s == front + [s[|s| - 1]] && s[|s| - 1 := a] == front + [a];
    StreakSnoc(front, a);
    StreakSnoc(front, s[|s| - 1]);
  }

  /** Replacing an attempt that does not matter by another one. */
  lemma {:induction false} StreakOld(s: seq<Attempt>, i: nat, a: Attempt)
    requires i < |s| && !Breaks(s[i]) && !Lengthens(s[i]) && !Breaks(a) && !Lengthens(a)
    ensures Streak(s[i := a]) == Streak(s)
  {
    if i == |s| - 1 {
      StreakNewest(s, a);
    } else {
      StreakOld(s[..|s| - 1], i, a);
      assert s[i := a][..|s| - 1] == s[..|s| - 1][i := a];
    }
  }

  lemma {:induction false} OpenIsNeither(a: Attempt)
    requires Open(a)
    ensures !Breaks(a) && !Lengthens(a)
  {
  }

  /** A restart closes a run under way because the batch is to be cancelled: no verdict, though the run is cancelled. */
  predicate Unjudged(c: Campaign, e: Event) {
    e.Restart? && c.state == BatchState.CancelRequested && c.phase == InRun
  }

  /** The count of failures in a row is the one that the attempts tell. */
  predicate StreakTells(c: Campaign) { c.consecutive == Streak(c.attempts) }

  lemma {:induction false} JudgedStreak(c: Campaign, run: RunOutcome)
    requires StreakTells(c) && c.attempts != [] && Open(LastAttempt(c))
    ensures StreakTells(Judged(c, |c.attempts| - 1, run))
  {
    hide Streak;
    OpenIsNeither(LastAttempt(c));
    StreakNewest(c.attempts, Judged(c, |c.attempts| - 1, run).attempts[|c.attempts| - 1]);
  }

  /** What can happen inside an attempt. */
  lemma {:induction false} AttemptStreak(c: Campaign, e: Event)
    requires Inv(c) && Enabled(c, e) && StreakTells(c)
    requires e.PreconditionFailed? || e.PreconditionOk? || e.Link? || e.Drifted?
    ensures StreakTells(Apply(c, e))
  {
    hide Streak, CountersAgree, WithinLimits, Judged, Reconciled, AfterFailing, AfterVerdict, AfterLook;
    OpenIsNeither(LastAttempt(c));
    StreakNewest(c.attempts, LastAttempt(Apply(c, e)));
  }

  lemma {:induction false} EndedStreak(c: Campaign, run: RunOutcome)
    requires Inv(c) && Enabled(c, Ended(run)) && StreakTells(c)
    ensures StreakTells(Apply(c, Ended(run)))
  {
    hide Streak, Inv, Judged;
    RoomForVerdict(c);
    JudgedStreak(Noted(c, run), run);
  }

  /** Of an open attempt with a run, a restart judges the run or takes it for failed. */
  lemma {:induction false} InterruptedStreak(c: Campaign, found: Option<RunOutcome>)
    requires Inv(c) && c.phase == InRun && StreakTells(c)
    ensures if c.state == BatchState.CancelRequested
            then Reconciled(c, found).consecutive + 1 == Streak(Reconciled(c, found).attempts)
            else StreakTells(Reconciled(c, found))
  {
    hide Streak, Inv, Judged;
    RoomForVerdict(c);
    RunIsNewest(c);
    OpenIsNeither(LastAttempt(c));
    var a, i := LastAttempt(c), |c.attempts| - 1;
    if c.state == BatchState.CancelRequested {
      StreakNewest(c.attempts, a.(state := CancelledAttempt, outcome := ByUser));
    } else if found.Some? && found.value.state == RunStateMachine.Completed {
      JudgedStreak(c, found.value);
    } else {
      StreakNewest(c.attempts, a.(state := FailedAttempt, outcome := WorkerRestarted));
    }
  }

  /** Outside a run it closes an attempt without one, if any. */
  lemma {:induction false} IdleStreak(c: Campaign, found: Option<RunOutcome>)
    requires Inv(c) && c.phase != InRun && StreakTells(c)
    ensures StreakTells(Reconciled(c, found))
  {
    hide Streak, Inv, Judged;
    var i := NewestOpen(c.attempts);
    if i >= 0 {
      OpenIsNeither(c.attempts[i]);
      if !Terminal(c.state) {
        if c.attempts[i].hasRun {
          RestartFindsNewest(c);
        }
        StreakOld(c.attempts, i, c.attempts[i].(state := CancelledAttempt, outcome := ByUser));
      }
    }
  }

  lemma {:induction false} MoveStreak(c: Campaign, e: Event)
    requires Enabled(c, e) && !e.Begin? && !InsideAttempt(e) && !e.Restart?
    ensures Apply(c, e).attempts == c.attempts && Apply(c, e).consecutive == c.consecutive
  {
    hide Judged, Reconciled, ReasonOf, StateOf;
  }

  predicate InsideAttempt(e: Event) { e.PreconditionFailed? || e.PreconditionOk? || e.Link? || e.Drifted? || e.Ended? }

  lemma {:induction false} BeginStreak(c: Campaign)
    requires Enabled(c, Begin) && StreakTells(c)
    ensures StreakTells(Apply(c, Begin))
  {
    hide Streak;
    var a := LastAttempt(Apply(c, Begin));
    OpenIsNeither(a);
    StreakSnoc(c.attempts, a);
  }

  /** The step: every event moves the count as it changes the attempts, but for a run that a restart leaves unjudged. */
  lemma {:induction false} StreakStep(c: Campaign, e: Event)
    requires Inv(c) && Enabled(c, e) && StreakTells(c)
    ensures !Unjudged(c, e) ==> StreakTells(Apply(c, e))
    ensures Unjudged(c, e) ==>
              Apply(c, e).consecutive + 1 == Streak(Apply(c, e).attempts) && Apply(c, e).state == BatchState.Cancelled
  {
    hide Streak, Inv, Enabled, Apply, Reconciled;
    match e
    case Begin => BeginStreak(c);
    case Ended(run) => EndedStreak(c, run);
    case Restart(found) =>
      RestartIdles(c, found);
      RestartEnds(c, found);
      if c.phase == InRun {
        RunIsNewest(c);
        InterruptedStreak(c, found);
      } else {
        IdleStreak(c, found);
      }
    case _ =>
      if InsideAttempt(e) {
        AttemptStreak(c, e);
      } else {
        MoveStreak(c, e);
      }
  }

  /** Nothing happens to a batch that is over. */
  lemma {:induction false} OverStays(c: Campaign, e: Event)
    requires Inv(c) && Enabled(c, e) && Terminal(c.state)
    ensures var d := Apply(c, e); d.state == c.state && d.attempts == c.attempts && d.consecutive == c.consecutive
  {
    hide CountersAgree, WithinLimits, OpenRunIsNewest, Judged, ReasonOf, StateOf, AfterFailing, AfterVerdict, AfterLook;
  }

  ghost predicate UnjudgedAt(c: Campaign, es: seq<Event>, k: nat) {
    k < |es| && Exec(c, es[..k]).Some? && Unjudged(Exec(c, es[..k]).value, es[k])
  }

  ghost predicate EverUnjudged(c: Campaign, es: seq<Event>) { exists k | 0 <= k < |es| :: UnjudgedAt(c, es, k) }

  lemma {:induction false} UnjudgedMore(c: Campaign, es: seq<Event>)
    requires es != [] && Exec(c, es).Some?
    ensures Exec(c, es[..|es| - 1]).Some?
    ensures EverUnjudged(c, es) <==>
              EverUnjudged(c, es[..|es| - 1]) || Unjudged(Exec(c, es[..|es| - 1]).value, es[|es| - 1])
  {
    hide Exec, Unjudged;
    var front := es[..|es| - 1];
    ExecFront(c, es);
    forall k | 0 <= k < |front|
      ensures UnjudgedAt(c, es, k) <==> UnjudgedAt(c, front, k)
    {
      assert front[..k] == es[..k];
    }
    assert UnjudgedAt(c, es, |front|) <==> Unjudged(Exec(c, front).value, es[|front|]);
  }

  lemma {:induction false} StreakSince(c: Campaign, es: seq<Event>)
    requires Inv(c) && StreakTells(c) && Exec(c, es).Some?
    ensures var d := Exec(c, es).value;
            if EverUnjudged(c, es) then d.consecutive + 1 == Streak(d.attempts) && d.state == BatchState.Cancelled
            else StreakTells(d)
  {
    hide Inv, Enabled, Apply, Streak, Unjudged, EverUnjudged;
    if es == [] {
      NeverYet(c);
    } else {
      var front, e := es[..|es| - 1], es[|es| - 1];
      ExecFront(c, es);
      StreakSince(c, front);
      ExecKeepsInv(c, front);
      UnjudgedMore(c, es);
      var d := Exec(c, front).value;
      if EverUnjudged(c, front) {
        OverStays(d, e);
      } else {
        StreakStep(d, e);
      }
    }
  }

  lemma {:induction false} NeverYet(c: Campaign)
    ensures !EverUnjudged(c, [])
  {
  }

  /**
   Over every campaign, the count of failures in a row is the number of attempts that failed, were skipped, or whose
   run was cancelled, since the last one whose run was completed. It is one less exactly if a restart closed a run of a
   batch to be cancelled without a verdict, and then the batch is over.
   */
  lemma {:induction false} FailuresInARow(cfg: Config, start: BatchState, es: seq<Event>)
    requires start == Draft || start == Scheduled
    requires Exec(Fresh(cfg, start), es).Some?
    ensures var c := Exec(Fresh(cfg, start), es).value;
            if EverUnjudged(Fresh(cfg, start), es)
            then c.consecutive + 1 == Streak(c.attempts) && c.state == BatchState.Cancelled
            else c.consecutive == Streak(c.attempts)
  {
    hide EverUnjudged;
    FreshIsSound(cfg, start);
    hide Inv;
    StreakSince(Fresh(cfg, start), es);
  }

  lemma {:induction false} StopsForFailures(c: Campaign)
    requires Inv(c) && c.phase == Looked
    ensures Active(c.state) && c.state != BatchState.Cancelled
    ensures Enabled(c, Finish(TooManyFailures)) <==>
              !TargetMet(c) && !Exhausted(c) && c.consecutive == Max(1, c.cfg.maxFailures)
  {
    hide CountersAgree, OpenRunIsNewest;
  }

  /**
   A worker that has looked at the row stops for too many failures exactly if attempts are left, the target is missed,
   and just as many attempts as allowed have failed in a row.
   */
  lemma {:induction false} PausedForFailures(cfg: Config, start: BatchState, es: seq<Event>)
    requires start == Draft || start == Scheduled
    requires Exec(Fresh(cfg, start), es).Some? && Exec(Fresh(cfg, start), es).value.phase == Looked
    ensures var c := Exec(Fresh(cfg, start), es).value;
            Enabled(c, Finish(TooManyFailures)) <==>
              !TargetMet(c) && !Exhausted(c) && Streak(c.attempts) == Max(1, cfg.maxFailures)
  {
    hide Inv, Enabled, EverUnjudged, Streak;
    FreshIsSound(cfg, start);
    ExecKeepsInv(Fresh(cfg, start), es);
    FailuresInARow(cfg, start, es);
    StopsForFailures(Exec(Fresh(cfg, start), es).value);
  }
}
