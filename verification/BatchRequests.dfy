/**
 What becomes of a request. A cancel request that the row has accepted ends the batch cancelled only if the worker
 looks at the row again before anything else stops it; and a request that comes before the worker's first look, or
 after its last, can leave the batch active without a worker.
 */
module BatchRequests {
  import opened Batch
  import opened SetFacts
  import RunStateMachine

  predicate IsRequest(e: Event) { e.Pause? || e.Cancel? }

  /** The events without the requests. */
  function Work(es: seq<Event>): seq<Event> {
    if es == [] then []
    else Work(es[..|es| - 1]) + if IsRequest(es[|es| - 1]) then [] else [es[|es| - 1]]
  }

  lemma {:induction false} ExecCons(c: Campaign, e: Event, es: seq<Event>)
    ensures Exec(c, [e] + es) == if Enabled(c, e) then Exec(Apply(c, e), es) else None
  {
    hide Enabled, Apply;
    if es == [] {
      assert [e] + es == [e] && [e][..0] == [];
    } else {
      var front := es[..|es| - 1];
      ExecCons(c, e, front);
      assert ([e] + es)[..|es|] == [e] + front;
    }
  }

  // ----- When an accepted cancel request is honoured -----

  /** A cancel request has been accepted while the worker was at work, and nothing has overwritten it. */
  predicate Pending(c: Campaign) {
    Working(c.phase) && c.state == BatchState.CancelRequested && c.reason == "user_cancelled"
  }

  /** After the verdict on an attempt the worker looks at the limits before it looks for a cancellation. */
  predicate HeardAfterVerdict(c: Campaign) { !TargetMet(c) && !Exhausted(c) }

  predicate HeardInRun(c: Campaign, work: seq<Event>)
    requires c.phase == InRun && c.attempts != []
  {
    work != [] && work[0].Ended? && Enabled(c, work[0]) && HeardAfterVerdict(Apply(c, work[0]))
  }

  predicate HeardAtStart(c: Campaign, work: seq<Event>)
    requires c.phase == Starting && c.attempts != []
  {
    work != [] && work[0].Link? && HeardInRun(Apply(c, work[0]), work[1..])
  }

  predicate HeardInCheck(c: Campaign, work: seq<Event>)
    requires c.phase == Checking && c.attempts != []
  {
    work != [] &&
    match work[0]
    case PreconditionFailed(code) => code == "USER_CANCELLED" || !Exhausted(c)
    case PreconditionOk => HeardAtStart(Apply(c, work[0]), work[1..])
    case _ => false
  }

  predicate HeardAfterLook(c: Campaign, work: seq<Event>)
    requires c.phase == Looked
  {
    work != [] && work[0].Begin? && MayBegin(c) && HeardInCheck(Apply(c, work[0]), work[1..])
  }

  /**
   Phase by phase, what has to happen for a pending cancellation to be heard. About to read the row: nothing more.
   Past a look: another attempt begins, and it is heard there. In the precondition check: the check reports the
   cancellation, or fails with attempts left, or succeeds and it is heard in the run. In the run: it ends, without
   a change of version, and after its verdict the target is still missed and attempts are left.
   */
  predicate Heard(c: Campaign, work: seq<Event>)
    requires InAttempt(c.phase) ==> c.attempts != []
  {
    match c.phase
    case Top => true
    case Looked => HeardAfterLook(c, work)
    case Checking => HeardInCheck(c, work)
    case Starting => HeardAtStart(c, work)
    case InRun => HeardInRun(c, work)
    case Judging => HeardAfterVerdict(c)
    case Stopping(why) => why == UserCancelled
    case _ => false
  }

  predicate NothingRaised(work: seq<Event>) { forall i | 0 <= i < |work| :: !work[i].WorkerError? }

  /** One worker's events up to its stop: no restart, no exit, no new claim, and no request after it. */
  predicate UntilStop(work: seq<Event>) {
    forall i | 0 <= i < |work| :: !work[i].Restart? && !work[i].WorkerExit? && !IsRequest(work[i])
  }

  /** Every step of the worker keeps what decides the matter, until it stops. */
  lemma {:induction false} StepKeepsHeard(c: Campaign, work: seq<Event>)
    requires Inv(c) && Pending(c) && work != [] && Enabled(c, work[0])
    requires !work[0].Restart? && !IsRequest(work[0]) && !work[0].WorkerError? && !work[0].Finish?
    ensures Pending(Apply(c, work[0])) && Inv(Apply(c, work[0]))
    ensures Heard(c, work) <==> Heard(Apply(c, work[0]), work[1..])
  {
    hide CountersAgree, WithinLimits, OpenRunIsNewest, Judged, Reconciled, ReasonOf, StateOf;
    StepKeepsInv(c, work[0]);
    match work[0]
    case Ended(run) => JudgedKeepsPhase(c, run);
    case _ =>
  }

  lemma {:induction false} JudgedKeepsPhase(c: Campaign, run: RunOutcome)
    requires c.attempts != []
    ensures var d := Judged(Noted(c, run), |c.attempts| - 1, run);
            d.state == c.state && d.reason == c.reason && d.cfg == c.cfg && d.attemptCount == c.attemptCount
  {
  }

  lemma {:induction false} WorkHonoursIff(c: Campaign, work: seq<Event>)
    requires Inv(c) && Pending(c) && UntilStop(work) && Exec(c, work).Some? && Exec(c, work).value.phase == Exiting
    ensures Exec(c, work).value.state == BatchState.Cancelled <==> NothingRaised(work) && Heard(c, work)
    decreases |work|
  {
    hide Inv, Apply, Enabled, Heard;
    if work == [] {
      assert false;
    }
    var e, rest := work[0], work[1..];
    assert work == [e] + rest;
    ExecCons(c, e, rest);
    if e.Finish? || e.WorkerError? {
      StopEnds(c, e, rest);
    } else {
      StepKeepsHeard(c, work);
      WorkHonoursIff(Apply(c, e), rest);
      assert NothingRaised(work) <==> NothingRaised(rest) by {
        if NothingRaised(rest) {
          assert forall i | 0 < i < |work| :: work[i] == rest[i - 1];
        }
      }
    }
  }

  lemma {:induction false} NothingAfterStop(c: Campaign, e: Event)
    requires c.phase == Exiting && Enabled(c, e)
    ensures IsRequest(e) || e.WorkerExit? || e.Restart?
  {
  }

  lemma {:induction false} StopDecides(c: Campaign, e: Event, work: seq<Event>)
    requires Pending(c) && Enabled(c, e) && (e.Finish? || e.WorkerError?) && work != [] && work[0] == e
    requires InAttempt(c.phase) ==> c.attempts != []
    ensures Apply(c, e).phase == Exiting
    ensures Apply(c, e).state == BatchState.Cancelled <==> e.Finish? && Heard(c, work)
  {
  }

  lemma {:induction false} StopEnds(c: Campaign, e: Event, rest: seq<Event>)
    requires Inv(c) && Pending(c) && Enabled(c, e) && (e.Finish? || e.WorkerError?)
    requires UntilStop(rest) && Exec(Apply(c, e), rest).Some?
    ensures rest == []
    ensures Apply(c, e).state == BatchState.Cancelled <==> e.Finish? && Heard(c, [e] + rest)
  {
    hide Apply, Enabled, Exec, Heard;
    StopDecides(c, e, [e] + rest);
    if rest != [] {
      assert rest == [rest[0]] + rest[1..];
      ExecCons(Apply(c, e), rest[0], rest[1..]);
      NothingAfterStop(Apply(c, e), rest[0]);
      assert false;
    }
  }

  /** No restart and no exit: the events are those of one worker, and the requests of others. */
  predicate OneWorker(es: seq<Event>) { forall i | 0 <= i < |es| :: !es[i].Restart? && !es[i].WorkerExit? }

  /** A worker with a pending cancellation is still at work with it pending, or has stopped. */
  lemma {:induction false} StaysPending(c: Campaign, e: Event)
    requires (Pending(c) || c.phase == Exiting) && Enabled(c, e) && !e.Restart? && !e.WorkerExit?
    ensures Pending(Apply(c, e)) || Apply(c, e).phase == Exiting
    ensures c.phase == Exiting ==> IsRequest(e) && Apply(c, e).phase == Exiting
    ensures Pending(c) && IsRequest(e) ==> Apply(c, e) == c
  {
    hide Judged, Reconciled, VersionDrift, NewestOpen;
    if e.Ended? {
      JudgedKeepsPhase(c, e.run);
    }
  }

  /** Requests that come while a cancellation is pending change nothing. */
  lemma {:induction false} SkipRequests(c: Campaign, es: seq<Event>)
    requires Pending(c) && Exec(c, es).Some? && OneWorker(es)
    ensures var d := Exec(c, es).value;
            if d.phase == Exiting then es != [] else Pending(d) && Exec(c, Work(es)) == Some(d)
    ensures UntilStop(Work(es))
  {
    hide Apply, Enabled;
    if es != [] {
      var front, e := es[..|es| - 1], es[|es| - 1];
      SkipRequests(c, front);
      StaysPending(Exec(c, front).value, e);
      if IsRequest(e) {
        assert Work(es) == Work(front);
      } else if Exec(c, front).value.phase != Exiting {
        ExecSnoc(c, Work(front), e);
      }
    }
  }

  /**
   The cancel theorem. Take any batch at work with a cancel request accepted, and any events from there, further
   requests among them, up to the worker's stop: the batch ends cancelled if and only if nothing raises and the
   request is heard.
   */
  lemma {:induction false} CancelHonouredIff(c: Campaign, es: seq<Event>)
    requires Inv(c) && Pending(c) && OneWorker(es) && es != [] && !IsRequest(es[|es| - 1])
    requires Exec(c, es).Some? && Exec(c, es).value.phase == Exiting
    ensures Exec(c, es).value.state == BatchState.Cancelled <==> NothingRaised(Work(es)) && Heard(c, Work(es))
  {
    hide Apply, Enabled, Inv, Heard;
    var front, e := es[..|es| - 1], es[|es| - 1];
    SkipRequests(c, front);
    StaysPending(Exec(c, front).value, e);
    ExecSnoc(c, Work(front), e);
    assert Work(es) == Work(front) + [e];
    SkipRequests(c, es);
    WorkHonoursIff(c, Work(es));
  }

  /** A cancel request accepted before the worker's first look is never honoured by it: the worker turns away. */
  lemma {:induction false} CancelBeforeStart(c: Campaign, es: seq<Event>)
    requires c.phase == Claimed && c.state == BatchState.CancelRequested
    requires OneWorker(es) && Exec(c, es).Some?
    ensures var d := Exec(c, es).value;
            d.state == BatchState.CancelRequested && (d.phase == Claimed || d.phase == Exiting)
  {
    if es != [] {
      CancelBeforeStart(c, es[..|es| - 1]);
    }
  }

  /** Nor is one accepted after the worker's stop; without a worker the batch is cancelled at once. */
  lemma {:induction false} CancelWithoutWork(c: Campaign)
    requires !Terminal(c.state)
    ensures Apply(c, Cancel).state == BatchState.Cancelled <==> c.phase == Idle
    ensures c.phase == Exiting ==> Apply(Apply(c, Cancel), WorkerExit).state == BatchState.CancelRequested
    ensures Working(c.phase) ==> Pending(Apply(c, Cancel))
  {
  }

  /** It happens: the run that meets the target ends, and the batch is completed although it was to be cancelled. */
  lemma {:induction false} CancelLostToTarget(c: Campaign, run: RunOutcome)
    requires Inv(c) && c.phase == InRun && Enabled(c, Ended(run)) && c.valid + 1 == c.cfg.target
    requires run.state == RunStateMachine.Completed && run.eligible
    ensures var d := Exec(c, [Cancel, Ended(run), Recheck, Finish(TargetReached)]);
            d.Some? && d.value.state == Completed && d.value.reason == "target_reached"
  {
    hide Inv, Reconciled, AfterLook, AfterFailing, Exec, DriftReason;
    RoomForVerdict(c);
    NothingDone(c);
    var es := ([Cancel] + [Ended(run)]) + [Recheck];
    assert [Cancel, Ended(run), Recheck, Finish(TargetReached)] == es + [Finish(TargetReached)];
    assert [Cancel] == [] + [Cancel];
    ExecSnoc(c, [], Cancel);
    ExecSnoc(c, [Cancel], Ended(run));
    ExecSnoc(c, [Cancel] + [Ended(run)], Recheck);
    ExecSnoc(c, es, Finish(TargetReached));
  }

  // ----- When a batch is left active without a worker -----

  predicate Stranded(c: Campaign) { Active(c.state) && c.phase == Idle }

  /** A batch becomes stranded exactly when its worker exits and leaves the row active. */
  lemma {:induction false} StrandsIff(c: Campaign, e: Event)
    requires Enabled(c, e) && !Stranded(c)
    ensures Stranded(Apply(c, e)) <==> e.WorkerExit? && Active(c.state)
  {
    hide Judged, Noted, NewestOpen;
  }

  predicate LeavesActive(c: Campaign) { c.phase == Exiting && Active(c.state) }

  /**
   The row of an exiting worker becomes active exactly when the worker turns away, or by a cancel request after its
   stop.
   */
  lemma {:induction false} LeavesActiveIff(c: Campaign, e: Event)
    requires Inv(c) && Enabled(c, e) && !LeavesActive(c)
    ensures LeavesActive(Apply(c, e)) <==> e.Decline? || (e.Cancel? && c.phase == Exiting && !Terminal(c.state))
  {
    hide Judged, Reconciled, Noted, NewestOpen, CountersAgree, WithinLimits, OpenRunIsNewest;
  }

  /** The campaign before event i. */
  function Before(c: Campaign, es: seq<Event>, i: nat): Campaign
    requires i < |es| && Exec(c, es).Some?
  {
    ExecPrefix(c, es, i);
    Exec(c, es[..i]).value
  }

  lemma {:induction false} ExecPrefix(c: Campaign, es: seq<Event>, i: nat)
    requires i <= |es| && Exec(c, es).Some?
    ensures Exec(c, es[..i]).Some?
  {
    hide Enabled, Apply;
    if i == |es| {
      assert es[..i] == es;
    } else {
      assert es[..|es| - 1][..i] == es[..i];
      ExecPrefix(c, es[..|es| - 1], i);
    }
  }

  /** Event i is an exit that left the row active, and no cancel or restart came since. */
  predicate LeftAt(c: Campaign, es: seq<Event>, i: nat)
    requires i < |es| && Exec(c, es).Some?
  {
    es[i].WorkerExit? && Active(Before(c, es, i).state) && forall k | i < k < |es| :: !es[k].Cancel? && !es[k].Restart?
  }

  lemma {:induction false} LeftSnoc(c: Campaign, es: seq<Event>, i: nat)
    requires i < |es| - 1 && Exec(c, es).Some?
    ensures LeftAt(c, es, i) <==>
              LeftAt(c, es[..|es| - 1], i) && !es[|es| - 1].Cancel? && !es[|es| - 1].Restart?
  {
    hide Exec, Active;
    ExecPrefix(c, es, |es| - 1);
    var front := es[..|es| - 1];
    assert es[..i] == front[..i];
    if LeftAt(c, front, i) && !es[|es| - 1].Cancel? && !es[|es| - 1].Restart? {
      assert forall k | i < k < |front| :: es[k] == front[k];
    }
  }

  /**
   Over every history: a batch is stranded exactly if some exit left it active, and no cancel or restart came since.
   */
  lemma {:induction false} StrandedSince(c: Campaign, es: seq<Event>)
    requires Exec(c, es).Some? && !Stranded(c)
    ensures Stranded(Exec(c, es).value) <==> exists i | 0 <= i < |es| :: LeftAt(c, es, i)
  {
    hide Enabled, Apply, Active, LeftAt;
    if es != [] {
      var front, e, n := es[..|es| - 1], es[|es| - 1], |es| - 1;
      StrandedSince(c, front);
      StrandedStep(Exec(c, front).value, e);
      LastLeft(c, es);
      forall i | 0 <= i < n
        ensures LeftAt(c, es, i) <==> LeftAt(c, front, i) && !e.Cancel? && !e.Restart?
      {
        LeftSnoc(c, es, i);
      }
    }
  }

  lemma {:induction false} LastLeft(c: Campaign, es: seq<Event>)
    requires es != [] && Exec(c, es).Some?
    ensures Exec(c, es[..|es| - 1]).Some?
    ensures LeftAt(c, es, |es| - 1) <==> es[|es| - 1].WorkerExit? && Active(Exec(c, es[..|es| - 1]).value.state)
  {
  }

  lemma {:induction false} StrandedStep(c: Campaign, e: Event)
    requires Enabled(c, e)
    ensures Stranded(c) && e.WorkerExit? ==> false
    ensures Stranded(Apply(c, e)) <==>
              (e.WorkerExit? && Active(c.state)) || (Stranded(c) && !e.Cancel? && !e.Restart?)
  {
    hide Judged, Noted, NewestOpen;
  }

  /** A request came before the worker's first look at the row. */
  predicate AskedEarly(c: Campaign, es: seq<Event>)
    requires Exec(c, es).Some?
  {
    exists i | 0 <= i < |es| :: IsRequest(es[i]) && Before(c, es, i).phase == Claimed
  }

  /** A cancel request came after the worker had paused the batch, and before its exit. */
  predicate CancelledLate(c: Campaign, es: seq<Event>)
    requires Exec(c, es).Some?
  {
    exists i | 0 <= i < |es| :: es[i].Cancel? && Before(c, es, i).phase == Exiting && Before(c, es, i).state == Paused
  }

  lemma {:induction false} AskedSnoc(c: Campaign, es: seq<Event>, e: Event)
    requires Exec(c, es).Some? && Enabled(Exec(c, es).value, e)
    ensures Exec(c, es + [e]) == Some(Apply(Exec(c, es).value, e))
    ensures AskedEarly(c, es + [e]) <==> AskedEarly(c, es) || (IsRequest(e) && Exec(c, es).value.phase == Claimed)
    ensures CancelledLate(c, es + [e]) <==>
              || CancelledLate(c, es)
              || (e.Cancel? && Exec(c, es).value.phase == Exiting && Exec(c, es).value.state == Paused)
  {
    hide Enabled, Apply;
    ExecSnoc(c, es, e);
    var more := es + [e];
    assert more[..|es|] == es && more[|es|] == e;
    assert Before(c, more, |es|) == Exec(c, es).value;
    forall i | 0 <= i < |es|
      ensures Before(c, more, i) == Before(c, es, i) && more[i] == es[i]
    {
      assert more[..i] == es[..i];
    }
  }

  /** What the worker's place and the row say about the requests so far. */
  predicate Traced(d: Campaign, early: bool, late: bool) {
    match d.phase
    case Idle => false
    case Claimed => Active(d.state) && (early <==> d.state != Running) && !late
    case Exiting =>
      && (Active(d.state) <==> early || late)
      && (d.state == Paused || Terminal(d.state) || d.state == PauseRequested || d.state == BatchState.CancelRequested)
    case _ => Active(d.state) && !early && !late
  }

  lemma {:induction false} TracedStep(d: Campaign, e: Event, early: bool, late: bool)
    requires Traced(d, early, late) && Enabled(d, e) && !e.Restart? && !e.WorkerExit?
    ensures Traced(Apply(d, e), early || (IsRequest(e) && d.phase == Claimed),
                   late || (e.Cancel? && d.phase == Exiting && d.state == Paused))
  {
    hide Judged, Reconciled, NewestOpen, VersionDrift;
    if e.Ended? {
      JudgedKeepsPhase(d, e.run);
    }
  }

  lemma {:induction false} WorkerTraced(c: Campaign, es: seq<Event>)
    requires c.phase == Idle && Claimable(c.state) && es != [] && es[0].Claim? && OneWorker(es) && Exec(c, es).Some?
    ensures Traced(Exec(c, es).value, AskedEarly(c, es), CancelledLate(c, es))
  {
    hide Enabled, Apply, Traced;
    var front, e := es[..|es| - 1], es[|es| - 1];
    assert es == front + [e];
    AskedSnoc(c, front, e);
    if front == [] {
      ClaimTraced(c);
    } else {
      WorkerTraced(c, front);
      TracedStep(Exec(c, front).value, e, AskedEarly(c, front), CancelledLate(c, front));
    }
  }

  lemma {:induction false} ClaimTraced(c: Campaign)
    requires c.phase == Idle && Claimable(c.state)
    ensures Traced(Apply(c, Claim), false, false)
  {
  }

  /**
   The stranding theorem. From a claim to the worker's exit, whatever is requested meanwhile, the batch is left
   active without a worker if and only if a pause or a cancellation was requested before the worker's first look, or
   a cancellation after the worker had paused the batch.
   */
  lemma {:induction false} WorkerStrandsIff(c: Campaign, es: seq<Event>)
    requires c.phase == Idle && Claimable(c.state) && es != [] && es[0].Claim? && OneWorker(es)
    requires Exec(c, es).Some? && Enabled(Exec(c, es).value, WorkerExit)
    ensures Stranded(Apply(Exec(c, es).value, WorkerExit)) <==> AskedEarly(c, es) || CancelledLate(c, es)
  {
    WorkerTraced(c, es);
  }

  // ----- What a look leads to -----

  /** The worker has decided to stop, or there is none at work. */
  predicate Leaving(p: Phase) { p.Stopping? || p == Exiting || p == Idle }

  lemma {:induction false} LeavingStep(c: Campaign, e: Event)
    requires Enabled(c, e) && Leaving(c.phase) && !e.Claim?
    ensures Leaving(Apply(c, e).phase) && !e.Begin?
    ensures c.phase.Stopping? && e.Finish? ==> e.why == c.phase.why
    ensures c.phase.Stopping? && Apply(c, e).phase.Stopping? ==> Apply(c, e).phase == c.phase
  {
    hide Judged, Noted, ReasonOf, StateOf, AfterVerdict, AfterFailing, StopsAfterLook;
    if e.Restart? {
      RestartIdles(c, e.found);
    }
  }

  /** Once the worker has decided to stop, no attempt begins until the batch is claimed again. */
  lemma {:induction false} NoAttemptFollows(c: Campaign, es: seq<Event>)
    requires Leaving(c.phase) && Exec(c, es).Some? && forall i | 0 <= i < |es| :: !es[i].Claim?
    ensures Leaving(Exec(c, es).value.phase) && forall i | 0 <= i < |es| :: !es[i].Begin?
  {
    hide Enabled, Apply, Leaving;
    if es != [] {
      var front := es[..|es| - 1];
      assert forall i | 0 <= i < |front| :: front[i] == es[i];
      NoAttemptFollows(c, front);
      LeavingStep(Exec(c, front).value, es[|es| - 1]);
    }
  }

  /** The worker can stop, and if it does, that is the state and the reason it leaves. */
  predicate MayStopAs(c: Campaign, why: Stop, state: BatchState, reason: string) {
    && Enabled(c, Finish(why))
    && Apply(c, Finish(why)).state == state && Apply(c, Finish(why)).reason == reason
  }

  /** It has decided to. */
  predicate StopsAs(c: Campaign, why: Stop, state: BatchState, reason: string) {
    c.phase == Stopping(why) && MayStopAs(c, why, state, reason)
  }

  /**
   A look at which there is something to stop for is the worker's last: it stops for a cancellation before the deadline,
   for the deadline before a pause, in the state and with the reason that belong to it, and no attempt begins until the
   batch is claimed again.
   */
  lemma {:induction false} LookStops(c: Campaign, late: bool, asleep: bool, es: seq<Event>)
    requires c.phase == Top && (late || c.state == BatchState.CancelRequested || c.state == PauseRequested)
    requires Exec(Apply(c, Look(late, asleep)), es).Some? && forall i | 0 <= i < |es| :: !es[i].Claim?
    ensures forall i | 0 <= i < |es| :: !es[i].Begin?
    ensures var d := Apply(c, Look(late, asleep));
            if c.state == BatchState.CancelRequested
            then StopsAs(d, UserCancelled, BatchState.Cancelled, "user_cancelled")
            else if late then StopsAs(d, DeadlineReached, Completed, "deadline_reached")
            else StopsAs(d, UserPaused, Paused, "user_paused")
  {
    hide Judged, Noted, Reconciled;
    NoAttemptFollows(Apply(c, Look(late, asleep)), es);
  }

  /**
   Past a look the target comes first, then the number of attempts, then the failures in a row; an attempt begins if and
   only if none of them stops the worker.
   */
  lemma {:induction false} LimitsStop(c: Campaign)
    requires c.phase == Looked
    ensures if c.valid >= c.cfg.target then MayStopAs(c, TargetReached, Completed, "target_reached")
            else if c.attemptCount >= c.cfg.maxAttempts
            then MayStopAs(c, MaxAttempts, BatchState.Failed, "max_attempts_reached")
            else if c.consecutive >= c.cfg.maxFailures && c.consecutive > 0
            then MayStopAs(c, TooManyFailures, Paused, "max_consecutive_failures")
            else Enabled(c, Begin)
    ensures Enabled(c, Begin) <==>
              !Enabled(c, Finish(TargetReached)) && !Enabled(c, Finish(MaxAttempts)) &&
              !Enabled(c, Finish(TooManyFailures))
  {
    hide Judged, Noted, Reconciled;
  }

  /** Changed code pauses the batch before an attempt, a changed test node after a run, each with its own reason. */
  lemma {:induction false} DriftStops(c: Campaign, run: RunOutcome)
    ensures c.phase == Looked ==>
              && MayStopAs(c, CodeDrift(ProtocolHash), Paused, "PROTOCOL_HASH_CHANGED")
              && MayStopAs(c, CodeDrift(ApplicationVersion), Paused, "APPLICATION_VERSION_CHANGED")
              && !Enabled(c, Finish(CodeDrift(TestNodeVersion)))
    ensures Enabled(c, Drifted(run)) ==>
              StopsAs(Apply(c, Drifted(run)), CodeDrift(TestNodeVersion), Paused, "TEST_NODE_VERSION_CHANGED")
  {
    hide Judged, Reconciled;
  }

  /** After a verdict a pause comes first, then the target, then the number of attempts; and nothing else stops. */
  lemma {:induction false} VerdictStops(c: Campaign)
    requires c.phase == Judging
    ensures var d := Apply(c, Recheck);
            if c.state == PauseRequested then StopsAs(d, UserPaused, Paused, "user_paused")
            else if c.valid >= c.cfg.target then StopsAs(d, TargetReached, Completed, "target_reached")
            else if c.attemptCount >= c.cfg.maxAttempts
            then StopsAs(d, MaxAttempts, BatchState.Failed, "max_attempts_reached")
            else d.phase == Top
  {
    hide Judged, Noted, Reconciled;
  }

  /**
   So a pause requested during the run that meets the target leaves the batch paused with its target met; resumed, it is
   completed without another attempt.
   */
  lemma {:induction false} PauseDelaysTarget(c: Campaign)
    requires c.phase == Judging && c.state == PauseRequested && TargetMet(c)
    ensures var p := Exec(c, [Recheck, Finish(UserPaused), WorkerExit]);
            && p.Some? && p.value.state == Paused && p.value.attempts == c.attempts
            && (var d := Exec(p.value, [Claim, Enter, Look(false, false), Finish(TargetReached)]);
                d.Some? && d.value.state == Completed && d.value.attempts == c.attempts)
  {
    hide Exec, Judged, Noted, Reconciled;
    NothingDone(c);
    ExecSnoc(c, [], Recheck);
    ExecSnoc(c, [] + [Recheck], Finish(UserPaused));
    ExecSnoc(c, [] + [Recheck] + [Finish(UserPaused)], WorkerExit);
    assert [Recheck, Finish(UserPaused), WorkerExit] == [] + [Recheck] + [Finish(UserPaused)] + [WorkerExit];
    var p := Exec(c, [Recheck, Finish(UserPaused), WorkerExit]).value;
    NothingDone(p);
    var es := [] + [Claim] + [Enter] + [Look(false, false)];
    ExecSnoc(p, [], Claim);
    ExecSnoc(p, [] + [Claim], Enter);
    ExecSnoc(p, [] + [Claim] + [Enter], Look(false, false));
    ExecSnoc(p, es, Finish(TargetReached));
    assert [Claim, Enter, Look(false, false), Finish(TargetReached)] == es + [Finish(TargetReached)];
  }
}
