/**
 The batch runner: the fields of one batch row, and the loop of the worker that drives it.

 Every commit is one event of module Batch. The ghost trace holds the events so far, and `Consistent` says that
 the row is exactly what those events make of a new batch: what is proved there of every campaign holds for
 this class at every commit. Pause and cancel requests arrive before any commit and any reading of the row. The
 precondition check, the run, the deadline and the code versions are free choices.
 */
module BatchRunner {
  import opened Batch
  import opened SetFacts
  import RunStateMachine

  /** None of the attempts from number n + 1 on is open. */
  predicate ClosedSince(attempts: seq<Attempt>, n: nat) {
    forall i | n <= i < |attempts| :: !Open(attempts[i])
  }

  /** What a worker that has stopped says of the batch is true. */
  predicate Justified(c: Campaign) {
    match c.state
    case Completed => c.reason == "deadline_reached" || (c.reason == "target_reached" && c.valid == c.cfg.target)
    case Failed => c.reason == "benchmark protocol not found" || (
                     && c.reason == "max_attempts_reached"
                     && c.attemptCount == c.cfg.maxAttempts && c.valid < c.cfg.target)
    case Cancelled => c.reason == "user_cancelled"
    case Paused =>
      || c.reason == "user_paused" || (exists drift :: c.reason == DriftReason(drift))
      || (c.reason == "max_consecutive_failures" && c.consecutive == Max(1, c.cfg.maxFailures))
    case _ => false
  }

  lemma {:induction false} FinishIsJustified(c: Campaign, why: Stop)
    requires Inv(c) && Enabled(c, Finish(why))
    ensures Justified(Apply(c, Finish(why)))
  {
    ReasonsAreTrue(c, why);
    if why.CodeDrift? {
      assert Apply(c, Finish(why)).reason == DriftReason(why.drift);
    }
  }

  /** Only the newest attempt has changed. */
  predicate NewestChanged(was: seq<Attempt>, now: seq<Attempt>) {
    |now| == |was| > 0 && now[..|now| - 1] == was[..|was| - 1]
  }

  /** Only the newest attempt has changed, and it is over. */
  predicate NewestEnded(was: seq<Attempt>, now: seq<Attempt>) {
    NewestChanged(was, now) && !Open(now[|now| - 1])
  }

  /** Attempts have been added, and if the worker got to the end of them, none of those is open. */
  predicate Grown(was: seq<Attempt>, now: seq<Attempt>, ended: bool) {
    was <= now && (ended ==> ClosedSince(now, |was|))
  }

  lemma {:induction false} OneMore(was: seq<Attempt>, begun: seq<Attempt>, now: seq<Attempt>)
    requires |begun| == |was| + 1 && was <= begun && NewestChanged(begun, now)
    ensures |now| == |was| + 1 && Grown(was, now, !Open(now[|now| - 1]))
  {
    assert now[..|was|] == begun[..|was|] == was;
  }

  lemma {:induction false} JudgedEnds(c: Campaign, run: RunOutcome)
    requires c.attempts != []
    ensures NewestEnded(c.attempts, Judged(c, |c.attempts| - 1, run).attempts)
  {
  }

  lemma {:induction false} SkippedEnds(c: Campaign, code: string)
    requires Enabled(c, PreconditionFailed(code))
    ensures NewestEnded(c.attempts, Apply(c, PreconditionFailed(code)).attempts)
    ensures Apply(c, PreconditionFailed(code)).phase == AfterFailing(Apply(c, PreconditionFailed(code)), code)
  {
  }

  /** What requests can make of the state of a batch that has a worker. */
  predicate Requested(was: BatchState, now: BatchState) {
    now == was || (was == Running && now == PauseRequested) || (!Terminal(was) && now == BatchState.CancelRequested)
  }

  /** Some requests came in, and then the event happened. */
  predicate Then(was: seq<Event>, now: seq<Event>, e: Event) {
    && |was| < |now| && was <= now && now[|now| - 1] == e
    && forall i | |was| <= i < |now| - 1 :: now[i].Pause? || now[i].Cancel?
  }

  lemma {:induction false} StillThere(was: seq<Event>, now: seq<Event>, lo: nat, e: Event)
    requires lo < |was| && was <= now && was[|was| - 1] == e
    ensures e in now[lo..]
  {
    assert now[lo..][|was| - 1 - lo] == e;
  }

  lemma {:induction false} ErrorIs(c: Campaign, message: string)
    requires PhaseFits(c) && Working(c.phase)
    ensures Enabled(c, WorkerError(message)) && !Terminal(c.state)
    ensures Apply(c, WorkerError(message)) == c.(state := BatchState.Failed, reason := message, phase := Exiting)
  {
  }

  lemma {:induction false} FinishIs(c: Campaign, why: Stop)
    requires Enabled(c, Finish(why))
    ensures Apply(c, Finish(why)) == c.(state := StateOf(why), reason := ReasonOf(why), phase := Exiting)
  {
  }

  lemma {:induction false} EndedIs(c: Campaign, run: RunOutcome)
    requires Enabled(c, Ended(run))
    ensures Noted(c, run).attempts == c.attempts != [] && Noted(c, run).phase == c.phase == InRun
    ensures Apply(c, Ended(run)) == Judged(Noted(c, run), |c.attempts| - 1, run).(phase := Judging)
    ensures Judged(Noted(c, run), |c.attempts| - 1, run).state == c.state && Noted(c, run).state == c.state
  {
  }

  /** No request keeps the worker from stopping. */
  lemma {:induction false} StopsAnyway(c: Campaign, state: BatchState, reason: string, why: Stop)
    requires Enabled(c, Finish(why))
    ensures Enabled(c.(state := state, reason := reason), Finish(why)) && c.phase != Idle
  {
  }

  class TestBatch {
    const cfg: Config
    const retryDelay: int
    const cooldown: int
    var state: BatchState
    var reason: string
    var attempts: seq<Attempt>
    var attemptCount: nat
    var validRunCount: nat
    var invalidRunCount: nat
    var failedAttemptCount: nat
    var consecutiveFailureCount: nat
    var expectedVersion: string
    var cancelEvent: bool
    ghost const origin: Campaign
    ghost var phase: Phase
    ghost var trace: seq<Event>

    ghost function Snapshot(): Campaign
      reads this
    {
      Campaign(cfg, state, reason, attempts, attemptCount, validRunCount, invalidRunCount, failedAttemptCount,
               consecutiveFailureCount, expectedVersion, phase)
    }

    ghost predicate Consistent()
      reads this
    {
      Exec(origin, trace) == Some(Snapshot()) && Inv(origin) && EventInRow()
    }

    /** While the worker has not stopped, the cancel event is set only if the row asks for cancellation, too. */
    ghost predicate EventInRow()
      reads this
    {
      cancelEvent && (Working(phase) || phase == Claimed) ==> state == BatchState.CancelRequested
    }

    lemma {:induction false} KeepsInv()
      requires Consistent()
      ensures Inv(Snapshot())
    {
      ExecKeepsInv(origin, trace);
    }

    constructor (cfg: Config, retryDelay: int, cooldown: int, scheduled: bool)
      ensures Consistent() && trace == [] && this.cfg == cfg
      ensures origin == Fresh(cfg, if scheduled then Scheduled else Draft)
    {
      this.cfg, this.retryDelay, this.cooldown := cfg, retryDelay, cooldown;
      state := if scheduled then Scheduled else Draft;
      reason, attempts, expectedVersion, cancelEvent := "", [], "", false;
      attemptCount, validRunCount, invalidRunCount, failedAttemptCount, consecutiveFailureCount := 0, 0, 0, 0, 0;
      origin := Fresh(cfg, if scheduled then Scheduled else Draft);
      phase, trace := Idle, [];
    }

    /** The commit: the row now is what the event makes of the row before. */
    ghost method Commit(before: Campaign, e: Event)
      requires Exec(origin, trace) == Some(before) && Inv(origin) && Enabled(before, e)
      requires Snapshot() == Apply(before, e) && EventInRow()
      modifies this`trace
      ensures Consistent() && trace == old(trace) + [e]
    {
      ExecSnoc(origin, trace, e);
      trace := trace + [e];
    }

    method FinishBatch(why: Stop)
      requires Consistent() && Enabled(Snapshot(), Finish(why))
      modifies this`state, this`reason, this`cancelEvent, this`phase, this`trace
      ensures Consistent() && Then(old(trace), trace, Finish(why))
      ensures state == StateOf(why) && reason == ReasonOf(why) && phase == Exiting
      ensures Stopped()
    {
      hide Exec, Inv, Apply, Enabled, StateOf, ReasonOf;
      ghost var earlier := Snapshot();
      StopsAnyway(earlier, state, reason, why);
      Meanwhile();
      ghost var before := Snapshot();
      StopsAnyway(earlier, state, reason, why);
      FinishIs(before, why);
      state, reason, phase := StateOf(why), ReasonOf(why), Exiting;
      Commit(before, Finish(why));
    }

    /** The last thing that happened is that the worker stopped. */
    ghost predicate Stopped()
      reads this
    {
      phase == Exiting && trace != [] && trace[|trace| - 1].Finish?
    }

    /** The last thing that happened is that the controls stopped the worker. */
    ghost predicate StoppedByControls()
      reads this
    {
      Stopped() && trace[|trace| - 1].why in {UserCancelled, DeadlineReached, UserPaused}
    }

    lemma {:induction false} StoppedIsJustified()
      requires Consistent() && Stopped()
      ensures Justified(Snapshot())
    {
      ghost var before := trace[..|trace| - 1];
      ExecKeepsInv(origin, before);
      FinishIsJustified(Exec(origin, before).value, trace[|trace| - 1].why);
    }

    /** The claim: the batch is running, its event is clear, and a worker is on its way. */
    method Claim()
      requires Consistent() && phase == Idle && Claimable(state)
      modifies this`state, this`reason, this`cancelEvent, this`phase, this`trace
      ensures Consistent() && trace == old(trace) + [Event.Claim]
      ensures state == Running && phase == Claimed && !cancelEvent
    {
      hide Exec, Inv, Judged, Reconciled;
      ghost var before := Snapshot();
      state, reason, cancelEvent, phase := Running, "", false, Claimed;
      Commit(before, Event.Claim);
    }

    // ----- Requests from outside -----

    method RequestPause()
      requires Consistent()
      modifies this`state, this`reason, this`trace
      ensures Consistent() && trace == old(trace) + [Pause] && Requested(old(state), state)
    {
      hide Exec;
      ghost var before := Snapshot();
      if state == Running {
        state, reason := PauseRequested, "user_paused";
      }
      Commit(before, Pause);
    }

    method RequestCancel()
      requires Consistent() && phase != Idle
      modifies this`state, this`reason, this`cancelEvent, this`trace
      ensures Consistent() && trace == old(trace) + [Cancel] && Requested(old(state), state)
      ensures cancelEvent
    {
      hide Exec, Judged, Noted, Reconciled, AfterLook, AfterFailing, AfterVerdict, CountersAgree, WithinLimits,
          OpenRunIsNewest;
      KeepsInv();
      ghost var before := Snapshot();
      cancelEvent := true;
      if !Terminal(state) {
        state, reason := BatchState.CancelRequested, "user_cancelled";
      }
      Commit(before, Cancel);
    }

    /** Time passes: any number of requests may come in. */
    method Meanwhile()
      requires Consistent() && phase != Idle
      modifies this`state, this`reason, this`cancelEvent, this`trace
      ensures Consistent() && old(trace) <= trace
      ensures forall i | |old(trace)| <= i < |trace| :: trace[i].Pause? || trace[i].Cancel?
      ensures Requested(old(state), state) && (old(cancelEvent) ==> cancelEvent)
    {
      hide Exec;
      var requests: nat := *;
      while requests > 0
        invariant Consistent() && old(trace) <= trace
        invariant forall i | |old(trace)| <= i < |trace| :: trace[i].Pause? || trace[i].Cancel?
        invariant Requested(old(state), state) && (old(cancelEvent) ==> cancelEvent)
        decreases requests
      {
        requests := requests - 1;
        if * {
          RequestPause();
        } else {
          RequestCancel();
        }
      }
    }

    // ----- One look at the controls -----

    /**
     Stop if asked to, or if the time is up. The worker goes on only if no request is pending, and a request that
     is in by now stops it: a cancellation comes before the deadline, and the deadline before a pause.
     */
    method Controls(ghost asleep: bool) returns (stopped: bool)
      requires Consistent() && phase == Top
      modifies this`state, this`reason, this`cancelEvent, this`phase, this`trace
      ensures Consistent() && old(trace) <= trace
      ensures !stopped ==> phase == (if asleep then Top else Looked) && state == Running && !cancelEvent
      ensures stopped ==> StoppedByControls()
      ensures old(cancelEvent) || old(state) == BatchState.CancelRequested ==> stopped && state == BatchState.Cancelled
      ensures old(state) == PauseRequested ==> stopped
    {
      hide Exec, Inv, Apply, ReasonOf, StopsAfterLook, Consistent;
      Meanwhile();
      var deadlineReached: bool := *;
      Read(deadlineReached, asleep);
      if state == BatchState.CancelRequested || cancelEvent {
        FinishBatch(UserCancelled);
        return true;
      }
      if deadlineReached {
        FinishBatch(DeadlineReached);
        return true;
      }
      if state == PauseRequested {
        FinishBatch(UserPaused);
        return true;
      }
      return false;
    }

    /** Read the row: what it says by now decides where the worker goes. */
    ghost method Read(late: bool, asleep: bool)
      requires Consistent() && phase == Top
      modifies this`phase, this`trace
      ensures Consistent() && trace == old(trace) + [Look(late, asleep)]
      ensures phase == AfterLook(old(Snapshot()), late, asleep) && (cancelEvent ==> state == BatchState.CancelRequested)
      ensures Active(state)
    {
      hide Exec, Judged, Reconciled, CountersAgree, WithinLimits, OpenRunIsNewest;
      KeepsInv();
      ghost var before := Snapshot();
      phase := AfterLook(before, late, asleep);
      Commit(before, Look(late, asleep));
    }

    /** Sleep in short naps, looking at the controls before each; every round takes some time of the clock. */
    method SleepWithControls(seconds: int) returns (stopped: bool)
      requires Consistent() && phase == Top
      modifies this`state, this`reason, this`cancelEvent, this`phase, this`trace
      ensures Consistent() && old(trace) <= trace
      ensures !stopped ==> phase == Top
      ensures stopped ==> StoppedByControls()
      ensures seconds <= 0 ==> !stopped && trace == old(trace)
      ensures seconds <= 0 ==> state == old(state) && cancelEvent == old(cancelEvent)
      ensures seconds > 0 && old(cancelEvent) ==> stopped && state == BatchState.Cancelled
    {
      hide Exec, AfterLook;
      var now, deadline := 0, Max(0, seconds);
      while now < deadline
        invariant Consistent() && phase == Top && old(trace) <= trace
        invariant now == 0 ==> trace == old(trace) && state == old(state) && cancelEvent == old(cancelEvent)
        invariant seconds <= 0 ==> now == 0
        invariant now > 0 ==> !old(cancelEvent)
        decreases deadline - now
      {
        stopped := Controls(true);
        if stopped {
          return;
        }
        var nap: int := *;
        now := now + Max(1, nap);
      }
      return false;
    }

    // ----- Attempts -----

    method BeginAttempt()
      requires Consistent() && phase == Looked && MayBegin(Snapshot())
      modifies this`attempts, this`attemptCount,
               this`state, this`reason, this`cancelEvent, this`phase, this`trace
      ensures Consistent() && Then(old(trace), trace, Begin)
      ensures phase == Checking && attemptCount == old(attemptCount) + 1
      ensures attempts == old(attempts) + [Attempt(attemptCount, CheckingPreconditions, NoOutcome, false, "")]
    {
      hide Exec, Inv, Judged, Reconciled, ReasonOf;
      Meanwhile();
      ghost var before := Snapshot();
      attemptCount := attemptCount + 1;
      attempts := attempts + [Attempt(attemptCount, CheckingPreconditions, NoOutcome, false, "")];
      phase := Checking;
      Commit(before, Begin);
    }

    /** The newest attempt ends with its preconditions, and the counters with it. */
    method SkipAttempt(code: string)
      requires phase == Checking && attempts != []
      modifies this`attempts, this`failedAttemptCount, this`consecutiveFailureCount, this`phase
      ensures Snapshot() == Apply(old(Snapshot()), PreconditionFailed(code))
    {
      hide Judged, Reconciled, NewestOpen;
      phase := AfterFailing(Snapshot(), code);
      var last := |attempts| - 1;
      if code == "USER_CANCELLED" {
        attempts := attempts[last := attempts[last].(state := CancelledAttempt, outcome := ByUser)];
      } else {
        attempts := attempts[last := attempts[last].(state := Skipped, outcome := Unmet(code))];
        failedAttemptCount := failedAttemptCount + 1;
        consecutiveFailureCount := consecutiveFailureCount + 1;
      }
    }

    method FinishPreconditionFailure(code: string)
      requires Consistent() && phase == Checking && attempts != []
      modifies this`attempts, this`failedAttemptCount, this`consecutiveFailureCount,
               this`state, this`reason, this`cancelEvent, this`phase, this`trace
      ensures Consistent() && Then(old(trace), trace, PreconditionFailed(code))
      ensures phase == AfterFailing(Snapshot(), code)
      ensures NewestEnded(old(attempts), attempts)
      ensures old(cancelEvent) ==> cancelEvent
    {
      hide Exec, Inv, Apply;
      Meanwhile();
      ghost var before := Snapshot();
      SkippedEnds(before, code);
      SkipAttempt(code);
      Commit(before, PreconditionFailed(code));
    }

    /** The attempt is under way, and then its run has a number. */
    method StartRun()
      requires Consistent() && phase == Checking && attempts != []
      modifies this`attempts, this`state, this`reason, this`cancelEvent, this`phase, this`trace
      ensures Consistent() && Then(old(trace), trace, PreconditionOk)
      ensures phase == Starting && NewestChanged(old(attempts), attempts)
    {
      hide Exec;
      Meanwhile();
      ghost var before := Snapshot();
      var last := |attempts| - 1;
      attempts := attempts[last := attempts[last].(state := Executing)];
      phase := Starting;
      Commit(before, PreconditionOk);
    }

    method LinkRun()
      requires Consistent() && phase == Starting && attempts != []
      modifies this`attempts, this`state, this`reason, this`cancelEvent, this`phase, this`trace
      ensures Consistent() && Then(old(trace), trace, Link)
      ensures phase == InRun && NewestChanged(old(attempts), attempts)
    {
      hide Exec;
      Meanwhile();
      ghost var before := Snapshot();
      var last := |attempts| - 1;
      attempts := attempts[last := attempts[last].(hasRun := true)];
      phase := InRun;
      Commit(before, Link);
    }

    /** The verdict on attempt i and the counters that go with it. */
    method FinishAttempt(i: nat, run: RunOutcome)
      requires i < |attempts|
      modifies this`attempts, this`validRunCount, this`invalidRunCount, this`failedAttemptCount,
               this`consecutiveFailureCount
      ensures Snapshot() == Judged(old(Snapshot()), i, run)
    {
      var a := attempts[i].(hasRun := true, version := run.version);
      var success := run.state == RunStateMachine.Completed;
      if success && (run.eligible || !cfg.eligibleOnly) {
        attempts := attempts[i := a.(state := Valid, outcome := if run.eligible then Ok else OkDiagnostic)];
        validRunCount := validRunCount + 1;
        consecutiveFailureCount := 0;
      } else if run.state == RunStateMachine.Cancelled {
        attempts := attempts[i := a.(state := CancelledAttempt, outcome := ByUser)];
        consecutiveFailureCount := consecutiveFailureCount + 1;
      } else if run.state == RunStateMachine.Completed {
        attempts := attempts[i := a.(state := Invalid, outcome := IneligibleRun)];
        invalidRunCount := invalidRunCount + 1;
        consecutiveFailureCount := 0;
      } else {
        attempts := attempts[i := a.(state := FailedAttempt, outcome := RunEndedAs(run.state))];
        failedAttemptCount := failedAttemptCount + 1;
        consecutiveFailureCount := consecutiveFailureCount + 1;
      }
    }

    /** The first version seen becomes the expected one; any other is drift. */
    method RecordVersion(run: RunOutcome) returns (drift: bool)
      modifies this`expectedVersion
      ensures Snapshot() == Noted(old(Snapshot()), run) && drift == VersionDrift(Snapshot(), run)
    {
      if run.version != "" && expectedVersion == "" {
        expectedVersion := run.version;
      }
      drift := expectedVersion != "" && run.version != "" && expectedVersion != run.version;
    }

    method CommitDrift(ghost before: Campaign, run: RunOutcome)
      requires Exec(origin, trace) == Some(before) && Inv(origin) && Enabled(before, Drifted(run))
      requires Snapshot() == Noted(before, run) && EventInRow()
      modifies this`attempts, this`phase, this`trace
      ensures Consistent() && trace == old(trace) + [Drifted(run)] && phase == Stopping(CodeDrift(TestNodeVersion))
      ensures NewestEnded(old(attempts), attempts)
    {
      hide Exec, Inv, Judged, Reconciled, StateOf, ReasonOf;
      var last := |attempts| - 1;
      attempts := attempts[last := attempts[last].(state := Invalid, outcome := VersionChanged,
          version := run.version)];
      phase := Stopping(CodeDrift(TestNodeVersion));
      Commit(before, Drifted(run));
    }

    method CommitVerdict(ghost before: Campaign, run: RunOutcome)
      requires Exec(origin, trace) == Some(before) && Inv(origin) && Enabled(before, Ended(run))
      requires Snapshot() == Noted(before, run) && EventInRow()
      modifies this`attempts, this`validRunCount, this`invalidRunCount, this`failedAttemptCount,
               this`consecutiveFailureCount, this`phase, this`trace
      ensures Consistent() && trace == old(trace) + [Ended(run)] && phase == Judging
      ensures NewestEnded(old(attempts), attempts)
    {
      hide Exec, Inv, Apply, Judged, Noted;
      EndedIs(before, run);
      JudgedEnds(Snapshot(), run);
      FinishAttempt(|attempts| - 1, run);
      phase := Judging;
      Commit(before, Ended(run));
    }

    /** The run has ended: note the version of the test node, and judge the attempt unless the version has changed. */
    method EndRun(run: RunOutcome) returns (drift: bool)
      requires Consistent() && phase == InRun && attempts != []
      modifies this`attempts, this`validRunCount, this`invalidRunCount, this`failedAttemptCount,
               this`consecutiveFailureCount, this`expectedVersion,
               this`state, this`reason, this`cancelEvent, this`phase, this`trace
      ensures Consistent() && Then(old(trace), trace, if drift then Drifted(run) else Ended(run))
      ensures phase == (if drift then Stopping(CodeDrift(TestNodeVersion)) else Judging)
      ensures NewestEnded(old(attempts), attempts)
      ensures drift == VersionDrift(Noted(old(Snapshot()), run), run)
      ensures old(cancelEvent) ==> cancelEvent
    {
      hide Exec, Inv, Apply, Judged, NewestEnded;
      Meanwhile();
      ghost var before := Snapshot();
      drift := RecordVersion(run);
      if drift {
        CommitDrift(before, run);
      } else {
        CommitVerdict(before, run);
      }
    }

    // ----- The loop -----

    /** The limits, in the order in which the loop looks at them. */
    method StopAtLimits() returns (stopped: bool)
      requires Consistent() && phase == Looked
      modifies this`state, this`reason, this`cancelEvent, this`phase, this`trace
      ensures Consistent() && old(trace) <= trace
      ensures stopped == !MayBegin(old(Snapshot()))
      ensures stopped ==> Stopped()
      ensures !stopped ==> unchanged(this)
    {
      hide Exec, Inv, Apply, ReasonOf;
      if validRunCount >= cfg.target {
        FinishBatch(TargetReached);
      } else if attemptCount >= cfg.maxAttempts {
        FinishBatch(MaxAttempts);
      } else if consecutiveFailureCount >= cfg.maxFailures && consecutiveFailureCount > 0 {
        FinishBatch(TooManyFailures);
      } else {
        return false;
      }
      return true;
    }

    /** The preconditions did not hold. */
    method AfterFailure(code: string) returns (stopped: bool)
      requires Consistent() && phase == Checking && attempts != [] && validRunCount < cfg.target
      modifies this`attempts, this`failedAttemptCount, this`consecutiveFailureCount,
               this`state, this`reason, this`cancelEvent, this`phase, this`trace
      ensures Consistent() && old(trace) <= trace && NewestEnded(old(attempts), attempts)
      ensures stopped ==> Stopped()
      ensures !stopped ==> phase == Top && attemptCount < cfg.maxAttempts
      ensures code == "USER_CANCELLED" ==> stopped && state == BatchState.Cancelled
      ensures old(cancelEvent) ==>
                (!stopped || state == BatchState.Cancelled <==>
                 code == "USER_CANCELLED" || attemptCount < cfg.maxAttempts)
      ensures old(cancelEvent) && !stopped ==> cancelEvent
    {
      hide Exec, Inv, Apply, StopsAfterLook, ReasonOf, AfterLook, Consistent;
      FinishPreconditionFailure(code);
      if code == "USER_CANCELLED" {
        FinishBatch(UserCancelled);
        return true;
      }
      if attemptCount >= cfg.maxAttempts {
        FinishBatch(MaxAttempts);
        return true;
      }
      if retryDelay > 0 {
        stopped := SleepWithControls(retryDelay);
        return;
      }
      return false;
    }

    /** Read the row after a verdict. */
    ghost method Reconsider()
      requires Consistent() && phase == Judging
      modifies this`phase, this`trace
      ensures Consistent() && trace == old(trace) + [Recheck] && phase == AfterVerdict(Snapshot())
      ensures cancelEvent ==> state == BatchState.CancelRequested
    {
      hide Exec, Inv, Judged, Reconciled;
      ghost var before := Snapshot();
      phase := AfterVerdict(before);
      Commit(before, Recheck);
    }

    /** After a verdict: a pause, then the limits. A pending cancellation is not looked for. */
    method StopAfterVerdict() returns (stopped: bool)
      requires Consistent() && phase == Judging
      modifies this`state, this`reason, this`cancelEvent, this`phase, this`trace
      ensures Consistent() && old(trace) <= trace
      ensures stopped ==> Stopped() && state != BatchState.Cancelled
      ensures !stopped ==> phase == Top && state != PauseRequested
      ensures !stopped ==> validRunCount < cfg.target && attemptCount < cfg.maxAttempts
      ensures old(cancelEvent) && !stopped ==> cancelEvent
      ensures old(cancelEvent) ==> (!stopped <==> validRunCount < cfg.target && attemptCount < cfg.maxAttempts)
    {
      hide Exec, Inv, Apply, StopsAfterLook, ReasonOf, Consistent;
      Meanwhile();
      Reconsider();
      if state == PauseRequested {
        FinishBatch(UserPaused);
        return true;
      }
      if validRunCount >= cfg.target {
        FinishBatch(TargetReached);
        return true;
      }
      if attemptCount >= cfg.maxAttempts {
        FinishBatch(MaxAttempts);
        return true;
      }
      return false;
    }

    /**
     The run has ended. A cancellation that is pending by then is honoured, here or at the next look, if and only if
     the version has not changed, the target is still missed, and attempts are left.
     */
    method AfterRun(run: RunOutcome) returns (stopped: bool)
      requires Consistent() && phase == InRun && attempts != []
      modifies this
      ensures Consistent() && old(trace) <= trace && NewestEnded(old(attempts), attempts)
      ensures attemptCount == old(attemptCount)
      ensures stopped ==> Stopped()
      ensures !stopped ==> phase == Top && validRunCount < cfg.target && attemptCount < cfg.maxAttempts
      ensures !stopped && cooldown <= 0 ==> state != PauseRequested
      ensures old(cancelEvent) ==>
                (!stopped || state == BatchState.Cancelled <==>
                 && !VersionDrift(Noted(old(Snapshot()), run), run)
                 && validRunCount < cfg.target && attemptCount < cfg.maxAttempts)
      ensures old(cancelEvent) && !stopped ==> cancelEvent
    {
      hide Exec, Inv, Apply, Judged, Noted, VersionDrift, StopsAfterLook, ReasonOf, Consistent;
      var drift := EndRun(run);
      if drift {
        FinishBatch(CodeDrift(TestNodeVersion));
        return true;
      }
      stopped := StopAfterVerdict();
      if !stopped && cooldown > 0 {
        stopped := SleepWithControls(cooldown);
      }
    }

    /** The preconditions hold: create the run, link it, and let it run. Creating and running it may raise. */
    method RunAttempt() returns (stopped: bool, raised: Option<string>)
      requires Consistent() && phase == Checking && attempts != []
      modifies this
      ensures Consistent() && old(trace) <= trace && attemptCount == old(attemptCount)
      ensures NewestChanged(old(attempts), attempts)
      ensures raised.None? ==> NewestEnded(old(attempts), attempts) && if stopped then Stopped() else phase == Top
      ensures raised.Some? ==> Working(phase)
    {
      hide Exec, Inv, Apply, Enabled, Consistent, Stopped;
      StartRun();
      stopped, raised := false, *;
      if raised.Some? {
        return;
      }
      LinkRun();
      raised := *;
      if raised.Some? {
        return;
      }
      var run: RunOutcome := *;
      stopped := AfterRun(run);
    }

    /** One attempt: the preconditions, then the run. Checking the preconditions may raise, too. */
    method OneAttempt() returns (stopped: bool, raised: Option<string>)
      requires Consistent() && phase == Looked && MayBegin(Snapshot())
      modifies this
      ensures Consistent() && old(trace) <= trace && attemptCount == old(attemptCount) + 1
      ensures |attempts| == |old(attempts)| + 1 && Grown(old(attempts), attempts, raised.None?)
      ensures raised.None? ==> if stopped then Stopped() else phase == Top
      ensures raised.Some? ==> Working(phase)
    {
      hide Exec, Inv, Apply, Enabled, Consistent;
      BeginAttempt();
      ghost var begun := attempts;
      stopped, raised := false, *;
      if raised.Some? {
        return;
      }
      var ok: bool, code: string := *, *;
      if ok {
        stopped, raised := RunAttempt();
      } else {
        stopped := AfterFailure(code);
      }
      OneMore(old(attempts), begun, attempts);
    }

    /** The loop: it ends, since every round uses up an attempt. */
    method Loop() returns (raised: Option<string>)
      requires Consistent() && phase == Top
      modifies this
      ensures Consistent() && old(trace) <= trace && Grown(old(attempts), attempts, raised.None?)
      ensures if raised.None? then Stopped() else Working(phase)
      ensures old(cancelEvent) ==> raised.None? && state == BatchState.Cancelled && attempts == old(attempts)
    {
      hide Exec, Inv, Apply, ReasonOf, AfterLook, Justified, Consistent;
      while true
        invariant Consistent() && phase == Top && old(trace) <= trace
        invariant Grown(old(attempts), attempts, true)
        invariant old(cancelEvent) ==> cancelEvent && attempts == old(attempts)
        decreases cfg.maxAttempts - attemptCount
      {
        var stopped := Controls(false);
        if stopped {
          return None;
        }
        var drift: Option<Drift> := *;
        if drift.Some? && drift.value != TestNodeVersion {
          FinishBatch(CodeDrift(drift.value));
          return None;
        }
        stopped := StopAtLimits();
        if stopped {
          return None;
        }
        stopped, raised := OneAttempt();
        if stopped || raised.Some? {
          return;
        }
      }
    }

    lemma {:induction false} ClaimedIsActive()
      requires Consistent() && phase == Claimed
      ensures Active(state)
    {
      hide Exec, CountersAgree, WithinLimits, OpenRunIsNewest;
      KeepsInv();
    }

    /**
     One worker. It ends; unless something raised, it leaves the batch in a state whose reason is true, with none
     of its own attempts open; and it never touches an older attempt.
     */
    method RunBatch() returns (raised: Option<string>)
      requires Consistent() && phase == Claimed
      modifies this
      ensures Consistent() && old(trace) <= trace && Grown(old(attempts), attempts, raised.None?)
      ensures raised.None? ==> phase == Exiting
      ensures raised.None? && old(state) == Running ==> Justified(Snapshot())
      ensures raised.None? && old(state) != Running ==> trace == old(trace) + [Decline] && state == old(state)
      ensures raised.Some? ==> Working(phase)
    {
      hide Exec, Inv, Apply, Enabled, Consistent;
      ClaimedIsActive();
      if state != Draft && state != Scheduled && state != Running {
        TurnAway();
        return None;
      }
      EnterLoop();
      var known: bool := *;
      if !known {
        Fail("benchmark protocol not found");
        return None;
      }
      raised := Loop();
      if raised.None? {
        StoppedIsJustified();
      }
    }

    method EnterLoop()
      requires Consistent() && phase == Claimed && state == Running
      modifies this`phase, this`trace
      ensures Consistent() && trace == old(trace) + [Enter] && phase == Top
    {
      hide Exec;
      ghost var before := Snapshot();
      phase := Top;
      Commit(before, Enter);
    }

    method TurnAway()
      requires Consistent() && phase == Claimed && state != Running
      modifies this`phase, this`trace
      ensures Consistent() && trace == old(trace) + [Decline] && phase == Exiting
    {
      hide Exec;
      ghost var before := Snapshot();
      phase := Exiting;
      Commit(before, Decline);
    }

    /** The batch fails with a message, unless it is over already. */
    method Fail(message: string)
      requires Consistent() && Working(phase)
      modifies this`state, this`reason, this`cancelEvent, this`phase, this`trace
      ensures Consistent() && Then(old(trace), trace, WorkerError(message)) && phase == Exiting
      ensures state == BatchState.Failed && reason == message
    {
      hide Exec, Apply, Enabled, PhaseFits, CountersAgree, WithinLimits, OpenRunIsNewest;
      Meanwhile();
      ghost var before := Snapshot();
      KeepsInv();
      ErrorIs(before, message);
      if !Terminal(state) {
        state, reason := BatchState.Failed, message;
      }
      phase := Exiting;
      Commit(before, WorkerError(message));
    }

    method Exit()
      requires Consistent() && phase == Exiting
      modifies this`state, this`reason, this`cancelEvent, this`phase, this`trace
      ensures Consistent() && old(trace) <= trace && phase == Idle
    {
      hide Exec, Judged, Noted, Reconciled, AfterLook, AfterFailing, AfterVerdict, StateOf, ReasonOf, Inv;
      Meanwhile();
      ghost var before := Snapshot();
      phase := Idle;
      Commit(before, WorkerExit);
    }

    /** The worker, and the record of what it raised. */
    method RunGuarded() returns (raised: Option<string>)
      requires Consistent() && phase == Claimed
      modifies this
      ensures Consistent() && old(trace) <= trace && phase == Exiting
      ensures Grown(old(attempts), attempts, raised.None?)
      ensures raised.Some? ==> |old(trace)| < |trace| && trace[|trace| - 1] == WorkerError(raised.value)
    {
      hide Exec, Inv, Apply, Enabled, Justified, Grown;
      raised := RunBatch();
      if raised.Some? {
        Fail(raised.value);
      }
    }

    /**
     The worker thread: whatever happens, it ends, and its entry in the table of workers is gone. What was raised
     is on record; if nothing was, none of the worker's attempts is open.
     */
    method RunInBackground() returns (raised: Option<string>)
      requires Consistent() && phase == Claimed
      modifies this
      ensures Consistent() && old(trace) <= trace && phase == Idle
      ensures Grown(old(attempts), attempts, raised.None?)
      ensures raised.Some? ==> WorkerError(raised.value) in trace[|old(trace)|..]
    {
      hide Exec, Inv, Apply, Enabled, Grown;
      Meanwhile();
      raised := RunGuarded();
      ghost var ended := trace;
      Exit();
      if raised.Some? {
        StillThere(ended, trace, |old(trace)|, WorkerError(raised.value));
      }
    }

    // ----- Restart -----

    /** What a restart makes of the attempt that was under way; `found` is its run, if there is one. */
    method ReconcileAttempt(i: nat, found: Option<RunOutcome>)
      requires i < |attempts|
      modifies this`attempts, this`validRunCount, this`invalidRunCount, this`failedAttemptCount,
               this`consecutiveFailureCount
      ensures Snapshot() ==
                if found.Some? && found.value.state == RunStateMachine.Completed then
                  Judged(old(Snapshot()), i, found.value)
                else old(Snapshot()).(
                  attempts := old(attempts)[i := old(attempts)[i].(state := FailedAttempt, outcome := WorkerRestarted)],
                  failed := old(failedAttemptCount) + 1, consecutive := old(consecutiveFailureCount) + 1)
    {
      if found.Some? && found.value.state == RunStateMachine.Completed {
        FinishAttempt(i, found.value);
      } else {
        attempts := attempts[i := attempts[i].(state := FailedAttempt, outcome := WorkerRestarted)];
        failedAttemptCount := failedAttemptCount + 1;
        consecutiveFailureCount := consecutiveFailureCount + 1;
      }
    }

    /** What a restart makes of the row. */
    method ReconcileBatch(found: Option<RunOutcome>)
      modifies this
      ensures Snapshot() == Reconciled(old(Snapshot()), found) && trace == old(trace)
    {
      hide Judged;
      if Terminal(state) || state == Draft || state == Scheduled {
        return;
      }
      var i := NewestOpen(attempts);
      if state == BatchState.CancelRequested {
        if i >= 0 {
          attempts := attempts[i := attempts[i].(state := CancelledAttempt, outcome := ByUser)];
        }
        state, reason := BatchState.Cancelled, "user_cancelled";
        return;
      }
      if i >= 0 && attempts[i].hasRun {
        ReconcileAttempt(i, found);
      }
      state, reason := Paused, "worker_restarted";
    }

    /** The process has been restarted: no worker is left, and the batch comes to rest. */
    method Recover(found: Option<RunOutcome>)
      requires Consistent()
      modifies this
      ensures Consistent() && trace == old(trace) + [Restart(found)]
      ensures phase == Idle && !Active(state)
    {
      hide Exec, Judged, Noted, AfterLook, AfterFailing, AfterVerdict, StateOf, ReasonOf, Inv;
      ghost var before := Snapshot();
      ReconcileBatch(found);
      phase := Idle;
      Commit(before, Restart(found));
    }
  }
}
