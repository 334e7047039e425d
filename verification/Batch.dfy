/**
 A batch campaign as the database sees it: the batch row with its counters and attempts, and every event that can
 change it, one commit at a time. The worker's place in its loop is part of the state, so that a crash can strike
 at any point. Pause and cancel requests may come between any two events.
 */
module Batch {
  import opened SetFacts
  import RunStateMachine

  datatype BatchState =
    Draft | Scheduled | Running | PauseRequested | Paused | CancelRequested | Cancelled | Completed | Failed

  datatype AttemptState =
    | Planned | WaitingForStart | CheckingPreconditions | Executing | Valid | Invalid | FailedAttempt | Skipped
    | CancelledAttempt

  /**
   The outcome codes: OK, OK_DIAGNOSTIC, INELIGIBLE_RUN, USER_CANCELLED, TEST_NODE_VERSION_CHANGED,
   WORKER_RESTARTED, the name of the state of a run that failed, and the code of a precondition that did.
   */
  datatype Outcome =
    | NoOutcome | Ok | OkDiagnostic | IneligibleRun | ByUser | VersionChanged | WorkerRestarted
    | RunEndedAs(state: RunStateMachine.RunState) | Unmet(code: string)

  /** An attempt, with the test-node version of its run; a version of "" is an unknown one. */
  datatype Attempt = Attempt(number: nat, state: AttemptState, outcome: Outcome, hasRun: bool, version: string)

  /** What the runner reads of a finished run. */
  datatype RunOutcome = RunOutcome(state: RunStateMachine.RunState, eligible: bool, version: string)

  datatype Config = Config(target: nat, maxAttempts: nat, maxFailures: int, eligibleOnly: bool)

  /**
   Where the worker is: none; claimed but not started; about to read the row, or having just read it without finding a
   reason to stop; checking the preconditions; starting a run; in a run; past a verdict; decided to stop; on its way
   out.
   */
  datatype Phase =
    Idle | Claimed | Top | Looked | Checking | Starting | InRun | Judging | Stopping(why: Stop) | Exiting

  datatype Campaign = Campaign(
    cfg: Config, state: BatchState, reason: string, attempts: seq<Attempt>,
    attemptCount: nat, valid: nat, invalid: nat, failed: nat, consecutive: nat,
    expectedVersion: string, phase: Phase)

  /** What may have changed since the batch began. */
  datatype Drift = ProtocolHash | ApplicationVersion | TestNodeVersion

  datatype Stop =
    | UserCancelled | DeadlineReached | UserPaused | CodeDrift(drift: Drift) | TargetReached | MaxAttempts
    | TooManyFailures

  datatype Event =
    | Claim
    | Pause
    | Cancel
    | Enter
    | Decline
    | Look(late: bool, asleep: bool)
    | Finish(why: Stop)
    | Begin
    | PreconditionFailed(code: string)
    | PreconditionOk
    | Link
    | Ended(run: RunOutcome)
    | Drifted(run: RunOutcome)
    | Recheck
    | WorkerError(message: string)
    | WorkerExit
    | Restart(found: Option<RunOutcome>)

  predicate Terminal(s: BatchState) { s == BatchState.Cancelled || s == Completed || s == BatchState.Failed }

  predicate Active(s: BatchState) { s == Running || s == PauseRequested || s == BatchState.CancelRequested }

  predicate Claimable(s: BatchState) { s == Draft || s == Scheduled || s == Paused }

  predicate Open(a: Attempt) {
    a.state == CheckingPreconditions || a.state == Executing || a.state == WaitingForStart
  }

  /** The worker is inside an attempt. */
  predicate InAttempt(p: Phase) { p == Checking || p == Starting || p == InRun }

  /** The worker is inside the loop. */
  predicate Working(p: Phase) { p == Top || p == Looked || InAttempt(p) || p == Judging || p.Stopping? }

  function StateOf(why: Stop): BatchState {
    match why
    case UserCancelled => BatchState.Cancelled
    case DeadlineReached => Completed
    case UserPaused => Paused
    case CodeDrift(_) => Paused
    case TargetReached => Completed
    case MaxAttempts => BatchState.Failed
    case TooManyFailures => Paused
  }

  function ReasonOf(why: Stop): string {
    match why
    case UserCancelled => "user_cancelled"
    case DeadlineReached => "deadline_reached"
    case UserPaused => "user_paused"
    case CodeDrift(drift) => DriftReason(drift)
    case TargetReached => "target_reached"
    case MaxAttempts => "max_attempts_reached"
    case TooManyFailures => "max_consecutive_failures"
  }

  function DriftReason(drift: Drift): string {
    match drift
    case ProtocolHash => "PROTOCOL_HASH_CHANGED"
    case ApplicationVersion => "APPLICATION_VERSION_CHANGED"
    case TestNodeVersion => "TEST_NODE_VERSION_CHANGED"
  }

  predicate TargetMet(c: Campaign) { c.valid >= c.cfg.target }

  predicate Exhausted(c: Campaign) { c.attemptCount >= c.cfg.maxAttempts }

  predicate FailingTooOften(c: Campaign) { c.consecutive >= c.cfg.maxFailures && c.consecutive > 0 }

  /** Another attempt may begin. */
  predicate MayBegin(c: Campaign) { !TargetMet(c) && !Exhausted(c) && !FailingTooOften(c) }

  // ----- What each event does -----

  function WithLast(c: Campaign, a: Attempt): Campaign
    requires c.attempts != []
  {
    c.(attempts := c.attempts[|c.attempts| - 1 := a])
  }

  function LastAttempt(c: Campaign): Attempt
    requires c.attempts != []
  {
    c.attempts[|c.attempts| - 1]
  }

  /** The verdict on attempt i, whose run has ended, and the counters that go with it. */
  function Judged(c: Campaign, i: nat, run: RunOutcome): Campaign
    requires i < |c.attempts|
  {
    var a := c.attempts[i].(hasRun := true, version := run.version);
    if run.state == RunStateMachine.Completed && (run.eligible || !c.cfg.eligibleOnly) then
      c.(attempts := c.attempts[i := a.(state := Valid, outcome := if run.eligible then Ok else OkDiagnostic)],
      valid := c.valid + 1, consecutive := 0)
    else if run.state == RunStateMachine.Cancelled then
      c.(attempts := c.attempts[i := a.(state := CancelledAttempt, outcome := ByUser)],
      consecutive := c.consecutive + 1)
    else if run.state == RunStateMachine.Completed then
      c.(attempts := c.attempts[i := a.(state := Invalid, outcome := IneligibleRun)],
      invalid := c.invalid + 1, consecutive := 0)
    else
      c.(attempts := c.attempts[i := a.(state := FailedAttempt, outcome := RunEndedAs(run.state))],
      failed := c.failed + 1, consecutive := c.consecutive + 1)
  }

  /** The first version seen becomes the expected one. */
  function Noted(c: Campaign, run: RunOutcome): Campaign {
    if run.version != "" && c.expectedVersion == "" then c.(expectedVersion := run.version) else c
  }

  predicate VersionDrift(c: Campaign, run: RunOutcome) {
    c.expectedVersion != "" && run.version != "" && c.expectedVersion != run.version
  }

  /** The newest attempt that a restart finds open, or -1. */
  function NewestOpen(attempts: seq<Attempt>): (i: int)
    ensures -1 <= i < |attempts|
    ensures i >= 0 ==> Open(attempts[i])
    ensures forall j | i < j < |attempts| :: !Open(attempts[j])
  {
    if attempts == [] then -1
    else if Open(attempts[|attempts| - 1]) then |attempts| - 1
    else NewestOpen(attempts[..|attempts| - 1])
  }

  /** Restart recovery of one batch; `found` is the run of the attempt it reconciles. */
  function Reconciled(c: Campaign, found: Option<RunOutcome>): Campaign {
    var i := NewestOpen(c.attempts);
    if Terminal(c.state) || c.state == Draft || c.state == Scheduled then c
    else if c.state == BatchState.CancelRequested then
      var attempts := if i < 0 then c.attempts
                      else c.attempts[i := c.attempts[i].(state := CancelledAttempt, outcome := ByUser)];
      c.(attempts := attempts, state := BatchState.Cancelled, reason := "user_cancelled")
    else
      var d :=
        if i < 0 || !c.attempts[i].hasRun then c
        else if found.Some? && found.value.state == RunStateMachine.Completed then Judged(c, i, found.value)
        else
          c.(attempts := c.attempts[i := c.attempts[i].(state := FailedAttempt, outcome := WorkerRestarted)],
          failed := c.failed + 1, consecutive := c.consecutive + 1);
      d.(state := Paused, reason := "worker_restarted")
  }

  /** The stops that follow a look at the row: changed code, and the limits in their order. */
  predicate StopsAfterLook(c: Campaign, why: Stop) {
    match why
    case CodeDrift(drift) => drift != TestNodeVersion
    case TargetReached => TargetMet(c)
    case MaxAttempts => !TargetMet(c) && Exhausted(c)
    case TooManyFailures => !TargetMet(c) && !Exhausted(c) && FailingTooOften(c)
    case _ => false
  }

  /** When the event can happen: at any time for a request and a restart, and else at the worker's place in its loop. */
  predicate Enabled(c: Campaign, e: Event) {
    match e
    case Claim => c.phase == Idle && Claimable(c.state)
    case Pause => true
    case Cancel => true
    case Enter => c.phase == Claimed && c.state == Running
    case Decline => c.phase == Claimed && c.state != Running
    case Look(_, _) => c.phase == Top
    case Finish(why) => c.phase == Stopping(why) || (c.phase == Looked && StopsAfterLook(c, why))
    case Begin => c.phase == Looked && MayBegin(c)
    case PreconditionFailed(_) => c.phase == Checking && c.attempts != []
    case PreconditionOk => c.phase == Checking && c.attempts != []
    case Link => c.phase == Starting && c.attempts != []
    case Ended(run) => c.phase == InRun && c.attempts != [] && !VersionDrift(Noted(c, run), run)
    case Drifted(run) => c.phase == InRun && c.attempts != [] && VersionDrift(Noted(c, run), run)
    case Recheck => c.phase == Judging
    case WorkerError(_) => Working(c.phase)
    case WorkerExit => c.phase == Exiting
    case Restart(_) => true
  }

  /** Where a look at the row leads: a cancellation comes before the deadline, and the deadline before a pause. */
  function AfterLook(c: Campaign, late: bool, asleep: bool): Phase {
    if c.state == BatchState.CancelRequested then Stopping(UserCancelled)
    else if late then Stopping(DeadlineReached)
    else if c.state == PauseRequested then Stopping(UserPaused)
    else if asleep then Top
    else Looked
  }

  /** Where the worker goes when preconditions have failed, without looking at the row. */
  function AfterFailing(c: Campaign, code: string): Phase {
    if code == "USER_CANCELLED" then Stopping(UserCancelled) else if Exhausted(c) then Stopping(MaxAttempts) else Top
  }

  /** After a verdict the worker reads the row, but looks for a pause only. */
  function AfterVerdict(c: Campaign): Phase {
    if c.state == PauseRequested then Stopping(UserPaused)
    else if TargetMet(c) then Stopping(TargetReached)
    else if Exhausted(c) then Stopping(MaxAttempts)
    else Top
  }

  function Apply(c: Campaign, e: Event): Campaign
    requires Enabled(c, e)
  {
    match e
    case Claim => c.(state := Running, reason := "", phase := Claimed)
    case Pause => if c.state == Running then c.(state := PauseRequested, reason := "user_paused") else c
    case Cancel =>
      if Terminal(c.state) then c
      else if c.phase == Idle then c.(state := BatchState.Cancelled, reason := "user_cancelled")
      else c.(state := BatchState.CancelRequested, reason := "user_cancelled")
    case Enter => c.(phase := Top)
    case Decline => c.(phase := Exiting)
    case Look(late, asleep) => c.(phase := AfterLook(c, late, asleep))
    case Finish(why) => c.(state := StateOf(why), reason := ReasonOf(why), phase := Exiting)
    case Begin =>
      c.(attemptCount := c.attemptCount + 1, phase := Checking,
      attempts := c.attempts + [Attempt(c.attemptCount + 1, CheckingPreconditions, NoOutcome, false, "")])
    case PreconditionFailed(code) =>
      var next := AfterFailing(c, code);
      if code == "USER_CANCELLED" then
        WithLast(c, LastAttempt(c).(state := CancelledAttempt, outcome := ByUser)).(phase := next)
      else
        WithLast(c, LastAttempt(c).(state := Skipped, outcome := Unmet(code)))
        .(failed := c.failed + 1, consecutive := c.consecutive + 1, phase := next)
    case PreconditionOk => WithLast(c, LastAttempt(c).(state := Executing)).(phase := Starting)
    case Link => WithLast(c, LastAttempt(c).(hasRun := true)).(phase := InRun)
    case Ended(run) => Judged(Noted(c, run), |c.attempts| - 1, run).(phase := Judging)
    case Drifted(run) =>
      var d := Noted(c, run);
      WithLast(d, LastAttempt(d).(state := Invalid, outcome := VersionChanged, version := run.version))
      .(phase := Stopping(CodeDrift(TestNodeVersion)))
    case Recheck => c.(phase := AfterVerdict(c))
    case WorkerError(message) =>
      if Terminal(c.state) then c.(phase := Exiting)
      else c.(state := BatchState.Failed, reason := message, phase := Exiting)
    case WorkerExit => c.(phase := Idle)
    case Restart(found) => Reconciled(c, found).(phase := Idle)
  }

  // ----- What every state keeps -----

  predicate IsValid(a: Attempt) { a.state == Valid }
  predicate IsFailed(a: Attempt) { a.state == FailedAttempt || a.state == Skipped }
  predicate IsIneligible(a: Attempt) { a.state == Invalid && a.outcome == IneligibleRun }

  /** Counted by none of the three counters: still open, cancelled, or stopped by a version change. */
  predicate IsUncounted(a: Attempt) { !IsValid(a) && !IsFailed(a) && !IsIneligible(a) }

  function Count(p: Attempt -> bool, s: seq<Attempt>): nat {
    if s == [] then 0 else Count(p, s[..|s| - 1]) + if p(s[|s| - 1]) then 1 else 0
  }

  predicate Numbered(attempts: seq<Attempt>) { forall i | 0 <= i < |attempts| :: attempts[i].number == i + 1 }

  predicate CountersAgree(c: Campaign) {
    && Numbered(c.attempts) && |c.attempts| == c.attemptCount
    && c.valid == Count(IsValid, c.attempts)
    && c.failed == Count(IsFailed, c.attempts)
    && c.invalid == Count(IsIneligible, c.attempts)
  }

  predicate WithinLimits(c: Campaign) {
    && c.attemptCount <= c.cfg.maxAttempts && c.valid <= c.cfg.target
    && c.consecutive <= Max(1, c.cfg.maxFailures)
  }

  /** Only the newest attempt can still have a run under way, and while it does there is room for its verdict. */
  predicate OpenRunIsNewest(c: Campaign) {
    && (forall i | 0 <= i < |c.attempts| - 1 :: !(Open(c.attempts[i]) && c.attempts[i].hasRun))
    && (c.attempts != [] && Open(LastAttempt(c)) && (LastAttempt(c).hasRun || InAttempt(c.phase)) ==>
          !TargetMet(c) && !FailingTooOften(c))
    && (c.attempts != [] && Open(LastAttempt(c)) && LastAttempt(c).hasRun && c.phase != InRun ==> Terminal(c.state))
  }

  predicate PhaseFits(c: Campaign) {
    && (Working(c.phase) || c.phase == Claimed ==> Active(c.state))
    && (InAttempt(c.phase) ==> c.attempts != [] && Open(LastAttempt(c)))
    && (c.phase == Checking ==> LastAttempt(c).state == CheckingPreconditions)
    && (c.phase == InRun ==> LastAttempt(c).hasRun)
    && (c.phase == Stopping(TargetReached) ==> TargetMet(c))
    && (c.phase == Stopping(MaxAttempts) ==> !TargetMet(c) && Exhausted(c))
    && c.phase != Stopping(TooManyFailures)
  }

  predicate Inv(c: Campaign) { CountersAgree(c) && WithinLimits(c) && OpenRunIsNewest(c) && PhaseFits(c) }

  lemma {:induction false} CountSnoc(p: Attempt -> bool, s: seq<Attempt>, a: Attempt)
    ensures Count(p, s + [a]) == Count(p, s) + if p(a) then 1 else 0
  {
    assert (s + [a])[..|s|] == s;
  }

  lemma {:induction false} CountUpdate(p: Attempt -> bool, s: seq<Attempt>, i: nat, a: Attempt)
    requires i < |s|
    ensures Count(p, s[i := a]) == Count(p, s) - (if p(s[i]) then 1 else 0) + if p(a) then 1 else 0
  {
    var t := s[i := a];
    if i == |s| - 1 {
      assert t[..i] == s[..i];
    } else {
      assert t[..|t| - 1] == s[..|s| - 1][i := a];
      CountUpdate(p, s[..|s| - 1], i, a);
    }
  }

  /** Replace one attempt: its number stays, and each counter moves as the attempt does. */
  lemma {:induction false} ReplaceAttempt(attempts: seq<Attempt>, i: nat, a: Attempt)
    requires i < |attempts| && Numbered(attempts) && a.number == attempts[i].number
    ensures Numbered(attempts[i := a])
    ensures Count(IsValid, attempts[i := a]) ==
              Count(IsValid, attempts) - (if IsValid(attempts[i]) then 1 else 0) + if IsValid(a) then 1 else 0
    ensures Count(IsFailed, attempts[i := a]) ==
              Count(IsFailed, attempts) - (if IsFailed(attempts[i]) then 1 else 0) + if IsFailed(a) then 1 else 0
    ensures Count(IsIneligible, attempts[i := a]) ==
              Count(IsIneligible, attempts) - (if IsIneligible(attempts[i]) then 1 else 0) +
                  if IsIneligible(a) then 1 else 0
  {
    CountUpdate(IsValid, attempts, i, a);
    CountUpdate(IsFailed, attempts, i, a);
    CountUpdate(IsIneligible, attempts, i, a);
  }

  // ----- Every event keeps the invariant -----

  predicate SameCounters(c: Campaign, d: Campaign) {
    d.attemptCount == c.attemptCount && d.valid == c.valid && d.invalid == c.invalid && d.failed == c.failed &&
    d.consecutive == c.consecutive && d.cfg == c.cfg
  }

  lemma {:induction false} SameBooks(c: Campaign, d: Campaign)
    requires CountersAgree(c) && WithinLimits(c) && SameCounters(c, d) && d.attempts == c.attempts
    ensures CountersAgree(d) && WithinLimits(d)
  {
    hide Count;
  }

  /** An open run is one of the newest attempt, while the worker is in it or after the batch is over. */
  lemma {:induction false} SameRuns(c: Campaign, d: Campaign)
    requires OpenRunIsNewest(c) && SameCounters(c, d) && d.attempts == c.attempts
    requires InAttempt(d.phase) ==> InAttempt(c.phase)
    requires c.phase == InRun && d.phase != InRun ==> Terminal(d.state)
    requires c.phase != InRun && Terminal(c.state) && d.phase != InRun ==> Terminal(d.state)
    ensures OpenRunIsNewest(d)
  {
  }

  /** The invariant speaks of the row's state only through whether it is active or terminal. */
  lemma {:induction false} RequestKeepsInv(c: Campaign, e: Event)
    requires Inv(c) && (e.Pause? || e.Cancel?) && Enabled(c, e)
    ensures Inv(Apply(c, e))
  {
    hide CountersAgree, WithinLimits, OpenRunIsNewest, Judged, Reconciled;
    SameBooks(c, Apply(c, e));
    SameRuns(c, Apply(c, e));
  }

  lemma {:induction false} MoveKeepsInv(c: Campaign, e: Event)
    requires Inv(c) && Enabled(c, e)
    requires e.Claim? || e.Enter? || e.Decline? || e.Look? || e.Finish? || e.Recheck? || e.WorkerError? || e.WorkerExit?
    ensures Inv(Apply(c, e))
  {
    hide CountersAgree, WithinLimits, OpenRunIsNewest, Judged, Reconciled, ReasonOf, DriftReason;
    SameBooks(c, Apply(c, e));
    SameRuns(c, Apply(c, e));
  }

  lemma {:induction false} BeginKeepsCounters(c: Campaign)
    requires Inv(c) && Enabled(c, Begin)
    ensures CountersAgree(Apply(c, Begin)) && WithinLimits(Apply(c, Begin))
  {
    var a := LastAttempt(Apply(c, Begin));
    CountSnoc(IsValid, c.attempts, a);
    CountSnoc(IsFailed, c.attempts, a);
    CountSnoc(IsIneligible, c.attempts, a);
  }

  lemma {:induction false} BeginKeepsInv(c: Campaign)
    requires Inv(c) && Enabled(c, Begin)
    ensures Inv(Apply(c, Begin))
  {
    BeginKeepsCounters(c);
    BeginOpensOne(c);
  }

  lemma {:induction false} BeginOpensOne(c: Campaign)
    requires OpenRunIsNewest(c) && Enabled(c, Begin) && !Terminal(c.state)
    ensures OpenRunIsNewest(Apply(c, Begin))
  {
    var d := Apply(c, Begin);
    forall i | 0 <= i < |d.attempts| - 1
      ensures !(Open(d.attempts[i]) && d.attempts[i].hasRun)
    {
      assert d.attempts[i] == c.attempts[i];
    }
  }

  lemma {:induction false} ProgressKeepsCounters(c: Campaign, e: Event)
    requires Inv(c) && Enabled(c, e) && (e.PreconditionOk? || e.Link?)
    ensures CountersAgree(Apply(c, e)) && WithinLimits(Apply(c, e))
  {
    hide OpenRunIsNewest, Judged, Reconciled, ReasonOf, AfterLook, AfterFailing, AfterVerdict;
    ReplaceAttempt(c.attempts, |c.attempts| - 1, LastAttempt(Apply(c, e)));
    hide Count;
  }

  /** Steps inside an attempt that do not end it. */
  lemma {:induction false} ProgressKeepsInv(c: Campaign, e: Event)
    requires Inv(c) && Enabled(c, e) && (e.PreconditionOk? || e.Link?)
    ensures Inv(Apply(c, e))
  {
    hide CountersAgree, WithinLimits, Judged, Reconciled, ReasonOf, AfterLook, AfterFailing, AfterVerdict;
    ProgressKeepsCounters(c, e);
  }

  /** Judging the open newest attempt, while there is room for its verdict. */
  lemma {:induction false} JudgedKeepsCounters(c: Campaign, i: nat, run: RunOutcome)
    requires CountersAgree(c) && WithinLimits(c) && i < |c.attempts| && Open(c.attempts[i])
    requires !TargetMet(c) && !FailingTooOften(c)
    ensures CountersAgree(Judged(c, i, run)) && WithinLimits(Judged(c, i, run))
    ensures !Open(Judged(c, i, run).attempts[i])
  {
    ReplaceAttempt(c.attempts, i, Judged(c, i, run).attempts[i]);
  }

  /** An attempt that is over leaves no open run behind. */
  lemma {:induction false} ClosedNewest(c: Campaign, d: Campaign)
    requires OpenRunIsNewest(c) && c.attempts != [] && |d.attempts| == |c.attempts| && !Open(LastAttempt(d))
    requires forall i | 0 <= i < |c.attempts| - 1 :: d.attempts[i] == c.attempts[i]
    ensures OpenRunIsNewest(d)
  {
  }

  /** Inside an attempt there is room for its verdict. */
  lemma {:induction false} RoomForVerdict(c: Campaign)
    requires Inv(c) && InAttempt(c.phase)
    ensures c.attempts != [] && Open(LastAttempt(c)) && !TargetMet(c) && !FailingTooOften(c) && Active(c.state)
  {
    hide CountersAgree, WithinLimits;
  }

  lemma {:induction false} PhaseApart(c: Campaign, p: Phase)
    requires CountersAgree(c) && WithinLimits(c)
    ensures CountersAgree(c.(phase := p)) && WithinLimits(c.(phase := p))
  {
    hide Count;
  }

  lemma {:induction false} NotedApart(c: Campaign, run: RunOutcome)
    requires CountersAgree(c) && WithinLimits(c)
    ensures var d := Noted(c, run);
            && CountersAgree(d) && WithinLimits(d) && (TargetMet(d) <==> TargetMet(c))
            && (FailingTooOften(d) <==> FailingTooOften(c)) && d.attempts == c.attempts && d.state == c.state
  {
    hide Count;
  }

  /** A verdict touches no other attempt and not the state. */
  lemma {:induction false} JudgedFrame(c: Campaign, i: nat, run: RunOutcome)
    requires i < |c.attempts|
    ensures Judged(c, i, run).attempts == c.attempts[i := Judged(c, i, run).attempts[i]]
    ensures Judged(c, i, run).state == c.state && !Open(Judged(c, i, run).attempts[i])
  {
  }

  lemma {:induction false} EndedKeepsInv(c: Campaign, run: RunOutcome)
    requires Inv(c) && Enabled(c, Ended(run))
    ensures Inv(Apply(c, Ended(run)))
  {
    hide CountersAgree, WithinLimits, OpenRunIsNewest, Judged, Noted;
    var i := |c.attempts| - 1;
    RoomForVerdict(c);
    NotedApart(c, run);
    JudgedKeepsCounters(Noted(c, run), i, run);
    JudgedFrame(Noted(c, run), i, run);
    PhaseApart(Judged(Noted(c, run), i, run), Judging);
    ClosedNewest(c, Apply(c, Ended(run)));
  }

  lemma {:induction false} SkippedKeepsCounters(c: Campaign, code: string)
    requires Inv(c) && Enabled(c, PreconditionFailed(code))
    ensures CountersAgree(Apply(c, PreconditionFailed(code))) && WithinLimits(Apply(c, PreconditionFailed(code)))
  {
    RoomForVerdict(c);
    ReplaceAttempt(c.attempts, |c.attempts| - 1, LastAttempt(Apply(c, PreconditionFailed(code))));
    hide OpenRunIsNewest, PhaseFits, AfterFailing, Count;
  }

  lemma {:induction false} SkippedKeepsInv(c: Campaign, code: string)
    requires Inv(c) && Enabled(c, PreconditionFailed(code))
    ensures Inv(Apply(c, PreconditionFailed(code)))
  {
    hide CountersAgree, WithinLimits, OpenRunIsNewest;
    RoomForVerdict(c);
    SkippedKeepsCounters(c, code);
    ClosedNewest(c, Apply(c, PreconditionFailed(code)));
  }

  lemma {:induction false} DriftedKeepsCounters(c: Campaign, run: RunOutcome)
    requires Inv(c) && Enabled(c, Drifted(run))
    ensures CountersAgree(Apply(c, Drifted(run))) && WithinLimits(Apply(c, Drifted(run)))
  {
    RoomForVerdict(c);
    ReplaceAttempt(c.attempts, |c.attempts| - 1, LastAttempt(Apply(c, Drifted(run))));
    hide OpenRunIsNewest, PhaseFits, Count;
  }

  lemma {:induction false} DriftedKeepsInv(c: Campaign, run: RunOutcome)
    requires Inv(c) && Enabled(c, Drifted(run))
    ensures Inv(Apply(c, Drifted(run)))
  {
    hide CountersAgree, WithinLimits, OpenRunIsNewest;
    RoomForVerdict(c);
    DriftedKeepsCounters(c, run);
    ClosedNewest(c, Apply(c, Drifted(run)));
  }

  /** A restart finds an open run only in the newest attempt, and only if the worker was still running it. */
  lemma {:induction false} RestartFindsNewest(c: Campaign)
    requires Inv(c) && NewestOpen(c.attempts) >= 0 && c.attempts[NewestOpen(c.attempts)].hasRun && !Terminal(c.state)
    ensures NewestOpen(c.attempts) == |c.attempts| - 1 && c.phase == InRun && !TargetMet(c) && !FailingTooOften(c)
  {
  }

  lemma {:induction false} RestartKeepsCounters(c: Campaign, found: Option<RunOutcome>)
    requires Inv(c)
    ensures CountersAgree(Reconciled(c, found)) && WithinLimits(Reconciled(c, found))
  {
    hide Count, OpenRunIsNewest, PhaseFits, Judged;
    var i := NewestOpen(c.attempts);
    if !Terminal(c.state) && i >= 0 {
      if c.state == BatchState.CancelRequested {
        ReplaceAttempt(c.attempts, i, c.attempts[i].(state := CancelledAttempt, outcome := ByUser));
      } else if c.attempts[i].hasRun {
        RestartFindsNewest(c);
        if found.Some? && found.value.state == RunStateMachine.Completed {
          JudgedKeepsCounters(c, i, found.value);
        } else {
          ReplaceAttempt(c.attempts, i, c.attempts[i].(state := FailedAttempt, outcome := WorkerRestarted));
        }
      }
    }
  }

  predicate NoOpenRun(attempts: seq<Attempt>) {
    forall i | 0 <= i < |attempts| :: !(Open(attempts[i]) && attempts[i].hasRun)
  }

  lemma {:induction false} ReconciledClosesRuns(c: Campaign, found: Option<RunOutcome>)
    requires Inv(c) && !Terminal(c.state)
    ensures NoOpenRun(Reconciled(c, found).attempts)
  {
    var i := NewestOpen(c.attempts);
    var d := Reconciled(c, found);
    forall j | 0 <= j < |d.attempts|
      ensures !(Open(d.attempts[j]) && d.attempts[j].hasRun)
    {
      if j != i {
        assert d.attempts[j] == c.attempts[j];
      }
    }
  }

  lemma {:induction false} RestartIdles(c: Campaign, found: Option<RunOutcome>)
    ensures Apply(c, Restart(found)) == Reconciled(c, found).(phase := Idle)
  {
    hide Reconciled;
  }

  lemma {:induction false} RestartClosesRuns(c: Campaign, found: Option<RunOutcome>)
    requires Inv(c)
    ensures OpenRunIsNewest(Apply(c, Restart(found)))
  {
    if !Terminal(c.state) {
      ReconciledClosesRuns(c, found);
    }
  }

  lemma {:induction false} RestartKeepsInv(c: Campaign, found: Option<RunOutcome>)
    requires Inv(c)
    ensures Inv(Apply(c, Restart(found)))
  {
    hide CountersAgree, WithinLimits, OpenRunIsNewest, Reconciled;
    RestartKeepsCounters(c, found);
    PhaseApart(Reconciled(c, found), Idle);
    RestartClosesRuns(c, found);
  }

  /** The step theorem: whatever happens next, the invariant holds after it. */
  lemma {:induction false} StepKeepsInv(c: Campaign, e: Event)
    requires Inv(c) && Enabled(c, e)
    ensures Inv(Apply(c, e))
  {
    match e
    case Pause => RequestKeepsInv(c, e);
    case Cancel => RequestKeepsInv(c, e);
    case Begin => BeginKeepsInv(c);
    case PreconditionOk => ProgressKeepsInv(c, e);
    case Link => ProgressKeepsInv(c, e);
    case Ended(run) => EndedKeepsInv(c, run);
    case PreconditionFailed(code) => SkippedKeepsInv(c, code);
    case Drifted(run) => DriftedKeepsInv(c, run);
    case Restart(found) => RestartKeepsInv(c, found);
    case _ => MoveKeepsInv(c, e);
  }

  // ----- Whole campaigns -----

  function Fresh(cfg: Config, state: BatchState): Campaign {
    Campaign(cfg, state, "", [], 0, 0, 0, 0, 0, "", Idle)
  }

  /** The campaign after the events, if each was possible when it came. */
  function Exec(c: Campaign, es: seq<Event>): Option<Campaign> {
    if es == [] then Some(c)
    else
      match Exec(c, es[..|es| - 1])
      case None => None
      case Some(d) => if Enabled(d, es[|es| - 1]) then Some(Apply(d, es[|es| - 1])) else None
  }

  lemma {:induction false} NothingDone(c: Campaign)
    ensures Exec(c, []) == Some(c)
  {
  }

  lemma {:induction false} ExecSnoc(c: Campaign, es: seq<Event>, e: Event)
    requires Exec(c, es).Some? && Enabled(Exec(c, es).value, e)
    ensures Exec(c, es + [e]) == Some(Apply(Exec(c, es).value, e))
  {
    assert (es + [e])[..|es|] == es;
  }

  lemma {:induction false} StepKeepsLimits(c: Campaign, e: Event)
    requires Enabled(c, e)
    ensures Apply(c, e).cfg == c.cfg
  {
  }

  lemma {:induction false} ExecKeepsInv(c: Campaign, es: seq<Event>)
    requires Inv(c) && Exec(c, es).Some?
    ensures Inv(Exec(c, es).value) && Exec(c, es).value.cfg == c.cfg
  {
    hide Inv, Apply, Enabled;
    if es != [] {
      ExecKeepsInv(c, es[..|es| - 1]);
      StepKeepsInv(Exec(c, es[..|es| - 1]).value, es[|es| - 1]);
      StepKeepsLimits(Exec(c, es[..|es| - 1]).value, es[|es| - 1]);
    }
  }

  /**
   Over every run of claims, attempts, requests, drift, errors, crashes, recoveries and resumes: the attempts are
   numbered 1, 2, 3, ...; the three counters count what they should, and with the attempts that none of them
   counts they make up all the attempts; and no limit is exceeded.
   */
  lemma {:induction false} EveryCampaign(cfg: Config, start: BatchState, es: seq<Event>)
    requires start == Draft || start == Scheduled
    requires Exec(Fresh(cfg, start), es).Some?
    ensures var c := Exec(Fresh(cfg, start), es).value;
            && (forall i | 0 <= i < |c.attempts| :: c.attempts[i].number == i + 1)
            && c.valid == Count(IsValid, c.attempts) && c.failed == Count(IsFailed, c.attempts)
            && c.invalid == Count(IsIneligible, c.attempts)
            && c.valid + c.invalid + c.failed + Count(IsUncounted, c.attempts) == c.attemptCount == |c.attempts|
            && c.attemptCount <= cfg.maxAttempts && c.valid <= cfg.target && c.consecutive <= Max(1, cfg.maxFailures)
  {
    ExecKeepsInv(Fresh(cfg, start), es);
    CountsPartition(Exec(Fresh(cfg, start), es).value.attempts);
  }

  lemma {:induction false} CountsPartition(s: seq<Attempt>)
    ensures Count(IsValid, s) + Count(IsFailed, s) + Count(IsIneligible, s) + Count(IsUncounted, s) == |s|
  {
    if s != [] {
      CountsPartition(s[..|s| - 1]);
    }
  }

  /** The reason given for a stop is the truth about the counters, for every state the worker can stop in. */
  lemma {:induction false} ReasonsAreTrue(c: Campaign, why: Stop)
    requires Inv(c) && Enabled(c, Finish(why))
    ensures why == TargetReached ==> c.valid == c.cfg.target
    ensures why == MaxAttempts ==> c.attemptCount == c.cfg.maxAttempts && c.valid < c.cfg.target
    ensures why == TooManyFailures ==> c.consecutive == Max(1, c.cfg.maxFailures) && MayBegin(c.(consecutive := 0))
  {
  }

  // ----- A batch that failed too often cannot be resumed -----

  /** Paused for too many failures in a row, or being resumed in that condition. */
  predicate Blocked(c: Campaign) {
    Inv(c) && !InAttempt(c.phase) && !TargetMet(c) && !Exhausted(c) && FailingTooOften(c)
  }

  lemma {:induction false} BlockedStays(c: Campaign, e: Event)
    requires Blocked(c) && Enabled(c, e)
    ensures Blocked(Apply(c, e)) && SameCounters(c, Apply(c, e))
  {
    StepKeepsInv(c, e);
    if e.Restart? && NewestOpen(c.attempts) >= 0 && c.attempts[NewestOpen(c.attempts)].hasRun && !Terminal(c.state) {
      RestartFindsNewest(c);
    }
  }

  /** Resuming does not reset the count of failures in a row, so no sequence of events ever starts another attempt. */
  lemma {:induction false} BlockedForever(c: Campaign, es: seq<Event>)
    requires Blocked(c) && Exec(c, es).Some?
    ensures Blocked(Exec(c, es).value) && SameCounters(c, Exec(c, es).value)
  {
    if es != [] {
      BlockedForever(c, es[..|es| - 1]);
      BlockedStays(Exec(c, es[..|es| - 1]).value, es[|es| - 1]);
    }
  }
}
