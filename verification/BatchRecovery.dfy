/**
 What a restart makes of a campaign: which attempts stay open, and whether the valid attempts still belong to one
 version of the test node.
 */
module BatchRecovery {
  import opened SetFacts
  import opened Batch
  import RunStateMachine

  // ----- The attempts that are left open -----

  lemma {:induction false} NewestOpenIs(attempts: seq<Attempt>)
    requires attempts != [] && Open(attempts[|attempts| - 1])
    ensures NewestOpen(attempts) == |attempts| - 1
  {
  }

  /** A restart changes at most the newest open attempt. */
  lemma {:induction false} ReconciledFrame(c: Campaign, found: Option<RunOutcome>)
    ensures var d := Reconciled(c, found);
            && |d.attempts| == |c.attempts| && d.expectedVersion == c.expectedVersion
            && forall j | 0 <= j < |c.attempts| && j != NewestOpen(c.attempts) :: d.attempts[j] == c.attempts[j]
  {
  }

  /** The worker is in attempt i. */
  predicate Current(c: Campaign, i: nat) { InAttempt(c.phase) && i == |c.attempts| - 1 }

  /** Attempt i is open although no worker is in it. */
  predicate LeftOpen(c: Campaign, i: nat) { i < |c.attempts| && Open(c.attempts[i]) && !Current(c, i) }

  /** The worker leaves attempt i open: by an error, or by a restart before the attempt has its run. */
  predicate Abandons(c: Campaign, e: Event, i: nat) {
    Current(c, i) && (e.WorkerError? || (e.Restart? && c.phase != InRun && c.state != BatchState.CancelRequested))
  }

  /** A restart closes the newest open attempt of a batch that is to be cancelled, whoever left it. */
  predicate Sweeps(c: Campaign, e: Event, i: nat) {
    e.Restart? && c.state == BatchState.CancelRequested && i == NewestOpen(c.attempts)
  }

  predicate Ends(e: Event) { e.PreconditionFailed? || e.Ended? || e.Drifted? }

  lemma {:induction false} NotedAttempts(c: Campaign, run: RunOutcome)
    ensures Noted(c, run).attempts == c.attempts
  {
  }

  /** The end of an attempt. */
  lemma {:induction false} AttemptEnds(c: Campaign, e: Event)
    requires Enabled(c, e) && Ends(e)
    ensures var d := Apply(c, e);
            && |d.attempts| == |c.attempts| && !Open(LastAttempt(d)) && !InAttempt(d.phase)
            && forall j | 0 <= j < |c.attempts| - 1 :: d.attempts[j] == c.attempts[j]
  {
    hide Noted, Judged;
    match e
    case PreconditionFailed(_) =>
    case Drifted(run) => NotedAttempts(c, run);
    case Ended(run) =>
      NotedAttempts(c, run);
      JudgedFrame(Noted(c, run), |c.attempts| - 1, run);
  }

  /** What every event but a restart does to the attempts: one may begin, and the current one may end. */
  lemma {:induction false} AttemptsAfter(c: Campaign, e: Event)
    requires Enabled(c, e) && !e.Restart? && (InAttempt(c.phase) ==> c.attempts != [] && Open(LastAttempt(c)))
    ensures var d := Apply(c, e);
            && |d.attempts| == |c.attempts| + (if e.Begin? then 1 else 0)
            && (forall j | 0 <= j < |c.attempts| && !Current(c, j) :: d.attempts[j] == c.attempts[j])
            && (InAttempt(c.phase) ==> (Open(d.attempts[|c.attempts| - 1]) <==> !Ends(e)))
            && (InAttempt(d.phase) <==> e.Begin? || (InAttempt(c.phase) && !e.WorkerError? && !Ends(e)))
            && (e.Begin? ==> !InAttempt(c.phase) && Open(LastAttempt(d)))
  {
    hide ReasonOf, StateOf, Noted, Judged;
    if Ends(e) {
      hide Apply;
      AttemptEnds(c, e);
    }
  }

  lemma {:induction false} RestartLeaves(c: Campaign, found: Option<RunOutcome>, i: nat)
    requires Inv(c) && i < |c.attempts|
    ensures Open(Reconciled(c, found).attempts[i]) <==>
              Open(c.attempts[i]) && !(i == NewestOpen(c.attempts) && !Terminal(c.state) &&
                (c.state == BatchState.CancelRequested || c.phase == InRun))
  {
    hide CountersAgree, WithinLimits, Judged;
    ReconciledFrame(c, found);
    if i == NewestOpen(c.attempts) && c.attempts[i].hasRun && !Terminal(c.state) {
      RestartFindsNewest(c);
      if found.Some? {
        JudgedFrame(c, i, found.value);
      }
    }
    if c.phase == InRun {
      NewestOpenIs(c.attempts);
    }
  }

  lemma {:induction false} LeftStep(c: Campaign, e: Event, i: nat)
    requires Inv(c) && Enabled(c, e)
    ensures LeftOpen(Apply(c, e), i) <==> (LeftOpen(c, i) || Abandons(c, e, i)) && !Sweeps(c, e, i)
  {
    hide Inv, Reconciled, Apply, Enabled;
    if InAttempt(c.phase) {
      RoomForVerdict(c);
      NewestOpenIs(c.attempts);
    }
    if e.Restart? {
      RestartIdles(c, e.found);
      ReconciledFrame(c, e.found);
      if i < |c.attempts| {
        RestartLeaves(c, e.found, i);
      }
    } else {
      AttemptsAfter(c, e);
    }
  }

  /** The newest attempt is open and has a run. */
  predicate OpenRunLeft(c: Campaign) { c.attempts != [] && Open(LastAttempt(c)) && LastAttempt(c).hasRun }

  /** A batch that is over and whose newest attempt has a run that was never judged. */
  predicate RunLeft(c: Campaign) { Terminal(c.state) && OpenRunLeft(c) }

  /** An open run is the worker's, or was left behind. */
  lemma {:induction false} OpenRunIs(c: Campaign)
    requires Inv(c)
    ensures OpenRunLeft(c) <==> c.phase == InRun || RunLeft(c)
    ensures InAttempt(c.phase) ==> !RunLeft(c) && c.attempts != [] && Open(LastAttempt(c))
    ensures c.phase == Looked ==> !RunLeft(c)
  {
    hide CountersAgree, WithinLimits;
  }

  lemma {:induction false} RunLeftByRestart(c: Campaign, found: Option<RunOutcome>)
    requires Inv(c)
    ensures RunLeft(Apply(c, Restart(found))) <==> RunLeft(c)
  {
    hide Inv, Judged;
    if Terminal(c.state) {
      assert Reconciled(c, found) == c;
    } else {
      hide Reconciled;
      ReconciledClosesRuns(c, found);
    }
  }

  lemma {:induction false} RunLeftByWork(c: Campaign, e: Event)
    requires Inv(c) && Enabled(c, e) && !e.Restart? && Inv(Apply(c, e))
    ensures RunLeft(Apply(c, e)) <==> RunLeft(c) || (e.WorkerError? && c.phase == InRun)
  {
    hide Inv, Apply, Enabled, Terminal;
    var d := Apply(c, e);
    OpenRunIs(c);
    OpenRunIs(d);
    AttemptsAfter(c, e);
    if e.WorkerError? {
      ErrorLeaves(c, e.message);
    } else if InAttempt(c.phase) {
      if Ends(e) {
        AttemptEnds(c, e);
      }
    } else if e.Begin? {
      BeginLooked(c);
    }
  }

  lemma {:induction false} ErrorLeaves(c: Campaign, message: string)
    requires Enabled(c, WorkerError(message))
    ensures var d := Apply(c, WorkerError(message)); Terminal(d.state) && d.attempts == c.attempts
  {
  }

  lemma {:induction false} BeginLooked(c: Campaign)
    requires Enabled(c, Begin)
    ensures c.phase == Looked
  {
  }

  /** Only an error in the middle of a run leaves such a batch, and nothing mends it. */
  lemma {:induction false} RunLeftStep(c: Campaign, e: Event)
    requires Inv(c) && Enabled(c, e)
    ensures RunLeft(Apply(c, e)) <==> RunLeft(c) || (e.WorkerError? && c.phase == InRun)
  {
    if e.Restart? {
      RunLeftByRestart(c, e.found);
    } else {
      StepKeepsInv(c, e);
      RunLeftByWork(c, e);
    }
  }

  /**
   After recovery no attempt with a run is left open, except in a batch that was over with one: recovery passes over
   such a batch, and it is what remains of an error in the middle of a run.
   */
  lemma {:induction false} ReconciledHasNoOpenRun(c: Campaign, found: Option<RunOutcome>)
    requires Inv(c)
    ensures NoOpenRun(Reconciled(c, found).attempts) <==> !RunLeft(c)
    ensures c.phase == InRun ==> forall message :: RunLeft(Apply(c, WorkerError(message)))
  {
    hide CountersAgree, WithinLimits, Judged, Apply;
    if Terminal(c.state) {
      assert Reconciled(c, found) == c;
      if OpenRunLeft(c) {
        assert !NoOpenRun(c.attempts);
      }
    } else {
      ReconciledClosesRuns(c, found);
    }
    if c.phase == InRun {
      forall message ensures RunLeft(Apply(c, WorkerError(message))) { RunLeftStep(c, WorkerError(message)); }
    }
  }

  // ----- The same over whole campaigns -----

  /** Event k is an error in the middle of a run. */
  ghost predicate ErrorInRunAt(c: Campaign, es: seq<Event>, k: nat) {
    k < |es| && Exec(c, es[..k]).Some? && Exec(c, es[..k]).value.phase == InRun && es[k].WorkerError?
  }

  /** Event k leaves attempt i open. */
  ghost predicate AbandonedAt(c: Campaign, es: seq<Event>, i: nat, k: nat) {
    k < |es| && Exec(c, es[..k]).Some? && Abandons(Exec(c, es[..k]).value, es[k], i)
  }

  ghost predicate SweptAt(c: Campaign, es: seq<Event>, i: nat, k: nat) {
    k < |es| && Exec(c, es[..k]).Some? && Sweeps(Exec(c, es[..k]).value, es[k], i)
  }

  /** Event k leaves attempt i open, and no later restart sweeps it up. */
  ghost predicate LeftAt(c: Campaign, es: seq<Event>, i: nat, k: nat) {
    AbandonedAt(c, es, i, k) && forall m | k < m < |es| :: !SweptAt(c, es, i, m)
  }

  lemma {:induction false} RunLeftSince(c: Campaign, es: seq<Event>)
    requires Inv(c) && !RunLeft(c) && Exec(c, es).Some?
    ensures RunLeft(Exec(c, es).value) <==> exists k | 0 <= k < |es| :: ErrorInRunAt(c, es, k)
  {
    hide Inv, Apply, Enabled, RunLeft;
    if es != [] {
      var front := es[..|es| - 1];
      RunLeftSince(c, front);
      ExecKeepsInv(c, front);
      RunLeftStep(Exec(c, front).value, es[|es| - 1]);
      forall k | 0 <= k < |front|
        ensures ErrorInRunAt(c, es, k) <==> ErrorInRunAt(c, front, k)
      {
        assert front[..k] == es[..k];
      }
      assert ErrorInRunAt(c, es, |front|) <==> Exec(c, front).value.phase == InRun && es[|es| - 1].WorkerError?;
    }
  }

  lemma {:induction false} LeftMore(c: Campaign, es: seq<Event>, i: nat)
    requires es != [] && Exec(c, es).Some?
    ensures var front := es[..|es| - 1];
            && Exec(c, front).Some?
            && ((exists k | 0 <= k < |es| :: LeftAt(c, es, i, k)) <==>
                ((exists k | 0 <= k < |front| :: LeftAt(c, front, i, k)) && !SweptAt(c, es, i, |front|)) ||
                AbandonedAt(c, es, i, |front|))
  {
    hide Exec, Abandons, Sweeps;
    var front := es[..|es| - 1];
    assert Exec(c, front).Some? by {
      ExecFront(c, es);
    }
    forall k | 0 <= k < |front|
      ensures AbandonedAt(c, es, i, k) <==> AbandonedAt(c, front, i, k)
      ensures SweptAt(c, es, i, k) <==> SweptAt(c, front, i, k)
    {
      assert front[..k] == es[..k];
    }
    forall k | 0 <= k < |front|
      ensures LeftAt(c, es, i, k) <==> LeftAt(c, front, i, k) && !SweptAt(c, es, i, |front|)
    {
      hide AbandonedAt, SweptAt;
    }
    assert LeftAt(c, es, i, |front|) <==> AbandonedAt(c, es, i, |front|);
  }

  lemma {:induction false} ExecFront(c: Campaign, es: seq<Event>)
    requires es != [] && Exec(c, es).Some?
    ensures Exec(c, es[..|es| - 1]).Some? && Enabled(Exec(c, es[..|es| - 1]).value, es[|es| - 1])
    ensures Exec(c, es).value == Apply(Exec(c, es[..|es| - 1]).value, es[|es| - 1])
  {
    hide Enabled, Apply;
  }

  lemma {:induction false} AbandonedIsNotSwept(c: Campaign, e: Event, i: nat)
    ensures !(Abandons(c, e, i) && Sweeps(c, e, i))
  {
  }

  lemma {:induction false} LeftSince(c: Campaign, es: seq<Event>, i: nat)
    requires Inv(c) && c.attempts == [] && Exec(c, es).Some?
    ensures LeftOpen(Exec(c, es).value, i) <==> exists k | 0 <= k < |es| :: LeftAt(c, es, i, k)
  {
    hide Inv, Apply, Enabled, Abandons, Sweeps, LeftAt;
    if es != [] {
      var front, e := es[..|es| - 1], es[|es| - 1];
      ExecFront(c, es);
      LeftSince(c, front, i);
      ExecKeepsInv(c, front);
      LeftStep(Exec(c, front).value, e, i);
      LeftMore(c, es, i);
      AbandonedIsNotSwept(Exec(c, front).value, e, i);
    }
  }

  /** A restart cancels a batch that is to be cancelled, and pauses every other one that has begun and is not over. */
  lemma {:induction false} RestartEnds(c: Campaign, found: Option<RunOutcome>)
    ensures var d := Apply(c, Restart(found));
            if Terminal(c.state) || c.state == Draft || c.state == Scheduled
            then d.state == c.state && d.reason == c.reason
            else if c.state == BatchState.CancelRequested
            then d.state == BatchState.Cancelled && d.reason == "user_cancelled"
            else d.state == Paused && d.reason == "worker_restarted"
  {
    hide Judged;
  }

  lemma {:induction false} FreshIsSound(cfg: Config, start: BatchState)
    requires start == Draft || start == Scheduled
    ensures Inv(Fresh(cfg, start)) && !RunLeft(Fresh(cfg, start)) && Fresh(cfg, start).attempts == []
  {
  }

  /**
   Over every campaign, exactly which attempts are open: the one the worker is in, and those that a worker left open
   by an error, or by a restart before the attempt had its run, and that no restart of a batch to be cancelled has
   swept up since. After a restart no worker is in any.
   */
  lemma {:induction false} OpenIff(cfg: Config, start: BatchState, es: seq<Event>, i: nat)
    requires start == Draft || start == Scheduled
    requires Exec(Fresh(cfg, start), es).Some?
    ensures var c := Exec(Fresh(cfg, start), es).value;
            && (i < |c.attempts| && Open(c.attempts[i]) <==>
                Current(c, i) || exists k | 0 <= k < |es| :: LeftAt(Fresh(cfg, start), es, i, k))
            && (es != [] && es[|es| - 1].Restart? ==> !Current(c, i))
  {
    hide LeftAt, Apply, Inv, Reconciled;
    var c := Fresh(cfg, start);
    FreshIsSound(cfg, start);
    LeftSince(c, es, i);
    ExecKeepsInv(c, es);
    OpenRunIs(Exec(c, es).value);
    if es != [] && es[|es| - 1].Restart? {
      ExecFront(c, es);
      RestartIdles(Exec(c, es[..|es| - 1]).value, es[|es| - 1].found);
    }
  }

  /**
   Over every campaign, a batch is over with a run that was never judged if and only if a worker raised in the
   middle of a run; and that run is all that a restart can leave open of the attempts with a run.
   */
  lemma {:induction false} OpenRunIff(cfg: Config, start: BatchState, es: seq<Event>, found: Option<RunOutcome>)
    requires start == Draft || start == Scheduled
    requires Exec(Fresh(cfg, start), es).Some?
    ensures var c := Exec(Fresh(cfg, start), es).value;
            && (RunLeft(c) <==> exists k | 0 <= k < |es| :: ErrorInRunAt(Fresh(cfg, start), es, k))
            && (NoOpenRun(Apply(c, Restart(found)).attempts) <==>
                !(exists k | 0 <= k < |es| :: ErrorInRunAt(Fresh(cfg, start), es, k)))
  {
    hide ErrorInRunAt, Reconciled, RunLeft, NoOpenRun, Inv, Apply;
    var c := Fresh(cfg, start);
    FreshIsSound(cfg, start);
    RunLeftSince(c, es);
    ExecKeepsInv(c, es);
    ReconciledHasNoOpenRun(Exec(c, es).value, found);
    RestartIdles(Exec(c, es).value, found);
  }

  // ----- One test-node version per campaign -----

  /** Every valid attempt was measured by the expected version of the test node, as far as its version is known. */
  predicate VersionsAgree(c: Campaign) {
    forall i | 0 <= i < |c.attempts| && IsValid(c.attempts[i]) :: Compatible(c.attempts[i].version, c.expectedVersion)
  }

  predicate Compatible(version: string, expected: string) { version == "" || version == expected }

  /** A restart that judges a run valid without looking at its version. */
  predicate Unchecked(c: Campaign, found: Option<RunOutcome>) {
    && c.phase == InRun && !Terminal(c.state) && c.state != BatchState.CancelRequested
    && found.Some? && found.value.state == RunStateMachine.Completed
    && (found.value.eligible || !c.cfg.eligibleOnly) && !Compatible(found.value.version, c.expectedVersion)
  }

  /** The first version of the test node that a worker learnt of. */
  function FirstVersion(es: seq<Event>): string {
    if es == [] then ""
    else
      var v := FirstVersion(es[..|es| - 1]);
      if v != "" then v
      else
        match es[|es| - 1]
        case Ended(run) => run.version
        case Drifted(run) => run.version
        case _ => ""
  }

  lemma {:induction false} VersionStep(c: Campaign, e: Event)
    requires Enabled(c, e)
    ensures Apply(c, e).expectedVersion ==
              if c.expectedVersion != "" then c.expectedVersion
              else match e case Ended(run) => run.version case Drifted(run) => run.version case _ => ""
  {
    hide StateOf, ReasonOf, AfterLook, AfterFailing, AfterVerdict;
    if e.Restart? {
      RestartIdles(c, e.found);
      ReconciledFrame(c, e.found);
    }
  }

  lemma {:induction false} VersionSince(c: Campaign, es: seq<Event>)
    requires c.expectedVersion == "" && Exec(c, es).Some?
    ensures Exec(c, es).value.expectedVersion == FirstVersion(es)
  {
    hide Apply, Enabled;
    if es != [] {
      ExecFront(c, es);
      VersionSince(c, es[..|es| - 1]);
      VersionStep(Exec(c, es[..|es| - 1]).value, es[|es| - 1]);
    }
  }

  lemma {:induction false} DriftNow(c: Campaign, run: RunOutcome)
    ensures Enabled(c, Drifted(run)) <==>
              && c.phase == InRun && c.attempts != []
              && c.expectedVersion != "" && run.version != "" && run.version != c.expectedVersion
    ensures Enabled(c, Ended(run)) <==> c.phase == InRun && c.attempts != [] && !Enabled(c, Drifted(run))
  {
  }

  /**
   Over every campaign: the version that is expected is the first one that a worker learnt of, and a run that has ended
   is taken for drift exactly if both its version and that one are known and they differ.
   */
  lemma {:induction false} DriftIff(cfg: Config, start: BatchState, es: seq<Event>, run: RunOutcome)
    requires start == Draft || start == Scheduled
    requires Exec(Fresh(cfg, start), es).Some?
    ensures var c, first := Exec(Fresh(cfg, start), es).value, FirstVersion(es);
            && c.expectedVersion == first
            && (Enabled(c, Drifted(run)) <==>
                c.phase == InRun && first != "" && run.version != "" && run.version != first)
            && (Enabled(c, Ended(run)) <==> c.phase == InRun && !Enabled(c, Drifted(run)))
  {
    hide Inv, Exec, Enabled;
    FreshIsSound(cfg, start);
    VersionSince(Fresh(cfg, start), es);
    ExecKeepsInv(Fresh(cfg, start), es);
    OpenRunIs(Exec(Fresh(cfg, start), es).value);
    DriftNow(Exec(Fresh(cfg, start), es).value, run);
  }

  lemma {:induction false} StepKeepsVersions(c: Campaign, e: Event)
    requires Inv(c) && VersionsAgree(c) && Enabled(c, e) && !e.Restart?
    ensures VersionsAgree(Apply(c, e))
  {
    hide Inv, Reconciled, ReasonOf;
    var d := Apply(c, e);
    forall i | 0 <= i < |d.attempts| && IsValid(d.attempts[i])
      ensures Compatible(d.attempts[i].version, d.expectedVersion)
    {
      if i < |c.attempts| && d.attempts[i] == c.attempts[i] {
        assert Compatible(c.attempts[i].version, c.expectedVersion);
      }
    }
  }

  lemma {:induction false} JudgedValid(c: Campaign, i: nat, run: RunOutcome)
    requires i < |c.attempts|
    ensures Judged(c, i, run).attempts[i].version == run.version
    ensures IsValid(Judged(c, i, run).attempts[i]) <==>
              run.state == RunStateMachine.Completed && (run.eligible || !c.cfg.eligibleOnly)
  {
  }

  /** What a restart does to the attempts: at most the newest open one changes, and how. */
  lemma {:induction false} RestartTouches(c: Campaign, found: Option<RunOutcome>)
    requires Inv(c)
    ensures var d, i := Reconciled(c, found), NewestOpen(c.attempts);
            i >= 0 ==> (IsValid(d.attempts[i]) && !Compatible(d.attempts[i].version, d.expectedVersion) <==>
                        Unchecked(c, found))
    ensures Unchecked(c, found) ==> NewestOpen(c.attempts) >= 0
  {
    hide CountersAgree, WithinLimits, Judged, OpenRunIsNewest;
    ReconciledFrame(c, found);
    if c.phase == InRun {
      NewestOpenIs(c.attempts);
    }
    var i := NewestOpen(c.attempts);
    if i >= 0 && c.attempts[i].hasRun && !Terminal(c.state) {
      RestartFindsNewest(c);
      if found.Some? {
        JudgedValid(c, i, found.value);
      }
    }
  }

  /**
   Recovery keeps the versions together exactly if it does not take over a valid run of another version: it
   judges a completed run without the check that the worker makes.
   */
  lemma {:induction false} RestartKeepsVersionsIff(c: Campaign, found: Option<RunOutcome>)
    requires Inv(c) && VersionsAgree(c)
    ensures VersionsAgree(Apply(c, Restart(found))) <==> !Unchecked(c, found)
  {
    hide Reconciled, Inv, Unchecked;
    ReconciledFrame(c, found);
    RestartTouches(c, found);
    var d := Apply(c, Restart(found));
    if !Unchecked(c, found) {
      forall j | 0 <= j < |d.attempts| && IsValid(d.attempts[j])
        ensures Compatible(d.attempts[j].version, d.expectedVersion)
      {
        if j != NewestOpen(c.attempts) {
          assert Compatible(c.attempts[j].version, c.expectedVersion);
        }
      }
    }
  }

  /** The steps that take a worker from its look at the row into a run. */
  lemma {:induction false} StartsRun(c: Campaign) returns (d: Campaign)
    requires Inv(c) && c.phase == Looked && c.state == Running && MayBegin(c)
    ensures Exec(c, [Begin, PreconditionOk, Link]) == Some(d)
    ensures d.phase == InRun && d.state == Running && d.cfg == c.cfg && d.expectedVersion == c.expectedVersion
    ensures d.attempts == c.attempts + [Attempt(c.attemptCount + 1, Executing, NoOutcome, true, "")]
  {
    hide Inv, Exec, Judged, Reconciled, Noted, StateOf, ReasonOf, AfterLook, AfterFailing, AfterVerdict;
    NothingDone(c);
    var b := Apply(c, Begin);
    var p := Apply(b, PreconditionOk);
    d := Apply(p, Link);
    assert [Begin, PreconditionOk, Link] == (([] + [Begin]) + [PreconditionOk]) + [Link];
    ExecSnoc(c, [], Begin);
    ExecSnoc(c, [] + [Begin], PreconditionOk);
    ExecSnoc(c, ([] + [Begin]) + [PreconditionOk], Link);
  }

  /**
   Such a recovery can follow every campaign that may begin an attempt: the worker stops during the run, and the
   test node has another version by then.
   */
  lemma {:induction false} RecoveryCanMixVersions(c: Campaign, run: RunOutcome)
    requires Inv(c) && VersionsAgree(c) && c.phase == Looked && c.state == Running && MayBegin(c)
    requires run.state == RunStateMachine.Completed && run.eligible && !Compatible(run.version, c.expectedVersion)
    ensures var d := Exec(c, [Begin, PreconditionOk, Link, Restart(Some(run))]); d.Some? && !VersionsAgree(d.value)
  {
    var d := StartsRun(c);
    assert VersionsAgree(d) by {
      assert forall i | 0 <= i < |c.attempts| :: d.attempts[i] == c.attempts[i];
    }
    ExecKeepsInv(c, [Begin, PreconditionOk, Link]);
    RestartKeepsVersionsIff(d, Some(run));
    assert [Begin, PreconditionOk, Link, Restart(Some(run))] == [Begin, PreconditionOk, Link] + [Restart(Some(run))];
    ExecSnoc(c, [Begin, PreconditionOk, Link], Restart(Some(run)));
  }
}
