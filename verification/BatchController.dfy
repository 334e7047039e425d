/**
 All the batches of one installation: claims, requests, workers and restarts in any order. At most one batch is
 active, and a live worker belongs to it.

 A request handler is one atomic step, and so is a restart.
 */
module BatchController {
  import opened Batch
  import opened BatchRecovery
  import opened BatchRequests
  import opened SetFacts

  type BatchId = nat

  type System = map<BatchId, Campaign>

  datatype SystemEvent =
    | Create(id: BatchId, cfg: Config, scheduled: bool)
    | Delete(id: BatchId)
    | Start(id: BatchId)
    | Step(id: BatchId, event: Event)
    | RestartAll(found: map<BatchId, RunOutcome>)

  /** The batch counts as running, or a worker still holds it. */
  predicate Busy(c: Campaign) { Active(c.state) || c.phase != Idle }

  predicate AllQuiet(s: System) { forall id | id in s :: !Busy(s[id]) }

  function Found(found: map<BatchId, RunOutcome>, id: BatchId): Option<RunOutcome> {
    if id in found then Some(found[id]) else None
  }

  predicate Possible(s: System, e: SystemEvent) {
    match e
    case Create(id, _, _) => id !in s
    case Delete(id) => id in s && (s[id].state == Draft || s[id].state == Scheduled) && s[id].attempts == []
    case Start(id) => id in s && Claimable(s[id].state) && AllQuiet(s)
    case Step(id, event) => id in s && !event.Claim? && !event.Restart? && Enabled(s[id], event)
    case RestartAll(_) => true
  }

  function After(s: System, e: SystemEvent): System
    requires Possible(s, e)
  {
    match e
    case Create(id, cfg, scheduled) => s[id := Fresh(cfg, if scheduled then Scheduled else Draft)]
    case Delete(id) => s - {id}
    case Start(id) => s[id := Apply(s[id], Claim)]
    case Step(id, event) => s[id := Apply(s[id], event)]
    case RestartAll(found) => map id | id in s :: Apply(s[id], Restart(Found(found, id)))
  }

  function Happened(es: seq<SystemEvent>): Option<System> {
    if es == [] then Some(map[])
    else
      match Happened(es[..|es| - 1])
      case None => None
      case Some(s) => if Possible(s, es[|es| - 1]) then Some(After(s, es[|es| - 1])) else None
  }

  predicate AtMostOneBusy(s: System) {
    forall i, j | i in s && j in s && Busy(s[i]) && Busy(s[j]) :: i == j
  }

  predicate EachKeepsInv(s: System) { forall id | id in s :: Inv(s[id]) }

  predicate SystemInv(s: System) { AtMostOneBusy(s) && EachKeepsInv(s) }

  /**
   A claim is possible for a draft, a scheduled and a paused batch, exactly if no batch is running or asked to pause or
   to be cancelled, and none has a worker.
   */
  lemma {:induction false} ClaimIff(s: System, id: BatchId)
    ensures Possible(s, Start(id)) <==>
              && id in s && (s[id].state == Draft || s[id].state == Scheduled || s[id].state == Paused)
              && forall other | other in s ::
                   && s[other].state != Running && s[other].state != PauseRequested
                   && s[other].state != BatchState.CancelRequested && s[other].phase == Idle
  {
  }

  /** Only a claim makes a quiet batch busy: no request, and nothing a worker does, can. */
  lemma {:induction false} QuietStays(c: Campaign, e: Event)
    requires Enabled(c, e) && !e.Claim? && !Busy(c)
    ensures !Busy(Apply(c, e))
  {
  }

  lemma {:induction false} RestartQuiets(c: Campaign, found: Option<RunOutcome>)
    ensures !Busy(Apply(c, Restart(found)))
  {
  }

  lemma {:induction false} RestartKeepsSystemInv(s: System, found: map<BatchId, RunOutcome>)
    requires SystemInv(s)
    ensures SystemInv(After(s, RestartAll(found))) && AllQuiet(After(s, RestartAll(found)))
  {
    hide Apply, Inv;
    var t := After(s, RestartAll(found));
    forall id | id in t
      ensures Inv(t[id]) && !Busy(t[id])
    {
      StepKeepsInv(s[id], Restart(Found(found, id)));
      RestartQuiets(s[id], Found(found, id));
    }
  }

  lemma {:induction false} EventKeepsSystemInv(s: System, id: BatchId, event: Event)
    requires SystemInv(s) && Possible(s, Step(id, event))
    ensures SystemInv(After(s, Step(id, event)))
  {
    hide Apply, Enabled, Inv;
    StepKeepsInv(s[id], event);
    if !Busy(s[id]) {
      QuietStays(s[id], event);
    }
  }

  lemma {:induction false} CreateKeepsSystemInv(s: System, id: BatchId, cfg: Config, scheduled: bool)
    requires SystemInv(s) && Possible(s, Create(id, cfg, scheduled))
    ensures SystemInv(After(s, Create(id, cfg, scheduled)))
  {
    var c := Fresh(cfg, if scheduled then Scheduled else Draft);
    assert Inv(c) && !Busy(c);
    hide Inv, Fresh;
  }

  lemma {:induction false} StartKeepsSystemInv(s: System, id: BatchId)
    requires SystemInv(s) && Possible(s, Start(id))
    ensures SystemInv(After(s, Start(id)))
  {
    hide Inv, Apply;
    StepKeepsInv(s[id], Claim);
  }

  lemma {:induction false} StepKeepsSystemInv(s: System, e: SystemEvent)
    requires SystemInv(s) && Possible(s, e)
    ensures SystemInv(After(s, e))
    ensures e.RestartAll? ==> AllQuiet(After(s, e))
  {
    hide Inv, Busy, Apply, Enabled, Fresh;
    match e
    case Create(id, cfg, scheduled) => CreateKeepsSystemInv(s, id, cfg, scheduled);
    case Delete(id) =>
    case Start(id) => StartKeepsSystemInv(s, id);
    case Step(id, event) => EventKeepsSystemInv(s, id, event);
    case RestartAll(found) => RestartKeepsSystemInv(s, found);
  }

  lemma {:induction false} HappenedKeepsInv(es: seq<SystemEvent>)
    requires Happened(es).Some?
    ensures SystemInv(Happened(es).value)
  {
    if es != [] {
      HappenedKeepsInv(es[..|es| - 1]);
      StepKeepsSystemInv(Happened(es[..|es| - 1]).value, es[|es| - 1]);
    }
  }

  /**
   Over every history of creations, deletions, claims, requests, worker steps and restarts: at most one batch is
   active, at most one has a worker, a worker and an active batch belong together, and right after a restart there
   is neither.
   */
  lemma {:induction false} SingleActiveBatch(es: seq<SystemEvent>)
    requires Happened(es).Some?
    ensures var s := Happened(es).value;
            && (forall i, j | i in s && j in s && Active(s[i].state) && Active(s[j].state) :: i == j)
            && (forall i, j | i in s && j in s && s[i].phase != Idle && s[j].phase != Idle :: i == j)
            && (forall i, j | i in s && j in s && s[i].phase != Idle && Active(s[j].state) :: i == j)
            && (es != [] && es[|es| - 1].RestartAll? ==>
                  forall i | i in s :: !Active(s[i].state) && s[i].phase == Idle)
  {
    HappenedKeepsInv(es);
    if es != [] && es[|es| - 1].RestartAll? {
      HappenedKeepsInv(es[..|es| - 1]);
      StepKeepsSystemInv(Happened(es[..|es| - 1]).value, es[|es| - 1]);
    }
  }

  // ----- A batch left active without a worker -----

  /** One way to be stranded: a pause that comes between the claim and the worker's first look at the batch. */
  lemma {:induction false} EarlyPauseStrands(c: Campaign)
    requires Claimable(c.state) && c.phase == Idle
    ensures var d := Exec(c, [Claim, Pause, Decline, WorkerExit]);
            d.Some? && Stranded(d.value) && d.value.attempts == c.attempts
  {
    assert [Claim, Pause, Decline, WorkerExit] == (([Claim] + [Pause]) + [Decline]) + [WorkerExit];
    assert [Claim] == [] + [Claim];
    ExecSnoc(c, [], Claim);
    ExecSnoc(c, [Claim], Pause);
    ExecSnoc(c, [Claim] + [Pause], Decline);
    ExecSnoc(c, ([Claim] + [Pause]) + [Decline], WorkerExit);
  }

  /** So does a cancel request that comes after the worker has paused the batch and before it is gone. */
  lemma {:induction false} LateCancelStrands(c: Campaign)
    requires c.phase == Stopping(UserPaused)
    ensures var d := Exec(c, [Finish(UserPaused), Cancel, WorkerExit]); d.Some? && Stranded(d.value)
  {
    assert [Finish(UserPaused), Cancel, WorkerExit] == ([Finish(UserPaused)] + [Cancel]) + [WorkerExit];
    assert [Finish(UserPaused)] == [] + [Finish(UserPaused)];
    ExecSnoc(c, [], Finish(UserPaused));
    ExecSnoc(c, [Finish(UserPaused)], Cancel);
    ExecSnoc(c, [Finish(UserPaused)] + [Cancel], WorkerExit);
  }

  /** The two things that help a stranded batch. */
  predicate Frees(e: SystemEvent, id: BatchId) { e.RestartAll? || e == Step(id, Cancel) }

  lemma {:induction false} StrandedStays(s: System, id: BatchId, e: SystemEvent)
    requires id in s && Stranded(s[id]) && Possible(s, e)
    ensures !e.Start?
    ensures Frees(e, id) <==> !(id in After(s, e) && Stranded(After(s, e)[id]))
  {
    assert Busy(s[id]);
    if e.RestartAll? {
      RestartQuiets(s[id], Found(e.found, id));
    }
  }

  function HappenedFrom(s: System, es: seq<SystemEvent>): Option<System> {
    if es == [] then Some(s)
    else
      match HappenedFrom(s, es[..|es| - 1])
      case None => None
      case Some(t) => if Possible(t, es[|es| - 1]) then Some(After(t, es[|es| - 1])) else None
  }

  /** While a batch is stranded no batch can be started: it takes a cancel of that batch, or a restart. */
  lemma {:induction false} StrandedBlocksAll(s: System, id: BatchId, es: seq<SystemEvent>)
    requires id in s && Stranded(s[id]) && HappenedFrom(s, es).Some?
    requires forall k | 0 <= k < |es| :: !Frees(es[k], id)
    ensures var t := HappenedFrom(s, es).value; id in t && Stranded(t[id])
    ensures forall k | 0 <= k < |es| :: !es[k].Start?
  {
    if es != [] {
      var before := es[..|es| - 1];
      assert forall k | 0 <= k < |before| :: before[k] == es[k];
      StrandedBlocksAll(s, id, before);
      StrandedStays(HappenedFrom(s, before).value, id, es[|es| - 1]);
    }
  }

  lemma {:induction false} StrandedIsFreed(c: Campaign)
    requires Stranded(c)
    ensures Busy(c) && !Busy(Apply(c, Cancel))
  {
  }

  /** And after that cancel every batch that can be claimed can be started. */
  lemma {:induction false} CancelFrees(s: System, id: BatchId, other: BatchId)
    requires SystemInv(s) && id in s && Stranded(s[id])
    requires other in s && other != id && Claimable(s[other].state)
    ensures Possible(s, Step(id, Cancel)) && Possible(After(s, Step(id, Cancel)), Start(other))
  {
    hide EachKeepsInv, Busy, Apply;
    StrandedIsFreed(s[id]);
    var t := After(s, Step(id, Cancel));
    forall i | i in t
      ensures !Busy(t[i])
    {
      assert i != id ==> t[i] == s[i];
    }
  }

  lemma {:induction false} AttemptsStay(c: Campaign, e: Event)
    requires Enabled(c, e)
    ensures |Apply(c, e).attempts| >= |c.attempts|
  {
    hide StateOf, ReasonOf, AfterLook, AfterFailing, AfterVerdict;
    if e.Restart? {
      RestartIdles(c, e.found);
      ReconciledFrame(c, e.found);
    }
  }

  lemma {:induction false} MayClaim(c: Campaign)
    ensures Claimable(c.state) && !Busy(c) ==> Enabled(c, Claim)
  {
  }

  lemma {:induction false} MayRestart(c: Campaign, found: Option<RunOutcome>)
    ensures Enabled(c, Restart(found))
  {
  }

  lemma {:induction false} BegunStep(s: System, id: BatchId, e: SystemEvent)
    requires id in s && s[id].attempts != [] && Possible(s, e)
    ensures id in After(s, e) && |After(s, e)[id].attempts| >= |s[id].attempts|
  {
    hide Enabled, Apply;
    match e
    case Start(other) =>
      if other == id {
        MayClaim(s[id]);
        AttemptsStay(s[id], Claim);
      }
    case Step(other, event) =>
      if other == id {
        AttemptsStay(s[id], event);
      }
    case RestartAll(found) =>
      MayRestart(s[id], Found(found, id));
      AttemptsStay(s[id], Restart(Found(found, id)));
    case _ =>
  }

  /** Over every history, a batch that has begun an attempt is never deleted, and none of its attempts is ever lost. */
  lemma {:induction false} BegunIsKept(s: System, id: BatchId, es: seq<SystemEvent>)
    requires id in s && s[id].attempts != [] && HappenedFrom(s, es).Some?
    ensures id in HappenedFrom(s, es).value && |HappenedFrom(s, es).value[id].attempts| >= |s[id].attempts|
  {
    hide Possible, After;
    if es != [] {
      BegunIsKept(s, id, es[..|es| - 1]);
      BegunStep(HappenedFrom(s, es[..|es| - 1]).value, id, es[|es| - 1]);
    }
  }

  // ----- The handlers -----

  datatype Reply = Done | NotFound | Conflict

  /** Between the two systems: those still to do are as before, the others as after. */
  predicate Partly(s: System, before: System, after: System, todo: set<BatchId>) {
    && todo <= before.Keys == after.Keys == s.Keys
    && forall id | id in s :: s[id] == if id in todo then before[id] else after[id]
  }

  lemma {:induction false} PartlyStep(s: System, before: System, after: System, todo: set<BatchId>, id: BatchId)
    requires Partly(s, before, after, todo) && id in todo
    ensures Partly(s[id := after[id]], before, after, todo - {id})
  {
  }

  lemma {:induction false} PartlyDone(s: System, before: System, after: System)
    requires Partly(s, before, after, {})
    ensures s == after
  {
  }

  /** One batch after the other. */
  method ReconcileAll(batches: System, found: map<BatchId, RunOutcome>) returns (result: System)
    ensures result == After(batches, RestartAll(found))
  {
    ghost var after := After(batches, RestartAll(found));
    result := batches;
    var todo := batches.Keys;
    while todo != {}
      invariant Partly(result, batches, after, todo)
      decreases todo
    {
      ghost var any := SomeElement(todo);
      var id :| id in todo;
      PartlyStep(result, batches, after, todo, id);
      result := result[id := Apply(result[id], Restart(Found(found, id)))];
      todo := todo - {id};
    }
    PartlyDone(result, batches, after);
  }

  class Controller {
    var batches: System
    /** The keys of the table of cancel events: one for each live worker. */
    var workers: set<BatchId>
    /** Those whose event has been set. */
    var cancelled: set<BatchId>

    ghost predicate Consistent()
      reads this
    {
      && SystemInv(batches) && cancelled <= workers
      && (forall id :: id in workers <==> id in batches && batches[id].phase != Idle)
    }

    constructor ()
      ensures Consistent() && batches == map[]
    {
      batches, workers, cancelled := map[], {}, {};
    }

    method StartBatchWorker(id: BatchId, due: bool, protocolKnown: bool) returns (reply: Reply)
      requires Consistent()
      modifies this
      ensures Consistent()
      ensures reply == Done <==>
              Possible(old(batches), Start(id)) && protocolKnown && (old(batches)[id].state == Scheduled ==> due)
      ensures reply == Done ==>
                && Possible(old(batches), Start(id)) && batches == After(old(batches), Start(id))
                && workers == {id} && cancelled == {}
                && batches[id].state == Running && batches[id].reason == "" &&
                   batches[id].attempts == old(batches)[id].attempts
      ensures reply != Done ==> unchanged(this)
      ensures id !in old(batches) ==> reply == NotFound
    {
      hide Inv;
      if id !in batches {
        return NotFound;
      }
      var c := batches[id];
      if !Claimable(c.state) || (c.state == Scheduled && !due) || workers != {} {
        if workers != {} {
          ghost var holder := SomeElement(workers);
          assert Busy(batches[holder]);
        }
        return Conflict;
      }
      if exists other | other in batches.Keys :: Active(batches[other].state) {
        return Conflict;
      }
      if !protocolKnown {
        return NotFound;
      }
      assert Possible(batches, Start(id));
      StepKeepsSystemInv(batches, Start(id));
      batches := batches[id := Apply(c, Claim)];
      workers, cancelled := {id}, {};
      return Done;
    }

    method PauseBatch(id: BatchId) returns (reply: Reply)
      requires Consistent()
      modifies this`batches
      ensures Consistent()
      ensures reply == NotFound <==> id !in old(batches)
      ensures reply == Done <==>
              id in old(batches) && (old(batches)[id].state == Running || old(batches)[id].state == PauseRequested ||
                                     old(batches)[id].state == Paused)
      ensures id in old(batches) ==> batches == After(old(batches), Step(id, Pause))
      ensures id !in old(batches) ==> batches == old(batches)
    {
      hide Inv;
      if id !in batches {
        return NotFound;
      }
      var c := batches[id];
      assert batches == batches[id := c];
      StepKeepsSystemInv(batches, Step(id, Pause));
      if c.state == Running {
        batches := batches[id := c.(state := PauseRequested, reason := "user_paused")];
      } else if c.state != PauseRequested && c.state != Paused {
        return Conflict;
      }
      return Done;
    }

    method CancelBatch(id: BatchId) returns (reply: Reply)
      requires Consistent()
      modifies this`batches, this`cancelled
      ensures Consistent()
      ensures reply == (if id in old(batches) then Done else NotFound)
      ensures id in old(batches) ==> batches == After(old(batches), Step(id, Cancel))
      ensures id !in old(batches) ==> batches == old(batches)
      ensures cancelled == old(cancelled) + if id in workers then {id} else {}
    {
      hide Inv;
      if id !in batches {
        return NotFound;
      }
      var c := batches[id];
      assert batches == batches[id := c];
      StepKeepsSystemInv(batches, Step(id, Cancel));
      if id in workers {
        cancelled := cancelled + {id};
      }
      if !Terminal(c.state) {
        batches := batches[id := c.(state := if id in workers then BatchState.CancelRequested else BatchState.Cancelled,
                                    reason := "user_cancelled")];
      }
      return Done;
    }

    /** The worker's last act: its entry is gone. */
    method ForgetWorker(id: BatchId)
      requires Consistent() && id in batches && batches[id].phase == Exiting
      modifies this
      ensures Consistent() && batches == After(old(batches), Step(id, WorkerExit))
      ensures workers == {} && cancelled == {}
    {
      hide Inv;
      StepKeepsSystemInv(batches, Step(id, WorkerExit));
      forall other | other in workers
        ensures other == id
      {
        assert Busy(batches[other]) && Busy(batches[id]);
      }
      batches := batches[id := batches[id].(phase := Idle)];
      workers, cancelled := workers - {id}, cancelled - {id};
    }

    /** A restart: the tables are empty, and the batches are reconciled one after the other. */
    method RecoverInterruptedBatches(found: map<BatchId, RunOutcome>)
      requires Consistent()
      modifies this
      ensures Consistent() && batches == After(old(batches), RestartAll(found))
      ensures workers == {} && AllQuiet(batches)
    {
      RestartKeepsSystemInv(batches, found);
      workers, cancelled := {}, {};
      batches := ReconcileAll(batches, found);
    }
  }
}
