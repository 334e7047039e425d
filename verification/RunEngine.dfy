/**
 The life of one run: the engine that carries out the program of its plan.

 In the class `Run`, `state` is the copy that the engine's session holds and `stored` the row in the database, which a
 cancel request from outside may change; the engine looks at the row only where the source refreshes.
 */
module RunEngine {
  import opened SetFacts
  import opened RunStateMachine
  import opened RunProgram
  import opened RunLooks

  // ----- The engine -----

  /** How the guarded part of the run ends. */
  datatype Exit = Continue | EarlyReturn | RaisedCancelled | RaisedLost | RaisedError

  /** The row may run ahead of the session's copy by one cancel request. */
  predicate Ahead(state: RunState, row: RunState) {
    || row == state
    || (row == CancelRequested && Edge(state, CancelRequested))
    || (row == RunState.Cancelled && state == Created)
  }

  lemma {:induction false} TrailSnoc(t: seq<RunState>, s: RunState)
    requires t != []
    ensures Trail(t + [s]) <==> Trail(t) && Edge(t[|t| - 1], s)
  {
    var u := t + [s];
    assert u[|t|] == s && u[|t| - 1] == t[|t| - 1];
    if Trail(u) {
      forall i | 0 < i < |t| ensures Edge(t[i - 1], t[i]) { assert Edge(u[i - 1], u[i]); }
    }
  }

  /** The row while a cancel request is being honoured. */
  predicate Honouring(s: RunState) { s == CancelRequested || s == Restoring || s == RunState.Cancelled }

  /** A request that is being honoured still is after a write that follows the table. */
  lemma {:induction false} HonouredOn(row: RunState, target: RunState)
    requires MayOverwrite(row, target)
    ensures Honouring(row) && (row == target || Edge(row, target)) ==> Honouring(target)
    ensures Honouring(CancelRequested)
  {
  }

  /** The transitions that the engine makes. */
  predicate MayMove(s: RunState, target: RunState) {
    Edge(s, target) && (s == CancelRequested ==> target == Restoring) && (s == Restoring ==>
        target == RunState.Cancelled)
  }

  /** What the row may hold when the engine writes over it. */
  predicate MayOverwrite(row: RunState, target: RunState) {
    && (row == Restoring ==> target == RunState.Cancelled) && (row == CancelRequested ==> target != RecoveryRequired)
    && (Edge(row, target) || row == CancelRequested || row == RunState.Cancelled)
  }

  /** A request is pending in the row before anything arrives for the next instruction. */
  predicate Held(asks: nat -> bool, path: seq<Instr>) {
    path != [] && !path[|path| - 1].Move? && Asked(asks, path[..|path| - 1])
  }

  /** The row when the session's copy is s: a request before the start cancels the run at once. */
  function Row(pending: bool, s: RunState): RunState {
    if !pending then s else if s == Created then RunState.Cancelled else CancelRequested
  }

  lemma {:induction false} OnwardAccepts(s: RunState)
    ensures s in ONWARD ==> Edge(s, CancelRequested) && s != Created
    ensures !Edge(CancelRequested, CancelRequested) && !Edge(RunState.Cancelled, CancelRequested)
  {
  }

  lemma {:induction false} MoveFits(s: RunState, to: RunState)
    requires Fits(s, Move(to))
    ensures MayMove(s, to)
  {
  }

  lemma {:induction false} MoveFate(program: seq<Instr>, w: World, hasServer: bool, i: nat)
    requires i < |program| && program[i].Move?
    ensures FateFrom(program, w, hasServer, i) == FateFrom(program, w, hasServer, i + 1)
  {
  }

  lemma {:induction false} ArrivingNow(w: World, path: seq<Instr>)
    ensures Asked(w.asks, path) <==> w.asks(|path|) || Held(w.asks, path)
    ensures SetBy(w.fires, |path|) <==> w.fires(|path|) || (|path| > 0 && SetBy(w.fires, |path| - 1))
    ensures SetBy(w.loses, |path|) <==> w.loses(|path|) || (|path| > 0 && SetBy(w.loses, |path| - 1))
  {
  }

  lemma {:induction false} FragileMayFail(s: RunState)
    requires s in FRAGILE
    ensures MayMove(s, RunState.Failed)
  {
  }

  function Ended(e: Exit, at: nat): Fate {
    match e
    case Continue => Finished
    case EarlyReturn => RefusedAt(at)
    case RaisedCancelled => CancelledAt(at)
    case RaisedLost => LostAt(at)
    case RaisedError => RaisedAt(at)
  }

  lemma {:induction false} PathSnoc(asks: nat -> bool, path: seq<Instr>, i: Instr)
    ensures After(Created, path + [i]) == if i.Move? then i.to else After(Created, path)
    ensures Held(asks, path + [i]) <==> !i.Move? && Asked(asks, path)
    ensures Actions(path + [i]) ==
              Actions(path) + (match i case Reserve => [Reserved] case Measure(stage) => [Ran(stage)] case _ => [])
  {
    assert (path + [i])[..|path|] == path;
  }

  lemma {:induction false} NextExtends(program: seq<Instr>, path: seq<Instr>, i: Instr)
    requires path <= program && |path| < |program| && program[|path|] == i
    ensures path + [i] <= program && program[..|path|] == path && program[..|path| + 1] == path + [i]
  {
  }

  /** The next instruction stands where it may stand. */
  lemma {:induction false} NextFits(plan: Plan, turns: nat -> nat, path: seq<Instr>)
    requires path <= Program(plan, turns) && |path| < |Program(plan, turns)|
    ensures Fits(After(Created, path), Program(plan, turns)[|path|])
  {
    hide Program, Fits;
    ProgramPlaced(plan, turns);
    PlacedAt(Created, Program(plan, turns), |path|);
    assert Program(plan, turns)[..|path|] == path;
  }

  /** Instruction k of a stretch that the program goes on with. */
  lemma {:induction false} StepAt(program: seq<Instr>, was: seq<Instr>, stretch: seq<Instr>, k: nat)
    requires was + stretch <= program && k < |stretch|
    ensures var here := was + stretch[..k];
            |here| < |program| && program[|here|] == stretch[k] && here + [stretch[k]] == was + stretch[..k + 1]
    ensures was + stretch[..0] == was && was + stretch[..|stretch|] == was + stretch
  {
    var here := was + stretch[..k];
    assert program[|here|] == (was + stretch)[|here|];
  }

  lemma {:induction false} Split(program: seq<Instr>, was: seq<Instr>, a: seq<Instr>, b: seq<Instr>)
    requires was + (a + b) <= program
    ensures was + a <= program && (was + a) + b == was + (a + b)
  {
    assert (was + a) + b == was + (a + b);
  }

  /** The parts in which the engine verifies its surroundings. */
  lemma {:induction false} VerifyingParts(program: seq<Instr>, was: seq<Instr>)
    requires was + VERIFYING <= program
    ensures |was| < |program| && program[|was|] == Move(Preflight)
    ensures var a := was + [Move(Preflight)];
            var b := a + [Work, Look];
            var c := b + [Work, Look];
            var d := c + [Exam, Look];
            && a <= program && b <= program && c <= program && d <= program
            && |d| < |program| && program[|d|] == Move(VerifyingPaths)
            && d + [Move(VerifyingPaths)] + [Exam, Look] == was + VERIFYING
  {
    var a := [Move(Preflight)] + [Work, Look] + [Work, Look] + [Exam, Look];
    assert VERIFYING == a + [Move(VerifyingPaths)] + [Exam, Look];
    Split(program, was, a + [Move(VerifyingPaths)], [Exam, Look]);
    Split(program, was, a, [Move(VerifyingPaths)]);
    Split(program, was, [Move(Preflight)] + [Work, Look] + [Work, Look], [Exam, Look]);
    Split(program, was, [Move(Preflight)] + [Work, Look], [Work, Look]);
    Split(program, was, [Move(Preflight)], [Work, Look]);
    StepAt(program, was, [Move(Preflight)], 0);
    StepAt(program, was + a, [Move(VerifyingPaths)], 0);
  }

  lemma {:induction false} WaitingGrows(i: nat, n: nat)
    requires i < n
    ensures Waiting(i) + LOOK_BOTH <= Waiting(n)
    decreases n
  {
    if i < n - 1 {
      WaitingGrows(i, n - 1);
    }
  }

  lemma {:induction false} RoundsGrow(plan: Plan, turns: nat -> nat, i: nat, n: nat)
    requires i < n
    ensures Rounds(plan, turns, i) + Round(plan, turns, i + 1) <= Rounds(plan, turns, n)
    decreases n
  {
    if i < n - 1 {
      RoundsGrow(plan, turns, i, n - 1);
    }
  }

  lemma {:induction false} LeadsInto(program: seq<Instr>, was: seq<Instr>, part: seq<Instr>, whole: seq<Instr>)
    requires was + whole <= program && part <= whole
    ensures was + part <= program
  {
    assert whole == part + whole[|part|..];
    Split(program, was, part, whole[|part|..]);
  }

  class Run {
    const plan: Plan
    const w: World
    ghost const program: seq<Instr>
    var state: RunState
    var stored: RunState
    var log: seq<Action>
    var pc: nat
    /** The cancel event, and the renewal monitor's failure event: once set they stay set. */
    var cancelSet: bool
    var leaseLost: bool
    ghost var trail: seq<RunState>
    ghost var rows: seq<RunState>
    ghost var overwritten: nat
    ghost var path: seq<Instr>

    /**
     The session only ever follows the table. The row does so exactly as long as no cancel request has been
     overwritten, and then a request that reached the row is still being honoured.
     */
    ghost predicate Valid()
      reads this
    {
      && Trail(trail) && trail != [] && trail[|trail| - 1] == state
      && rows != [] && rows[|rows| - 1] == stored
      && Ahead(state, stored)
      && (overwritten == 0 <==> Trail(rows))
      && (overwritten == 0 && CancelRequested in rows ==> Honouring(stored))
    }

    /** Every request that came before instruction n, once the run had begun, has reached the row. */
    ghost predicate Noticed(n: nat)
      reads this
    {
      forall k | 0 < k < n && w.asks(k) :: CancelRequested in rows
    }

    /** The run has carried out the beginning `path` of its program, and its fate is still that of the rest. */
    ghost predicate Underway()
      reads this
    {
      && Valid() && program == Program(plan, w.turns) && path <= program && pc == |path|
      && state == After(Created, path)
      && FateFrom(program, w, plan.hasServer, 0) == FateFrom(program, w, plan.hasServer, pc)
    }

    /** Between two instructions. */
    ghost predicate Between()
      reads this
    {
      && Underway() && stored == Row(Held(w.asks, path), state) && Noticed(pc)
      && cancelSet == (pc > 0 && SetBy(w.fires, pc - 1)) && leaseLost == (pc > 0 && SetBy(w.loses, pc - 1))
    }

    /** Between two instructions, and nothing else has been done to the test node. */
    ghost predicate OnRoad()
      reads this
    {
      Between() && log == Actions(path)
    }

    /** All that comes before the next instruction has come. */
    ghost predicate Arrived()
      reads this
    {
      && Underway() && stored == Row(Asked(w.asks, path), state) && Noticed(pc + 1)
      && cancelSet == SetBy(w.fires, pc) && leaseLost == SetBy(w.loses, pc)
    }

    /** The run has left its program with the exit e. */
    ghost predicate Off(e: Exit)
      reads this
    {
      && e != Continue && Valid() && program == Program(plan, w.turns) && path < program
      && FateFrom(program, w, plan.hasServer, 0) == Ended(e, |path|)
      && log == Done(program, path)
      && (e == RaisedLost ==> plan.hasServer && leaseLost)
      && (match e
          case EarlyReturn => state == stored == RunState.Failed
          case RaisedCancelled => state == After(Created, path) || state == stored == CancelRequested
          case _ => state == After(Created, path))
    }

    /** A stretch of the program has been carried out, or left. */
    ghost predicate Went(was: seq<Instr>, stretch: seq<Instr>, e: Exit)
      reads this
    {
      if e == Continue then OnRoad() && path == was + stretch else Off(e) && was <= path
    }

    ghost predicate Next(i: Instr)
      reads this
    {
      |path| < |program| && program[|path|] == i
    }

    ghost predicate Leads(stretch: seq<Instr>)
      reads this
    {
      path + stretch <= program
    }

    constructor (plan: Plan, w: World)
      ensures this.plan == plan && this.w == w && OnRoad() && path == [] && state == Created
      ensures trail == rows == [Created] && overwritten == 0
    {
      this.plan, this.w, program := plan, w, Program(plan, w.turns);
      state, stored, log, pc := Created, Created, [], 0;
      cancelSet, leaseLost := false, false;
      trail, rows, overwritten, path := [Created], [Created], 0, [];
    }

    ghost method StoreRow(row: RunState)
      requires rows != []
      modifies this`rows
      ensures rows == old(rows) + [row] && (Trail(rows) <==> old(Trail(rows)) && Edge(old(rows)[|old(rows)| - 1], row))
      ensures CancelRequested in rows <==> CancelRequested in old(rows) || row == CancelRequested
    {
      TrailSnoc(rows, row);
      rows := rows + [row];
    }

    /** A cancel request from outside: it works on the row alone. */
    method RequestCancel() returns (accepted: bool)
      requires Valid()
      modifies this`stored, this`rows
      ensures Valid() && accepted == (stored != old(stored))
      ensures accepted <==> old(stored) == Created || Edge(old(stored), CancelRequested)
      ensures accepted ==> stored == if old(stored) == Created then RunState.Cancelled else CancelRequested
      ensures rows == if accepted then old(rows) + [stored] else old(rows)
    {
      if stored in TERMINAL {
        return false;
      }
      var target := if stored == Created then RunState.Cancelled else CancelRequested;
      if target !in Allowed(stored) {
        return false;
      }
      stored := target;
      StoreRow(target);
      accepted := true;
    }

    /** Someone may ask for cancellation, or not. */
    method Meanwhile()
      requires Valid()
      modifies this`stored, this`rows
      ensures Valid() && old(rows) <= rows
      ensures state in TERMINAL || old(stored) == CancelRequested ==> stored == old(stored)
    {
      if * {
        var accepted := RequestCancel();
      }
    }

    /** What comes from outside before the next instruction. */
    method Arrivals()
      requires Between()
      modifies this`stored, this`rows, this`cancelSet, this`leaseLost
      ensures Arrived() && old(rows) <= rows
    {
      hide Program, FateFrom, Actions, After, Trail, Edge, SetBy, Asked, Held;
      ArrivingNow(w, path);
      OnwardOnceBegun(plan, w.turns, path);
      OnwardAccepts(state);
      if w.fires(pc) {
        cancelSet := true;
      }
      if w.loses(pc) {
        leaseLost := true;
      }
      if w.asks(pc) {
        var accepted := RequestCancel();
      }
    }

    /** The new row, and whether writing it loses a cancel request. */
    ghost method OverwriteRow(target: RunState)
      requires rows != [] && rows[|rows| - 1] == stored && (overwritten == 0 <==> Trail(rows))
      requires overwritten == 0 && CancelRequested in rows ==> Honouring(stored)
      requires MayOverwrite(stored, target)
      modifies this`rows, this`overwritten
      ensures rows == if stored == target then old(rows) else old(rows) + [target]
      ensures rows[|rows| - 1] == target && (overwritten == 0 <==> Trail(rows))
      ensures overwritten == old(overwritten) + if stored == target || Edge(stored, target) then 0 else 1
      ensures overwritten == 0 && CancelRequested in rows ==> Honouring(target)
    {
      hide Trail, Edge, MayOverwrite, Honouring;
      HonouredOn(stored, target);
      if stored != target {
        if !Edge(stored, target) {
          overwritten := overwritten + 1;
        }
        StoreRow(target);
      }
    }

    /** What the row may hold when the engine writes over it. */
    lemma {:induction false} RowBeforeWrite(target: RunState)
      requires Valid() && MayMove(state, target)
      ensures MayOverwrite(stored, target)
    {
      hide Trail, Honouring;
    }

    /** The engine's write: the session's copy and the row take the new state, whatever the row held. */
    method Write(target: RunState)
      requires Valid() && MayMove(state, target)
      modifies this`state, this`stored, this`trail, this`rows, this`overwritten
      ensures Valid() && state == stored == target && trail == old(trail) + [target]
      ensures rows == if old(stored) == target then old(rows) else old(rows) + [target]
      ensures overwritten == old(overwritten) + if old(stored) == target || Edge(old(stored), target) then 0 else 1
    {
      hide Trail, Edge, Honouring;
      TrailSnoc(trail, target);
      RowBeforeWrite(target);
      OverwriteRow(target);
      state, stored := target, target;
      trail := trail + [target];
    }


    // ----- The instructions -----

    /** The next instruction is done, and the run goes on. */
    method Advance(ghost i: Instr)
      requires Arrived() && log == Actions(path) && Next(i) && !i.Move? && i != Reserve && !i.Measure?
      requires FateFrom(program, w, plan.hasServer, pc) == FateFrom(program, w, plan.hasServer, pc + 1)
      modifies this`pc, this`path
      ensures OnRoad() && path == old(path) + [i]
    {
      hide Program, FateFrom, Trail, After, Actions, Held, Asked, SetBy;
      PathSnoc(w.asks, path, i);
      NextExtends(program, path, i);
      pc := pc + 1;
      path := path + [i];
    }

    /** The engine moves the run on: checked against its own copy, whatever the row holds. */
    method MoveOn(target: RunState)
      requires OnRoad() && Next(Move(target))
      modifies this
      ensures OnRoad() && path == old(path) + [Move(target)]
    {
      hide Program, Trail, After, Actions, Held, Asked, SetBy, Edge, Fits, MayMove, FateFrom;
      Arrivals();
      NextFits(plan, w.turns, path);
      MoveFits(state, target);
      MoveFate(program, w, plan.hasServer, pc);
      PathSnoc(w.asks, path, Move(target));
      NextExtends(program, path, Move(target));
      Write(target);
      pc := pc + 1;
      path := path + [Move(target)];
    }

    /** Raise if the reservation was lost. */
    method CheckLease() returns (e: Exit)
      requires OnRoad() && Next(LookLease)
      modifies this
      ensures Went(old(path), [LookLease], e) && e in {Continue, RaisedLost}
    {
      hide Program, Trail, After, Held, Asked, SetBy;
      Arrivals();
      if plan.hasServer && leaseLost {
        return RaisedLost;
      }
      Advance(LookLease);
      e := Continue;
    }

    /** Reload the session's copy from the row. */
    method Refresh()
      requires Valid()
      modifies this`state, this`trail
      ensures Valid() && state == stored
    {
      hide Trail;
      if state != stored {
        TrailSnoc(trail, stored);
        state := stored;
        trail := trail + [stored];
      }
    }

    /** Raise if the cancel event is set, or if the row, read again, asks for cancellation. */
    method CheckCancelled() returns (e: Exit)
      requires OnRoad() && Next(Look)
      modifies this
      ensures Went(old(path), [Look], e) && e in {Continue, RaisedCancelled}
    {
      hide Program, Trail, After, Held, Asked, SetBy, Edge;
      Arrivals();
      NextFits(plan, w.turns, path);
      NextExtends(program, path, Look);
      if cancelSet {
        return RaisedCancelled;
      }
      Refresh();
      if state == CancelRequested {
        return RaisedCancelled;
      }
      Advance(Look);
      e := Continue;
    }

    /** Work that may raise. */
    method Perform() returns (e: Exit)
      requires OnRoad() && Next(Work)
      modifies this
      ensures Went(old(path), [Work], e) && e in {Continue, RaisedError}
    {
      hide Program, Trail, After, Held, Asked, SetBy;
      Arrivals();
      if w.answers(pc) != Fine {
        return RaisedError;
      }
      Advance(Work);
      e := Continue;
    }

    /** An examination: all well, an exception, or a result with which the run fails and is left at once. */
    method Examine() returns (e: Exit)
      requires OnRoad() && Next(Exam)
      modifies this
      ensures Went(old(path), [Exam], e) && e in {Continue, RaisedError, EarlyReturn}
    {
      hide Program, Trail, After, Held, Asked, SetBy;
      Arrivals();
      if w.answers(pc) == Raises {
        return RaisedError;
      }
      if w.answers(pc) == Refuses {
        NextFits(plan, w.turns, path);
        FragileMayFail(state);
        Transition(RunState.Failed);
        return EarlyReturn;
      }
      Advance(Exam);
      e := Continue;
    }

    /** A transition outside the program: someone may ask for cancellation before it, and is overwritten. */
    method Transition(target: RunState)
      requires Valid() && MayMove(state, target)
      modifies this`state, this`stored, this`trail, this`rows, this`overwritten
      ensures Valid() && state == stored == target && trail == old(trail) + [target] && old(rows) <= rows
      ensures overwritten >= old(overwritten)
      ensures old(stored) == CancelRequested && target != CancelRequested && !Edge(CancelRequested, target) ==>
                overwritten == old(overwritten) + 1
    {
      hide Trail, Edge;
      Meanwhile();
      Write(target);
    }

    /** Reserve the test node. */
    method ReserveNode() returns (e: Exit)
      requires OnRoad() && Next(Reserve)
      modifies this
      ensures Went(old(path), [Reserve], e) && e in {Continue, RaisedError}
    {
      hide Program, Trail, After, Held, Asked, SetBy, Actions;
      Arrivals();
      PathSnoc(w.asks, path, Reserve);
      NextExtends(program, path, Reserve);
      if w.answers(pc) != Fine {
        return RaisedError;
      }
      log := log + [Reserved];
      pc := pc + 1;
      path := path + [Reserve];
      e := Continue;
    }

    /** One traffic stage: it may fail once it has begun. */
    method RunStage(stage: Stage) returns (e: Exit)
      requires OnRoad() && Next(Measure(stage))
      modifies this
      ensures Went(old(path), [Measure(stage)], e) && e in {Continue, RaisedError}
    {
      hide Program, Trail, After, Held, Asked, SetBy, Actions;
      Arrivals();
      PathSnoc(w.asks, path, Measure(stage));
      NextExtends(program, path, Measure(stage));
      log := log + [Ran(stage)];
      if w.answers(pc) != Fine {
        return RaisedError;
      }
      pc := pc + 1;
      path := path + [Measure(stage)];
      e := Continue;
    }

    // ----- The stretches of the program -----

    /** A lost reservation comes before a cancellation. */
    method CheckBoth() returns (e: Exit)
      requires OnRoad() && Leads(LOOK_BOTH)
      modifies this
      ensures Went(old(path), LOOK_BOTH, e)
    {
      hide Program, OnRoad, Off;
      ghost var was := path;
      StepAt(program, was, LOOK_BOTH, 0);
      e := CheckLease();
      if e != Continue {
        return;
      }
      StepAt(program, was, LOOK_BOTH, 1);
      e := CheckCancelled();
      if e != Continue {
        return;
      }
    }

    /** Wait for a while, looking out for a lost reservation and for cancellation. */
    method Wait(number: nat) returns (e: Exit)
      requires OnRoad() && Leads(Waiting(w.turns(number)))
      modifies this
      ensures Went(old(path), Waiting(w.turns(number)), e)
    {
      hide Program, OnRoad, Off;
      ghost var was := path;
      var turn := 0;
      e := Continue;
      assert was + Waiting(0) == was;
      while turn < w.turns(number)
        invariant turn <= w.turns(number) && e == Continue && OnRoad() && path == was + Waiting(turn)
        decreases w.turns(number) - turn
      {
        WaitingGrows(turn, w.turns(number));
        LeadsInto(program, was, Waiting(turn) + LOOK_BOTH, Waiting(w.turns(number)));
        Split(program, was, Waiting(turn), LOOK_BOTH);
        e := CheckBoth();
        if e != Continue {
          return;
        }
        turn := turn + 1;
      }
    }

    /** A traffic stage and the checks after it. */
    method Traffic(stage: Stage) returns (e: Exit)
      requires OnRoad() && Leads(Measured(stage))
      modifies this
      ensures Went(old(path), Measured(stage), e)
    {
      hide Program, OnRoad, Off;
      Split(program, path, [Measure(stage)], LOOK_BOTH);
      StepAt(program, path, [Measure(stage)], 0);
      e := RunStage(stage);
      if e == Continue {
        e := CheckBoth();
      }
    }

    /** Some work and a check. */
    method Prepared() returns (e: Exit)
      requires OnRoad() && Leads([Work, Look])
      modifies this
      ensures Went(old(path), [Work, Look], e)
    {
      hide Program, OnRoad, Off;
      ghost var was := path;
      StepAt(program, was, [Work, Look], 0);
      e := Perform();
      if e != Continue {
        return;
      }
      StepAt(program, was, [Work, Look], 1);
      e := CheckCancelled();
      if e != Continue {
        return;
      }
    }

    /** An examination and a check. */
    method Examined() returns (e: Exit)
      requires OnRoad() && Leads([Exam, Look])
      modifies this
      ensures Went(old(path), [Exam, Look], e)
    {
      hide Program, OnRoad, Off;
      ghost var was := path;
      StepAt(program, was, [Exam, Look], 0);
      e := Examine();
      if e != Continue {
        return;
      }
      StepAt(program, was, [Exam, Look], 1);
      e := CheckCancelled();
      if e != Continue {
        return;
      }
    }

    /** The checks before anything is reserved: the server, the environment, the router, the paths. */
    method Verify() returns (e: Exit)
      requires OnRoad() && Leads(VERIFYING)
      modifies this
      ensures Went(old(path), VERIFYING, e)
    {
      hide Program, OnRoad, Off;
      ghost var was := path;
      VerifyingParts(program, was);
      MoveOn(Preflight);
      e := Prepared();
      if e == Continue {
        e := Prepared();
      }
      if e == Continue {
        e := Examined();
      }
      if e == Continue {
        MoveOn(VerifyingPaths);
        e := Examined();
      }
    }

    /** Up to the reservation, and past it. */
    method Prepare() returns (e: Exit)
      requires OnRoad() && Leads(Preparing(plan))
      modifies this
      ensures Went(old(path), Preparing(plan), e)
    {
      hide Program, OnRoad, Off;
      ghost var was := path;
      StepAt(program, was, Preparing(plan), 0);
      StepAt(program, was, Preparing(plan), 1);
      MoveOn(WarmingUp);
      if plan.hasServer {
        StepAt(program, was, Preparing(plan), 2);
        e := ReserveNode();
        if e != Continue {
          return;
        }
      }
      MoveOn(Running);
      e := Continue;
    }

    /** The measurements before the upload rounds. */
    method Open() returns (e: Exit)
      requires OnRoad() && Leads(Opening(plan))
      modifies this
      ensures Went(old(path), Opening(plan), e)
    {
      hide Program, OnRoad, Off, Measured;
      ghost var was := path;
      ghost var first := [Measure(Latency), Look];
      ghost var more := if plan.udp == Beginning then Measured(Udp(0)) else [];
      Split(program, was, LOOK_BOTH + first, more);
      Split(program, was, LOOK_BOTH, first);
      e := CheckBoth();
      if e == Continue {
        StepAt(program, path, first, 0);
        StepAt(program, path, first, 1);
        e := RunStage(Latency);
      }
      if e == Continue {
        e := CheckCancelled();
      }
      if e == Continue && plan.udp == Beginning {
        e := Traffic(Udp(0));
      }
    }

    /** The upload of round k, after the warm-up if it is the first. */
    method Upload(k: nat) returns (e: Exit)
      requires OnRoad() && Leads(LOOK_BOTH + (if k == 1 then Waiting(w.turns(0)) else []) + Measured(Tcp(k)))
      modifies this
      ensures Went(old(path), LOOK_BOTH + (if k == 1 then Waiting(w.turns(0)) else []) + Measured(Tcp(k)), e)
    {
      hide Program, OnRoad, Off, Measured, Waiting;
      ghost var was := path;
      ghost var a := if k == 1 then Waiting(w.turns(0)) else [];
      Split(program, was, LOOK_BOTH + a, Measured(Tcp(k)));
      Split(program, was, LOOK_BOTH, a);
      e := CheckBoth();
      if e == Continue && k == 1 {
        e := Wait(0);
      }
      if e == Continue {
        e := Traffic(Tcp(k));
      }
    }

    /** One upload round: the upload, the recovery unless it is the last, and the datagram stage if the plan says so. */
    method UploadRound(k: nat) returns (e: Exit)
      requires OnRoad() && Leads(Round(plan, w.turns, k))
      modifies this
      ensures Went(old(path), Round(plan, w.turns, k), e)
    {
      hide Program, OnRoad, Off, Measured, Waiting;
      ghost var was := path;
      ghost var a := LOOK_BOTH + (if k == 1 then Waiting(w.turns(0)) else []) + Measured(Tcp(k));
      ghost var b := if k < plan.tcpRounds then Waiting(w.turns(k)) else [];
      ghost var c := if plan.udp == AfterEachTcp then Measured(Udp(k)) else [];
      Split(program, was, a + b, c);
      Split(program, was, a, b);
      e := Upload(k);
      if e == Continue && k < plan.tcpRounds {
        e := Wait(k);
      }
      if e == Continue && plan.udp == AfterEachTcp {
        e := Traffic(Udp(k));
      }
    }

    /** All the upload rounds. */
    method UploadRounds() returns (e: Exit)
      requires OnRoad() && Leads(Rounds(plan, w.turns, plan.tcpRounds))
      modifies this
      ensures Went(old(path), Rounds(plan, w.turns, plan.tcpRounds), e)
    {
      hide Program, OnRoad, Off, Round;
      ghost var was := path;
      var k := 0;
      e := Continue;
      assert was + Rounds(plan, w.turns, 0) == was;
      while k < plan.tcpRounds
        invariant k <= plan.tcpRounds && e == Continue && OnRoad() && path == was + Rounds(plan, w.turns, k)
        decreases plan.tcpRounds - k
      {
        RoundsGrow(plan, w.turns, k, plan.tcpRounds);
        LeadsInto(program, was, Rounds(plan, w.turns, k) + Round(plan, w.turns, k + 1),
                  Rounds(plan, w.turns, plan.tcpRounds));
        Split(program, was, Rounds(plan, w.turns, k), Round(plan, w.turns, k + 1));
        e := UploadRound(k + 1);
        if e != Continue {
          return;
        }
        k := k + 1;
      }
    }

    /** The datagram stage at the end, if the plan says so, and the recovery after datagrams. */
    method Recover() returns (e: Exit)
      requires OnRoad() && Leads((if plan.udp == AtEnd then Measured(Udp(0)) else []) +
                Waiting(w.turns(plan.tcpRounds + 1)))
      modifies this
      ensures Went(old(path), (if plan.udp == AtEnd then Measured(Udp(0)) else []) + Waiting(w.turns(plan.tcpRounds +
                1)), e)
    {
      hide Program, OnRoad, Off, Measured, Waiting;
      ghost var was := path;
      ghost var a := if plan.udp == AtEnd then Measured(Udp(0)) else [];
      Split(program, was, a, Waiting(w.turns(plan.tcpRounds + 1)));
      e := Continue;
      if plan.udp == AtEnd {
        e := Traffic(Udp(0));
      }
      if e == Continue {
        e := Wait(plan.tcpRounds + 1);
      }
    }

    /** The measurements after the upload rounds. */
    method Close() returns (e: Exit)
      requires OnRoad() && Leads(Closing(plan, w.turns))
      modifies this
      ensures Went(old(path), Closing(plan, w.turns), e)
    {
      hide Program, OnRoad, Off, Measured, Waiting;
      ghost var was := path;
      ghost var a := (if plan.udp == AtEnd then Measured(Udp(0)) else []) + Waiting(w.turns(plan.tcpRounds + 1));
      ghost var c := Waiting(w.turns(plan.tcpRounds + 2));
      Split(program, was, a + Measured(Video) + c, [Work]);
      Split(program, was, a + Measured(Video), c);
      Split(program, was, a, Measured(Video));
      e := Recover();
      if e == Continue {
        e := Traffic(Video);
      }
      if e == Continue {
        e := Wait(plan.tcpRounds + 2);
      }
      if e == Continue {
        StepAt(program, path, [Work], 0);
        e := Perform();
      }
    }

    /** Judge the results once the traffic is over. */
    method Conclude() returns (e: Exit)
      requires OnRoad() && Leads(Concluding(plan))
      modifies this
      ensures Went(old(path), Concluding(plan), e)
    {
      hide Program, OnRoad, Off;
      ghost var was := path;
      StepAt(program, was, Concluding(plan), 0);
      MoveOn(CoolingDown);
      StepAt(program, was, Concluding(plan), 1);
      MoveOn(Analyzing);
      StepAt(program, was, Concluding(plan), 2);
      if plan.needsEvidence {
        e := Examine();
      } else {
        e := Perform();
      }
      if e == Continue {
        StepAt(program, was, Concluding(plan), 3);
        MoveOn(GeneratingReport);
      }
    }

    /** All measurements, from the reservation on. */
    method Measurements() returns (e: Exit)
      requires OnRoad() && Leads(Opening(plan) + Rounds(plan, w.turns, plan.tcpRounds) + Closing(plan, w.turns))
      modifies this
      ensures Went(old(path), Opening(plan) + Rounds(plan, w.turns, plan.tcpRounds) + Closing(plan, w.turns), e)
    {
      hide Program, OnRoad, Off, Opening, Rounds, Closing;
      ghost var was := path;
      ghost var rounds := Rounds(plan, w.turns, plan.tcpRounds);
      Split(program, was, Opening(plan) + rounds, Closing(plan, w.turns));
      Split(program, was, Opening(plan), rounds);
      e := Open();
      if e == Continue {
        e := UploadRounds();
      }
      if e == Continue {
        e := Close();
      }
    }

    /** The guarded part of the run: the whole program, or as far as it gets. */
    method Body() returns (e: Exit)
      requires OnRoad() && path == []
      modifies this
      ensures if e == Continue then OnRoad() && path == program else Off(e)
    {
      hide OnRoad, Off, Preparing, Opening, Rounds, Closing, Concluding;
      ghost var measuring := Opening(plan) + Rounds(plan, w.turns, plan.tcpRounds) + Closing(plan, w.turns);
      ProgramIs();
      Split(program, [], VERIFYING + Preparing(plan) + measuring, Concluding(plan));
      Split(program, [], VERIFYING + Preparing(plan), measuring);
      Split(program, [], VERIFYING, Preparing(plan));
      e := Verify();
      if e == Continue {
        e := Prepare();
      }
      if e == Continue {
        e := Measurements();
      }
      if e == Continue {
        e := Conclude();
      }
    }

    lemma {:induction false} ProgramIs()
      requires OnRoad()
      ensures program == [] + (VERIFYING + Preparing(plan) +
                               (Opening(plan) + Rounds(plan, w.turns, plan.tcpRounds) + Closing(plan, w.turns)) +
                                   Concluding(plan))
    {
      hide Preparing, Opening, Rounds, Closing, Concluding;
      var a, r, c := VERIFYING + Preparing(plan), Rounds(plan, w.turns, plan.tcpRounds), Closing(plan, w.turns);
      assert a + (Opening(plan) + r + c) == a + Opening(plan) + r + c;
    }

    // ----- The end of the run -----

    /** Clean up after a cancellation, wherever it was noticed. */
    method TransitionCancelled()
      requires Valid() && (state in CHECKED || state == CancelRequested)
      modifies this`state, this`stored, this`trail, this`rows, this`overwritten
      ensures Valid() && state == stored == RunState.Cancelled && CancelRequested in rows
    {
      hide Trail;
      Meanwhile();
      Refresh();
      if state != CancelRequested && state != Restoring {
        Transition(CancelRequested);
      }
      if state == CancelRequested {
        Transition(Restoring);
      }
      Transition(RunState.Cancelled);
    }

    lemma {:induction false} OffState(e: Exit)
      requires Off(e)
      ensures match e
              case EarlyReturn => state == RunState.Failed
              case RaisedCancelled => state in CHECKED || state == CancelRequested
              case _ => state in FRAGILE
    {
      hide Program, After, Trail, Edge, FateFrom;
      NextFits(plan, w.turns, path);
      FateKind(program, w, plan.hasServer, 0);
    }

    /** The exception handlers. */
    method Handle(e: Exit)
      requires Off(e)
      modifies this`state, this`stored, this`trail, this`rows, this`overwritten
      ensures Valid() && state == stored == if e == RaisedCancelled then RunState.Cancelled else RunState.Failed
      ensures state == RunState.Cancelled ==> CancelRequested in rows
    {
      hide Trail, Program, After, FateFrom, Done, Edge, MayMove;
      OffState(e);
      if e == RaisedCancelled {
        TransitionCancelled();
      } else if e != EarlyReturn {
        FragileMayFail(state);
        Transition(RunState.Failed);
      }
    }

    /** Release the test node if it was reserved; a release that fails is noted and forgotten. */
    method Release()
      requires log <= Script(plan)
      modifies this`log
      ensures log == old(log) + if plan.hasServer && old(log) != [] then [Released] else []
      ensures (old(Between()) ==> Between()) && (old(Valid()) ==> Valid())
    {
      hide Script, Program, FateFrom, After, Trail, Edge, Held, SetBy;
      ReservedOnlyFirst(plan, log);
      if Reserved in log {
        log := log + [Released];
      }
    }

    /** After the clean-up: a run that got as far as its report is completed, whatever is requested meanwhile. */
    method Finish()
      requires Between() && path == program
      modifies this`state, this`stored, this`trail, this`rows, this`overwritten, this`cancelSet, this`leaseLost
      ensures Valid() && state == stored == RunState.Completed && Noticed(|program| + 1)
    {
      hide Program, Trail, After, FateFrom, Actions, Held, Asked, SetBy, Edge;
      ProgramPlaced(plan, w.turns);
      ReportCompletes();
      Arrivals();
      Write(RunState.Completed);
    }

    /** The guarded part with its handlers. */
    method Guarded() returns (e: Exit)
      requires OnRoad() && path == []
      modifies this
      ensures FateFrom(program, w, plan.hasServer, 0) == Ended(e, |path|) && path <= program == Program(plan, w.turns)
      ensures if e == Continue then OnRoad() && path == program else Valid() && state == stored == EndState(e)
      ensures log == if e == Continue then Actions(path) else Done(program, path)
      ensures e == RaisedLost ==> plan.hasServer && leaseLost
      ensures e == RaisedCancelled ==> CancelRequested in rows
    {
      hide Program, Trail, After, Actions, Held, Asked, SetBy, Edge, Done;
      e := Body();
      if e != Continue {
        Handle(e);
      }
    }

    /**
     The whole run. For every plan and every world it follows the table and ends as its fate says: completed if it
     finishes, cancelled at a check, or failed. If the event is never set, it is cancelled if and only if some request
     is heard. It runs a beginning of its script in order, and releases the test node
     exactly once, last, if and only if it was reserved. Every request that reached it is in the row's history; one
     that no transition overwrote is honoured; and a run whose cancel event is set beforehand neither reserves nor
     measures. Once the event is set, or the lease lost, at most the action under way is carried out.
     */
    method ExecuteRun() returns (e: Exit, ghost done: seq<Action>)
      requires OnRoad() && path == []
      modifies this
      ensures Valid() && state == stored == EndState(e)
      ensures exists at :: FateFrom(Program(plan, w.turns), w, plan.hasServer, 0) == Ended(e, at)
      ensures (forall n :: !w.fires(n)) ==>
                (state == RunState.Cancelled <==>
                 exists k :: w.asks(k) && Heard(Program(plan, w.turns), w, plan.hasServer, k))
      ensures overwritten == 0 && CancelRequested in rows ==> state == RunState.Cancelled
      ensures done <= Script(plan) && (e == Continue ==> done == Script(plan))
      ensures log == done + if plan.hasServer && done != [] then [Released] else []
      ensures w.fires(0) ==> log == [] && e in {RaisedCancelled, RaisedError}
      ensures e == RaisedLost ==> plan.hasServer && leaseLost
      ensures e == Continue ==> forall k | 0 < k <= |Program(plan, w.turns)| && w.asks(k) :: CancelRequested in rows
      ensures e == RaisedCancelled ==> CancelRequested in rows
      ensures StopsSoon(plan, w, e, done)
    {
      hide Program, Between, Valid, Actions, Trail, Edge, FateFrom, Heard, StopsSoon, Done, Script;
      e := Guarded();
      done := log;
      NoticedInTime(plan, w, path, e, done);
      FateOfRequests(program, w, plan.hasServer);
      DoneIsScript(plan, w.turns, path);
      if w.fires(0) {
        FiredFirst(plan, w, path, e);
      }
      Release();
      if e == Continue {
        Finish();
      }
      RequestsHonoured();
    }

    lemma {:induction false} RequestsHonoured()
      requires Valid()
      ensures overwritten == 0 && CancelRequested in rows ==> Honouring(stored)
    {
    }
  }

  /** What kind of instruction a run ends at. */
  lemma {:induction false} FateKind(program: seq<Instr>, w: World, hasServer: bool, i: nat)
    requires i <= |program|
    ensures match FateFrom(program, w, hasServer, i)
            case Finished => true
            case CancelledAt(at) => at < |program| && program[at].Look?
            case LostAt(at) => at < |program| && program[at].LookLease?
            case RefusedAt(at) => at < |program| && program[at].Exam?
            case RaisedAt(at) => at < |program| && !program[at].Look? && !program[at].LookLease? && !program[at].Move?
    decreases |program| - i
  {
    if i < |program| {
      FateKind(program, w, hasServer, i + 1);
    }
  }

  /**
   A cancel event or, if the test node was reserved, a lost lease that comes before instruction k is noticed as long as
   there is a look for it to come; and from k on at most the action under way is carried out, or, of a lease lost before
   the first measurement is over, one more.
   */
  ghost predicate StopsSoon(plan: Plan, w: World, e: Exit, done: seq<Action>) {
    var program := Program(plan, w.turns);
    && (forall k | 0 <= k <= |program| && SetBy(w.fires, k) ::
          && |done| <= |Actions(program[..k])| + 1
          && (LooksAhead(program, Look, k) ==> e != Continue))
    && (plan.hasServer ==>
          forall k | 0 <= k <= |program| && SetBy(w.loses, k) ::
            && |done| <= |Actions(program[..k])| + (if Measure(Latency) in program[k..] then 2 else 1)
            && (LooksAhead(program, LookLease, k) ==> e != Continue))
  }

  lemma {:induction false} NoticedInTime(plan: Plan, w: World, path: seq<Instr>, e: Exit, done: seq<Action>)
    requires path <= Program(plan, w.turns)
    requires FateFrom(Program(plan, w.turns), w, plan.hasServer, 0) == Ended(e, |path|)
    requires done == if e == Continue then Actions(path) else Done(Program(plan, w.turns), path)
    requires e == Continue ==> path == Program(plan, w.turns)
    ensures StopsSoon(plan, w, e, done)
  {
    hide Program, Actions, SetBy, LooksAhead, FateFrom, Done;
    var program := Program(plan, w.turns);
    assert program[..|path|] == path;
    forall k | 0 <= k <= |program| && SetBy(w.fires, k)
      ensures |done| <= |Actions(program[..k])| + 1 && (LooksAhead(program, Look, k) ==> e != Continue)
    {
      CancelNoticed(plan, w, k);
    }
    if plan.hasServer {
      forall k | 0 <= k <= |program| && SetBy(w.loses, k)
        ensures |done| <= |Actions(program[..k])| + if Measure(Latency) in program[k..] then 2 else 1
        ensures LooksAhead(program, LookLease, k) ==> e != Continue
      {
        LossNoticed(plan, w, k);
      }
    }
  }

  /** The state in which a run ends. */
  function EndState(e: Exit): RunState {
    match e
    case Continue => RunState.Completed
    case RaisedCancelled => RunState.Cancelled
    case _ => RunState.Failed
  }

  lemma {:induction false} ReportCompletes()
    ensures MayMove(GeneratingReport, RunState.Completed)
  {
  }

  lemma {:induction false} DoneIsScript(plan: Plan, turns: nat -> nat, path: seq<Instr>)
    requires path <= Program(plan, turns)
    ensures Actions(path) <= Script(plan) && Done(Program(plan, turns), path) <= Script(plan)
    ensures path == Program(plan, turns) ==> Actions(path) == Script(plan)
  {
    hide Program, Actions, Script;
    var program := Program(plan, turns);
    ProgramRunsScript(plan, turns);
    PrefixActions(path, program);
    if |path| < |program| {
      PrefixActions(program[..|path| + 1], program);
    }
  }

  /** A cancel event that is set beforehand is noticed at the first check, before anything is done. */
  lemma {:induction false} FiredFirst(plan: Plan, w: World, path: seq<Instr>, e: Exit)
    requires w.fires(0) && path <= Program(plan, w.turns)
    requires FateFrom(Program(plan, w.turns), w, plan.hasServer, 0) == Ended(e, |path|)
    ensures e in {RaisedCancelled, RaisedError} && Actions(path) == [] && Done(Program(plan, w.turns), path) == []
  {
    var program := Program(plan, w.turns);
    FirstThree(plan, w.turns);
    hide Program;
    assert SetBy(w.fires, 1) && SetBy(w.fires, 2);
    assert FateFrom(program, w, plan.hasServer, 0) == FateFrom(program, w, plan.hasServer, 1);
    assert FateFrom(program, w, plan.hasServer, 1) ==
           if w.answers(1) != Fine then RaisedAt(1) else FateFrom(program, w, plan.hasServer, 2);
    assert FateFrom(program, w, plan.hasServer, 2) == CancelledAt(2);
    assert path == program[..|path|];
    if |path| == 1 {
      assert path == [] + [Move(Preflight)];
      ActionsSnoc([], Move(Preflight));
    } else {
      assert path == [] + [Move(Preflight)] + [Work];
      ActionsSnoc([], Move(Preflight));
      ActionsSnoc([] + [Move(Preflight)], Work);
    }
  }

  lemma {:induction false} FirstThree(plan: Plan, turns: nat -> nat)
    ensures var p := Program(plan, turns); |p| > 3 && p[0] == Move(Preflight) && p[1] == Work && p[2] == Look
  {
  }

  // ----- A request that is lost -----

  /** A world in which all goes well, and someone asks for cancellation, on the row alone, before instruction k. */
  function OnlyAsked(turns: nat -> nat, k: nat): World {
    World(n => Fine, n => n == k, n => false, n => false, turns)
  }

  lemma {:induction false} NothingSet(turns: nat -> nat, k: nat, n: nat)
    ensures !SetBy(OnlyAsked(turns, k).fires, n) && !SetBy(OnlyAsked(turns, k).loses, n)
  {
    if n > 0 {
      NothingSet(turns, k, n - 1);
    }
  }

  lemma {:induction false} UnharmedFinishes(program: seq<Instr>, w: World, hasServer: bool, i: nat)
    requires i <= |program| && forall n | i <= n < |program| :: Unharmed(program, w, hasServer, n)
    ensures FateFrom(program, w, hasServer, i) in {Finished} || FateFrom(program, w, hasServer, i).CancelledAt?
    decreases |program| - i
  {
    hide SetBy, Asked;
    if i < |program| {
      assert Unharmed(program, w, hasServer, i);
      UnharmedFinishes(program, w, hasServer, i + 1);
    }
  }

  /** Such a run is cancelled if and only if the next of all checks and transitions after the request is a check. */
  lemma {:induction false} OnlyAskedFate(plan: Plan, turns: nat -> nat, k: nat)
    requires k <= |Program(plan, turns)|
    ensures var program, w := Program(plan, turns), OnlyAsked(turns, k);
            var n := NextStop(program, k);
            if n < |program| && program[n].Look? then FateFrom(program, w, plan.hasServer, 0).CancelledAt?
            else FateFrom(program, w, plan.hasServer, 0) == Finished
  {
    hide Program, FateFrom, SetBy, Heard;
    var program, w := Program(plan, turns), OnlyAsked(turns, k);
    forall n ensures !SetBy(w.fires, n) && !SetBy(w.loses, n) { NothingSet(turns, k, n); }
    forall n | 0 <= n < |program| ensures Unharmed(program, w, plan.hasServer, n) {}
    UnharmedFinishes(program, w, plan.hasServer, 0);
    HonouredIff(program, w, plan.hasServer);
    HeardIff(program, w, plan.hasServer, k);
  }

  /**
   One request in a run in which all else goes well, for every plan and every moment once it has begun: the row has
   accepted it, and the run is cancelled if a check comes before the next transition, and completed if not. It is
   always completed if the request comes while the engine warms up, cools down, analyses or generates the report.
   */
  method AskOnce(plan: Plan, turns: nat -> nat, k: nat) returns (run: Run)
    requires 0 < k <= |Program(plan, turns)|
    ensures fresh(run) && run.Valid() && CancelRequested in run.rows
    ensures var program := Program(plan, turns);
            var n := NextStop(program, k);
            run.state == run.stored ==
              if n < |program| && program[n].Look? then RunState.Cancelled else RunState.Completed
    ensures After(Created, Program(plan, turns)[..k]) !in CHECKED ==> run.state == RunState.Completed
  {
    hide Program, FateFrom, Heard;
    var w := OnlyAsked(turns, k);
    run := new Run(plan, w);
    var e, done := run.ExecuteRun();
    OnlyAskedFate(plan, turns, k);
    assert w.asks(k) && e in {Continue, RaisedCancelled};
    if After(Created, Program(plan, turns)[..k]) !in CHECKED {
      NextIsMove(plan, turns, k);
    }
  }

  lemma {:induction false} NextIsMove(plan: Plan, turns: nat -> nat, k: nat)
    requires k <= |Program(plan, turns)| && After(Created, Program(plan, turns)[..k]) !in CHECKED
    ensures var n := NextStop(Program(plan, turns), k); n < |Program(plan, turns)| ==> Program(plan, turns)[n].Move?
  {
    hide Program, After;
    var program := Program(plan, turns);
    var n := NextStop(program, k);
    if n < |program| {
      ProgramPlaced(plan, turns);
      PlacedAt(Created, program, n);
      SameState(Created, program, k, n);
    }
  }
}
