/**
 What the engine does for a plan. `Program` lists it, one instruction after the other; a `World` says how every
 instruction turns out and before which of them someone asks for cancellation, the cancel event is set, or the lease is
 lost. `FateFrom` tells how a run ends from the two alone.
 */
module RunProgram {
  import opened SetFacts
  import opened RunStateMachine

  datatype UdpPattern = Beginning | AfterEachTcp | AtEnd

  datatype Plan = Plan(hasServer: bool, tcpRounds: nat, udp: UdpPattern, needsEvidence: bool)

  datatype Stage = Latency | Udp(after: nat) | Tcp(round: nat) | Video

  datatype Action = Reserved | Ran(stage: Stage) | Released

  // ----- The program -----

  /**
   A transition; a look at the renewal monitor; a look at the cancel event and the row; work that may raise; an
   examination, which may also refuse to go on; the reservation; a measurement.
   */
  datatype Instr = Move(to: RunState) | LookLease | Look | Work | Exam | Reserve | Measure(stage: Stage)

  const LOOK_BOTH: seq<Instr> := [LookLease, Look]

  const VERIFYING: seq<Instr> :=
    [Move(Preflight), Work, Look, Work, Look, Exam, Look, Move(VerifyingPaths), Exam, Look]

  function Preparing(plan: Plan): seq<Instr> {
    [Move(WarmingUp)] + (if plan.hasServer then [Reserve] else []) + [Move(Running)]
  }

  /** A wait looks once a turn. */
  function Waiting(turns: nat): seq<Instr> { if turns == 0 then [] else Waiting(turns - 1) + LOOK_BOTH }

  /** A measurement and the looks after it. */
  function Measured(stage: Stage): seq<Instr> { [Measure(stage)] + LOOK_BOTH }

  /** After the first measurement a lost reservation is not looked for. */
  function Opening(plan: Plan): seq<Instr> {
    LOOK_BOTH + [Measure(Latency), Look] + if plan.udp == Beginning then Measured(Udp(0)) else []
  }

  /** Upload round k; wait 0 comes before the first round, wait k after round k unless it is the last. */
  function Round(plan: Plan, turns: nat -> nat, k: nat): seq<Instr> {
    LOOK_BOTH + (if k == 1 then Waiting(turns(0)) else []) + Measured(Tcp(k)) +
    (if k < plan.tcpRounds then Waiting(turns(k)) else []) +
    if plan.udp == AfterEachTcp then Measured(Udp(k)) else []
  }

  function Rounds(plan: Plan, turns: nat -> nat, k: nat): seq<Instr> {
    if k == 0 then [] else Rounds(plan, turns, k - 1) + Round(plan, turns, k)
  }

  function Closing(plan: Plan, turns: nat -> nat): seq<Instr> {
    (if plan.udp == AtEnd then Measured(Udp(0)) else []) + Waiting(turns(plan.tcpRounds + 1)) +
    Measured(Video) + Waiting(turns(plan.tcpRounds + 2)) + [Work]
  }

  function Concluding(plan: Plan): seq<Instr> {
    [Move(CoolingDown), Move(Analyzing), if plan.needsEvidence then Exam else Work, Move(GeneratingReport)]
  }

  function Program(plan: Plan, turns: nat -> nat): seq<Instr> {
    VERIFYING + Preparing(plan) + Opening(plan) + Rounds(plan, turns, plan.tcpRounds) + Closing(plan, turns) +
        Concluding(plan)
  }

  // ----- Where an instruction may stand -----

  /** The states in which the engine looks for a cancellation. */
  const CHECKED: set<RunState> := {Preflight, VerifyingPaths, Running}

  /** The states in which something can go wrong. */
  const FRAGILE: set<RunState> := {Preflight, VerifyingPaths, WarmingUp, Running, Analyzing}

  const ONWARD: set<RunState> :=
    {Preflight, VerifyingPaths, WarmingUp, Running, CoolingDown, Analyzing, GeneratingReport}

  predicate Fits(s: RunState, i: Instr) {
    match i
    case Move(to) => Edge(s, to) && to in ONWARD && (s == Created || s in ONWARD)
    case LookLease => s == Running
    case Look => s in CHECKED
    case Reserve => s == WarmingUp
    case Measure(_) => s == Running
    case _ => s in FRAGILE
  }

  /** The state after a stretch of program that starts in state s. */
  function After(s: RunState, p: seq<Instr>): RunState {
    if p == [] then s else if p[|p| - 1].Move? then p[|p| - 1].to else After(s, p[..|p| - 1])
  }

  predicate Placed(s: RunState, p: seq<Instr>) {
    p == [] || (Placed(s, p[..|p| - 1]) && Fits(After(s, p[..|p| - 1]), p[|p| - 1]))
  }

  lemma {:induction false} PlacedConcat(s: RunState, a: seq<Instr>, b: seq<Instr>)
    ensures After(s, a + b) == After(After(s, a), b)
    ensures Placed(s, a + b) <==> Placed(s, a) && Placed(After(s, a), b)
  {
    hide Fits;
    if b == [] {
      assert a + b == a;
    } else {
      assert (a + b)[..|a + b| - 1] == a + b[..|b| - 1];
      PlacedConcat(s, a, b[..|b| - 1]);
    }
  }

  lemma {:induction false} PlacedSnoc(s: RunState, p: seq<Instr>, i: Instr)
    ensures Placed(s, p + [i]) <==> Placed(s, p) && Fits(After(s, p), i)
    ensures After(s, p + [i]) == if i.Move? then i.to else After(s, p)
  {
    assert (p + [i])[..|p|] == p;
  }

  lemma {:induction false} LookBothPlaced()
    ensures Placed(Running, LOOK_BOTH) && After(Running, LOOK_BOTH) == Running
  {
    PlacedSnoc(Running, [], LookLease);
    PlacedSnoc(Running, [LookLease], Look);
    assert [] + [LookLease] == [LookLease] && [LookLease] + [Look] == LOOK_BOTH;
  }

  lemma {:induction false} MeasuredPlaced(stage: Stage)
    ensures Placed(Running, Measured(stage)) && After(Running, Measured(stage)) == Running
  {
    PlacedSnoc(Running, [], Measure(stage));
    assert [] + [Measure(stage)] == [Measure(stage)];
    LookBothPlaced();
    PlacedConcat(Running, [Measure(stage)], LOOK_BOTH);
  }

  lemma {:induction false} WaitingPlaced(turns: nat)
    ensures Placed(Running, Waiting(turns)) && After(Running, Waiting(turns)) == Running
  {
    if turns > 0 {
      WaitingPlaced(turns - 1);
      LookBothPlaced();
      PlacedConcat(Running, Waiting(turns - 1), LOOK_BOTH);
    }
  }

  /** Stretches that stay in the running state can be put one after the other. */
  lemma {:induction false} Joined(a: seq<Instr>, b: seq<Instr>)
    requires Placed(Running, a) && After(Running, a) == Running && Placed(Running, b)
    ensures Placed(Running, a + b) && After(Running, a + b) == After(Running, b)
  {
    PlacedConcat(Running, a, b);
  }

  lemma {:induction false} OpeningPlaced(plan: Plan)
    ensures Placed(Running, Opening(plan)) && After(Running, Opening(plan)) == Running
  {
    hide Fits, After, Placed, Measured;
    LookBothPlaced();
    assert Placed(Running, [Measure(Latency), Look]) && After(Running, [Measure(Latency), Look]) == Running by {
      LatencyPlaced();
    }
    Joined(LOOK_BOTH, [Measure(Latency), Look]);
    var more := if plan.udp == Beginning then Measured(Udp(0)) else [];
    assert Placed(Running, more) && After(Running, more) == Running by {
      MeasuredPlaced(Udp(0));
      NothingPlaced();
    }
    Joined(LOOK_BOTH + [Measure(Latency), Look], more);
  }

  lemma {:induction false} NothingPlaced()
    ensures Placed(Running, []) && After(Running, []) == Running
  {
  }

  lemma {:induction false} LatencyPlaced()
    ensures Placed(Running, [Measure(Latency), Look]) && After(Running, [Measure(Latency), Look]) == Running
  {
    PlacedSnoc(Running, [], Measure(Latency));
    PlacedSnoc(Running, [Measure(Latency)], Look);
    assert [] + [Measure(Latency)] == [Measure(Latency)];
    assert [Measure(Latency)] + [Look] == [Measure(Latency), Look];
  }

  lemma {:induction false} RoundPlaced(plan: Plan, turns: nat -> nat, k: nat)
    ensures Placed(Running, Round(plan, turns, k)) && After(Running, Round(plan, turns, k)) == Running
  {
    hide Fits, After, Placed, Measured, Waiting;
    NothingPlaced();
    LookBothPlaced();
    WaitingPlaced(turns(0));
    WaitingPlaced(turns(k));
    MeasuredPlaced(Tcp(k));
    MeasuredPlaced(Udp(k));
    var a := if k == 1 then Waiting(turns(0)) else [];
    var b := if k < plan.tcpRounds then Waiting(turns(k)) else [];
    var c := if plan.udp == AfterEachTcp then Measured(Udp(k)) else [];
    Joined(LOOK_BOTH, a);
    Joined(LOOK_BOTH + a, Measured(Tcp(k)));
    Joined(LOOK_BOTH + a + Measured(Tcp(k)), b);
    Joined(LOOK_BOTH + a + Measured(Tcp(k)) + b, c);
  }

  lemma {:induction false} RoundsPlaced(plan: Plan, turns: nat -> nat, k: nat)
    ensures Placed(Running, Rounds(plan, turns, k)) && After(Running, Rounds(plan, turns, k)) == Running
  {
    hide Fits, After, Placed, Round;
    NothingPlaced();
    if k > 0 {
      RoundsPlaced(plan, turns, k - 1);
      RoundPlaced(plan, turns, k);
      Joined(Rounds(plan, turns, k - 1), Round(plan, turns, k));
    }
  }

  lemma {:induction false} ClosingPlaced(plan: Plan, turns: nat -> nat)
    ensures Placed(Running, Closing(plan, turns)) && After(Running, Closing(plan, turns)) == Running
  {
    hide After, Placed, Measured, Waiting;
    NothingPlaced();
    MeasuredPlaced(Udp(0));
    MeasuredPlaced(Video);
    WaitingPlaced(turns(plan.tcpRounds + 1));
    WaitingPlaced(turns(plan.tcpRounds + 2));
    var a := if plan.udp == AtEnd then Measured(Udp(0)) else [];
    var b, c := Waiting(turns(plan.tcpRounds + 1)), Waiting(turns(plan.tcpRounds + 2));
    Joined(a, b);
    Joined(a + b, Measured(Video));
    Joined(a + b + Measured(Video), c);
    PlacedSnoc(Running, a + b + Measured(Video) + c, Work);
  }

  lemma {:induction false} ConcludingPlaced(plan: Plan)
    ensures Placed(Running, Concluding(plan)) && After(Running, Concluding(plan)) == GeneratingReport
  {
    hide After, Placed;
    var exam := if plan.needsEvidence then Exam else Work;
    NothingPlaced();
    PlacedSnoc(Running, [], Move(CoolingDown));
    PlacedSnoc(Running, [] + [Move(CoolingDown)], Move(Analyzing));
    PlacedSnoc(Running, [] + [Move(CoolingDown)] + [Move(Analyzing)], exam);
    PlacedSnoc(Running, [] + [Move(CoolingDown)] + [Move(Analyzing)] + [exam], Move(GeneratingReport));
    assert Concluding(plan) == [] + [Move(CoolingDown)] + [Move(Analyzing)] + [exam] + [Move(GeneratingReport)];
  }

  lemma {:induction false} VerifyingPlaced()
    ensures Placed(Created, VERIFYING) && After(Created, VERIFYING) == VerifyingPaths
  {
    hide After, Placed;
    assert Placed(Created, []) && After(Created, []) == Created by {
      NothingFirst();
    }
    var a := [] + [Move(Preflight)];
    PlacedSnoc(Created, [], Move(Preflight));
    PlacedSnoc(Created, a, Work);
    PlacedSnoc(Created, a + [Work], Look);
    PlacedSnoc(Created, a + [Work] + [Look], Work);
    PlacedSnoc(Created, a + [Work] + [Look] + [Work], Look);
    var b := a + [Work] + [Look] + [Work] + [Look];
    PlacedSnoc(Created, b, Exam);
    PlacedSnoc(Created, b + [Exam], Look);
    PlacedSnoc(Created, b + [Exam] + [Look], Move(VerifyingPaths));
    var c := b + [Exam] + [Look] + [Move(VerifyingPaths)];
    PlacedSnoc(Created, c, Exam);
    PlacedSnoc(Created, c + [Exam], Look);
    assert VERIFYING == c + [Exam] + [Look];
  }

  lemma {:induction false} NothingFirst()
    ensures Placed(Created, []) && After(Created, []) == Created
  {
  }

  lemma {:induction false} PreparingPlaced(plan: Plan)
    ensures Placed(VerifyingPaths, Preparing(plan)) && After(VerifyingPaths, Preparing(plan)) == Running
  {
    var a := [Move(WarmingUp)];
    assert [] + a == a;
    PlacedSnoc(VerifyingPaths, [], Move(WarmingUp));
    if plan.hasServer {
      PlacedSnoc(VerifyingPaths, a, Reserve);
      PlacedSnoc(VerifyingPaths, a + [Reserve], Move(Running));
    } else {
      PlacedSnoc(VerifyingPaths, a, Move(Running));
      assert a + [] + [Move(Running)] == a + [Move(Running)];
    }
  }

  /** Every instruction stands where it may stand; so the engine looks for a cancellation in three states only. */
  lemma {:induction false} ProgramPlaced(plan: Plan, turns: nat -> nat)
    ensures Placed(Created, Program(plan, turns)) && After(Created, Program(plan, turns)) == GeneratingReport
  {
    hide After, Placed, Preparing, Opening, Rounds, Closing, Concluding;
    VerifyingPlaced();
    PreparingPlaced(plan);
    OpeningPlaced(plan);
    RoundsPlaced(plan, turns, plan.tcpRounds);
    ClosingPlaced(plan, turns);
    ConcludingPlaced(plan);
    var a := VERIFYING + Preparing(plan);
    PlacedConcat(Created, VERIFYING, Preparing(plan));
    PlacedConcat(Created, a, Opening(plan));
    PlacedConcat(Created, a + Opening(plan), Rounds(plan, turns, plan.tcpRounds));
    PlacedConcat(Created, a + Opening(plan) + Rounds(plan, turns, plan.tcpRounds), Closing(plan, turns));
    PlacedConcat(Created, a + Opening(plan) + Rounds(plan, turns, plan.tcpRounds) + Closing(plan, turns),
        Concluding(plan));
  }

  lemma {:induction false} PlacedAt(s: RunState, p: seq<Instr>, i: nat)
    requires Placed(s, p) && i < |p|
    ensures Fits(After(s, p[..i]), p[i]) && After(s, p[..i + 1]) == if p[i].Move? then p[i].to else After(s, p[..i])
  {
    if i == |p| - 1 {
      assert p[..i + 1] == p;
    } else {
      var front := p[..|p| - 1];
      assert front[..i] == p[..i] && front[..i + 1] == p[..i + 1];
      PlacedAt(s, front, i);
    }
  }

  // ----- The fate of a run -----

  datatype Answer = Fine | Raises | Refuses

  /**
   Everything from outside, by the number of the instruction it comes before: how the instruction turns out, whether
   someone asks for cancellation on the row alone, whether the cancel event is set, whether the lease is lost; and
   how often each wait turns.
   */
  datatype World = World(
    answers: nat -> Answer, asks: nat -> bool, fires: nat -> bool, loses: nat -> bool, turns: nat -> nat)

  datatype Fate = Finished | CancelledAt(at: nat) | LostAt(at: nat) | RaisedAt(at: nat) | RefusedAt(at: nat)

  /** An event is set by instruction n if it was set before that or an earlier one. */
  predicate SetBy(f: nat -> bool, n: nat) { f(n) || (n > 0 && SetBy(f, n - 1)) }

  /** A request is pending in the row after a path: no transition has come since. */
  predicate Asked(asks: nat -> bool, path: seq<Instr>) {
    asks(|path|) || (path != [] && !path[|path| - 1].Move? && Asked(asks, path[..|path| - 1]))
  }

  function FateFrom(program: seq<Instr>, w: World, hasServer: bool, i: nat): Fate
    requires i <= |program|
    decreases |program| - i
  {
    if i == |program| then Finished
    else
      match program[i]
      case Move(_) => FateFrom(program, w, hasServer, i + 1)
      case LookLease => if hasServer && SetBy(w.loses, i) then LostAt(i) else FateFrom(program, w, hasServer, i + 1)
      case Look =>
        if SetBy(w.fires, i) || Asked(w.asks, program[..i]) then CancelledAt(i)
        else FateFrom(program, w, hasServer, i + 1)
      case Exam =>
        if w.answers(i) == Refuses then RefusedAt(i)
        else if w.answers(i) == Raises then RaisedAt(i)
        else FateFrom(program, w, hasServer, i + 1)
      case _ => if w.answers(i) != Fine then RaisedAt(i) else FateFrom(program, w, hasServer, i + 1)
  }

  /** Instruction i goes well as far as anything but a cancellation is concerned. */
  predicate Unharmed(program: seq<Instr>, w: World, hasServer: bool, i: nat)
    requires i < |program|
  {
    match program[i]
    case Move(_) => true
    case Look => true
    case LookLease => !(hasServer && SetBy(w.loses, i))
    case _ => w.answers(i) == Fine
  }

  /**
   A request that comes before instruction k is heard at instruction j: a check that is reached, before the next
   transition and before anything raises.
   */
  predicate HeardAt(program: seq<Instr>, w: World, hasServer: bool, k: nat, j: nat) {
    && k <= j < |program| && program[j].Look?
    && (forall i | k <= i < j :: !program[i].Move?)
    && (forall i | 0 <= i < j :: Unharmed(program, w, hasServer, i))
  }

  ghost predicate Heard(program: seq<Instr>, w: World, hasServer: bool, k: nat) {
    exists j :: HeardAt(program, w, hasServer, k, j)
  }

  lemma {:induction false} AskedIff(asks: nat -> bool, program: seq<Instr>, n: nat)
    requires n <= |program|
    ensures Asked(asks, program[..n]) <==>
              exists k | 0 <= k <= n :: asks(k) && forall i | k <= i < n :: !program[i].Move?
  {
    if n > 0 {
      assert program[..n][..n - 1] == program[..n - 1];
      AskedIff(asks, program, n - 1);
      if Asked(asks, program[..n]) && !asks(n) {
        var k :| 0 <= k <= n - 1 && asks(k) && forall i | k <= i < n - 1 :: !program[i].Move?;
        assert forall i | k <= i < n :: !program[i].Move?;
      }
    }
  }

  /**
   From instruction i on the run is cancelled exactly if it reaches a check at which a cancellation is set or asked
   for.
   */
  lemma {:induction false} CancelledIff(program: seq<Instr>, w: World, hasServer: bool, i: nat)
    requires i <= |program|
    ensures FateFrom(program, w, hasServer, i).CancelledAt? <==>
              exists j | i <= j < |program| ::
                && program[j].Look? && (SetBy(w.fires, j) || Asked(w.asks, program[..j]))
                && (forall n | i <= n < j :: Unharmed(program, w, hasServer, n))
    decreases |program| - i
  {
    hide SetBy, Asked;
    if i < |program| {
      CancelledIff(program, w, hasServer, i + 1);
      if j :| i <= j < |program| && program[j].Look? && (SetBy(w.fires, j) || Asked(w.asks, program[..j])) &&
              forall n | i <= n < j :: Unharmed(program, w, hasServer, n) {
        assert i < j ==> Unharmed(program, w, hasServer, i);
      }
    }
  }

  /**
   The cancel theorem. If the event is never set, a run is cancelled if and only if some request is heard: one that
   is followed by a check before the next transition and before anything raises.
   */
  lemma {:induction false} HonouredIff(program: seq<Instr>, w: World, hasServer: bool)
    requires forall n :: !SetBy(w.fires, n)
    ensures FateFrom(program, w, hasServer, 0).CancelledAt? <==>
              exists k :: w.asks(k) && Heard(program, w, hasServer, k)
  {
    hide SetBy, Asked, FateFrom, Unharmed;
    CancelledIff(program, w, hasServer, 0);
    if FateFrom(program, w, hasServer, 0).CancelledAt? {
      var j :| 0 <= j < |program| && program[j].Look? && (SetBy(w.fires, j) || Asked(w.asks, program[..j])) &&
               forall n | 0 <= n < j :: Unharmed(program, w, hasServer, n);
      AskedIff(w.asks, program, j);
      var k :| 0 <= k <= j && w.asks(k) && forall i | k <= i < j :: !program[i].Move?;
      assert HeardAt(program, w, hasServer, k, j);
    }
    if k :| w.asks(k) && Heard(program, w, hasServer, k) {
      var j :| HeardAt(program, w, hasServer, k, j);
      AskedIff(w.asks, program, j);
    }
  }

  lemma {:induction false} NeverSet(f: nat -> bool, n: nat)
    requires forall i :: !f(i)
    ensures !SetBy(f, n)
  {
    if n > 0 {
      NeverSet(f, n - 1);
    }
  }

  lemma {:induction false} FateOfRequests(program: seq<Instr>, w: World, hasServer: bool)
    ensures (forall n :: !w.fires(n)) ==>
              (FateFrom(program, w, hasServer, 0).CancelledAt? <==>
               exists k :: w.asks(k) && Heard(program, w, hasServer, k))
  {
    hide FateFrom, Heard;
    if forall n :: !w.fires(n) {
      forall n ensures !SetBy(w.fires, n) { NeverSet(w.fires, n); }
      HonouredIff(program, w, hasServer);
    }
  }

  lemma {:induction false} SameState(s: RunState, p: seq<Instr>, k: nat, j: nat)
    requires k <= j <= |p| && forall i | k <= i < j :: !p[i].Move?
    ensures After(s, p[..j]) == After(s, p[..k])
    decreases j
  {
    if k < j {
      assert p[..j][..j - 1] == p[..j - 1];
      SameState(s, p, k, j - 1);
    }
  }

  /**
   A request accepted in any state in which the engine does not look for one is never heard: the next transition
   overwrites it. These are the created state, and warming up, cooling down, analysing and generating the report.
   */
  lemma {:induction false} NeverHeard(plan: Plan, w: World, k: nat)
    requires k <= |Program(plan, w.turns)| && After(Created, Program(plan, w.turns)[..k]) !in CHECKED
    ensures !Heard(Program(plan, w.turns), w, plan.hasServer, k)
  {
    hide After, Program, Unharmed;
    var program := Program(plan, w.turns);
    if j :| HeardAt(program, w, plan.hasServer, k, j) {
      ProgramPlaced(plan, w.turns);
      PlacedAt(Created, program, j);
      SameState(Created, program, k, j);
      assert false;
    }
  }

  /** Once it has begun, the run is in one of the states that lead onward, and none of them refuses a cancel request. */
  lemma {:induction false} OnwardOnceBegun(plan: Plan, turns: nat -> nat, path: seq<Instr>)
    requires path <= Program(plan, turns)
    ensures if path == [] then After(Created, path) == Created else After(Created, path) in ONWARD
  {
    hide Program;
    ProgramPlaced(plan, turns);
    if path != [] {
      var program, n := Program(plan, turns), |path| - 1;
      assert path[..n] == program[..n] && program[..n + 1] == path;
      PlacedAt(Created, program, n);
      OnwardOnceBegun(plan, turns, path[..n]);
      if n == 0 {
        BeginsWithMove(plan, turns);
      }
    }
  }

  lemma {:induction false} BeginsWithMove(plan: Plan, turns: nat -> nat)
    ensures Program(plan, turns) != [] && Program(plan, turns)[0] == Move(Preflight)
  {
  }

  /** Of the states that a run goes through, these are the ones in which the engine does not look. */
  lemma {:induction false} UncheckedStates(plan: Plan, w: World, k: nat)
    requires k <= |Program(plan, w.turns)|
    ensures After(Created, Program(plan, w.turns)[..k]) !in CHECKED <==>
            After(Created, Program(plan, w.turns)[..k]) in
            {Created, WarmingUp, CoolingDown, Analyzing, GeneratingReport}
  {
    hide Program, After;
    OnwardOnceBegun(plan, w.turns, Program(plan, w.turns)[..k]);
  }

  /** The first instruction from k on that is a check or a transition. */
  function NextStop(program: seq<Instr>, k: nat): (n: nat)
    requires k <= |program|
    ensures k <= n <= |program| && (n < |program| ==> program[n].Look? || program[n].Move?)
    ensures forall i | k <= i < n :: !program[i].Look? && !program[i].Move?
    decreases |program| - k
  {
    if k == |program| || program[k].Look? || program[k].Move? then k else NextStop(program, k + 1)
  }

  /**
   And one accepted in a state in which it does is heard if and only if what comes next, of checks and transitions,
   is a check, and nothing raises before that. It is a matter of the plan, the world and the time of the request.
   */
  lemma {:induction false} HeardIff(program: seq<Instr>, w: World, hasServer: bool, k: nat)
    requires k <= |program|
    ensures Heard(program, w, hasServer, k) <==>
              var n := NextStop(program, k);
              n < |program| && program[n].Look? && forall i | 0 <= i < n :: Unharmed(program, w, hasServer, i)
  {
    hide Unharmed;
    var n := NextStop(program, k);
    if n < |program| && program[n].Look? && forall i | 0 <= i < n :: Unharmed(program, w, hasServer, i) {
      assert HeardAt(program, w, hasServer, k, n);
    }
  }

  // ----- The script: what a run does to the test node -----

  function Actions(p: seq<Instr>): seq<Action> {
    if p == [] then []
    else
      Actions(p[..|p| - 1]) +
      match p[|p| - 1]
      case Reserve => [Reserved]
      case Measure(stage) => [Ran(stage)]
      case _ => []
  }

  function ScriptRounds(plan: Plan, k: nat): seq<Action> {
    if k == 0 then []
    else ScriptRounds(plan, k - 1) + [Ran(Tcp(k))] + if plan.udp == AfterEachTcp then [Ran(Udp(k))] else []
  }

  /** Everything a complete run does between reserving the test node and releasing it. */
  function Script(plan: Plan): seq<Action> {
    (if plan.hasServer then [Reserved] else []) + [Ran(Latency)] +
        (if plan.udp == Beginning then [Ran(Udp(0))] else []) +
    ScriptRounds(plan, plan.tcpRounds) + (if plan.udp == AtEnd then [Ran(Udp(0))] else []) + [Ran(Video)]
  }

  /** What has been done by the time the run leaves the path: a measurement that raises has begun. */
  function Done(program: seq<Instr>, path: seq<Instr>): seq<Action>
    requires path <= program
  {
    if |path| < |program| && program[|path|].Measure? then Actions(program[..|path| + 1]) else Actions(path)
  }

  lemma {:induction false} ActionsConcat(a: seq<Instr>, b: seq<Instr>)
    ensures Actions(a + b) == Actions(a) + Actions(b)
  {
    if b == [] {
      assert a + b == a;
    } else {
      assert (a + b)[..|a + b| - 1] == a + b[..|b| - 1];
      ActionsConcat(a, b[..|b| - 1]);
    }
  }

  lemma {:induction false} ActionsSnoc(a: seq<Instr>, i: Instr)
    ensures Actions(a + [i]) == Actions(a) +
              (match i case Reserve => [Reserved] case Measure(stage) => [Ran(stage)] case _ => [])
  {
    assert (a + [i])[..|a|] == a;
  }

  lemma {:induction false} LookingDoesNothing(turns: nat, stage: Stage)
    ensures Actions(LOOK_BOTH) == [] && Actions(Waiting(turns)) == [] && Actions(Measured(stage)) == [Ran(stage)]
    decreases turns
  {
    ActionsSnoc([], LookLease);
    ActionsSnoc([LookLease], Look);
    assert [] + [LookLease] == [LookLease] && [LookLease] + [Look] == LOOK_BOTH;
    ActionsSnoc([], Measure(stage));
    assert [] + [Measure(stage)] == [Measure(stage)];
    ActionsConcat([Measure(stage)], LOOK_BOTH);
    if turns > 0 {
      LookingDoesNothing(turns - 1, stage);
      ActionsConcat(Waiting(turns - 1), LOOK_BOTH);
    }
  }

  lemma {:induction false} RoundActions(plan: Plan, turns: nat -> nat, k: nat)
    ensures Actions(Round(plan, turns, k)) == [Ran(Tcp(k))] + if plan.udp == AfterEachTcp then [Ran(Udp(k))] else []
  {
    hide Actions, Measured, Waiting;
    LookingDoesNothing(turns(0), Tcp(k));
    LookingDoesNothing(turns(k), Udp(k));
    NoActions();
    var a := if k == 1 then Waiting(turns(0)) else [];
    var b := if k < plan.tcpRounds then Waiting(turns(k)) else [];
    var c := if plan.udp == AfterEachTcp then Measured(Udp(k)) else [];
    ActionsConcat(LOOK_BOTH, a);
    ActionsConcat(LOOK_BOTH + a, Measured(Tcp(k)));
    ActionsConcat(LOOK_BOTH + a + Measured(Tcp(k)), b);
    ActionsConcat(LOOK_BOTH + a + Measured(Tcp(k)) + b, c);
  }

  lemma {:induction false} NoActions()
    ensures Actions([]) == []
  {
  }

  lemma {:induction false} RoundsActions(plan: Plan, turns: nat -> nat, k: nat)
    ensures Actions(Rounds(plan, turns, k)) == ScriptRounds(plan, k)
  {
    hide Round;
    if k > 0 {
      RoundsActions(plan, turns, k - 1);
      RoundActions(plan, turns, k);
      ActionsConcat(Rounds(plan, turns, k - 1), Round(plan, turns, k));
    }
  }

  lemma {:induction false} PreparingActions(plan: Plan)
    ensures Actions(VERIFYING + Preparing(plan)) == if plan.hasServer then [Reserved] else []
  {
    hide Actions;
    NoActions();
    var a := [] + [Move(Preflight)];
    ActionsSnoc([], Move(Preflight));
    ActionsSnoc(a, Work);
    ActionsSnoc(a + [Work], Look);
    ActionsSnoc(a + [Work] + [Look], Work);
    ActionsSnoc(a + [Work] + [Look] + [Work], Look);
    var b := a + [Work] + [Look] + [Work] + [Look];
    ActionsSnoc(b, Exam);
    ActionsSnoc(b + [Exam], Look);
    ActionsSnoc(b + [Exam] + [Look], Move(VerifyingPaths));
    var c := b + [Exam] + [Look] + [Move(VerifyingPaths)];
    ActionsSnoc(c, Exam);
    ActionsSnoc(c + [Exam], Look);
    assert VERIFYING == c + [Exam] + [Look];
    ActionsSnoc(VERIFYING, Move(WarmingUp));
    var d := VERIFYING + [Move(WarmingUp)];
    ActionsSnoc(d, Reserve);
    ActionsSnoc(d, Move(Running));
    ActionsSnoc(d + [Reserve], Move(Running));
    if plan.hasServer {
      assert VERIFYING + Preparing(plan) == d + [Reserve] + [Move(Running)];
    } else {
      assert VERIFYING + Preparing(plan) == d + [Move(Running)];
    }
  }

  lemma {:induction false} OpeningActions(plan: Plan)
    ensures Actions(Opening(plan)) == [Ran(Latency)] + if plan.udp == Beginning then [Ran(Udp(0))] else []
  {
    hide Actions, Measured;
    NoActions();
    LookingDoesNothing(0, Udp(0));
    ActionsSnoc([], Measure(Latency));
    ActionsSnoc([] + [Measure(Latency)], Look);
    assert [] + [Measure(Latency)] + [Look] == [Measure(Latency), Look];
    ActionsConcat(LOOK_BOTH, [Measure(Latency), Look]);
    ActionsConcat(LOOK_BOTH + [Measure(Latency), Look], if plan.udp == Beginning then Measured(Udp(0)) else []);
  }

  lemma {:induction false} ClosingActions(plan: Plan, turns: nat -> nat)
    ensures Actions(Closing(plan, turns)) == (if plan.udp == AtEnd then [Ran(Udp(0))] else []) + [Ran(Video)]
  {
    hide Actions, Measured, Waiting;
    NoActions();
    LookingDoesNothing(turns(plan.tcpRounds + 1), Udp(0));
    LookingDoesNothing(turns(plan.tcpRounds + 2), Video);
    var a := if plan.udp == AtEnd then Measured(Udp(0)) else [];
    var b, c := Waiting(turns(plan.tcpRounds + 1)), Waiting(turns(plan.tcpRounds + 2));
    ActionsConcat(a, b);
    ActionsConcat(a + b, Measured(Video));
    ActionsConcat(a + b + Measured(Video), c);
    ActionsSnoc(a + b + Measured(Video) + c, Work);
  }

  lemma {:induction false} ConcludingActions(plan: Plan)
    ensures Actions(Concluding(plan)) == []
  {
    hide Actions;
    NoActions();
    var exam := if plan.needsEvidence then Exam else Work;
    ActionsSnoc([], Move(CoolingDown));
    ActionsSnoc([] + [Move(CoolingDown)], Move(Analyzing));
    ActionsSnoc([] + [Move(CoolingDown)] + [Move(Analyzing)], exam);
    ActionsSnoc([] + [Move(CoolingDown)] + [Move(Analyzing)] + [exam], Move(GeneratingReport));
    assert Concluding(plan) == [] + [Move(CoolingDown)] + [Move(Analyzing)] + [exam] + [Move(GeneratingReport)];
  }

  /** The whole program carries out the script, however long it waits. */
  lemma {:induction false} ProgramRunsScript(plan: Plan, turns: nat -> nat)
    ensures Actions(Program(plan, turns)) == Script(plan)
  {
    hide Actions, Preparing, Opening, Rounds, Closing, Concluding, ScriptRounds;
    var a := VERIFYING + Preparing(plan);
    var rounds := Rounds(plan, turns, plan.tcpRounds);
    PreparingActions(plan);
    OpeningActions(plan);
    RoundsActions(plan, turns, plan.tcpRounds);
    ClosingActions(plan, turns);
    ConcludingActions(plan);
    ActionsConcat(a, Opening(plan));
    ActionsConcat(a + Opening(plan), rounds);
    ActionsConcat(a + Opening(plan) + rounds, Closing(plan, turns));
    ActionsConcat(a + Opening(plan) + rounds + Closing(plan, turns), Concluding(plan));
  }

  /** And the beginning of the program a beginning of the script. */
  lemma {:induction false} PrefixActions(path: seq<Instr>, program: seq<Instr>)
    requires path <= program
    ensures Actions(path) <= Actions(program)
  {
    assert program == path + program[|path|..];
    ActionsConcat(path, program[|path|..]);
  }

  /** The reservation comes first if the plan has a server, and nowhere else. */
  lemma {:induction false} ReservedOnlyFirst(plan: Plan, done: seq<Action>)
    requires done <= Script(plan)
    ensures Reserved in done <==> plan.hasServer && done != []
    ensures forall i | 0 <= i < |done| && done[i] == Reserved :: i == 0
    ensures Released !in done
  {
    RoundsRunStages(plan, plan.tcpRounds);
    var script := Script(plan);
    assert forall i | 0 < i < |script| :: script[i].Ran?;
    if done != [] {
      assert done[0] == script[0];
    }
  }

  lemma {:induction false} RoundsRunStages(plan: Plan, k: nat)
    ensures forall i | 0 <= i < |ScriptRounds(plan, k)| :: ScriptRounds(plan, k)[i].Ran?
  {
    if k > 0 {
      RoundsRunStages(plan, k - 1);
    }
  }
}
