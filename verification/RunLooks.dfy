/**
 Where the engine looks for a cancellation and for a lost lease, and how soon it notices one: no more than the action
 under way is still carried out.
 */
module RunLooks {
  import opened SetFacts
  import opened RunStateMachine
  import opened RunProgram

  // ----- The looks around the actions -----

  /**
   After a measurement the engine looks at the lease and for a cancellation, after the first one for a cancellation
   alone; after the reservation, as soon as the run is running.
   */
  predicate LooksAfter(p: seq<Instr>, i: nat)
    requires i < |p|
  {
    match p[i]
    case Measure(stage) =>
      if stage == Latency then i + 1 < |p| && p[i + 1] == Look
      else i + 2 < |p| && p[i + 1] == LookLease && p[i + 2] == Look
    case Reserve => i + 3 < |p| && p[i + 1] == Move(Running) && p[i + 2] == LookLease && p[i + 3] == Look
    case _ => true
  }

  /** It looks at both before the first measurement and before every upload, too. */
  predicate LooksBefore(p: seq<Instr>, i: nat)
    requires i < |p|
  {
    p[i] == Measure(Latency) || (p[i].Measure? && p[i].stage.Tcp?) ==>
      i >= 2 && p[i - 2] == LookLease && p[i - 1] == Look
  }

  predicate Attentive(p: seq<Instr>) { forall i | 0 <= i < |p| :: LooksAfter(p, i) && LooksBefore(p, i) }

  lemma {:induction false} AttentiveConcat(a: seq<Instr>, b: seq<Instr>)
    requires Attentive(a) && Attentive(b)
    ensures Attentive(a + b)
  {
    var p := a + b;
    forall i | 0 <= i < |p|
      ensures LooksAfter(p, i) && LooksBefore(p, i)
    {
      if i < |a| {
        assert LooksAfter(a, i) && LooksBefore(a, i);
      } else {
        assert LooksAfter(b, i - |a|) && LooksBefore(b, i - |a|);
      }
    }
  }

  /** A stretch without actions. */
  lemma {:induction false} IdleAttentive(p: seq<Instr>)
    requires forall i | 0 <= i < |p| :: !p[i].Measure? && !p[i].Reserve?
    ensures Attentive(p)
  {
  }

  lemma {:induction false} WaitingLooks(n: nat)
    ensures |Waiting(n)| == 2 * n
    ensures forall i | 0 <= i < |Waiting(n)| :: Waiting(n)[i] == if i % 2 == 0 then LookLease else Look
  {
    if n > 0 {
      WaitingLooks(n - 1);
    }
  }

  lemma {:induction false} MeasuredAttentive(stage: Stage)
    requires stage == Video || stage.Udp?
    ensures Attentive(Measured(stage))
  {
  }

  lemma {:induction false} UploadAttentive(n: nat, k: nat)
    ensures Attentive(LOOK_BOTH + Waiting(n) + Measured(Tcp(k)))
  {
    WaitingLooks(n);
    var a := LOOK_BOTH + Waiting(n);
    assert a[|a| - 2] == LookLease && a[|a| - 1] == Look;
    var p := a + Measured(Tcp(k));
    hide Waiting, Measured;
    assert p[|a|] == Measure(Tcp(k)) && p[|a| + 1] == LookLease && p[|a| + 2] == Look by {
      MeasuredIs(Tcp(k));
    }
    assert |p| == |a| + 3 by {
      MeasuredIs(Tcp(k));
    }
    assert p[..|a|] == a;
    forall i | 0 <= i < |p|
      ensures LooksAfter(p, i) && LooksBefore(p, i)
    {
      assert i < |a| ==> p[i] == LookLease || p[i] == Look;
    }
  }

  lemma {:induction false} MeasuredIs(stage: Stage)
    ensures Measured(stage) == [Measure(stage), LookLease, Look]
  {
  }

  lemma {:induction false} RoundAttentive(plan: Plan, turns: nat -> nat, k: nat)
    ensures Attentive(Round(plan, turns, k))
  {
    hide Attentive, Waiting, Measured;
    var n := if k == 1 then turns(0) else 0;
    var a := LOOK_BOTH + (if k == 1 then Waiting(turns(0)) else []) + Measured(Tcp(k));
    var b := if k < plan.tcpRounds then Waiting(turns(k)) else [];
    var c := if plan.udp == AfterEachTcp then Measured(Udp(k)) else [];
    assert a == LOOK_BOTH + Waiting(n) + Measured(Tcp(k)) by {
      NoTurns();
    }
    UploadAttentive(n, k);
    WaitAttentive(turns(k));
    NothingAttentive();
    MeasuredAttentive(Udp(k));
    AttentiveConcat(a, b);
    AttentiveConcat(a + b, c);
  }

  lemma {:induction false} NoTurns()
    ensures Waiting(0) == []
  {
  }

  lemma {:induction false} NothingAttentive()
    ensures Attentive([])
  {
  }

  lemma {:induction false} WaitAttentive(n: nat)
    ensures Attentive(Waiting(n))
  {
    WaitingLooks(n);
    IdleAttentive(Waiting(n));
  }

  lemma {:induction false} RoundsAttentive(plan: Plan, turns: nat -> nat, k: nat)
    ensures Attentive(Rounds(plan, turns, k))
  {
    hide Attentive, Round;
    if k == 0 {
      NothingAttentive();
    } else {
      RoundsAttentive(plan, turns, k - 1);
      RoundAttentive(plan, turns, k);
      AttentiveConcat(Rounds(plan, turns, k - 1), Round(plan, turns, k));
    }
  }

  lemma {:induction false} OpeningAttentive(plan: Plan)
    ensures Attentive(Preparing(plan) + Opening(plan))
  {
    var first := Preparing(plan) + (LOOK_BOTH + [Measure(Latency), Look]);
    var more := if plan.udp == Beginning then Measured(Udp(0)) else [];
    var reserve := if plan.hasServer then [Reserve] else [];
    assert first == [Move(WarmingUp)] + reserve + [Move(Running), LookLease, Look, Measure(Latency), Look];
    assert Attentive(first);
    MeasuredAttentive(Udp(0));
    AttentiveConcat(first, more);
    assert Preparing(plan) + Opening(plan) == first + more;
  }

  lemma {:induction false} ClosingAttentive(plan: Plan, turns: nat -> nat)
    ensures Attentive(Closing(plan, turns))
  {
    hide Attentive, Waiting, Measured;
    var a := if plan.udp == AtEnd then Measured(Udp(0)) else [];
    var b, c := Waiting(turns(plan.tcpRounds + 1)), Waiting(turns(plan.tcpRounds + 2));
    NothingAttentive();
    MeasuredAttentive(Udp(0));
    MeasuredAttentive(Video);
    WaitAttentive(turns(plan.tcpRounds + 1));
    WaitAttentive(turns(plan.tcpRounds + 2));
    IdleAttentive([Work]);
    AttentiveConcat(a, b);
    AttentiveConcat(a + b, Measured(Video));
    AttentiveConcat(a + b + Measured(Video), c);
    AttentiveConcat(a + b + Measured(Video) + c, [Work]);
  }

  /**
   Every measurement of every program is followed at once by a look at both, the first by a look for a cancellation;
   the first and every upload come right after a look at both; and the reservation is followed by one as soon as the
   run is running.
   */
  lemma {:induction false} ProgramAttentive(plan: Plan, turns: nat -> nat)
    ensures Attentive(Program(plan, turns))
  {
    hide Attentive, Preparing, Opening, Rounds, Closing, Concluding;
    var rounds := Rounds(plan, turns, plan.tcpRounds);
    IdleAttentive(VERIFYING);
    OpeningAttentive(plan);
    RoundsAttentive(plan, turns, plan.tcpRounds);
    ClosingAttentive(plan, turns);
    ConcludingIdle(plan);
    var a := VERIFYING + (Preparing(plan) + Opening(plan));
    AttentiveConcat(VERIFYING, Preparing(plan) + Opening(plan));
    AttentiveConcat(a, rounds);
    AttentiveConcat(a + rounds, Closing(plan, turns));
    AttentiveConcat(a + rounds + Closing(plan, turns), Concluding(plan));
    assert Program(plan, turns) == a + rounds + Closing(plan, turns) + Concluding(plan);
  }

  lemma {:induction false} ConcludingIdle(plan: Plan)
    ensures Attentive(Concluding(plan))
  {
  }

  /** Before anything is reserved, all work and every examination is followed by a look for a cancellation. */
  lemma {:induction false} ChecksFollow(plan: Plan, turns: nat -> nat, i: nat)
    requires i < |Program(plan, turns)| && Program(plan, turns)[i] in {Work, Exam}
    requires After(Created, Program(plan, turns)[..i]) in {Preflight, VerifyingPaths}
    ensures i + 1 < |Program(plan, turns)| && Program(plan, turns)[i + 1] == Look
  {
    var p := Program(plan, turns);
    hide Program, After;
    ProgramBegins(plan, turns);
    if i < |VERIFYING| {
      assert p[i] == VERIFYING[i] && i < 9 && p[i + 1] == VERIFYING[i + 1];
    } else {
      assert p[|VERIFYING|] == (VERIFYING + [Move(WarmingUp)])[|VERIFYING|];
      LaterStates(plan, turns, i);
    }
  }

  lemma {:induction false} ProgramBegins(plan: Plan, turns: nat -> nat)
    ensures VERIFYING + [Move(WarmingUp)] <= Program(plan, turns)
  {
    hide Opening, Rounds, Closing, Concluding;
    assert [Move(WarmingUp)] <= Preparing(plan);
    var rest := Opening(plan) + Rounds(plan, turns, plan.tcpRounds) + Closing(plan, turns) + Concluding(plan);
    assert Program(plan, turns) == VERIFYING + Preparing(plan) + rest;
  }

  lemma {:induction false} LaterStates(plan: Plan, turns: nat -> nat, j: nat)
    requires |VERIFYING| < j <= |Program(plan, turns)|
    ensures After(Created, Program(plan, turns)[..j]) !in {Created, Preflight, VerifyingPaths}
  {
    hide Program, After, Placed;
    var p := Program(plan, turns);
    ProgramPlaced(plan, turns);
    ProgramBegins(plan, turns);
    PlacedAt(Created, p, j - 1);
    if j == |VERIFYING| + 1 {
      assert p[j - 1] == (VERIFYING + [Move(WarmingUp)])[j - 1];
    } else {
      LaterStates(plan, turns, j - 1);
    }
  }

  /** The results are examined, and can be refused, exactly if the plan asks for evidence. */
  lemma {:induction false} EvidenceIsExamined(plan: Plan, turns: nat -> nat)
    ensures var p := Program(plan, turns);
            |p| > 4 && p[|p| - 4..] == [Move(CoolingDown), Move(Analyzing), if plan.needsEvidence then Exam else Work,
                                        Move(GeneratingReport)]
  {
    hide Opening, Rounds, Closing, Preparing;
    var p := Program(plan, turns);
    assert p[|p| - 4..] == Concluding(plan);
  }

  // ----- How often it looks -----

  function Count(x: Instr, p: seq<Instr>): nat {
    if p == [] then 0 else Count(x, p[..|p| - 1]) + if p[|p| - 1] == x then 1 else 0
  }

  lemma {:induction false} CountConcat(x: Instr, a: seq<Instr>, b: seq<Instr>)
    ensures Count(x, a + b) == Count(x, a) + Count(x, b)
  {
    if b == [] {
      assert a + b == a;
    } else {
      assert (a + b)[..|a + b| - 1] == a + b[..|b| - 1];
      CountConcat(x, a, b[..|b| - 1]);
    }
  }

  /** The stretch looks so often for a cancellation and at the lease. */
  predicate Looks(p: seq<Instr>, looks: nat, leases: nat) { Count(Look, p) == looks && Count(LookLease, p) == leases }

  lemma {:induction false} LooksAdd(a: seq<Instr>, b: seq<Instr>, la: nat, ra: nat, lb: nat, rb: nat)
    requires Looks(a, la, ra) && Looks(b, lb, rb)
    ensures Looks(a + b, la + lb, ra + rb)
  {
    CountConcat(Look, a, b);
    CountConcat(LookLease, a, b);
  }

  /** The turns of the first n waits. */
  function SumTurns(turns: nat -> nat, n: nat): nat { if n == 0 then 0 else SumTurns(turns, n - 1) + turns(n - 1) }

  /** The measurements of a complete run. */
  function Stages(plan: Plan): nat {
    2 + plan.tcpRounds + if plan.udp == AfterEachTcp then plan.tcpRounds else 1
  }

  /** The turns of all its waits: before the first upload, between uploads, after the datagrams and after the video. */
  function Turns(plan: Plan, turns: nat -> nat): nat {
    SumTurns(turns, plan.tcpRounds) + turns(plan.tcpRounds + 1) + turns(plan.tcpRounds + 2)
  }

  lemma {:induction false} CountSnoc(x: Instr, p: seq<Instr>, i: Instr)
    ensures Count(x, p + [i]) == Count(x, p) + if i == x then 1 else 0
  {
    assert (p + [i])[..|p|] == p;
  }

  lemma {:induction false} CountThese(x: Instr, i: Instr, j: Instr)
    ensures Count(x, [i]) == if i == x then 1 else 0
    ensures Count(x, [i, j]) == (if i == x then 1 else 0) + if j == x then 1 else 0
  {
    CountSnoc(x, [], i);
    CountSnoc(x, [i], j);
    assert [] + [i] == [i] && [i] + [j] == [i, j];
  }

  lemma {:induction false} PairLooks(i: Instr, j: Instr)
    ensures Looks([i], if i == Look then 1 else 0, if i == LookLease then 1 else 0)
    ensures Looks([i, j], (if i == Look then 1 else 0) + (if j == Look then 1 else 0),
                  (if i == LookLease then 1 else 0) + if j == LookLease then 1 else 0)
  {
    CountThese(Look, i, j);
    CountThese(LookLease, i, j);
  }

  lemma {:induction false} ShortLooks(stage: Stage)
    ensures Looks([], 0, 0) && Looks(LOOK_BOTH, 1, 1) && Looks(Measured(stage), 1, 1)
    ensures Looks([Measure(Latency), Look], 1, 0) && Looks([Work], 0, 0)
  {
    PairLooks(LookLease, Look);
    PairLooks(Measure(Latency), Look);
    PairLooks(Work, Work);
    PairLooks(Measure(stage), Measure(stage));
    LooksAdd([Measure(stage)], LOOK_BOTH, 0, 0, 1, 1);
  }

  lemma {:induction false} WaitLooks(n: nat)
    ensures Looks(Waiting(n), n, n)
  {
    ShortLooks(Video);
    if n > 0 {
      WaitLooks(n - 1);
      LooksAdd(Waiting(n - 1), LOOK_BOTH, n - 1, n - 1, 1, 1);
    }
  }

  lemma {:induction false} RoundLooks(plan: Plan, turns: nat -> nat, k: nat)
    ensures var n := 2 + (if k == 1 then turns(0) else 0) + (if k < plan.tcpRounds then turns(k) else 0) +
                     (if plan.udp == AfterEachTcp then 1 else 0);
            Looks(Round(plan, turns, k), n, n)
  {
    hide Looks, Waiting, Measured;
    ShortLooks(Tcp(k));
    ShortLooks(Udp(k));
    WaitLooks(turns(0));
    WaitLooks(turns(k));
    var a := if k == 1 then Waiting(turns(0)) else [];
    var b := if k < plan.tcpRounds then Waiting(turns(k)) else [];
    var c := if plan.udp == AfterEachTcp then Measured(Udp(k)) else [];
    var x := if k == 1 then turns(0) else 0;
    var y := if k < plan.tcpRounds then turns(k) else 0;
    LooksAdd(LOOK_BOTH, a, 1, 1, x, x);
    LooksAdd(LOOK_BOTH + a, Measured(Tcp(k)), 1 + x, 1 + x, 1, 1);
    LooksAdd(LOOK_BOTH + a + Measured(Tcp(k)), b, 2 + x, 2 + x, y, y);
    LooksAdd(LOOK_BOTH + a + Measured(Tcp(k)) + b, c, 2 + x + y, 2 + x + y,
             if plan.udp == AfterEachTcp then 1 else 0, if plan.udp == AfterEachTcp then 1 else 0);
  }

  /** The waits of the first k rounds. */
  function WaitsUpTo(plan: Plan, k: nat): nat { if k == 0 then 0 else if k < plan.tcpRounds then k + 1 else k }

  lemma {:induction false} RoundsLooks(plan: Plan, turns: nat -> nat, k: nat)
    requires k <= plan.tcpRounds
    ensures var n := SumTurns(turns, WaitsUpTo(plan, k)) + 2 * k + (if plan.udp == AfterEachTcp then k else 0);
            Looks(Rounds(plan, turns, k), n, n)
  {
    hide Looks, Round;
    if k == 0 {
      ShortLooks(Video);
    } else {
      RoundsLooks(plan, turns, k - 1);
      RoundLooks(plan, turns, k);
      WaitsGrow(plan, turns, k);
      var m := SumTurns(turns, WaitsUpTo(plan, k - 1)) + 2 * (k - 1) +
               (if plan.udp == AfterEachTcp then k - 1 else 0);
      var n := 2 + (if k == 1 then turns(0) else 0) + (if k < plan.tcpRounds then turns(k) else 0) +
               (if plan.udp == AfterEachTcp then 1 else 0);
      LooksAdd(Rounds(plan, turns, k - 1), Round(plan, turns, k), m, m, n, n);
    }
  }

  lemma {:induction false} WaitsGrow(plan: Plan, turns: nat -> nat, k: nat)
    requires 0 < k <= plan.tcpRounds
    ensures SumTurns(turns, WaitsUpTo(plan, k)) ==
              SumTurns(turns, WaitsUpTo(plan, k - 1)) + (if k == 1 then turns(0) else 0) +
                  if k < plan.tcpRounds then turns(k) else 0
  {
    if k == 1 {
      assert SumTurns(turns, 1) == turns(0);
    }
  }

  lemma {:induction false} OpeningLooks(plan: Plan)
    ensures var n := if plan.udp == Beginning then 1 else 0; Looks(Opening(plan), 2 + n, 1 + n)
  {
    hide Looks, Measured;
    ShortLooks(Udp(0));
    var more := if plan.udp == Beginning then Measured(Udp(0)) else [];
    var n := if plan.udp == Beginning then 1 else 0;
    LooksAdd(LOOK_BOTH, [Measure(Latency), Look], 1, 1, 1, 0);
    LooksAdd(LOOK_BOTH + [Measure(Latency), Look], more, 2, 1, n, n);
  }

  lemma {:induction false} ClosingLooks(plan: Plan, turns: nat -> nat)
    ensures var n := (if plan.udp == AtEnd then 1 else 0) + 1 + turns(plan.tcpRounds + 1) + turns(plan.tcpRounds + 2);
            Looks(Closing(plan, turns), n, n)
  {
    hide Looks, Measured, Waiting;
    ShortLooks(Udp(0));
    ShortLooks(Video);
    WaitLooks(turns(plan.tcpRounds + 1));
    WaitLooks(turns(plan.tcpRounds + 2));
    var a := if plan.udp == AtEnd then Measured(Udp(0)) else [];
    var b, c := Waiting(turns(plan.tcpRounds + 1)), Waiting(turns(plan.tcpRounds + 2));
    var x, y, z := if plan.udp == AtEnd then 1 else 0, turns(plan.tcpRounds + 1), turns(plan.tcpRounds + 2);
    LooksAdd(a, b, x, x, y, y);
    LooksAdd(a + b, Measured(Video), x + y, x + y, 1, 1);
    LooksAdd(a + b + Measured(Video), c, x + y + 1, x + y + 1, z, z);
    LooksAdd(a + b + Measured(Video) + c, [Work], x + y + 1 + z, x + y + 1 + z, 0, 0);
  }

  lemma {:induction false} IdleLooks(p: seq<Instr>)
    requires forall i | 0 <= i < |p| :: p[i] != Look && p[i] != LookLease
    ensures Looks(p, 0, 0)
  {
    if p != [] {
      IdleLooks(p[..|p| - 1]);
    }
  }

  lemma {:induction false} VerifyingLooks()
    ensures Looks(VERIFYING, 4, 0)
  {
    PairLooks(Move(Preflight), Work);
    PairLooks(Look, Work);
    PairLooks(Look, Exam);
    PairLooks(Look, Move(VerifyingPaths));
    PairLooks(Exam, Look);
    var a, b := [Move(Preflight), Work], [Look, Work];
    var c, d := [Look, Exam], [Look, Move(VerifyingPaths)];
    LooksAdd(a, b, 0, 0, 1, 0);
    LooksAdd(a + b, c, 1, 0, 1, 0);
    LooksAdd(a + b + c, d, 2, 0, 1, 0);
    LooksAdd(a + b + c + d, [Exam, Look], 3, 0, 1, 0);
    assert VERIFYING == a + b + c + d + [Exam, Look];
  }

  /**
   How often a complete run looks for a cancellation: four times before it reserves anything, before the first
   measurement and before every upload, after every measurement, and once a turn of every wait. It looks at the lease
   as often, except before the reservation and after the first measurement.
   */
  lemma {:induction false} LooksOften(plan: Plan, turns: nat -> nat)
    ensures Count(Look, Program(plan, turns)) == 4 + 1 + plan.tcpRounds + Stages(plan) + Turns(plan, turns)
    ensures Count(LookLease, Program(plan, turns)) == 1 + plan.tcpRounds + (Stages(plan) - 1) + Turns(plan, turns)
  {
    hide Looks, Preparing, Opening, Rounds, Closing, Concluding;
    var rounds := Rounds(plan, turns, plan.tcpRounds);
    var o, e, m := if plan.udp == Beginning then 1 else 0, if plan.udp == AtEnd then 1 else 0,
                   if plan.udp == AfterEachTcp then plan.tcpRounds else 0;
    var r := SumTurns(turns, plan.tcpRounds) + 2 * plan.tcpRounds + m;
    var t := e + 1 + turns(plan.tcpRounds + 1) + turns(plan.tcpRounds + 2);
    VerifyingLooks();
    EndsIdle(plan);
    OpeningLooks(plan);
    RoundsLooks(plan, turns, plan.tcpRounds);
    ClosingLooks(plan, turns);
    var a := VERIFYING + Preparing(plan);
    LooksAdd(VERIFYING, Preparing(plan), 4, 0, 0, 0);
    LooksAdd(a, Opening(plan), 4, 0, 2 + o, 1 + o);
    LooksAdd(a + Opening(plan), rounds, 6 + o, 1 + o, r, r);
    LooksAdd(a + Opening(plan) + rounds, Closing(plan, turns), 6 + o + r, 1 + o + r, t, t);
    LooksAdd(a + Opening(plan) + rounds + Closing(plan, turns), Concluding(plan), 6 + o + r + t, 1 + o + r + t, 0, 0);
    LooksAre(Program(plan, turns), 6 + o + r + t, 1 + o + r + t);
  }

  lemma {:induction false} LooksAre(p: seq<Instr>, looks: nat, leases: nat)
    requires Looks(p, looks, leases)
    ensures Count(Look, p) == looks && Count(LookLease, p) == leases
  {
  }

  lemma {:induction false} EndsIdle(plan: Plan)
    ensures Looks(Preparing(plan), 0, 0) && Looks(Concluding(plan), 0, 0)
  {
    IdleLooks(Preparing(plan));
    IdleLooks(Concluding(plan));
  }

  // ----- How soon a cancellation or a lost lease is noticed -----

  lemma {:induction false} StaysSet(f: nat -> bool, k: nat, n: nat)
    requires SetBy(f, k) && k <= n
    ensures SetBy(f, n)
    decreases n
  {
    if k < n {
      StaysSet(f, k, n - 1);
    }
  }

  /** A run does not get past a look at which there is something to notice. */
  lemma {:induction false} StopsBy(program: seq<Instr>, w: World, hasServer: bool, i: nat, j: nat)
    requires i <= j < |program|
    requires (program[j] == Look && SetBy(w.fires, j)) || (program[j] == LookLease && hasServer && SetBy(w.loses, j))
    ensures FateFrom(program, w, hasServer, i) != Finished && FateFrom(program, w, hasServer, i).at <= j
    decreases j - i
  {
    hide SetBy, Asked;
    if i < j {
      StopsBy(program, w, hasServer, i + 1, j);
    }
  }

  predicate IsAction(i: Instr) { i.Reserve? || i.Measure? }

  lemma {:induction false} ActionsCount(p: seq<Instr>, n: nat)
    requires n < |p|
    ensures |Actions(p[..n + 1])| == |Actions(p[..n])| + if IsAction(p[n]) then 1 else 0
  {
    assert p[..n + 1][..n] == p[..n];
  }

  /** Between two looks for a cancellation there is at most one action. */
  lemma {:induction false} OneAction(p: seq<Instr>, k: nat, j: nat)
    requires Attentive(p) && k <= j <= |p| && forall i | k <= i < j :: p[i] != Look
    ensures |Actions(p[..j])| <= |Actions(p[..k])| + 1
    ensures |Actions(p[..j])| > |Actions(p[..k])| ==> exists i | k <= i < j :: IsAction(p[i])
    decreases j
  {
    hide Attentive, Actions;
    if k < j {
      OneAction(p, k, j - 1);
      ActionsCount(p, j - 1);
      if IsAction(p[j - 1]) && |Actions(p[..j - 1])| > |Actions(p[..k])| {
        var i :| k <= i < j - 1 && IsAction(p[i]);
        ActionsApart(p, i, j - 1);
      }
    }
  }

  /** Between two actions there is a look for a cancellation, and one at the lease unless the earlier is the first. */
  lemma {:induction false} ActionsApart(p: seq<Instr>, i: nat, j: nat)
    requires Attentive(p) && i < j < |p| && IsAction(p[i]) && IsAction(p[j])
    ensures exists n | i < n < j :: p[n] == Look
    ensures p[i] != Measure(Latency) ==> exists n | i < n < j :: p[n] == LookLease
  {
    assert LooksAfter(p, i);
    if p[i] == Measure(Latency) {
      assert p[i + 1] == Look;
    } else if p[i].Measure? {
      assert p[i + 1] == LookLease && p[i + 2] == Look;
    } else {
      assert p[i + 2] == LookLease && p[i + 3] == Look;
    }
  }

  lemma {:induction false} ActionsGrow(p: seq<Instr>, i: nat, j: nat)
    requires i <= j <= |p|
    ensures |Actions(p[..i])| <= |Actions(p[..j])|
    decreases j
  {
    hide Actions;
    if i < j {
      ActionsGrow(p, i, j - 1);
      ActionsCount(p, j - 1);
    }
  }

  /** Between two looks at the lease there is at most one action, or the first measurement and one more. */
  lemma {:induction false} TwoActions(p: seq<Instr>, k: nat, j: nat)
    requires Attentive(p) && k <= j <= |p| && forall i | k <= i < j :: p[i] != LookLease
    ensures |Actions(p[..j])| <= |Actions(p[..k])| + 2
    ensures |Actions(p[..j])| == |Actions(p[..k])| + 2 ==> Measure(Latency) in p[k..j]
    ensures |Actions(p[..j])| >= |Actions(p[..k])| + 1 ==> exists i | k <= i < j :: IsAction(p[i])
    ensures |Actions(p[..j])| == |Actions(p[..k])| + 2 ==>
              exists i | k <= i < j :: IsAction(p[i]) && p[i] != Measure(Latency)
    decreases j
  {
    hide Attentive, Actions;
    if k < j {
      TwoActions(p, k, j - 1);
      ActionsCount(p, j - 1);
      assert p[k..j] == p[k..j - 1] + [p[j - 1]];
      if IsAction(p[j - 1]) && |Actions(p[..j - 1])| > |Actions(p[..k])| {
        if i :| k <= i < j - 1 && IsAction(p[i]) && p[i] != Measure(Latency) {
          ActionsApart(p, i, j - 1);
          assert false;
        }
        var i :| k <= i < j - 1 && IsAction(p[i]);
        assert p[k..j][i - k] == Measure(Latency);
        if p[j - 1] == Measure(Latency) {
          LatencyOnce(p, i, j - 1);
          assert false;
        }
      }
    }
  }

  lemma {:induction false} LatencyOnce(p: seq<Instr>, i: nat, j: nat)
    requires Attentive(p) && i < j < |p| && IsAction(p[i]) && p[j] == Measure(Latency)
    ensures exists n | i < n < j :: p[n] == LookLease
  {
    assert LooksBefore(p, j);
    assert LooksAfter(p, i);
    assert p[j - 2] == LookLease && p[j - 1] == Look;
    assert i != j - 2 && i != j - 1;
  }

  ghost predicate LooksAhead(p: seq<Instr>, x: Instr, k: nat) { exists j | k <= j < |p| :: p[j] == x }

  /** The first look of its kind from instruction k on, if there is one. */
  function NextLook(p: seq<Instr>, x: Instr, k: nat): (n: nat)
    requires k <= |p|
    ensures k <= n <= |p| && (n < |p| ==> p[n] == x) && forall i | k <= i < n :: p[i] != x
    decreases |p| - k
  {
    if k == |p| || p[k] == x then k else NextLook(p, x, k + 1)
  }

  /** What a run of this fate does to the test node before its clean-up. */
  function DoneBy(program: seq<Instr>, f: Fate): seq<Action>
    requires f != Finished ==> f.at <= |program|
  {
    if f == Finished then Actions(program) else Done(program, program[..f.at])
  }

  /** A run that stops at n or before has done no more than the actions up to there. */
  lemma {:induction false} DoneBefore(program: seq<Instr>, f: Fate, n: nat)
    requires f != Finished && f.at <= n < |program| && !program[n].Measure?
    ensures exists m | 0 <= m <= n :: |DoneBy(program, f)| == |Actions(program[..m])|
  {
    hide Actions;
    var path := program[..f.at];
    if program[f.at].Measure? {
      assert |DoneBy(program, f)| == |Actions(program[..f.at + 1])|;
    } else {
      assert |DoneBy(program, f)| == |Actions(program[..f.at])|;
    }
  }

  lemma {:induction false} FateAt(program: seq<Instr>, w: World, hasServer: bool, i: nat)
    requires i <= |program|
    ensures FateFrom(program, w, hasServer, i) != Finished ==> FateFrom(program, w, hasServer, i).at < |program|
    decreases |program| - i
  {
    hide SetBy, Asked;
    if i < |program| {
      FateAt(program, w, hasServer, i + 1);
    }
  }

  /**
   A cancel event that is set before instruction k is noticed at the next look for one, if there is one left: the run
   does not finish, and from k on at most one more action is carried out.
   */
  lemma {:induction false} CancelNoticed(plan: Plan, w: World, k: nat)
    requires k <= |Program(plan, w.turns)| && SetBy(w.fires, k)
    ensures var program := Program(plan, w.turns);
            var f := FateFrom(program, w, plan.hasServer, 0);
            && (f != Finished ==> f.at < |program|) && (f == Finished ==> !LooksAhead(program, Look, k))
            && |DoneBy(program, f)| <= |Actions(program[..k])| + 1
  {
    hide Program, Actions, Attentive, FateFrom, DoneBy, SetBy;
    var program := Program(plan, w.turns);
    var f, n := FateFrom(program, w, plan.hasServer, 0), NextLook(program, Look, k);
    FateAt(program, w, plan.hasServer, 0);
    ProgramAttentive(plan, w.turns);
    if n < |program| {
      StaysSet(w.fires, k, n);
      StopsBy(program, w, plan.hasServer, 0, n);
      DoneBefore(program, f, n);
      var m :| 0 <= m <= n && |DoneBy(program, f)| == |Actions(program[..m])|;
      WithinOne(program, k, n, m);
    } else {
      DoneAtMost(program, f);
      WithinOne(program, k, n, |program|);
      assert program[..|program|] == program;
    }
  }

  lemma {:induction false} WithinOne(p: seq<Instr>, k: nat, n: nat, m: nat)
    requires Attentive(p) && k <= n <= |p| && m <= n && forall i | k <= i < n :: p[i] != Look
    ensures |Actions(p[..m])| <= |Actions(p[..k])| + 1
  {
    hide Attentive, Actions;
    ActionsGrow(p, m, n);
    OneAction(p, k, n);
  }

  lemma {:induction false} DoneAtMost(program: seq<Instr>, f: Fate)
    requires f != Finished ==> f.at < |program|
    ensures |DoneBy(program, f)| <= |Actions(program)|
  {
    hide Actions;
    if f != Finished {
      assert program[..|program|] == program;
      ActionsGrow(program, f.at, |program|);
      ActionsGrow(program, f.at + 1, |program|);
    }
  }

  /**
   A lease that is lost before instruction k is noticed at the next look at it, if there is one left: the run does not
   finish, and from k on at most one more action is carried out, or the first measurement and the one after it.
   */
  lemma {:induction false} LossNoticed(plan: Plan, w: World, k: nat)
    requires k <= |Program(plan, w.turns)| && plan.hasServer && SetBy(w.loses, k)
    ensures var program := Program(plan, w.turns);
            var f := FateFrom(program, w, plan.hasServer, 0);
            && (f != Finished ==> f.at < |program|) && (f == Finished ==> !LooksAhead(program, LookLease, k))
            && |DoneBy(program, f)| <=
               |Actions(program[..k])| + if Measure(Latency) in program[k..] then 2 else 1
  {
    hide Program, Actions, Attentive, FateFrom, DoneBy, SetBy;
    var program := Program(plan, w.turns);
    var f, n := FateFrom(program, w, plan.hasServer, 0), NextLook(program, LookLease, k);
    FateAt(program, w, plan.hasServer, 0);
    ProgramAttentive(plan, w.turns);
    if n < |program| {
      StaysSet(w.loses, k, n);
      StopsBy(program, w, plan.hasServer, 0, n);
      DoneBefore(program, f, n);
      var m :| 0 <= m <= n && |DoneBy(program, f)| == |Actions(program[..m])|;
      WithinTwo(program, k, n, m);
    } else {
      DoneAtMost(program, f);
      WithinTwo(program, k, n, |program|);
      assert program[..|program|] == program;
    }
  }

  lemma {:induction false} WithinTwo(p: seq<Instr>, k: nat, n: nat, m: nat)
    requires Attentive(p) && k <= n <= |p| && m <= n && forall i | k <= i < n :: p[i] != LookLease
    ensures |Actions(p[..m])| <= |Actions(p[..k])| + if Measure(Latency) in p[k..] then 2 else 1
  {
    hide Attentive, Actions;
    ActionsGrow(p, m, n);
    TwoActions(p, k, n);
    assert p[k..n] <= p[k..];
  }

  /** An instruction that passes: it goes well, and if it is a look for a cancellation there is none. */
  predicate Passes(program: seq<Instr>, w: World, hasServer: bool, i: nat)
    requires i < |program|
  {
    Unharmed(program, w, hasServer, i) && (program[i].Look? ==> !SetBy(w.fires, i) && !Asked(w.asks, program[..i]))
  }

  lemma {:induction false} FateReaches(program: seq<Instr>, w: World, hasServer: bool, i: nat, j: nat)
    requires i <= j <= |program| && forall n | i <= n < j :: Passes(program, w, hasServer, n)
    ensures FateFrom(program, w, hasServer, i) == FateFrom(program, w, hasServer, j)
    decreases j - i
  {
    hide SetBy, Asked;
    if i < j {
      assert Passes(program, w, hasServer, i);
      FateReaches(program, w, hasServer, i + 1, j);
    }
  }

  /** A world in which all goes well until the lease is lost before instruction k. */
  function OnlyLost(turns: nat -> nat, k: nat): World {
    World(n => Fine, n => false, n => false, n => n == k, turns)
  }

  lemma {:induction false} LostFrom(turns: nat -> nat, k: nat, n: nat, path: seq<Instr>)
    ensures SetBy(OnlyLost(turns, k).loses, n) <==> n >= k
    ensures !SetBy(OnlyLost(turns, k).fires, n) && !Asked(OnlyLost(turns, k).asks, path)
    decreases n + |path|
  {
    if n > 0 {
      LostFrom(turns, k, n - 1, path);
    }
    if path != [] {
      LostFrom(turns, k, n, path[..|path| - 1]);
    }
  }

  /** The first measurement and the datagrams after it, with the next look at the lease behind them. */
  predicate OpensAt(p: seq<Instr>, k: nat) {
    k + 4 <= |p| && p[k] == Measure(Latency) && p[k + 1] == Look && p[k + 2] == Measure(Udp(0)) && p[k + 3] == LookLease
  }

  lemma {:induction false} OpeningAt(plan: Plan, turns: nat -> nat)
    requires plan.udp == Beginning
    ensures OpensAt(Program(plan, turns), |VERIFYING| + |Preparing(plan)| + 2)
  {
    hide Preparing, Rounds, Closing, Concluding;
    var a := VERIFYING + Preparing(plan);
    var rest := Rounds(plan, turns, plan.tcpRounds) + Closing(plan, turns) + Concluding(plan);
    assert Program(plan, turns) == a + Opening(plan) + rest;
    OpeningIs(plan);
    hide Opening;
    OpensLater(a, Opening(plan), rest);
  }

  lemma {:induction false} OpeningIs(plan: Plan)
    requires plan.udp == Beginning
    ensures OpensAt(Opening(plan), 2)
  {
  }

  lemma {:induction false} OpensLater(a: seq<Instr>, b: seq<Instr>, rest: seq<Instr>)
    requires OpensAt(b, 2)
    ensures OpensAt(a + b + rest, |a| + 2)
  {
    var p := a + b + rest;
    assert forall i | 0 <= i < |b| :: p[|a| + i] == b[i];
    assert p[|a| + 2] == b[2] && p[|a| + 3] == b[3] && p[|a| + 4] == b[4] && p[|a| + 5] == b[5];
  }

  lemma {:induction false} LossPasses(p: seq<Instr>, turns: nat -> nat, hasServer: bool, k: nat, n: nat)
    requires OpensAt(p, k) && n < k + 3
    ensures Passes(p, OnlyLost(turns, k), hasServer, n)
  {
    hide SetBy, Asked;
    LostFrom(turns, k, n, p[..n]);
  }

  lemma {:induction false} TwoDone(p: seq<Instr>, k: nat)
    requires OpensAt(p, k)
    ensures Actions(p[..k + 3]) == Actions(p[..k]) + [Ran(Latency), Ran(Udp(0))]
  {
    hide Actions;
    assert p[..k + 3] == p[..k] + [Measure(Latency)] + [Look] + [Measure(Udp(0))];
    ActionsSnoc(p[..k], Measure(Latency));
    ActionsSnoc(p[..k] + [Measure(Latency)], Look);
    ActionsSnoc(p[..k] + [Measure(Latency)] + [Look], Measure(Udp(0)));
  }

  lemma {:induction false} LostHere(program: seq<Instr>, w: World, hasServer: bool, i: nat)
    requires i < |program| && program[i] == LookLease && hasServer && SetBy(w.loses, i)
    ensures FateFrom(program, w, hasServer, i) == LostAt(i)
  {
  }

  /** It happens: the lease is lost as the first measurement begins, and the datagrams at the beginning still follow. */
  lemma {:induction false} LossTakesTwo(plan: Plan, turns: nat -> nat) returns (k: nat)
    requires plan.hasServer && plan.udp == Beginning
    ensures var program, w := Program(plan, turns), OnlyLost(turns, k);
            && k + 3 < |program| && FateFrom(program, w, plan.hasServer, 0) == LostAt(k + 3)
            && Actions(program[..k + 3]) == Actions(program[..k]) + [Ran(Latency), Ran(Udp(0))]
  {
    k := |VERIFYING| + |Preparing(plan)| + 2;
    OpeningAt(plan, turns);
    hide Program, Preparing, SetBy, Asked, Actions, Passes, OnlyLost, FateFrom;
    var program, w := Program(plan, turns), OnlyLost(turns, k);
    forall n | 0 <= n < k + 3 ensures Passes(program, w, plan.hasServer, n) { LossPasses(program, turns, true, k, n); }
    FateReaches(program, w, plan.hasServer, 0, k + 3);
    LostFrom(turns, k, k + 3, []);
    LostHere(program, w, plan.hasServer, k + 3);
    TwoDone(program, k);
  }

  /** While a measurement is to come, so is a look for a cancellation, and one at the lease unless it is latency. */
  lemma {:induction false} MeasurementsAreWatched(plan: Plan, turns: nat -> nat, k: nat, i: nat)
    requires k <= i < |Program(plan, turns)| && Program(plan, turns)[i].Measure?
    ensures LooksAhead(Program(plan, turns), Look, k)
    ensures Program(plan, turns)[i] != Measure(Latency) ==> LooksAhead(Program(plan, turns), LookLease, k)
  {
    hide Program;
    ProgramAttentive(plan, turns);
    assert LooksAfter(Program(plan, turns), i);
  }
}
