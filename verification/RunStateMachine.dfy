/** The states of a run, the transitions its table allows, and what a restart may do to a run left in any of them. */
module RunStateMachine {
  import opened SetFacts

  datatype RunState =
    | Created | Queued | Preflight | AwaitingConfirmation | PreparingRouter | VerifyingPaths | WarmingUp | Running
    | CoolingDown | Analyzing | GeneratingReport | Restoring | CancelRequested | Cancelled | Completed | Failed
    | Interrupted | RecoveryRequired

  const TERMINAL: set<RunState> := {Completed, Failed, Cancelled, Interrupted, RecoveryRequired}

  const RESTORATION: set<RunState> := {PreparingRouter, VerifyingPaths, WarmingUp, Running, CoolingDown,
      CancelRequested}

  function Allowed(s: RunState): set<RunState> {
    match s
    case Created => {Queued, Preflight, Cancelled}
    case Queued => {Preflight, CancelRequested}
    case Preflight => {AwaitingConfirmation, VerifyingPaths, CancelRequested, Failed}
    case AwaitingConfirmation => {PreparingRouter, VerifyingPaths, CancelRequested, Cancelled}
    case PreparingRouter => {VerifyingPaths, CancelRequested, Restoring, Failed}
    case VerifyingPaths => {WarmingUp, CancelRequested, Restoring, Failed}
    case WarmingUp => {Running, CancelRequested, Restoring, Failed}
    case Running => {CoolingDown, CancelRequested, Restoring, Failed}
    case CoolingDown => {Analyzing, CancelRequested, Restoring, Failed}
    case Analyzing => {GeneratingReport, CancelRequested, Restoring, Failed}
    case GeneratingReport => {CancelRequested, Restoring, Completed, Failed}
    case Restoring => {Completed, Cancelled, Failed, RecoveryRequired}
    case CancelRequested => {Restoring, Cancelled, RecoveryRequired}
    case Cancelled => {}
    case Completed => {}
    case Failed => {}
    case Interrupted => {Restoring, RecoveryRequired}
    case RecoveryRequired => {}
  }

  predicate Edge(a: RunState, b: RunState) { b in Allowed(a) }

  /** From where each of the states that end or interrupt a run can be reached. */
  lemma {:induction false} EndsReachedFrom(s: RunState)
    ensures Edge(s, CancelRequested) <==>
              s in {Queued, Preflight, AwaitingConfirmation, PreparingRouter, VerifyingPaths, WarmingUp, Running,
                    CoolingDown, Analyzing, GeneratingReport}
    ensures Edge(s, Failed) <==>
              s in {Preflight, PreparingRouter, VerifyingPaths, WarmingUp, Running, CoolingDown, Analyzing,
                    GeneratingReport, Restoring}
    ensures Edge(s, Restoring) <==>
              s in {PreparingRouter, VerifyingPaths, WarmingUp, Running, CoolingDown, Analyzing, GeneratingReport,
                    CancelRequested, Interrupted}
    ensures Edge(s, Cancelled) <==> s in {Created, AwaitingConfirmation, Restoring, CancelRequested}
    ensures Edge(s, Completed) <==> s in {GeneratingReport, Restoring}
    ensures Edge(s, RecoveryRequired) <==> s in {Restoring, CancelRequested, Interrupted}
    ensures !Edge(s, Created) && !Edge(s, Interrupted)
  {
  }

  /** And each of the states on the way. */
  lemma {:induction false} StepsReachedFrom(s: RunState)
    ensures Edge(s, Queued) <==> s == Created
    ensures Edge(s, Preflight) <==> s in {Created, Queued}
    ensures Edge(s, AwaitingConfirmation) <==> s == Preflight
    ensures Edge(s, PreparingRouter) <==> s == AwaitingConfirmation
    ensures Edge(s, VerifyingPaths) <==> s in {Preflight, AwaitingConfirmation, PreparingRouter}
    ensures Edge(s, WarmingUp) <==> s == VerifyingPaths
    ensures Edge(s, Running) <==> s == WarmingUp
    ensures Edge(s, CoolingDown) <==> s == Running
    ensures Edge(s, Analyzing) <==> s == CoolingDown
    ensures Edge(s, GeneratingReport) <==> s == Analyzing
  {
  }

  /** A number that every allowed transition raises. */
  function Rank(s: RunState): (r: nat)
    ensures r <= 13
  {
    match s
    case Created => 0
    case Queued => 1
    case Preflight => 2
    case AwaitingConfirmation => 3
    case PreparingRouter => 4
    case VerifyingPaths => 5
    case WarmingUp => 6
    case Running => 7
    case CoolingDown => 8
    case Analyzing => 9
    case GeneratingReport => 10
    case CancelRequested => 11
    case Interrupted => 11
    case Restoring => 12
    case Cancelled => 13
    case Completed => 13
    case Failed => 13
    case RecoveryRequired => 13
  }

  /** A sequence of states that follows the table. */
  predicate Trail(t: seq<RunState>) { forall i | 0 < i < |t| :: Edge(t[i - 1], t[i]) }

  lemma {:induction false} EdgesClimb(a: RunState, b: RunState)
    requires Edge(a, b)
    ensures Rank(a) < Rank(b)
  {
  }

  lemma {:induction false} TrailsClimb(t: seq<RunState>)
    requires Trail(t) && t != []
    ensures Rank(t[|t| - 1]) >= |t| - 1
  {
    if |t| > 1 {
      var front := t[..|t| - 1];
      TrailsClimb(front);
      EdgesClimb(t[|t| - 2], t[|t| - 1]);
    }
  }

  /** Whatever a run goes through, it visits at most fourteen states, none of them twice. */
  lemma {:induction false} RunsAreShort(t: seq<RunState>)
    requires Trail(t)
    ensures |t| <= 14
    ensures forall i, j | 0 <= i < j < |t| :: t[i] != t[j]
  {
    if t != [] {
      TrailsClimb(t);
      forall i, j | 0 <= i < j < |t|
        ensures t[i] != t[j]
      {
        LaterIsHigher(t, i, j);
      }
    }
  }

  lemma {:induction false} LaterIsHigher(t: seq<RunState>, i: nat, j: nat)
    requires Trail(t) && i < j < |t|
    ensures Rank(t[i]) < Rank(t[j])
    decreases j
  {
    EdgesClimb(t[j - 1], t[j]);
    if i < j - 1 {
      LaterIsHigher(t, i, j - 1);
    }
  }

  /** The bound is met by a run that is confirmed, runs to its report and is then cancelled. */
  lemma {:induction false} LongestRun()
    ensures Trail([Created, Queued, Preflight, AwaitingConfirmation, PreparingRouter, VerifyingPaths, WarmingUp,
              Running,
                   CoolingDown, Analyzing, GeneratingReport, CancelRequested, Restoring, Cancelled])
  {
  }

  // ----- Restart -----

  function RestartTarget(s: RunState): Option<RunState> {
    if s in TERMINAL then None else if s in RESTORATION then Some(Restoring) else Some(Interrupted)
  }

  /** The restart target is a legal transition exactly for the states that need restoration. */
  lemma {:induction false} RestartIsLegalIff(s: RunState)
    ensures RestartTarget(s).Some? ==> (Edge(s, RestartTarget(s).value) <==> s in RESTORATION)
    ensures s in RESTORATION <==>
              s in {PreparingRouter, VerifyingPaths, WarmingUp, Running, CoolingDown, CancelRequested}
    ensures RestartTarget(s) == None <==> s in {Completed, Failed, Cancelled, Interrupted, RecoveryRequired}
    ensures s in RESTORATION ==> Edge(s, Restoring) && Edge(Restoring, RecoveryRequired)
  {
  }

  predicate Recoverable(s: RunState) { s in TERMINAL || s in RESTORATION }

  function Recovered(s: RunState): RunState { if s in RESTORATION then RecoveryRequired else s }

  /**
   Restart recovery of all runs in turn. It stops with an error at the first run whose restart target the table
   refuses; the runs before it have been recovered, that one and the later ones are untouched.
   */
  method RecoverIncompleteRuns(runs: array<RunState>) returns (refused: Option<nat>)
    modifies runs
    ensures refused == None <==> forall i | 0 <= i < runs.Length :: Recoverable(old(runs[i]))
    ensures refused.Some? ==> refused.value < runs.Length && !Recoverable(old(runs[refused.value])) &&
                              forall i | 0 <= i < refused.value :: Recoverable(old(runs[i]))
    ensures var n := if refused.Some? then refused.value else runs.Length;
            forall i | 0 <= i < runs.Length :: runs[i] == if i < n then Recovered(old(runs[i])) else old(runs[i])
  {
    for k := 0 to runs.Length
      invariant forall i | 0 <= i < k :: Recoverable(old(runs[i])) && runs[i] == Recovered(old(runs[i]))
      invariant forall i | k <= i < runs.Length :: runs[i] == old(runs[i])
    {
      RestartIsLegalIff(runs[k]);
      var target := RestartTarget(runs[k]);
      if target.Some? {
        if target.value !in Allowed(runs[k]) {
          return Some(k);
        }
        runs[k] := target.value;
        if target.value == Restoring {
          runs[k] := RecoveryRequired;
        }
      }
    }
    refused := None;
  }
}
