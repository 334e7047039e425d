/**
 Waiting until the LTE paths have stayed registered for a while. The clock, the cancel check and the router's
 telemetry come from outside: `now(k)`, `cancelled(k)` and `statuses(k)` are what the k-th turn of the loop is told.
 Statuses are taken in lower case.
 */
module PathStability {
  import opened SetFacts

  datatype World = World(now: nat -> real, cancelled: nat -> bool, statuses: nat -> seq<string>)

  datatype Verdict = Stable | Cancelled | NotRegistered

  datatype Result = Result(verdict: Verdict, observed: real, samples: nat)

  const REGISTERED: set<string> := {"registered", "connected"}

  predicate Registered(statuses: seq<string>) {
    statuses != [] && forall i | 0 <= i < |statuses| :: statuses[i] in REGISTERED
  }

  /** How long the loop asks to sleep when it reads the time t. */
  function Pause(t: real, deadline: real, poll: int): real {
    var left := if deadline - t > 0.0 then deadline - t else 0.0;
    if poll as real < left then poll as real else left
  }

  /** What the loop needs of its clock: sleeping takes at least as long as was asked for. */
  ghost predicate Paced(w: World, start: real, deadline: real, poll: int) {
    start <= w.now(0) && forall k: nat :: w.now(k) + Pause(w.now(k), deadline, poll) <= w.now(k + 1)
  }

  /** Every sample from i to k was registered. */
  predicate Unbroken(w: World, i: nat, k: nat) { forall j | i <= j <= k :: Registered(w.statuses(j)) }

  /** Up to sample k the paths have been registered without a break for the required time. */
  predicate Steady(w: World, required: int, k: nat) {
    exists i | 0 <= i <= k :: Unbroken(w, i, k) && w.now(k) - w.now(i) >= required as real
  }

  /** Turn k of the loop takes a sample. */
  predicate Samples(w: World, deadline: real, k: nat) { !w.cancelled(k) && w.now(k) < deadline }

  /** The paths are steady at sample m, and neither the deadline nor a cancellation came before. */
  ghost predicate SteadyInTime(w: World, required: int, deadline: real, m: nat) {
    Steady(w, required, m) && forall k | 0 <= k <= m :: Samples(w, deadline, k)
  }

  ghost predicate SteadyEventually(w: World, required: int, deadline: real) {
    exists m: nat :: SteadyInTime(w, required, deadline, m)
  }

  lemma {:induction false} ClockAdvances(w: World, start: real, deadline: real, poll: int, i: nat, k: nat)
    requires Paced(w, start, deadline, poll) && poll >= 0 && i <= k
    ensures w.now(i) <= w.now(k)
    decreases k
  {
    if i < k {
      ClockAdvances(w, start, deadline, poll, i, k - 1);
      assert w.now(k - 1) + Pause(w.now(k - 1), deadline, poll) <= w.now(k - 1 + 1);
    }
  }

  /** n intervals of the polling time. */
  function Intervals(n: nat, poll: int): int { if n == 0 then 0 else Intervals(n - 1, poll) + poll }

  lemma {:induction false} IntervalsAre(n: nat, poll: int)
    ensures Intervals(n, poll) == n * poll
  {
    if n > 0 {
      IntervalsAre(n - 1, poll);
      assert n * poll == (n - 1) * poll + poll;
    }
  }

  /** Samples come at least a poll interval apart, so turn n is late by n intervals or past the deadline. */
  lemma {:induction false} TurnsTakeTime(w: World, start: real, deadline: real, poll: int, n: nat)
    requires Paced(w, start, deadline, poll) && poll >= 1
    ensures w.now(n) >= start + Intervals(n, poll) as real || w.now(n) >= deadline
  {
    if n > 0 {
      TurnsTakeTime(w, start, deadline, poll, n - 1);
      assert w.now(n - 1) + Pause(w.now(n - 1), deadline, poll) <= w.now(n - 1 + 1);
    }
  }

  /** The current unbroken stretch starts at `since`, after a break or at the first sample. */
  ghost predicate Stretch(w: World, since: nat, n: nat) {
    since < n && Unbroken(w, since, n - 1) && (since > 0 ==> !Registered(w.statuses(since - 1)))
  }

  /** The longest stretch decides: the paths are steady at the last sample just when it spans the required time. */
  lemma {:induction false} StretchDecides(
    w: World, start: real, deadline: real, poll: int, required: int, since: nat, n: nat)
    requires Paced(w, start, deadline, poll) && poll >= 0 && Stretch(w, since, n)
    ensures Steady(w, required, n - 1) <==> w.now(n - 1) - w.now(since) >= required as real
  {
    if Steady(w, required, n - 1) {
      var i :| 0 <= i <= n - 1 && Unbroken(w, i, n - 1) && w.now(n - 1) - w.now(i) >= required as real;
      if i < since {
        assert false;
      }
      ClockAdvances(w, start, deadline, poll, since, i);
    }
    assert Unbroken(w, since, n - 1);
  }

  /** A sample counts if there is a path and all are registered or connected; so one other path breaks the stretch. */
  lemma {:induction false} OneBreaks(w: World, since: nat, k: nat, required: int)
    ensures Registered(w.statuses(k)) <==>
              w.statuses(k) != [] &&
              forall i | 0 <= i < |w.statuses(k)| ::
                w.statuses(k)[i] == "registered" || w.statuses(k)[i] == "connected"
    ensures (w.statuses(k) == [] ||
             exists i | 0 <= i < |w.statuses(k)| ::
               w.statuses(k)[i] != "registered" && w.statuses(k)[i] != "connected") ==>
              !Steady(w, required, k) && forall n | since <= k < n :: !Stretch(w, since, n)
  {
  }

  /** Exactly the required time is enough, any less is not; and no time at all is up at the first registered sample. */
  lemma {:induction false} EnoughIs(w: World, required: int, i: nat, k: nat)
    requires i <= k && Unbroken(w, i, k)
    ensures w.now(k) - w.now(i) == required as real ==> Steady(w, required, k)
    ensures (&& (i > 0 ==> !Registered(w.statuses(i - 1))) && (forall j | i <= j <= k :: w.now(j) >= w.now(i))
             && w.now(k) - w.now(i) < required as real) ==> !Steady(w, required, k)
    ensures Steady(w, 0, k)
  {
    assert Unbroken(w, k, k);
    if Steady(w, required, k) {
      var j :| 0 <= j <= k && Unbroken(w, j, k) && w.now(k) - w.now(j) >= required as real;
      if j < i {
        assert Registered(w.statuses(i - 1));
      }
    }
  }

  lemma {:induction false} BrokenIsNotSteady(w: World, required: int, k: nat)
    requires !Registered(w.statuses(k))
    ensures !Steady(w, required, k)
  {
  }

  /** What the loop has found when it stops after `r.samples` samples. */
  ghost predicate Found(w: World, required: int, deadline: real, r: Result) {
    && (forall k | 0 <= k < r.samples :: Samples(w, deadline, k))
    && (forall k | 0 <= k < r.samples - 1 :: !Steady(w, required, k))
    && (match r.verdict
        case Stable => r.samples > 0 && Steady(w, required, r.samples - 1)
        case Cancelled => w.cancelled(r.samples) && (r.samples > 0 ==> !Steady(w, required, r.samples - 1))
        case NotRegistered =>
          && !w.cancelled(r.samples) && w.now(r.samples) >= deadline
          && (r.samples > 0 ==> !Steady(w, required, r.samples - 1)))
  }

  lemma {:induction false} FoundDecides(w: World, required: int, deadline: real, r: Result)
    requires Found(w, required, deadline, r)
    ensures r.verdict.Stable? <==> SteadyEventually(w, required, deadline)
  {
    if r.verdict.Stable? {
      assert SteadyInTime(w, required, deadline, r.samples - 1);
    } else {
      forall m: nat
        ensures !SteadyInTime(w, required, deadline, m)
      {
        if m < r.samples {
          assert !Steady(w, required, m);
        } else {
          assert !Samples(w, deadline, r.samples);
        }
      }
    }
  }

  /** The state of the loop after n samples, none of which was steady. */
  ghost predicate Waiting(w: World, required: int, deadline: real, n: nat) {
    forall k | 0 <= k < n :: Samples(w, deadline, k) && !Steady(w, required, k)
  }

  /** How long the paths have been registered without a break at the last of n samples. */
  ghost predicate Observed(w: World, n: nat, observed: real) {
    && (n == 0 || !Registered(w.statuses(n - 1)) ==> observed == 0.0)
    && (n > 0 && Registered(w.statuses(n - 1)) ==>
          exists since: nat :: Stretch(w, since, n) && observed == w.now(n - 1) - w.now(since))
  }

  /** One more sample that was not steady. */
  lemma {:induction false} WaitingMore(w: World, required: int, deadline: real, n: nat, o: real)
    requires Waiting(w, required, deadline, n) && Samples(w, deadline, n)
    ensures !Steady(w, required, n) ==> Waiting(w, required, deadline, n + 1)
    ensures Steady(w, required, n) ==> Found(w, required, deadline, Result(Stable, o, n + 1))
  {
  }

  lemma {:induction false} WaitingEnds(w: World, required: int, deadline: real, n: nat, o: real)
    requires Waiting(w, required, deadline, n)
    ensures w.cancelled(n) ==> Found(w, required, deadline, Result(Cancelled, o, n))
    ensures !w.cancelled(n) && w.now(n) >= deadline ==> Found(w, required, deadline, Result(NotRegistered, o, n))
  {
  }

  /** One registered or broken sample: the start of the current stretch and how long it has lasted. */
  method Sample(w: World, n: nat, stableSince0: Option<real>, ghost since0: nat)
    returns (stableSince: Option<real>, observed: real, ghost since: nat)
    requires stableSince0.Some? ==> Stretch(w, since0, n) && stableSince0.value == w.now(since0)
    requires stableSince0 == None && n > 0 ==> !Registered(w.statuses(n - 1))
    ensures stableSince.Some? <==> Registered(w.statuses(n))
    ensures stableSince.Some? ==>
              Stretch(w, since, n + 1) && stableSince.value == w.now(since) && observed == w.now(n) - w.now(since)
    ensures Observed(w, n + 1, observed)
  {
    since := since0;
    if Registered(w.statuses(n)) {
      if stableSince0 == None {
        since := n;
        stableSince := Some(w.now(n));
      } else {
        stableSince := stableSince0;
      }
      observed := w.now(n) - stableSince.value;
    } else {
      stableSince, observed := None, 0.0;
    }
  }

  /** A turn that is still in time: the intervals so far fit into the timeout, and one more brings the end closer. */
  lemma {:induction false} TurnInTime(w: World, start: real, deadline: real, poll: int, timeout: int, n: nat)
    requires Paced(w, start, deadline, poll) && poll >= 1 && deadline == start + timeout as real && w.now(n) < deadline
    ensures Intervals(n, poll) < timeout && Intervals(n + 1, poll) == Intervals(n, poll) + poll
  {
    TurnsTakeTime(w, start, deadline, poll, n);
  }

  /** The loop of the wait, once its parameters are in range. */
  method Poll(required: nat, timeout: nat, poll: nat, start: real, deadline: real, w: World) returns (r: Result)
    requires poll >= 1 && timeout >= 1 && deadline == start + timeout as real && Paced(w, start, deadline, poll)
    ensures Found(w, required, deadline, r)
    ensures r.samples > 0 ==> Intervals(r.samples - 1, poll) < timeout
    ensures Observed(w, r.samples, r.observed)
  {
    hide Found, Steady, Paced, Intervals, Samples;
    var stableSince: Option<real> := None;
    var observed := 0.0;
    var n: nat := 0;
    ghost var since: nat := 0;
    while true
      invariant Waiting(w, required, deadline, n) && Observed(w, n, observed)
      invariant stableSince.Some? ==> Stretch(w, since, n) && stableSince.value == w.now(since)
      invariant stableSince == None && n > 0 ==> !Registered(w.statuses(n - 1))
      invariant n > 0 ==> Intervals(n - 1, poll) < timeout
      decreases timeout + poll - Intervals(n, poll)
    {
      WaitingEnds(w, required, deadline, n, observed);
      if w.cancelled(n) {
        return Result(Cancelled, observed, n);
      }
      if w.now(n) >= deadline {
        return Result(NotRegistered, observed, n);
      }
      TurnInTime(w, start, deadline, poll, timeout, n);
      stableSince, observed, since := Sample(w, n, stableSince, since);
      WaitingMore(w, required, deadline, n, observed);
      n := n + 1;
      if stableSince.Some? {
        StretchDecides(w, start, deadline, poll, required, since, n);
        if observed >= required as real {
          return Result(Stable, observed, n);
        }
      } else {
        BrokenIsNotSteady(w, required, n - 1);
      }
    }
  }

  /**
   The verdict is `Stable`, at the earliest possible sample, if and only if the paths are steady at some sample
   taken before the deadline and before a cancellation; a timeout or a cancellation means no sample was. The
   number of samples is at most the timeout divided by the poll interval, rounded up, and the reported time is
   that of the last unbroken stretch.
   */
  method WaitForStablePaths(requiredSeconds: int, timeoutSeconds: int, pollSeconds: int, start: real, w: World)
    returns (r: Result)
    requires Paced(w, start, start + Max(1, timeoutSeconds) as real, Max(1, pollSeconds))
    ensures Found(w, Max(0, requiredSeconds), start + Max(1, timeoutSeconds) as real, r)
    ensures r.verdict.Stable? <==> SteadyEventually(w, Max(0, requiredSeconds), start + Max(1, timeoutSeconds) as real)
    ensures r.samples > 0 ==> (r.samples - 1) * Max(1, pollSeconds) < Max(1, timeoutSeconds)
    ensures Observed(w, r.samples, r.observed)
  {
    var required, timeout, poll := Max(0, requiredSeconds), Max(1, timeoutSeconds), Max(1, pollSeconds);
    var deadline := start + timeout as real;
    r := Poll(required, timeout, poll, start, deadline, w);
    if r.samples > 0 {
      IntervalsAre(r.samples - 1, poll);
    }
    FoundDecides(w, required, deadline, r);
  }
}
