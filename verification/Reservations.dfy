/**
 The test node's reservation table and the lease that the engine's renewal monitor keeps alive in it.
 One HTTP request or datagram is one atomic step. Times are seconds; a `runId` or `token` of "" is an absent one.
 */
module Reservations {
  import opened SetFacts

  datatype Reservation = Reservation(id: string, runId: string, created: real, ttl: int, token: string)

  type Table = map<string, Reservation>

  predicate Expired(r: Reservation, now: real) { now - r.created > r.ttl as real }

  predicate Matches(reserved: string, traffic: string) {
    reserved == "" || traffic == reserved || reserved + "-" <= traffic
  }

  /** What one request asks of the test node; ids and tokens of new reservations are supplied from outside. */
  datatype Request =
    | Get
    | Create(id: string, runId: string, ttl: int, token: string)
    | Renew(id: string, newTtl: Option<int>)
    | Release(id: string)
    | Traffic(runId: string, token: string)

  function Live(rs: Table, now: real): Table {
    map id | id in rs && !Expired(rs[id], now) :: rs[id]
  }

  function Renewed(r: Reservation, newTtl: Option<int>, now: real): Reservation {
    r.(created := now, ttl := if newTtl.Some? then newTtl.value else r.ttl)
  }

  /** The table after a request. */
  function After(rs: Table, rq: Request, now: real): Table {
    match rq
    case Get => Live(rs, now)
    case Create(id, runId, ttl, token) =>
      var live := Live(rs, now);
      if live != map[] then live else map[id := Reservation(id, runId, now, ttl, token)]
    case Renew(id, newTtl) =>
      var live := Live(rs, now);
      if id in live then live[id := Renewed(live[id], newTtl, now)] else live
    case Release(id) => rs - {id}
    case Traffic(_, _) => Live(rs, now)
  }

  /** Whether the request is granted. */
  predicate Granted(rs: Table, rq: Request, now: real) {
    match rq
    case Get => true
    case Create(_, _, _, _) => Live(rs, now) == map[]
    case Renew(id, _) => id in Live(rs, now)
    case Release(_) => true
    case Traffic(runId, token) =>
      token != "" && exists id | id in Live(rs, now) :: rs[id].token == token && Matches(rs[id].runId, runId)
  }

  /** The table never holds two reservations. */
  lemma {:induction false} AtMostOne(rs: Table, rq: Request, now: real)
    requires |rs| <= 1
    ensures |After(rs, rq, now)| <= 1
  {
    var live := Live(rs, now);
    SubsetSize(live.Keys, rs.Keys);
    match rq {
      case Release(id) => SubsetSize((rs - {id}).Keys, rs.Keys);
      case Renew(id, newTtl) =>
        if id in live {
          assert After(rs, rq, now).Keys == live.Keys;
          assert |After(rs, rq, now).Keys| == |live.Keys|;
        }
      case _ =>
    }
  }

  class TestNode {
    var reservations: Table

    ghost predicate Valid()
      reads this
    {
      |reservations| <= 1
    }

    constructor ()
      ensures Valid() && reservations == map[]
    {
      reservations := map[];
    }

    method Prune(now: real)
      modifies this
      ensures reservations == Live(old(reservations), now)
    {
      var expired := set id | id in reservations && Expired(reservations[id], now);
      while expired != {}
        invariant expired <= reservations.Keys
        invariant forall id | id in expired :: Expired(reservations[id], now)
        invariant forall id | id in reservations.Keys - expired :: !Expired(reservations[id], now)
        invariant Live(reservations, now) == Live(old(reservations), now)
        decreases |expired|
      {
        ghost var any := SomeElement(expired);
        var id :| id in expired;
        expired := expired - {id};
        reservations := reservations - {id};
      }
      assert reservations.Keys - expired == reservations.Keys;
    }

    method CreateReservation(id: string, runId: string, ttl: int, token: string, now: real) returns (granted: bool)
      requires Valid()
      modifies this
      ensures Valid()
      ensures granted == Granted(old(reservations), Create(id, runId, ttl, token), now)
      ensures reservations == After(old(reservations), Create(id, runId, ttl, token), now)
    {
      AtMostOne(reservations, Create(id, runId, ttl, token), now);
      Prune(now);
      if reservations != map[] {
        return false;
      }
      reservations := reservations[id := Reservation(id, runId, now, ttl, token)];
      return true;
    }

    method RenewReservation(id: string, newTtl: Option<int>, now: real) returns (granted: bool)
      requires Valid()
      modifies this
      ensures Valid()
      ensures granted == Granted(old(reservations), Renew(id, newTtl), now)
      ensures reservations == After(old(reservations), Renew(id, newTtl), now)
    {
      AtMostOne(reservations, Renew(id, newTtl), now);
      Prune(now);
      if id !in reservations {
        return false;
      }
      var reservation := reservations[id];
      reservation := reservation.(created := now);
      if newTtl.Some? {
        reservation := reservation.(ttl := newTtl.value);
      }
      reservations := reservations[id := reservation];
      return true;
    }

    method ReleaseReservation(id: string)
      requires Valid()
      modifies this
      ensures Valid()
      ensures forall now :: reservations == After(old(reservations), Release(id), now)
    {
      AtMostOne(reservations, Release(id), 0.0);
      reservations := reservations - {id};
    }

    /** Whether traffic under a token may be counted for a run. */
    method Authorize(runId: string, token: string, now: real) returns (ok: bool)
      requires Valid()
      modifies this
      ensures Valid()
      ensures ok == Granted(old(reservations), Traffic(runId, token), now)
      ensures reservations == After(old(reservations), Traffic(runId, token), now)
    {
      AtMostOne(reservations, Traffic(runId, token), now);
      Prune(now);
      if token == "" {
        return false;
      }
      var todo := reservations.Keys;
      while todo != {}
        invariant reservations == Live(old(reservations), now)
        invariant todo <= reservations.Keys
        invariant forall id | id in reservations.Keys - todo :: reservations[id].token != token
        decreases |todo|
      {
        ghost var any := SomeElement(todo);
        var id :| id in todo;
        todo := todo - {id};
        if reservations[id].token == token {
          SubsetSize({id}, reservations.Keys);
          return Matches(reservations[id].runId, runId);
        }
      }
      return false;
    }
  }

  // ----- The lease -----

  /** The engine's lease length for a plan of the estimated duration. */
  function LeaseSeconds(estimate: int): int { Max(600, estimate + 300) }

  /** The renewal monitor's waiting time. */
  function RenewInterval(ttl: int): real {
    var third := ttl as real / 3.0;
    var capped := if third < 300.0 then third else 300.0;
    if capped > 1.0 then capped else 1.0
  }

  /**
   A lease lasts at least ten minutes, and five longer than the plan is estimated to take; the monitor renews it three
   times within its length, but at least every five minutes and at most once a second.
   */
  lemma {:induction false} LeaseNumbers(estimate: int)
    ensures var ttl := LeaseSeconds(estimate);
            ttl >= 600 && ttl >= estimate + 300 && (ttl == 600 || ttl == estimate + 300)
    ensures forall ttl: int ::
              && 1.0 <= RenewInterval(ttl) <= 300.0
              && (3 <= ttl <= 900 ==> RenewInterval(ttl) * 3.0 == ttl as real)
              && (ttl >= 900 ==> RenewInterval(ttl) == 300.0) && (ttl <= 3 ==> RenewInterval(ttl) == 1.0)
  {
  }

  /** A reservation call of the holder: sent, handled by the test node, answered. */
  datatype Call = Call(start: real, served: real, end: real)

  /** No call takes longer than `d`, and the next one starts at most `gap` after the last one ended. */
  predicate Timely(calls: seq<Call>, d: real, gap: real) {
    && (forall k | 0 <= k < |calls| :: calls[k].start <= calls[k].served <= calls[k].end <= calls[k].start + d)
    && (forall k | 0 < k < |calls| :: calls[k].start <= calls[k - 1].end + gap)
  }

  datatype Timed = Timed(at: real, rq: Request)

  predicate InOrder(trace: seq<Timed>) {
    forall i, j | 0 <= i <= j < |trace| :: trace[i].at <= trace[j].at
  }

  predicate Unreleased(trace: seq<Timed>, id: string) {
    forall i | 0 <= i < |trace| :: trace[i].rq != Release(id)
  }

  /** Whoever changes the length of the reservation leaves it at least this long. */
  predicate Sufficient(trace: seq<Timed>, id: string, least: real) {
    forall i | 0 <= i < |trace| && trace[i].rq.Renew? && trace[i].rq.id == id && trace[i].rq.newTtl.Some? ::
      trace[i].rq.newTtl.value as real >= least
  }

  /** The moments at which the holder's renewals reach the test node. */
  function RenewTimes(trace: seq<Timed>, id: string): seq<real> {
    if trace == [] then []
    else (if trace[0].rq == Renew(id, None) then [trace[0].at] else []) + RenewTimes(trace[1..], id)
  }

  predicate ServedAt(calls: seq<Call>, times: seq<real>) {
    |calls| == |times| && forall k | 0 <= k < |calls| :: calls[k].served == times[k]
  }

  /**
   What the holder is promised from a table on: no reservation is granted to anyone else, every renewal of the
   holder succeeds, and traffic is accepted just when it carries the holder's token and its run id matches.
   */
  predicate Held(rs: Table, trace: seq<Timed>, id: string, runId: string, token: string)
    decreases |trace|
  {
    trace == [] || (
      var now, rq := trace[0].at, trace[0].rq;
      && (rq.Create? ==> !Granted(rs, rq, now))
      && (rq == Renew(id, None) ==> Granted(rs, rq, now))
      && (rq.Traffic? ==> (Granted(rs, rq, now) <==> rq.token != "" && rq.token == token && Matches(runId, rq.runId)))
      && After(rs, rq, now).Keys == {id}
      && Held(After(rs, rq, now), trace[1..], id, runId, token))
  }

  lemma {:induction false} NextRenewalIsLater(trace: seq<Timed>, id: string)
    requires InOrder(trace) && trace != [] && RenewTimes(trace, id) != []
    ensures trace[0].at <= RenewTimes(trace, id)[0]
  {
    if trace[0].rq != Renew(id, None) {
      assert trace[1].at >= trace[0].at;
      NextRenewalIsLater(trace[1..], id);
    }
  }

  lemma {:induction false} StillLive(rs: Table, id: string, rq: Request, now: real)
    requires rs.Keys == {id} && now - rs[id].created <= rs[id].ttl as real && rq != Release(id)
    ensures Live(rs, now) == rs
    ensures After(rs, rq, now) == if rq.Renew? && rq.id == id then map[id := Renewed(rs[id], rq.newTtl, now)] else rs
  {
    assert Live(rs, now) == rs;
    if rq.Release? {
      assert rs - {rq.id} == rs;
    }
  }

  /** The renewals still to come once the head of the trace has been handled. */
  lemma {:induction false} RenewalsLeft(trace: seq<Timed>, id: string, calls: seq<Call>)
    requires trace != [] && calls != [] && ServedAt(calls[1..], RenewTimes(trace, id))
    ensures trace[0].rq == Renew(id, None) ==>
              |calls| > 1 && calls[1].served == trace[0].at && ServedAt(calls[1..][1..], RenewTimes(trace[1..], id))
    ensures trace[0].rq != Renew(id, None) ==> ServedAt(calls[1..], RenewTimes(trace[1..], id))
  {
    if trace[0].rq == Renew(id, None) {
      assert RenewTimes(trace, id)[0] == trace[0].at && RenewTimes(trace, id)[1..] == RenewTimes(trace[1..], id);
      assert calls[1..][0] == calls[1];
      assert forall k | 0 <= k < |calls| - 2 :: calls[1..][1..][k] == calls[1..][k + 1];
    } else {
      assert RenewTimes(trace, id) == RenewTimes(trace[1..], id);
    }
  }

  /** The reservation has not expired when the head of the trace is handled. */
  lemma {:induction false} LiveAtHead(
    r: Reservation, trace: seq<Timed>, id: string, calls: seq<Call>, d: real, gap: real)
    requires trace != [] && calls != [] && r.created >= calls[0].served && gap + d + d <= r.ttl as real
    requires Timely(calls, d, gap) && InOrder(trace) && ServedAt(calls[1..], RenewTimes(trace, id))
    requires trace[0].at <= calls[|calls| - 1].end + gap + d
    ensures trace[0].at - r.created <= r.ttl as real
  {
    if |calls| > 1 {
      NextRenewalIsLater(trace, id);
      assert calls[1..][0] == calls[1];
    }
  }

  /** A reservation that its holder renews in time, as the requests to come are handled. */
  ghost predicate Tended(rs: Table, trace: seq<Timed>, id: string, calls: seq<Call>, d: real, gap: real) {
    && rs.Keys == {id} && calls != [] && rs[id].created >= calls[0].served
    && Timely(calls, d, gap) && d >= 0.0 && gap >= 0.0 && gap + d + d <= rs[id].ttl as real
    && InOrder(trace) && (trace != [] ==> calls[0].served <= trace[0].at) && Sufficient(trace, id, gap + d + d)
    && ServedAt(calls[1..], RenewTimes(trace, id))
    && forall i | 0 <= i < |trace| :: trace[i].at <= calls[|calls| - 1].end + gap + d
  }

  lemma {:induction false} TraceRest(trace: seq<Timed>, id: string, least: real)
    requires trace != [] && InOrder(trace) && Sufficient(trace, id, least)
    ensures InOrder(trace[1..]) && Sufficient(trace[1..], id, least)
    ensures |trace| > 1 ==> trace[0].at <= trace[1].at
    ensures trace[0].rq.Renew? && trace[0].rq.id == id && trace[0].rq.newTtl.Some? ==>
              trace[0].rq.newTtl.value as real >= least
  {
    assert forall i | 0 <= i < |trace| - 1 :: trace[1..][i] == trace[i + 1];
  }

  lemma {:induction false} TimelyRest(calls: seq<Call>, d: real, gap: real)
    requires Timely(calls, d, gap) && calls != []
    ensures Timely(calls[1..], d, gap)
  {
    assert forall k | 0 <= k < |calls| - 1 :: calls[1..][k] == calls[k + 1];
  }

  /** It still is after the next request, unless that releases it. */
  lemma {:induction false} TendedStep(rs: Table, trace: seq<Timed>, id: string, calls: seq<Call>, d: real, gap: real)
    requires Tended(rs, trace, id, calls, d, gap) && trace != [] && trace[0].rq != Release(id)
    ensures var now, rq := trace[0].at, trace[0].rq;
            && Live(rs, now) == rs && After(rs, rq, now).Keys == {id}
            && After(rs, rq, now)[id].runId == rs[id].runId && After(rs, rq, now)[id].token == rs[id].token
            && Tended(After(rs, rq, now), trace[1..], id,
                      if rq == Renew(id, None) then calls[1..] else calls, d, gap)
  {
    hide RenewTimes, ServedAt, Timely, InOrder, Sufficient, Live, After;
    LiveAtHead(rs[id], trace, id, calls, d, gap);
    StillLive(rs, id, trace[0].rq, trace[0].at);
    RenewalsLeft(trace, id, calls);
    TraceRest(trace, id, gap + d + d);
    if trace[0].rq == Renew(id, None) {
      TimelyRest(calls, d, gap);
    }
  }

  lemma {:induction false} HeldStep(rs: Table, trace: seq<Timed>, id: string)
    requires rs.Keys == {id} && trace != [] && (trace[0].rq != Release(id) ==> Live(rs, trace[0].at) == rs)
    ensures trace[0].rq == Release(id) ==> !Held(rs, trace, id, rs[id].runId, rs[id].token)
    ensures var t := After(rs, trace[0].rq, trace[0].at);
            trace[0].rq != Release(id) && t.Keys == {id} ==>
              (Held(rs, trace, id, rs[id].runId, rs[id].token) <==>
               Held(t, trace[1..], id, rs[id].runId, rs[id].token))
  {
  }

  lemma {:induction false} UnreleasedRest(trace: seq<Timed>, id: string)
    requires trace != []
    ensures Unreleased(trace, id) <==> trace[0].rq != Release(id) && Unreleased(trace[1..], id)
  {
    if Unreleased(trace[1..], id) {
      assert forall i | 0 < i < |trace| :: trace[i] == trace[1..][i - 1];
    }
  }

  lemma {:induction false} TendedIsHeld(rs: Table, trace: seq<Timed>, id: string, calls: seq<Call>, d: real, gap: real)
    requires Tended(rs, trace, id, calls, d, gap)
    ensures id in rs && (Held(rs, trace, id, rs[id].runId, rs[id].token) <==> Unreleased(trace, id))
    decreases |trace|
  {
    hide Timely, InOrder, Sufficient, ServedAt, RenewTimes, After, Live;
    if trace != [] {
      UnreleasedRest(trace, id);
      if trace[0].rq != Release(id) {
        TendedStep(rs, trace, id, calls, d, gap);
        var now, rq := trace[0].at, trace[0].rq;
        TendedIsHeld(After(rs, rq, now), trace[1..], id,
                     if rq == Renew(id, None) then calls[1..] else calls, d, gap);
      }
      HeldStep(rs, trace, id);
    }
  }

  /**
   The lease theorem. If consecutive reservation calls of the holder are so timely that `gap + 2 d` fits in the
   lease, and whoever changes the lease leaves it that long, then up to the moment the next renewal would have been
   served, whatever others ask in between, the reservation is held if and only if nobody releases it.
   */
  lemma {:induction false} LeaseIsHeld(rs: Table, trace: seq<Timed>, id: string, calls: seq<Call>, d: real, gap: real)
    requires rs.Keys == {id} && calls != [] && rs[id].created >= calls[0].served
    requires Timely(calls, d, gap) && d >= 0.0 && gap >= 0.0 && gap + d + d <= rs[id].ttl as real
    requires InOrder(trace) && (trace != [] ==> calls[0].served <= trace[0].at) && Sufficient(trace, id, gap + d + d)
    requires ServedAt(calls[1..], RenewTimes(trace, id))
    requires forall i | 0 <= i < |trace| :: trace[i].at <= calls[|calls| - 1].end + gap + d
    ensures Held(rs, trace, id, rs[id].runId, rs[id].token) <==> Unreleased(trace, id)
  {
    TendedIsHeld(rs, trace, id, calls, d, gap);
  }

  /** The bound is sharp: with `gap + 2 d` longer than the lease, timely calls can still lose it to someone else. */
  lemma {:induction false} LateLeaseCanBeLost(ttl: int, d: real, gap: real)
    returns (rs: Table, calls: seq<Call>, trace: seq<Timed>)
    requires d >= 0.0 && gap >= 0.0 && gap + d + d > ttl as real
    ensures rs.Keys == {"mine"} && calls != [] && rs["mine"].created == calls[0].served && rs["mine"].ttl == ttl
    ensures Timely(calls, d, gap) && InOrder(trace) && trace != [] && calls[0].served <= trace[0].at
    ensures Unreleased(trace, "mine") && Sufficient(trace, "mine", gap + d + d)
    ensures ServedAt(calls[1..], RenewTimes(trace, "mine"))
    ensures forall i | 0 <= i < |trace| :: trace[i].at <= calls[|calls| - 1].end + gap + d
    ensures !Held(rs, trace, "mine", rs["mine"].runId, rs["mine"].token)
  {
    var late := d + gap + d;
    rs := map["mine" := Reservation("mine", "run", 0.0, ttl, "token")];
    calls := [Call(0.0, 0.0, d), Call(d + gap, late, late)];
    var other, renewal := Timed(late, Create("theirs", "run", ttl, "other")), Timed(late, Renew("mine", None));
    trace := [other, renewal];
    assert Expired(rs["mine"], late) && Live(rs, late) == map[];
    assert trace[1..] == [renewal] && [renewal][1..] == [];
    assert RenewTimes([renewal], "mine") == [late];
    assert RenewTimes(trace, "mine") == [] + [late];
  }

  /**
   With the engine's own numbers: a plan of any length, the monitor's interval, waits that last at most `late` longer
   than that, and no call slower than a third of the lease less half of `late`.
   */
  lemma {:induction false} EngineLeaseIsHeld(
    rs: Table, trace: seq<Timed>, id: string, calls: seq<Call>, estimate: int, d: real, late: real)
    requires rs.Keys == {id} && calls != [] && rs[id].created == calls[0].served
    requires rs[id].ttl == LeaseSeconds(estimate)
    requires late >= 0.0 && 0.0 <= d <= rs[id].ttl as real / 3.0 - late / 2.0
    requires Timely(calls, d, RenewInterval(rs[id].ttl) + late)
    requires InOrder(trace) && (trace != [] ==> calls[0].served <= trace[0].at)
    requires Sufficient(trace, id, RenewInterval(rs[id].ttl) + late + d + d)
    requires ServedAt(calls[1..], RenewTimes(trace, id))
    requires forall i | 0 <= i < |trace| :: trace[i].at <= calls[|calls| - 1].end + RenewInterval(rs[id].ttl) + late
    ensures Held(rs, trace, id, rs[id].runId, rs[id].token) <==> Unreleased(trace, id)
  {
    LeaseIsHeld(rs, trace, id, calls, d, RenewInterval(rs[id].ttl) + late);
  }

  // ----- From the reservation to the traffic -----

  /** The run of some traffic belongs to a reservation: any at all if that names none, else its own or a part of it. */
  lemma {:induction false} MatchesIff(reserved: string, traffic: string)
    ensures Matches(reserved, traffic) <==>
              reserved == "" || traffic == reserved || exists part :: traffic == reserved + "-" + part
  {
    if reserved + "-" <= traffic {
      assert traffic == reserved + "-" + traffic[|reserved| + 1..];
    }
  }

  /** The table before request i. */
  function TableAt(rs: Table, trace: seq<Timed>, i: nat): Table
    requires i <= |trace|
  {
    if i == 0 then rs else After(TableAt(rs, trace, i - 1), trace[i - 1].rq, trace[i - 1].at)
  }

  lemma {:induction false} TableLater(rs: Table, trace: seq<Timed>, i: nat)
    requires 0 < i <= |trace|
    ensures TableAt(rs, trace, i) == TableAt(After(rs, trace[0].rq, trace[0].at), trace[1..], i - 1)
  {
    if i > 1 {
      hide After;
      TableLater(rs, trace, i - 1);
    }
  }

  lemma {:induction false} HeldAt(rs: Table, trace: seq<Timed>, id: string, runId: string, token: string, i: nat)
    requires Held(rs, trace, id, runId, token) && i < |trace|
    ensures var now, rq := trace[i].at, trace[i].rq;
            && (rq.Create? ==> !Granted(TableAt(rs, trace, i), rq, now))
            && (rq == Renew(id, None) ==> Granted(TableAt(rs, trace, i), rq, now))
            && (rq.Traffic? ==>
                  (Granted(TableAt(rs, trace, i), rq, now) <==>
                   rq.token != "" && rq.token == token && Matches(runId, rq.runId)))
    decreases i
  {
    hide After, Granted, Matches;
    if i > 0 {
      TableLater(rs, trace, i);
      HeldAt(After(rs, trace[0].rq, trace[0].at), trace[1..], id, runId, token, i - 1);
    }
  }

  lemma {:induction false} CreatedIs(rs: Table, id: string, runId: string, ttl: int, token: string, now: real)
    requires Granted(rs, Create(id, runId, ttl, token), now)
    ensures var t := After(rs, Create(id, runId, ttl, token), now);
            && t.Keys == {id} && t[id].id == id && t[id].runId == runId && t[id].token == token
            && t[id].ttl == ttl && t[id].created == now
  {
  }

  /** The length of the reservation that a granted request leaves: the one asked for, or else the one it had. */
  function LengthAfter(rs: Table, rq: Request): int
    requires rq.Create? || (rq.Renew? && rq.id in rs)
  {
    if rq.Create? then rq.ttl else if rq.newTtl.Some? then rq.newTtl.value else rs[rq.id].ttl
  }

  /**
   A reservation that was granted or renewed lasts just so long from then on: until that time is over it can be renewed
   and no other one is granted, and afterwards it is the other way round.
   */
  lemma {:induction false} GrantLasts(rs: Table, rq: Request, now: real, later: real, other: Request)
    requires |rs| <= 1 && (rq.Create? || rq.Renew?) && Granted(rs, rq, now) && other.Create?
    ensures rq.Renew? ==> rq.id in rs
    ensures var t := After(rs, rq, now);
            && (Granted(t, Renew(rq.id, None), later) <==> later - now <= LengthAfter(rs, rq) as real)
            && (Granted(t, other, later) <==> later - now > LengthAfter(rs, rq) as real)
  {
    AtMostOne(rs, rq, now);
    var t := After(rs, rq, now);
    assert rq.id in t;
    SubsetSize({rq.id}, t.Keys);
    assert |t.Keys| == |t|;
    assert t.Keys == {rq.id};
    if later - now <= LengthAfter(rs, rq) as real {
      assert rq.id in Live(t, later);
    } else {
      assert Live(t, later) == map[];
    }
  }

  /**
   A reservation that was granted serves its holder: as long as it is renewed in time and nobody releases it, whatever
   else is asked, no other one is granted, its renewals are, and traffic is accepted exactly if it carries the token
   that was supplied for it and names the run it was made for, or a part of that run.
   */
  lemma {:induction false} CreatedIsServed(
    rs: Table, id: string, runId: string, ttl: int, token: string, trace: seq<Timed>, calls: seq<Call>, d: real,
    gap: real, i: nat)
    requires calls != [] && Granted(rs, Create(id, runId, ttl, token), calls[0].served)
    requires Timely(calls, d, gap) && d >= 0.0 && gap >= 0.0 && gap + d + d <= ttl as real
    requires InOrder(trace) && i < |trace| && calls[0].served <= trace[0].at && Sufficient(trace, id, gap + d + d)
    requires ServedAt(calls[1..], RenewTimes(trace, id)) && Unreleased(trace, id)
    requires forall j | 0 <= j < |trace| :: trace[j].at <= calls[|calls| - 1].end + gap + d
    ensures var start := After(rs, Create(id, runId, ttl, token), calls[0].served);
            var now, rq, t := trace[i].at, trace[i].rq, TableAt(start, trace, i);
            && (rq.Create? ==> !Granted(t, rq, now)) && (rq == Renew(id, None) ==> Granted(t, rq, now))
            && (rq.Traffic? ==>
                  (Granted(t, rq, now) <==>
                   && rq.token != "" && rq.token == token
                   && (runId == "" || rq.runId == runId || exists part :: rq.runId == runId + "-" + part)))
  {
    var start := After(rs, Create(id, runId, ttl, token), calls[0].served);
    CreatedIs(rs, id, runId, ttl, token, calls[0].served);
    hide After, Granted, Matches, Held, Timely, InOrder, Sufficient, ServedAt, RenewTimes, TableAt;
    LeaseIsHeld(start, trace, id, calls, d, gap);
    HeldAt(start, trace, id, runId, token, i);
    if trace[i].rq.Traffic? {
      MatchesIff(runId, trace[i].rq.runId);
    }
  }

  /** How long the monitor waited, and how the renewal call went: handled when, ended when, and with what success. */
  datatype Reply = Reply(waited: real, handled: real, took: real, ok: bool)

  /** The controller's renewal thread. `replies(k)` is how the network answers the k-th renewal. */
  class RenewalMonitor {
    const interval: real
    var history: seq<bool>
    var failed: bool

    constructor (ttl: int)
      ensures interval == RenewInterval(ttl) && history == [] && !failed
    {
      interval := RenewInterval(ttl);
      history, failed := [], false;
    }

    /**
     Renew until stopped after `rounds` waits, or until a renewal fails: then the failure is flagged, and no
     further call is made. A wait lasts the interval or up to `late` longer; the calls are as timely as the lease
     theorem asks.
     */
    method Run(created: Call, rounds: nat, replies: nat -> Reply, ghost d: real, ghost late: real)
      returns (calls: seq<Call>)
      requires history == [] && !failed
      requires created.start <= created.served <= created.end <= created.start + d
      requires late >= 0.0
      requires forall k ::
        0.0 <= replies(k).handled <= replies(k).took <= d && interval <= replies(k).waited <= interval + late
      modifies this
      ensures Timely(calls, d, interval + late) && calls != [] && calls[0] == created
      ensures |calls| == |history| + 1 && |history| <= rounds
      ensures forall k | 0 <= k < |history| :: history[k] == replies(k).ok
      ensures forall k | 0 <= k < |history| - 1 :: history[k]
      ensures failed <==> exists k | 0 <= k < |history| :: !history[k]
      ensures !failed ==> |history| == rounds
    {
      calls := [created];
      while |history| < rounds
        invariant |calls| == |history| + 1 && |history| <= rounds && calls[0] == created
        invariant Timely(calls, d, interval + late)
        invariant forall k | 0 <= k < |history| :: history[k] && history[k] == replies(k).ok
        invariant !failed
      {
        var reply := replies(|history|);
        var start := calls[|calls| - 1].end + reply.waited;
        calls := calls + [Call(start, start + reply.handled, start + reply.took)];
        history := history + [reply.ok];
        if !reply.ok {
          failed := true;
          assert !history[|history| - 1];
          return;
        }
      }
    }
  }
}
