/**
 The UDP sequence receiver of the test node: one record per run and source, with streaming totals and, beside
 them, an account per second. `Step` says what one datagram does to the two; the lemmas say what they mean for
 the history of arrivals.
 */
module UdpReceiver {
  import opened SetFacts

  /** A datagram: its sequence number, if the header carries one, its size, and the clock at its arrival. */
  datatype Arrival = Arrival(number: Option<int>, size: nat, nowNs: int)

  datatype Totals = Totals(
    bytes: nat, datagrams: nat, unique: nat, duplicates: nat, outOfOrder: nat, missing: nat,
    first: Option<int>, last: Option<int>, greatest: Option<int>, seen: set<int>)

  datatype Bucket = Bucket(offset: nat, bytes: nat, datagrams: nat, unique: nat, duplicates: nat, outOfOrder: nat)

  datatype Timeline = Timeline(start: int, buckets: seq<Bucket>, seen: map<nat, set<int>>)

  datatype Record = Record(t: Totals, tl: Timeline)

  const NO_TOTALS := Totals(0, 0, 0, 0, 0, 0, None, None, None, {})

  const SECOND := 1_000_000_000

  /** Python's `x or y` for an optional number: zero counts as absent. */
  function OrElse(x: Option<int>, y: int): int { if x == None || x.value == 0 then y else x.value }

  predicate IsDuplicate(t: Totals, a: Arrival) { a.number.Some? && a.number.value in t.seen }

  predicate Descends(last: Option<int>, number: int) { last.Some? && number < last.value }

  /** A sequence number not seen before. */
  function AddNumber(t: Totals, x: int): Totals {
    var first := if t.first == None then x else t.first.value;
    var greatest := Max(OrElse(t.greatest, x), x);
    t.(unique := t.unique + 1, seen := t.seen + {x}, first := Some(first), last := Some(x),
    outOfOrder := t.outOfOrder + (if Descends(t.last, x) then 1 else 0), greatest := Some(greatest),
    missing := Max(0, OrElse(Some(greatest), x) - first + 1 - (t.unique + 1)))
  }

  /** The record's totals after one datagram. */
  function Count(t: Totals, a: Arrival): Totals {
    var u := t.(bytes := t.bytes + a.size, datagrams := t.datagrams + 1);
    if a.number == None then u.(unique := t.unique + 1)
    else if a.number.value in t.seen then u.(duplicates := t.duplicates + 1)
    else AddNumber(u, a.number.value)
  }

  function EmptyBucket(offset: nat): Bucket { Bucket(offset, 0, 0, 0, 0, 0) }

  /** Append empty buckets until number n exists. */
  function Padded(buckets: seq<Bucket>, n: nat): (r: seq<Bucket>)
    ensures |r| == Max(|buckets|, n + 1) && buckets == r[..|buckets|]
    ensures forall i | |buckets| <= i < |r| :: r[i] == EmptyBucket(i)
    ensures |buckets| > n ==> r == buckets
    decreases n + 1 - |buckets|
  {
    if |buckets| > n then buckets else Padded(buckets + [EmptyBucket(|buckets|)], n)
  }

  function SecondOf(start: int, nowNs: int): nat { Max(0, nowNs - start) / SECOND }

  function Tick(b: Bucket, a: Arrival, duplicate: bool, late: bool): Bucket {
    Bucket(b.offset, b.bytes + a.size, b.datagrams + 1,
           b.unique + (if duplicate then 0 else 1), b.duplicates + (if duplicate then 1 else 0),
           b.outOfOrder + (if late then 1 else 0))
  }

  function Log(tl: Timeline, a: Arrival, duplicate: bool, last: Option<int>): Timeline {
    var start := if tl.start == 0 then a.nowNs else tl.start;
    var i := SecondOf(start, a.nowNs);
    var buckets := Padded(tl.buckets, i);
    if a.number == None then tl.(buckets := buckets[i := Tick(buckets[i], a, false, false)])
    else
      var x := a.number.value;
      var seen := if i in tl.seen then tl.seen[i] else {};
      var again := duplicate || x in seen;
      Timeline(tl.start, buckets[i := Tick(buckets[i], a, again, Descends(last, x))],
               tl.seen[i := if again then seen else seen + {x}])
  }

  function Step(r: Record, a: Arrival): Record {
    Record(Count(r.t, a), Log(r.tl, a, IsDuplicate(r.t, a), r.t.last))
  }

  class UdpRecord {
    var bytesReceived: nat
    var datagramsReceived: nat
    var uniqueDatagrams: nat
    var duplicates: nat
    var outOfOrder: nat
    var missingDatagrams: nat
    var firstSequence: Option<int>
    var lastSequence: Option<int>
    var maxSequence: Option<int>
    var seenSequences: set<int>
    var startEpochNs: int
    var intervals: seq<Bucket>
    var bucketSeen: map<nat, set<int>>

    ghost function Counters(): Totals
      reads `bytesReceived, `datagramsReceived, `uniqueDatagrams, `duplicates, `outOfOrder, `missingDatagrams,
        `firstSequence, `lastSequence, `maxSequence, `seenSequences
    {
      Totals(bytesReceived, datagramsReceived, uniqueDatagrams, duplicates, outOfOrder, missingDatagrams,
                    firstSequence, lastSequence, maxSequence, seenSequences)
    }

    ghost function Seconds(): Timeline
      reads `startEpochNs, `intervals, `bucketSeen
    {
      Timeline(startEpochNs, intervals, bucketSeen)
    }

    constructor (nowNs: int)
      ensures Counters() == NO_TOTALS && Seconds() == Timeline(nowNs, [], map[])
    {
      bytesReceived, datagramsReceived, uniqueDatagrams, duplicates, outOfOrder, missingDatagrams := 0, 0, 0, 0, 0, 0;
      firstSequence, lastSequence, maxSequence, seenSequences := None, None, None, {};
      startEpochNs, intervals, bucketSeen := nowNs, [], map[];
    }

    /** The record's own counters. */
    method CountDatagram(a: Arrival) returns (duplicate: bool)
      modifies this
      ensures Counters() == Count(old(Counters()), a) && Seconds() == old(Seconds())
      ensures duplicate == IsDuplicate(old(Counters()), a)
    {
      bytesReceived := bytesReceived + a.size;
      datagramsReceived := datagramsReceived + 1;
      duplicate := false;
      if a.number == None {
        uniqueDatagrams := uniqueDatagrams + 1;
        return;
      }
      var sequence := a.number.value;
      if sequence in seenSequences {
        duplicates := duplicates + 1;
        return true;
      }
      AddSequence(sequence);
    }

    method AddSequence(sequence: int)
      modifies `uniqueDatagrams, `outOfOrder, `missingDatagrams, `firstSequence, `lastSequence, `maxSequence,
        `seenSequences
      ensures Counters() == AddNumber(old(Counters()), sequence)
    {
      seenSequences := seenSequences + {sequence};
      uniqueDatagrams := uniqueDatagrams + 1;
      if firstSequence == None {
        firstSequence := Some(sequence);
      }
      if lastSequence.Some? && sequence < lastSequence.value {
        outOfOrder := outOfOrder + 1;
      }
      lastSequence := Some(sequence);
      maxSequence := Some(Max(OrElse(maxSequence, sequence), sequence));
      missingDatagrams := Max(0, OrElse(maxSequence, sequence) - OrElse(firstSequence, 0) + 1 - uniqueDatagrams);
    }

    method ExtendTo(index: nat)
      modifies this`intervals
      ensures intervals == Padded(old(intervals), index)
    {
      while |intervals| <= index
        invariant Padded(intervals, index) == Padded(old(intervals), index)
        decreases index + 1 - |intervals|
      {
        intervals := intervals + [EmptyBucket(|intervals|)];
      }
    }

    /** The bucket of the current second. */
    method LogDatagram(a: Arrival, duplicate: bool, previous: Option<int>)
      modifies `intervals, `bucketSeen
      ensures Seconds() == Log(old(Seconds()), a, duplicate, previous)
    {
      hide Padded, SecondOf;
      var started := if startEpochNs == 0 then a.nowNs else startEpochNs;
      var index := SecondOf(started, a.nowNs);
      ExtendTo(index);
      var bucket := intervals[index];
      bucket := bucket.(bytes := bucket.bytes + a.size, datagrams := bucket.datagrams + 1);
      if a.number == None {
        bucket := bucket.(unique := bucket.unique + 1);
      } else {
        var sequence := a.number.value;
        var seen := if index in bucketSeen then bucketSeen[index] else {};
        if duplicate || sequence in seen {
          bucket := bucket.(duplicates := bucket.duplicates + 1);
        } else {
          seen := seen + {sequence};
          bucket := bucket.(unique := bucket.unique + 1);
        }
        bucketSeen := bucketSeen[index := seen];
        if previous.Some? && sequence < previous.value {
          bucket := bucket.(outOfOrder := bucket.outOfOrder + 1);
        }
      }
      intervals := intervals[index := bucket];
    }

    method RecordDatagram(a: Arrival)
      modifies this
      ensures Record(Counters(), Seconds()) == Step(old(Record(Counters(), Seconds())), a)
    {
      var previous := lastSequence;
      var duplicate := CountDatagram(a);
      LogDatagram(a, duplicate, previous);
    }
  }

  // ----- The history of arrivals -----

  function Run(start: int, h: seq<Arrival>): Record {
    if h == [] then Record(NO_TOTALS, Timeline(start, [], map[])) else Step(Run(start, h[..|h| - 1]), h[|h| - 1])
  }

  function Numbers(h: seq<Arrival>): set<int> { set i | 0 <= i < |h| && h[i].number.Some? :: h[i].number.value }

  /** The arrivals with a new sequence number, in order. */
  function Fresh(h: seq<Arrival>): seq<int> {
    if h == [] then []
    else
      var front, a := h[..|h| - 1], h[|h| - 1];
      Fresh(front) + if a.number.Some? && a.number.value !in Numbers(front) then [a.number.value] else []
  }

  function Total(f: Arrival -> nat, h: seq<Arrival>): nat {
    if h == [] then 0 else Total(f, h[..|h| - 1]) + f(h[|h| - 1])
  }

  function SizeOf(a: Arrival): nat { a.size }

  function NumberMissing(a: Arrival): nat { if a.number == None then 1 else 0 }

  function LastOf(s: seq<int>): Option<int> { if s == [] then None else Some(s[|s| - 1]) }

  function FirstOf(s: seq<int>): Option<int> { if s == [] then None else Some(s[0]) }

  /** How often a sequence steps down. */
  function Descents(s: seq<int>): nat {
    if |s| <= 1 then 0 else Descents(s[..|s| - 1]) + if s[|s| - 1] < s[|s| - 2] then 1 else 0
  }

  /** What the totals say about the history, whatever numbers arrived. */
  predicate Tells(t: Totals, h: seq<Arrival>) {
    && t.seen == Numbers(h) && |Fresh(h)| == |Numbers(h)|
    && t.unique == |Numbers(h)| + Total(NumberMissing, h) && t.unique + t.duplicates == |h| == t.datagrams
    && t.bytes == Total(SizeOf, h)
    && t.outOfOrder == Descents(Fresh(h))
    && t.first == FirstOf(Fresh(h)) && t.last == LastOf(Fresh(h))
  }

  lemma {:induction false} NumbersSnoc(h: seq<Arrival>, a: Arrival)
    ensures (h + [a])[..|h|] == h
    ensures Numbers(h + [a]) == Numbers(h) + if a.number.Some? then {a.number.value} else {}
  {
    var g := h + [a];
    assert g[..|h|] == h && g[|h|] == a;
    assert forall i | 0 <= i < |h| :: g[i] == h[i];
  }

  lemma {:induction false} DescentsSnoc(s: seq<int>, x: int)
    ensures Descents(s + [x]) == Descents(s) + if Descends(LastOf(s), x) then 1 else 0
  {
    assert (s + [x])[..|s|] == s;
  }

  lemma {:induction false} HistorySnoc(h: seq<Arrival>, a: Arrival)
    ensures Fresh(h + [a]) ==
              Fresh(h) + if a.number.Some? && a.number.value !in Numbers(h) then [a.number.value] else []
    ensures Total(SizeOf, h + [a]) == Total(SizeOf, h) + a.size
    ensures Total(NumberMissing, h + [a]) == Total(NumberMissing, h) + NumberMissing(a)
  {
    assert (h + [a])[..|h|] == h;
  }

  lemma {:induction false} CountTells(t: Totals, h: seq<Arrival>, a: Arrival)
    requires Tells(t, h)
    ensures Tells(Count(t, a), h + [a])
  {
    hide Total, Fresh, Numbers, Descents;
    NumbersSnoc(h, a);
    HistorySnoc(h, a);
    if a.number.Some? && a.number.value !in t.seen {
      DescentsSnoc(Fresh(h), a.number.value);
    } else {
      assert Fresh(h) + [] == Fresh(h);
      if a.number.Some? {
        assert Numbers(h) + {a.number.value} == Numbers(h);
      } else {
        assert Numbers(h) + {} == Numbers(h);
      }
    }
  }

  /** Unique datagrams are the distinct numbers, the rest duplicates; out of order is a descent among first arrivals. */
  lemma {:induction false} TotalsTell(start: int, h: seq<Arrival>)
    ensures Tells(Run(start, h).t, h)
  {
    hide Log;
    if h != [] {
      TotalsTell(start, h[..|h| - 1]);
      assert h == h[..|h| - 1] + [h[|h| - 1]];
      CountTells(Run(start, h[..|h| - 1]).t, h[..|h| - 1], h[|h| - 1]);
    }
  }

  // ----- The maximum -----

  predicate IsGreatest(x: Option<int>, s: set<int>) {
    if x == None then s == {} else x.value in s && forall y | y in s :: y <= x.value
  }

  /** The stored maximum is lost while zero is the greatest number seen and some other number was new after it. */
  predicate Intact(greatestIsZero: bool, last: Option<int>) { greatestIsZero ==> last == Some(0) }

  /** The stored maximum is the greatest number seen if it is intact, and a negative number otherwise. */
  predicate Peak(t: Totals) {
    && (t.seen == {} <==> t.greatest == None) && (t.seen == {} <==> t.last == None)
    && (IsGreatest(t.greatest, t.seen) <==> Intact(IsGreatest(Some(0), t.seen), t.last))
    && (!IsGreatest(t.greatest, t.seen) ==> t.greatest.Some? && t.greatest.value < 0)
  }

  lemma {:induction false} AddKeepsPeak(t: Totals, x: int)
    requires Peak(t) && x !in t.seen
    ensures Peak(AddNumber(t, x))
  {
    var u := AddNumber(t, x);
    assert x in u.seen && (IsGreatest(t.greatest, t.seen) && t.greatest.Some? ==> t.greatest.value in u.seen);
    if IsGreatest(Some(0), t.seen) {
      assert 0 in u.seen && x != 0;
    }
  }

  /** For every history: the stored maximum is the greatest number seen unless zero is, and was not the last new one. */
  lemma {:induction false} GreatestTells(start: int, h: seq<Arrival>)
    ensures Peak(Run(start, h).t)
    ensures IsGreatest(Run(start, h).t.greatest, Numbers(h)) <==>
              Intact(IsGreatest(Some(0), Numbers(h)), LastOf(Fresh(h)))
  {
    hide Log, AddNumber, IsGreatest, Tells;
    TotalsSeen(start, h);
    if h != [] {
      var front, a := h[..|h| - 1], h[|h| - 1];
      GreatestTells(start, front);
      var t := Run(start, front).t;
      if a.number.Some? && a.number.value !in t.seen {
        AddKeepsPeak(t.(bytes := t.bytes + a.size, datagrams := t.datagrams + 1), a.number.value);
      }
    } else {
      NothingIsGreatest();
    }
  }

  lemma {:induction false} NothingIsGreatest()
    ensures IsGreatest(None, {}) && !IsGreatest(Some(0), {})
  {
  }

  lemma {:induction false} TotalsSeen(start: int, h: seq<Arrival>)
    ensures var t := Run(start, h).t;
            t.seen == Numbers(h) && t.first == FirstOf(Fresh(h)) && t.last == LastOf(Fresh(h)) &&
            t.unique == |Numbers(h)| + Total(NumberMissing, h)
  {
    hide Run, Fresh, Total, Descents, Numbers;
    TotalsTell(start, h);
  }

  /** With a negative number in play the stored maximum can go down: zero reads as absent. */
  lemma {:induction false} NegativeNumbersLoseTheMaximum(start: int)
    ensures Run(start, [Arrival(Some(0), 1, 0), Arrival(Some(-1), 1, 0)]).t.greatest == Some(-1)
  {
    var a, b := Arrival(Some(0), 1, 0), Arrival(Some(-1), 1, 0);
    assert [a, b][..1] == [a] && [a][..0] == [];
    assert Run(start, [a]).t == Count(NO_TOTALS, a);
    assert Run(start, [a, b]).t == Count(Count(NO_TOTALS, a), b);
  }

  // ----- The loss estimate -----

  /** The datagrams without a number that arrived before the last new number: the estimate takes them for numbers. */
  function Early(h: seq<Arrival>): nat {
    if h == [] then 0
    else
      var front, a := h[..|h| - 1], h[|h| - 1];
      if a.number.Some? && a.number.value !in Numbers(front) then Total(NumberMissing, front) else Early(front)
  }

  /** The running estimate, as a function of the numbers seen, the first of them, and the stored maximum. */
  predicate Estimates(t: Totals, early: nat) {
    if t.first == None || t.greatest == None then t.missing == 0
    else t.missing == Max(0, t.greatest.value - t.first.value + 1 - |t.seen| - early)
  }

  lemma {:induction false} AddEstimates(t: Totals, x: int, unnumbered: nat)
    requires x !in t.seen && t.unique == |t.seen| + unnumbered
    ensures Estimates(AddNumber(t, x), unnumbered)
  {
  }

  lemma {:induction false} MissingTells(start: int, h: seq<Arrival>)
    ensures Estimates(Run(start, h).t, Early(h))
  {
    hide Log, AddNumber, Tells, Numbers;
    if h != [] {
      var front, a := h[..|h| - 1], h[|h| - 1];
      MissingTells(start, front);
      TotalsSeen(start, front);
      var t := Run(start, front).t;
      if a.number.Some? && a.number.value !in t.seen {
        AddEstimates(t.(bytes := t.bytes + a.size, datagrams := t.datagrams + 1), a.number.value,
                     Total(NumberMissing, front));
      }
    }
  }

  /** The sequence numbers between the least and the greatest that never arrived. */
  function Holes(s: set<int>, lo: int, hi: int): nat { |Range(lo, hi + 1) - s| }

  lemma {:induction false} HolesAre(s: set<int>, lo: int, hi: int)
    requires lo <= hi && s <= Range(lo, hi + 1)
    ensures Holes(s, lo, hi) == hi - lo + 1 - |s|
  {
    RangeSize(lo, hi + 1);
    SplitSize(Range(lo, hi + 1), s);
  }

  lemma {:induction false} FirstIsSeen(h: seq<Arrival>)
    ensures forall k | 0 <= k < |Fresh(h)| :: Fresh(h)[k] in Numbers(h)
    ensures Fresh(h) == [] ==> Numbers(h) == {}
  {
    if h != [] {
      var front, a := h[..|h| - 1], h[|h| - 1];
      assert h == front + [a];
      FirstIsSeen(front);
      NumbersSnoc(front, a);
    }
  }

  /** The facts about a record with numbered arrivals on which the loss figures rest. */
  lemma {:induction false} EstimateFacts(start: int, h: seq<Arrival>)
    requires Fresh(h) != []
    ensures Fresh(h)[0] in Numbers(h)
    ensures var t, hi := Run(start, h).t, Greatest(Numbers(h));
            && t.greatest.Some? && t.greatest.value <= hi
            && (t.greatest.value == hi <==> Intact(hi == 0, LastOf(Fresh(h))))
            && t.missing == Max(0, t.greatest.value - Fresh(h)[0] + 1 - |Numbers(h)| - Early(h))
            && t.unique == |Numbers(h)| + Total(NumberMissing, h)
  {
    hide Run, Fresh, Numbers, Total, Early;
    FirstIsSeen(h);
    MissingTells(start, h);
    TotalsSeen(start, h);
    GreatestTells(start, h);
    assert IsGreatest(Some(Greatest(Numbers(h))), Numbers(h));
  }

  /** The three ways in which the estimate lags behind the holes. */
  function Lag(start: int, h: seq<Arrival>): int
    requires Numbers(h) != {} && Fresh(h) != [] && Run(start, h).t.greatest.Some?
  {
    (Greatest(Numbers(h)) - Run(start, h).t.greatest.value) + (Fresh(h)[0] - Least(Numbers(h))) + Early(h)
  }

  /**
   The loss estimate, for every history with a numbered datagram. It falls short of the true number of holes, down
   to zero, by the distance of the stored maximum from the greatest number, the distance of the first arrival from
   the least one, and the datagrams without a number before the last new one. So it is exact if and only if nothing
   is missing, or the least number arrived first, no datagram without a number came in between, and zero, if it is
   the greatest number, was the last new one.
   */
  lemma {:induction false} LossEstimate(start: int, h: seq<Arrival>)
    requires Fresh(h) != []
    ensures Numbers(h) != {} && Run(start, h).t.greatest.Some?
    ensures var t, lo, hi := Run(start, h).t, Least(Numbers(h)), Greatest(Numbers(h));
            && Lag(start, h) >= 0 && t.missing == Max(0, Holes(Numbers(h), lo, hi) - Lag(start, h))
            && (t.missing == Holes(Numbers(h), lo, hi) <==>
                || Holes(Numbers(h), lo, hi) == 0
                || (Fresh(h)[0] == lo && Early(h) == 0 && Intact(hi == 0, LastOf(Fresh(h)))))
  {
    hide Run, Fresh, Numbers, Total, Early, Intact, Holes;
    EstimateFacts(start, h);
    HolesAre(Numbers(h), Least(Numbers(h)), Greatest(Numbers(h)));
  }

  /** A record without numbered datagrams reports nothing missing. */
  lemma {:induction false} NothingToMiss(start: int, h: seq<Arrival>)
    requires Numbers(h) == {}
    ensures Run(start, h).t.missing == 0 && PacketLossPercent(Run(start, h).t) == 0.0
  {
    hide Run, Fresh, Numbers, Total, Early;
    FirstIsSeen(h);
    MissingTells(start, h);
    TotalsSeen(start, h);
    GreatestTells(start, h);
  }

  function Below(s: set<int>, first: int): set<int> { set x | x in s && x < first }

  lemma {:induction false} HolesAbove(s: set<int>, first: int, hi: int)
    requires first in s && forall x | x in s :: x <= hi
    ensures Holes(s, first, hi) == hi - first + 1 - |s| + |Below(s, first)|
  {
    var above := s - Below(s, first);
    SplitSize(s, Below(s, first));
    HolesAre(above, first, hi);
    assert Range(first, hi + 1) - s == Range(first, hi + 1) - above;
  }

  /**
   Counted from the first arrival on: the holes above it up to the greatest number, less the distinct arrivals below
   it and the other two parts of the lag.
   */
  lemma {:induction false} LossEstimateFromFirst(start: int, h: seq<Arrival>)
    requires Fresh(h) != []
    ensures Numbers(h) != {} && Run(start, h).t.greatest.Some?
    ensures var t, first, hi := Run(start, h).t, Fresh(h)[0], Greatest(Numbers(h));
            t.missing ==
              Max(0, Holes(Numbers(h), first, hi) - |Below(Numbers(h), first)| - (hi - t.greatest.value) - Early(h))
  {
    hide Run, Fresh, Numbers, Total, Early, Intact, Holes, Below;
    EstimateFacts(start, h);
    HolesAbove(Numbers(h), Fresh(h)[0], Greatest(Numbers(h)));
  }

  /** The loss percentage of the public record. */
  function PacketLossPercent(t: Totals): real {
    var unique := if t.unique != 0 then t.unique else t.datagrams;
    var expected := unique + t.missing;
    if expected == 0 then 0.0 else t.missing as real / expected as real * 100.0
  }

  /** The percentage of the holes among all the numbers from the least to the greatest. */
  function HolePercent(s: set<int>): real
    requires s != {}
  {
    Holes(s, Least(s), Greatest(s)) as real / (Greatest(s) - Least(s) + 1) as real * 100.0
  }

  lemma {:induction false} SameQuotient(a: real, b: real, c: real, d: real)
    requires b > 0.0 && d > 0.0
    ensures a / b == c / d <==> a * d == c * b
  {
    assert a == a / b * b && c == c / d * d;
    if a * d == c * b {
      assert (a / b) * (b * d) == (c / d) * (b * d);
    }
  }

  lemma {:induction false} SameRatio(a: nat, b: nat, c: nat, d: nat)
    requires b > 0 && d > 0
    ensures a as real / b as real * 100.0 == c as real / d as real * 100.0 <==> a * d == c * b
  {
    SameQuotient(a as real, b as real, c as real, d as real);
    assert (a * d) as real == a as real * d as real && (c * b) as real == c as real * b as real;
  }

  /** Of two fractions of missing datagrams, the one that misses fewer or counts more that are not numbered is less. */
  lemma {:induction false} LessOfMore(missing: nat, holes: nat, numbers: nat, unnumbered: nat)
    requires missing <= holes && numbers > 0
    ensures missing * (numbers + holes) == holes * (numbers + unnumbered + missing) <==>
            holes == 0 || (missing == holes && unnumbered == 0)
  {
    assert missing * (numbers + holes) == missing * numbers + missing * holes;
    assert holes * (numbers + unnumbered + missing) == holes * numbers + holes * unnumbered + missing * holes;
    assert (holes - missing) * numbers == holes * numbers - missing * numbers;
    if holes > 0 && unnumbered > 0 {
      assert holes * unnumbered > 0;
    }
    if missing < holes {
      assert (holes - missing) * numbers > 0;
    }
  }

  /**
   The public loss percentage is that of the holes among all numbers if and only if nothing is missing, or the
   estimate is exact and every datagram had a number.
   */
  lemma {:induction false} LossPercentIsExact(start: int, h: seq<Arrival>)
    requires Fresh(h) != []
    ensures Numbers(h) != {}
    ensures var lo, hi := Least(Numbers(h)), Greatest(Numbers(h));
            PacketLossPercent(Run(start, h).t) == HolePercent(Numbers(h)) <==>
              || Holes(Numbers(h), lo, hi) == 0
              || (Fresh(h)[0] == lo && Intact(hi == 0, LastOf(Fresh(h))) && Total(NumberMissing, h) == 0)
  {
    hide Run, Fresh, Holes, Numbers, Total, Early, Intact, Lag;
    LossEstimate(start, h);
    EstimateFacts(start, h);
    EarlyIsUnnumbered(h);
    var t, s := Run(start, h).t, Numbers(h);
    var holes := Holes(s, Least(s), Greatest(s));
    HolesAre(s, Least(s), Greatest(s));
    LessOfMore(t.missing, holes, |s|, Total(NumberMissing, h));
    SameRatio(t.missing, t.unique + t.missing, holes, Greatest(s) - Least(s) + 1);
  }

  lemma {:induction false} DescentRecord(start: int, a: Arrival, b: Arrival)
    requires a.number == Some(5) && b.number == Some(1)
    ensures Run(start, [a, b]).t.missing == 0
  {
    hide Log;
    assert [a, b][..1] == [a] && [a][..0] == [];
    assert Run(start, [a]).t == Count(NO_TOTALS, a);
    assert Run(start, [a, b]).t == Count(Count(NO_TOTALS, a), b);
  }

  lemma {:induction false} DescentNumbers(a: Arrival, b: Arrival)
    requires a.number == Some(5) && b.number == Some(1)
    ensures Numbers([a, b]) == {1, 5}
  {
    assert [] + [a] == [a] && [a] + [b] == [a, b];
    NumbersSnoc([], a);
    NumbersSnoc([a], b);
  }

  lemma {:induction false} DescentHoles()
    ensures Least({1, 5}) == 1 && Greatest({1, 5}) == 5 && Holes({1, 5}, 1, 5) == 3 && HolePercent({1, 5}) == 60.0
  {
    hide Holes;
    HolesAre({1, 5}, 1, 5);
  }

  /** Numbers 5 and then 1, whatever else: three numbers in between are missing, and the record says that none is. */
  lemma {:induction false} DescentHidesLoss(start: int, a: Arrival, b: Arrival)
    requires a.number == Some(5) && b.number == Some(1)
    ensures var t, s := Run(start, [a, b]).t, Numbers([a, b]);
            && s != {} && t.missing == 0 && Holes(s, Least(s), Greatest(s)) == 3
            && PacketLossPercent(t) == 0.0 && HolePercent(s) == 60.0
  {
    hide Run, Numbers, Holes, HolePercent;
    DescentRecord(start, a, b);
    DescentNumbers(a, b);
    DescentHoles();
  }

  lemma {:induction false} EarlyIsUnnumbered(h: seq<Arrival>)
    ensures Early(h) <= Total(NumberMissing, h)
  {
    if h != [] {
      EarlyIsUnnumbered(h[..|h| - 1]);
    }
  }

  // ----- Order does not matter to most of the totals -----

  lemma {:induction false} TotalConcat(f: Arrival -> nat, g: seq<Arrival>, h: seq<Arrival>)
    ensures Total(f, g + h) == Total(f, g) + Total(f, h)
  {
    if h == [] {
      assert g + h == g;
    } else {
      assert (g + h)[..|g + h| - 1] == g + h[..|h| - 1];
      TotalConcat(f, g, h[..|h| - 1]);
    }
  }

  lemma {:induction false} TotalWithout(f: Arrival -> nat, left: seq<Arrival>, a: Arrival, right: seq<Arrival>)
    ensures Total(f, left + [a] + right) == Total(f, left + right) + f(a)
  {
    TotalConcat(f, left, right);
    TotalConcat(f, left + [a], right);
    TotalConcat(f, left, [a]);
    assert [a][..0] == [];
  }

  lemma {:induction false} MultisetWithout(
    g: seq<Arrival>, h: seq<Arrival>, a: Arrival, left: seq<Arrival>, right: seq<Arrival>)
    requires multiset(g + [a]) == multiset(h) && h == left + [a] + right
    ensures multiset(left + right) == multiset(g)
  {
    assert multiset(g + [a]) == multiset(g) + multiset{a};
    assert multiset(h) == multiset(left) + multiset{a} + multiset(right);
    assert multiset(left + right) == multiset(left) + multiset(right);
    assert multiset(left + right) + multiset{a} == multiset(g) + multiset{a};
    assert forall x :: multiset(left + right)[x] == multiset(g)[x] by {
      forall x ensures multiset(left + right)[x] == multiset(g)[x] {
        assert (multiset(left + right) + multiset{a})[x] == (multiset(g) + multiset{a})[x];
      }
    }
  }

  lemma {:induction false} TotalPermuted(f: Arrival -> nat, g: seq<Arrival>, h: seq<Arrival>)
    requires multiset(g) == multiset(h)
    ensures Total(f, g) == Total(f, h)
  {
    if g == [] {
      assert |multiset(h)| == |h|;
    } else {
      var front, a := g[..|g| - 1], g[|g| - 1];
      assert g == front + [a];
      assert a in multiset(h);
      var i :| 0 <= i < |h| && h[i] == a;
      var left, right := h[..i], h[i + 1..];
      assert h == left + [a] + right;
      MultisetWithout(front, h, a, left, right);
      TotalPermuted(f, front, left + right);
      TotalWithout(f, left, a, right);
    }
  }

  lemma {:induction false} NumbersPermuted(g: seq<Arrival>, h: seq<Arrival>)
    requires multiset(g) == multiset(h)
    ensures |g| == |h| && Numbers(g) <= Numbers(h)
  {
    assert |multiset(g)| == |g| && |multiset(h)| == |h|;
    forall x | x in Numbers(g)
      ensures x in Numbers(h)
    {
      var i :| 0 <= i < |g| && g[i].number == Some(x);
      assert g[i] in multiset(h);
      var j :| 0 <= j < |h| && h[j] == g[i];
    }
  }

  lemma {:induction false} GreatestUnique(x: Option<int>, y: Option<int>, s: set<int>)
    requires IsGreatest(x, s) && IsGreatest(y, s)
    ensures x == y
  {
    if x.Some? && y.Some? {
      assert x.value <= y.value <= x.value;
    }
  }

  /**
   Bytes, datagrams, unique, duplicates and the numbers seen depend on what arrived, not on the order. The stored
   maximum does so, too, where it is intact; where it is intact in one order only, the two differ.
   */
  lemma {:induction false} OrderInvariant(start: int, g: seq<Arrival>, h: seq<Arrival>)
    requires multiset(g) == multiset(h)
    ensures Numbers(g) == Numbers(h)
    ensures var t, u := Run(start, g).t, Run(start, h).t;
            t.bytes == u.bytes && t.datagrams == u.datagrams && t.unique == u.unique && t.duplicates == u.duplicates &&
            t.seen == u.seen
    ensures var zero, t, u := IsGreatest(Some(0), Numbers(h)), Run(start, g).t, Run(start, h).t;
            && (Intact(zero, LastOf(Fresh(g))) && Intact(zero, LastOf(Fresh(h))) ==> t.greatest == u.greatest)
            && (Intact(zero, LastOf(Fresh(g))) != Intact(zero, LastOf(Fresh(h))) ==> t.greatest != u.greatest)
  {
    hide Run, Fresh, Intact, IsGreatest, Peak;
    NumbersPermuted(g, h);
    NumbersPermuted(h, g);
    assert Numbers(g) == Numbers(h);
    TotalPermuted(SizeOf, g, h);
    TotalPermuted(NumberMissing, g, h);
    TotalsTell(start, g);
    TotalsTell(start, h);
    GreatestTells(start, g);
    GreatestTells(start, h);
    var x, y := Run(start, g).t.greatest, Run(start, h).t.greatest;
    if IsGreatest(x, Numbers(h)) && IsGreatest(y, Numbers(h)) {
      GreatestUnique(x, y, Numbers(h));
    }
  }

  // ----- The account per second -----

  function Sum(f: Bucket -> nat, buckets: seq<Bucket>): nat {
    if buckets == [] then 0 else Sum(f, buckets[..|buckets| - 1]) + f(buckets[|buckets| - 1])
  }

  function BytesIn(b: Bucket): nat { b.bytes }
  function DatagramsIn(b: Bucket): nat { b.datagrams }
  function UniqueIn(b: Bucket): nat { b.unique }
  function DuplicatesIn(b: Bucket): nat { b.duplicates }
  function OutOfOrderIn(b: Bucket): nat { b.outOfOrder }

  lemma {:induction false} SumUpdate(f: Bucket -> nat, buckets: seq<Bucket>, i: nat, b: Bucket)
    requires i < |buckets|
    ensures Sum(f, buckets[i := b]) + f(buckets[i]) == Sum(f, buckets) + f(b)
  {
    var more := buckets[i := b];
    if i == |buckets| - 1 {
      assert more[..i] == buckets[..i];
    } else {
      assert more[..|more| - 1] == buckets[..|buckets| - 1][i := b];
      SumUpdate(f, buckets[..|buckets| - 1], i, b);
    }
  }

  lemma {:induction false} SumPadded(f: Bucket -> nat, buckets: seq<Bucket>, n: nat)
    requires forall k: nat :: f(EmptyBucket(k)) == 0
    ensures Sum(f, Padded(buckets, n)) == Sum(f, buckets)
    decreases n + 1 - |buckets|
  {
    if |buckets| <= n {
      var more := buckets + [EmptyBucket(|buckets|)];
      assert more[..|buckets|] == buckets;
      SumPadded(f, more, n);
    }
  }

  /** What logging does to a total over the buckets. */
  lemma {:induction false} SumTicked(
    f: Bucket -> nat, buckets: seq<Bucket>, i: nat, a: Arrival, duplicate: bool, late: bool)
    requires forall k: nat :: f(EmptyBucket(k)) == 0
    ensures var b := Padded(buckets, i)[i];
            Sum(f, Padded(buckets, i)[i := Tick(b, a, duplicate, late)]) + f(b) ==
              Sum(f, buckets) + f(Tick(b, a, duplicate, late))
  {
    SumPadded(f, buckets, i);
    SumUpdate(f, Padded(buckets, i), i, Tick(Padded(buckets, i)[i], a, duplicate, late));
  }

  /** The second in which an arrival is logged; a stored start of zero reads as absent. */
  function At(start: int, a: Arrival): nat { SecondOf(if start == 0 then a.nowNs else start, a.nowNs) }

  /** Duplicates whose number is below the last new one: the buckets call them out of order, the record does not. */
  function LateDuplicates(h: seq<Arrival>): nat {
    if h == [] then 0
    else
      var front, a := h[..|h| - 1], h[|h| - 1];
      LateDuplicates(front) +
      if a.number.Some? && a.number.value in Numbers(front) && Descends(LastOf(Fresh(front)), a.number.value)
      then 1 else 0
  }

  /**
   Time t belongs to second i of a record that began at `start`: the seconds run from there, what came before belongs
   to the first one, and so does everything if the start reads as absent.
   */
  predicate InSecond(start: int, t: int, i: nat) {
    if start == 0 then i == 0
    else (i == 0 || start + i * 1_000_000_000 <= t) && t < start + (i + 1) * 1_000_000_000
  }

  lemma {:induction false} SecondIs(start: int, a: Arrival, i: nat)
    ensures InSecond(start, a.nowNs, i) <==> At(start, a) == i
  {
  }

  /** What the arrivals of second i amount to, each counted as f counts it after those before it. */
  function Share(f: (seq<Arrival>, Arrival) -> nat, start: int, h: seq<Arrival>, i: nat): nat {
    if h == [] then 0
    else
      var front, a := h[..|h| - 1], h[|h| - 1];
      Share(f, start, front, i) + if InSecond(start, a.nowNs, i) then f(front, a) else 0
  }

  function BytesOf(front: seq<Arrival>, a: Arrival): nat { a.size }
  function OneOf(front: seq<Arrival>, a: Arrival): nat { 1 }

  /** A number that came before makes a duplicate; a datagram without one is never taken for one. */
  function RepeatOf(front: seq<Arrival>, a: Arrival): nat {
    if a.number.Some? && a.number.value in Numbers(front) then 1 else 0
  }

  function NewOf(front: seq<Arrival>, a: Arrival): nat { if RepeatOf(front, a) == 1 then 0 else 1 }

  /** A number below the last new one. */
  function LateOf(front: seq<Arrival>, a: Arrival): nat {
    if a.number.Some? && Descends(LastOf(Fresh(front)), a.number.value) then 1 else 0
  }

  /** Bucket i as the arrivals of second i dictate it. */
  function BucketTold(start: int, h: seq<Arrival>, i: nat): Bucket {
    Bucket(i, Share(BytesOf, start, h, i), Share(OneOf, start, h, i), Share(NewOf, start, h, i),
           Share(RepeatOf, start, h, i), Share(LateOf, start, h, i))
  }

  lemma {:induction false} ToldSnoc(start: int, h: seq<Arrival>, a: Arrival, i: nat)
    ensures BucketTold(start, h + [a], i) ==
              if InSecond(start, a.nowNs, i)
              then Tick(BucketTold(start, h, i), a, RepeatOf(h, a) == 1, LateOf(h, a) == 1)
              else BucketTold(start, h, i)
  {
    hide InSecond;
    assert (h + [a])[..|h|] == h;
  }

  predicate SumsAgree(r: Record, h: seq<Arrival>) {
    var b := r.tl.buckets;
    && Sum(BytesIn, b) == r.t.bytes && Sum(DatagramsIn, b) == r.t.datagrams
    && Sum(UniqueIn, b) == r.t.unique && Sum(DuplicatesIn, b) == r.t.duplicates
    && Sum(OutOfOrderIn, b) == r.t.outOfOrder + LateDuplicates(h)
  }

  /** The numbers first seen in each second partition the numbers seen. */
  ghost predicate Partitioned(r: Record) {
    && (forall k | k in r.tl.seen :: k < |r.tl.buckets| && r.tl.seen[k] <= r.t.seen)
    && (forall j, k | j in r.tl.seen && k in r.tl.seen && j != k :: r.tl.seen[j] !! r.tl.seen[k])
    && (forall x | x in r.t.seen :: exists k :: k in r.tl.seen && x in r.tl.seen[k])
  }

  /** Every bucket is the one that the arrivals of its second dictate; there is none for later seconds. */
  ghost predicate Placed(start: int, r: Record, h: seq<Arrival>) {
    && r.tl.start == start
    && (forall i | 0 <= i < |r.tl.buckets| :: r.tl.buckets[i] == BucketTold(start, h, i))
    && (forall i | i >= |r.tl.buckets| :: BucketTold(start, h, i) == EmptyBucket(i))
    && (r.tl.buckets != [] ==> r.tl.buckets[|r.tl.buckets| - 1].datagrams > 0)
  }

  /** A number already seen is a duplicate for the bucket; one not seen is new in its bucket too. */
  lemma {:induction false} BucketAgreesOnDuplicates(r: Record, a: Arrival)
    requires Partitioned(r) && a.number.Some?
    ensures var i := At(r.tl.start, a);
            (IsDuplicate(r.t, a) || (i in r.tl.seen && a.number.value in r.tl.seen[i])) <==> IsDuplicate(r.t, a)
  {
  }

  /** The buckets after a step, whichever branch it took. */
  lemma {:induction false} StepBuckets(r: Record, a: Arrival)
    requires Partitioned(r)
    ensures var i, late := At(r.tl.start, a), a.number.Some? && Descends(r.t.last, a.number.value);
            Step(r, a).tl.buckets ==
              Padded(r.tl.buckets, i)[i := Tick(Padded(r.tl.buckets, i)[i], a, IsDuplicate(r.t, a), late)]
  {
    if a.number.Some? {
      BucketAgreesOnDuplicates(r, a);
    }
  }

  lemma {:induction false} StepSums(r: Record, h: seq<Arrival>, a: Arrival)
    requires SumsAgree(r, h) && Partitioned(r) && Tells(r.t, h)
    ensures SumsAgree(Step(r, a), h + [a])
  {
    hide Log, Padded, Sum, Partitioned, Fresh, Total, Numbers, Descents;
    var i := At(r.tl.start, a);
    var duplicate := IsDuplicate(r.t, a);
    var late := a.number.Some? && Descends(r.t.last, a.number.value);
    StepBuckets(r, a);
    assert (h + [a])[..|h|] == h;
    SumTicked(BytesIn, r.tl.buckets, i, a, duplicate, late);
    SumTicked(DatagramsIn, r.tl.buckets, i, a, duplicate, late);
    SumTicked(UniqueIn, r.tl.buckets, i, a, duplicate, late);
    SumTicked(DuplicatesIn, r.tl.buckets, i, a, duplicate, late);
    SumTicked(OutOfOrderIn, r.tl.buckets, i, a, duplicate, late);
  }

  lemma {:induction false} StepPartitions(r: Record, a: Arrival)
    requires Partitioned(r)
    ensures Partitioned(Step(r, a))
  {
    var u := Step(r, a);
    if a.number.Some? {
      BucketAgreesOnDuplicates(r, a);
      var i, x := At(r.tl.start, a), a.number.value;
      assert forall k | k in u.tl.seen && k != i :: k in r.tl.seen && u.tl.seen[k] == r.tl.seen[k];
      forall y | y in u.t.seen
        ensures exists k :: k in u.tl.seen && y in u.tl.seen[k]
      {
        if y in r.t.seen {
          var k :| k in r.tl.seen && y in r.tl.seen[k];
          assert k in u.tl.seen && y in u.tl.seen[k];
        } else {
          assert i in u.tl.seen && y in u.tl.seen[i];
        }
      }
    }
  }

  lemma {:induction false} RepeatIs(t: Totals, h: seq<Arrival>, a: Arrival)
    requires Tells(t, h)
    ensures RepeatOf(h, a) == 1 <==> IsDuplicate(t, a)
    ensures LateOf(h, a) == 1 <==> a.number.Some? && Descends(t.last, a.number.value)
  {
    hide Fresh, Numbers, Descents, Total;
  }

  lemma {:induction false} StepKeepsStart(r: Record, a: Arrival)
    ensures Step(r, a).tl.start == r.tl.start
  {
  }

  lemma {:induction false} TickCounts(b: Bucket, a: Arrival, duplicate: bool, late: bool)
    ensures Tick(b, a, duplicate, late).datagrams > 0
  {
  }

  lemma {:induction false} StepPlaces(start: int, r: Record, h: seq<Arrival>, a: Arrival)
    requires Placed(start, r, h) && Partitioned(r) && Tells(r.t, h)
    ensures Placed(start, Step(r, a), h + [a])
  {
    hide Partitioned, Log, Share, InSecond, Fresh, Numbers, Descents, Total, BucketTold, SecondOf, Tick;
    var i := At(start, a);
    var u, v := Step(r, a).tl.buckets, Padded(r.tl.buckets, i);
    StepBuckets(r, a);
    StepKeepsStart(r, a);
    RepeatIs(r.t, h, a);
    TickCounts(v[i], a, RepeatOf(h, a) == 1, LateOf(h, a) == 1);
    forall k: nat
      ensures BucketTold(start, h + [a], k) ==
                if k == i then Tick(BucketTold(start, h, k), a, RepeatOf(h, a) == 1, LateOf(h, a) == 1)
                else BucketTold(start, h, k)
    {
      ToldSnoc(start, h, a, k);
      SecondIs(start, a, k);
    }
    forall k | 0 <= k < |v|
      ensures v[k] == BucketTold(start, h, k)
    {
      if k < |r.tl.buckets| {
        assert v[k] == v[..|r.tl.buckets|][k];
      }
    }
  }

  /**
   The seconds refine the record: their bytes, datagrams, unique and duplicates add up to the record's, their
   numbers partition the numbers seen, bucket i holds exactly what the arrivals of second i amount to even if the clock
   steps back, there is no bucket past the last second with an arrival, and the out-of-order counts of the buckets
   exceed the record's by exactly the late duplicates.
   */
  lemma {:induction false} SecondsRefineTotals(start: int, h: seq<Arrival>)
    ensures SumsAgree(Run(start, h), h) && Partitioned(Run(start, h)) && Placed(start, Run(start, h), h)
  {
    if h != [] {
      var front, a := h[..|h| - 1], h[|h| - 1];
      assert h == front + [a];
      SecondsRefineTotals(start, front);
      TotalsTell(start, front);
      StepSums(Run(start, front), front, a);
      StepPartitions(Run(start, front), a);
      StepPlaces(start, Run(start, front), front, a);
    }
  }
}
