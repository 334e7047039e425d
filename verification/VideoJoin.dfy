/**
 The controller's view of a video probe: sender and receiver joined into loss figures, the per-second buckets of
 both paths, and the longest outage on both; and what holds from one end to the other.
 */
module VideoJoin {
  import opened SetFacts
  import opened VideoReceiver
  import opened VideoReassembly
  import opened VideoSummary
  import opened VideoSender

  // ----- The buckets -----

  datatype Bucket = Bucket(offset: nat, expected: nat, left: nat, right: nat, either: nat, bothLost: nat)

  /** The first frame of bucket i. */
  function Start(i: nat, fps: nat): nat { if i == 0 then 0 else Start(i - 1, fps) + fps }

  /** A bucket counts the frames of its second: those complete on each path, on either, and on neither. */
  function BucketOf(i: nat, ids: set<int>, left: set<int>, right: set<int>): Bucket {
    Bucket(i, |ids|, |ids * left|, |ids * right|, |ids * (left + right)|, |ids - (left + right)|)
  }

  /** The frame ids of bucket i. */
  function FramesOf(i: nat, framesSent: nat, fps: nat): set<int> {
    Range(Start(i, fps), Min(framesSent, Start(i, fps) + fps))
  }

  /** Consecutive buckets, each starting before the end and counting its own frames. */
  predicate Tiled(buckets: seq<Bucket>, left: set<int>, right: set<int>, framesSent: nat, fps: nat) {
    forall i | 0 <= i < |buckets| ::
      Start(i, fps) < framesSent && buckets[i] == BucketOf(i, FramesOf(i, framesSent, fps), left, right)
  }

  /** No frame of [a, b) is in `either`. */
  predicate Gap(either: set<int>, a: int, b: int) { forall f | a <= f < b :: f !in either }

  /** `longest` is the greatest length of an interval of [0, n) without a frame of `either`. */
  ghost predicate LongestGap(either: set<int>, n: nat, longest: nat) {
    && (exists a: nat, b: nat | a <= b <= n :: Gap(either, a, b) && b - a == longest)
    && (forall a: nat, b: nat | a <= b <= n && Gap(either, a, b) :: b - a <= longest)
  }

  /** The longest outage is a property of the frames alone: it cannot depend on how the buckets cut them. */
  lemma {:induction false} LongestGapUnique(either: set<int>, n: nat, x: nat, y: nat)
    requires LongestGap(either, n, x) && LongestGap(either, n, y)
    ensures x == y
  {
    var a: nat, b: nat :| a <= b <= n && Gap(either, a, b) && b - a == x;
    var c: nat, d: nat :| c <= d <= n && Gap(either, c, d) && d - c == y;
  }

  /** The frames [0, f) have been scanned and the last `current` of them are a gap that cannot be longer. */
  ghost predicate Scanned(either: set<int>, f: nat, current: nat, longest: nat) {
    && current <= f && Gap(either, f - current, f) && (current < f ==> f - current - 1 in either)
    && LongestGap(either, f, longest)
  }

  lemma {:induction false} ScanNone(either: set<int>)
    ensures Scanned(either, 0, 0, 0)
  {
    assert Gap(either, 0, 0);
  }

  lemma {:induction false} ScanHit(either: set<int>, f: nat, current: nat, longest: nat)
    requires Scanned(either, f, current, longest) && f in either
    ensures Scanned(either, f + 1, 0, longest)
  {
    forall a: nat, b: nat | a <= b <= f + 1 && Gap(either, a, b)
      ensures b - a <= longest
    {
      if b == f + 1 && a < b {
        assert false;
      }
    }
  }

  lemma {:induction false} ScanMiss(either: set<int>, f: nat, current: nat, longest: nat)
    requires Scanned(either, f, current, longest) && f !in either
    ensures Scanned(either, f + 1, current + 1, Max(longest, current + 1))
  {
    forall a: nat, b: nat | a <= b <= f + 1 && Gap(either, a, b)
      ensures b - a <= Max(longest, current + 1)
    {
      if b == f + 1 && a < f - current {
        assert false;
      }
    }
    assert Gap(either, f - current, f + 1);
  }

  /** The inner loop of the bucket pass: one frame after the other. */
  method ScanBucket(either: set<int>, start: nat, end: nat, current0: nat, longest0: nat)
    returns (current: nat, longest: nat)
    requires start <= end && Scanned(either, start, current0, longest0)
    ensures Scanned(either, end, current, longest)
  {
    current, longest := current0, longest0;
    for frameId := start to end
      invariant Scanned(either, frameId, current, longest)
    {
      if frameId in either {
        ScanHit(either, frameId, current, longest);
        current := 0;
      } else {
        ScanMiss(either, frameId, current, longest);
        current := current + 1;
        longest := Max(longest, current);
      }
    }
  }

  lemma {:induction false} TiledSnoc(
    buckets: seq<Bucket>, b: Bucket, left: set<int>, right: set<int>, framesSent: nat, fps: nat)
    requires Tiled(buckets, left, right, framesSent, fps) && Start(|buckets|, fps) < framesSent
    requires b == BucketOf(|buckets|, FramesOf(|buckets|, framesSent, fps), left, right)
    ensures Tiled(buckets + [b], left, right, framesSent, fps)
  {
    hide BucketOf, FramesOf, Start;
    var more := buckets + [b];
    forall i | 0 <= i < |more|
      ensures Start(i, fps) < framesSent && more[i] == BucketOf(i, FramesOf(i, framesSent, fps), left, right)
    {
      if i < |buckets| {
        assert more[i] == buckets[i];
      }
    }
  }

  lemma {:induction false} LostCount(ids: set<int>, either: set<int>)
    ensures |ids| - |ids * either| == |ids - either|
  {
    SplitSize(ids, ids * either);
    assert ids - ids * either == ids - either;
  }

  method MakeBucket(i: nat, ids: set<int>, left: set<int>, right: set<int>) returns (bucket: Bucket)
    ensures bucket == BucketOf(i, ids, left, right)
  {
    var either := |ids * (left + right)|;
    LostCount(ids, left + right);
    bucket := Bucket(i, |ids|, |ids * left|, |ids * right|, either, |ids| - either);
  }

  /** Append the bucket of the frames [start, end). */
  method AddBucket(
    buckets: seq<Bucket>, start: nat, end: nat, left: set<int>, right: set<int>, ghost framesSent: nat, ghost fps: nat)
    returns (more: seq<Bucket>)
    requires Tiled(buckets, left, right, framesSent, fps)
    requires start == Start(|buckets|, fps) && start < framesSent && end == Min(framesSent, start + fps)
    ensures Tiled(more, left, right, framesSent, fps) && |more| == |buckets| + 1
  {
    var ids := Range(start, end);
    assert ids == FramesOf(|buckets|, framesSent, fps);
    var bucket := MakeBucket(|buckets|, ids, left, right);
    TiledSnoc(buckets, bucket, left, right, framesSent, fps);
    more := buckets + [bucket];
  }

  /** The buckets made so far, up to the frame at which the next one starts. */
  ghost predicate Bucketed(buckets: seq<Bucket>, left: set<int>, right: set<int>, framesSent: nat, fps: nat,
                           start: nat, current: nat, longest: nat) {
    && start == Start(|buckets|, fps) && Tiled(buckets, left, right, framesSent, fps)
    && Scanned(left + right, Min(framesSent, start), current, longest)
  }

  lemma {:induction false} BucketedNone(left: set<int>, right: set<int>, framesSent: nat, fps: nat)
    ensures Bucketed([], left, right, framesSent, fps, 0, 0, 0)
  {
    ScanNone(left + right);
  }

  lemma {:induction false} BucketedAll(buckets: seq<Bucket>, left: set<int>, right: set<int>, framesSent: nat,
                                       fps: nat, start: nat, current: nat, longest: nat)
    requires Bucketed(buckets, left, right, framesSent, fps, start, current, longest) && framesSent <= start
    ensures LongestGap(left + right, framesSent, longest)
    ensures Tiled(buckets, left, right, framesSent, fps) && framesSent <= Start(|buckets|, fps)
  {
    hide LongestGap;
  }

  /** One round of the bucket pass: the bucket, and its frames scanned. */
  method NextBucket(buckets0: seq<Bucket>, left: set<int>, right: set<int>, framesSent: nat, fps: nat,
                    start: nat, current0: nat, longest0: nat)
    returns (buckets: seq<Bucket>, current: nat, longest: nat)
    requires Bucketed(buckets0, left, right, framesSent, fps, start, current0, longest0) && start < framesSent
    ensures Bucketed(buckets, left, right, framesSent, fps, start + fps, current, longest)
  {
    hide Scanned, Tiled;
    var end := Min(framesSent, start + fps);
    buckets := AddBucket(buckets0, start, end, left, right, framesSent, fps);
    current, longest := ScanBucket(left + right, start, end, current0, longest0);
  }

  /** The buckets tile the frames sent, each counts its own frames, and the outage is the longest over all of them. */
  method DualPathBuckets(left: set<int>, right: set<int>, framesSent: int, fps: int)
    returns (buckets: seq<Bucket>, longest: nat)
    ensures framesSent <= 0 || fps <= 0 ==> buckets == [] && longest == 0
    ensures framesSent > 0 && fps > 0 ==>
              && LongestGap(left + right, framesSent, longest)
              && Tiled(buckets, left, right, framesSent, fps) && framesSent <= Start(|buckets|, fps)
  {
    hide Bucketed;
    if framesSent <= 0 || fps <= 0 {
      return [], 0;
    }
    buckets, longest := [], 0;
    var current := 0;
    var start := 0;
    BucketedNone(left, right, framesSent, fps);
    while start < framesSent
      invariant Bucketed(buckets, left, right, framesSent, fps, start, current, longest)
      decreases framesSent - start
    {
      buckets, current, longest := NextBucket(buckets, left, right, framesSent, fps, start, current, longest);
      start := start + fps;
    }
    BucketedAll(buckets, left, right, framesSent, fps, start, current, longest);
  }

  function ExpectedIn(b: Bucket): nat { b.expected }
  function LeftIn(b: Bucket): nat { b.left }
  function RightIn(b: Bucket): nat { b.right }
  function EitherIn(b: Bucket): nat { b.either }
  function LostIn(b: Bucket): nat { b.bothLost }

  function Total(f: Bucket -> nat, buckets: seq<Bucket>): nat {
    if buckets == [] then 0 else Total(f, buckets[..|buckets| - 1]) + f(buckets[|buckets| - 1])
  }

  /** The frames of the first k buckets. */
  function FramesBefore(k: nat, framesSent: nat, fps: nat): set<int> { Range(0, Min(framesSent, Start(k, fps))) }

  lemma {:induction false} OneMoreBucket(k: nat, framesSent: nat, fps: nat)
    requires Start(k, fps) < framesSent
    ensures FramesBefore(k + 1, framesSent, fps) == FramesBefore(k, framesSent, fps) + FramesOf(k, framesSent, fps)
    ensures FramesBefore(k, framesSent, fps) !! FramesOf(k, framesSent, fps)
  {
  }

  lemma {:induction false} DisjointSizes(done: set<int>, ids: set<int>, chosen: set<int>)
    requires done !! ids
    ensures |done + ids| == |done| + |ids|
    ensures |(done + ids) * chosen| == |done * chosen| + |ids * chosen|
    ensures |(done + ids) - chosen| == |done - chosen| + |ids - chosen|
  {
    assert (done + ids) * chosen == done * chosen + ids * chosen;
    assert (done + ids) - chosen == (done - chosen) + (ids - chosen);
  }

  /** The figures of the first buckets, summed, are those of the frames so far. */
  ghost predicate Summed(buckets: seq<Bucket>, left: set<int>, right: set<int>, all: set<int>) {
    && Total(ExpectedIn, buckets) == |all|
    && Total(LeftIn, buckets) == |all * left| && Total(RightIn, buckets) == |all * right|
    && Total(EitherIn, buckets) == |all * (left + right)| && Total(LostIn, buckets) == |all - (left + right)|
  }

  lemma {:induction false} SummedMore(
    front: seq<Bucket>, b: Bucket, left: set<int>, right: set<int>, done: set<int>, ids: set<int>)
    requires Summed(front, left, right, done) && done !! ids && b == BucketOf(|front|, ids, left, right)
    ensures Summed(front + [b], left, right, done + ids)
  {
    assert (front + [b])[..|front|] == front;
    DisjointSizes(done, ids, left);
    DisjointSizes(done, ids, right);
    DisjointSizes(done, ids, left + right);
  }

  lemma {:induction false} NothingYet(left: set<int>, right: set<int>, framesSent: nat, fps: nat)
    ensures Summed([], left, right, FramesBefore(0, framesSent, fps))
  {
    var none := FramesBefore(0, framesSent, fps);
    assert none == {} && none * left == {} && none * right == {} && none * (left + right) == {};
    assert none - (left + right) == {};
  }

  lemma {:induction false} SummedUp(
    buckets: seq<Bucket>, left: set<int>, right: set<int>, framesSent: nat, fps: nat)
    requires Tiled(buckets, left, right, framesSent, fps)
    ensures Summed(buckets, left, right, FramesBefore(|buckets|, framesSent, fps))
  {
    hide FramesOf, Start, BucketOf, Summed;
    if buckets == [] {
      NothingYet(left, right, framesSent, fps);
    } else {
      var k := |buckets| - 1;
      SummedUp(buckets[..k], left, right, framesSent, fps);
      assert buckets == buckets[..k] + [buckets[k]];
      OneMoreBucket(k, framesSent, fps);
      SummedMore(buckets[..k], buckets[k], left, right,
                 FramesBefore(k, framesSent, fps), FramesOf(k, framesSent, fps));
    }
  }

  /**
   Summed over the first buckets: the frames expected are the frames so far, each path's are those complete on it, and
   the last two figures split them into those complete on either path and those on neither.
   */
  lemma {:induction false} BucketsAddUp(
    buckets: seq<Bucket>, left: set<int>, right: set<int>, framesSent: nat, fps: nat)
    requires Tiled(buckets, left, right, framesSent, fps)
    ensures var all := Range(0, Min(framesSent, Start(|buckets|, fps)));
            && Total(ExpectedIn, buckets) == |all|
            && Total(LeftIn, buckets) == |all * left| && Total(RightIn, buckets) == |all * right|
            && Total(EitherIn, buckets) == |all * (left + right)| && Total(LostIn, buckets) == |all - (left + right)|
  {
    SummedUp(buckets, left, right, framesSent, fps);
  }

  lemma {:induction false} StartIs(i: nat, fps: nat)
    ensures Start(i, fps) == i * fps
  {
    if i > 0 {
      StartIs(i - 1, fps);
      assert i * fps == (i - 1) * fps + fps;
    }
  }

  /** Frame f is due in second i. */
  predicate DueIn(f: int, i: nat, fps: nat) { i * fps <= f < (i + 1) * fps }

  /** The frames sent in second i. */
  function FramesIn(i: nat, framesSent: nat, fps: nat): set<int> {
    set f | f in Range(0, framesSent) && DueIn(f, i, fps)
  }

  lemma {:induction false} FramesOfSecond(i: nat, framesSent: nat, fps: nat)
    ensures FramesOf(i, framesSent, fps) == FramesIn(i, framesSent, fps)
  {
    StartIs(i, fps);
    StartIs(i + 1, fps);
    assert i * fps >= 0;
  }

  lemma {:induction false} ChosenFrom(frames: set<int>, left: set<int>, right: set<int>)
    ensures frames * left == set f | f in frames && f in left
    ensures frames * (left + right) == set f | f in frames && (f in left || f in right)
    ensures frames - (left + right) == set f | f in frames && f !in left && f !in right
  {
  }

  /** Every bucket by itself: what it says of the frames sent in its second. */
  lemma {:induction false} BucketTells(
    buckets: seq<Bucket>, left: set<int>, right: set<int>, framesSent: nat, fps: nat, i: nat)
    requires Tiled(buckets, left, right, framesSent, fps) && i < |buckets|
    ensures var b, frames := buckets[i], FramesIn(i, framesSent, fps);
            && b.offset == i && b.expected == |frames|
            && b.left == |set f | f in frames && f in left| && b.right == |set f | f in frames && f in right|
            && b.either == |set f | f in frames && (f in left || f in right)|
            && b.bothLost == |set f | f in frames && f !in left && f !in right|
  {
    hide FramesIn, FramesOf, Start;
    assert buckets[i] == BucketOf(i, FramesOf(i, framesSent, fps), left, right);
    FramesOfSecond(i, framesSent, fps);
    ChosenFrom(FramesIn(i, framesSent, fps), left, right);
    ChosenFrom(FramesIn(i, framesSent, fps), right, left);
  }

  /** There is a bucket for every second in which a frame was sent, and for no other. */
  lemma {:induction false} BucketsCover(
    buckets: seq<Bucket>, left: set<int>, right: set<int>, framesSent: nat, fps: nat, i: nat)
    requires Tiled(buckets, left, right, framesSent, fps) && framesSent <= Start(|buckets|, fps)
    ensures i < |buckets| <==> i * fps < framesSent
  {
    StartIs(i, fps);
    hide BucketOf, FramesOf;
    if i < |buckets| {
      assert Start(i, fps) < framesSent;
    } else {
      StartGrows(|buckets|, i, fps);
    }
  }

  lemma {:induction false} StartGrows(i: nat, j: nat, fps: nat)
    requires i <= j
    ensures Start(i, fps) <= Start(j, fps)
    decreases j
  {
    if i < j {
      StartGrows(i, j - 1, fps);
    }
  }

  // ----- The joined rows -----

  datatype Joined = Joined(seen: nat, complete: nat, partial: nat, fullyLost: nat, notDecodable: nat)

  function Join(framesSent: nat, r: Report): Joined {
    Joined(r.seen, r.complete, r.partial, Max(0, framesSent - r.seen), Max(0, framesSent - r.complete))
  }

  function LostOnBoth(framesSent: nat, completeOnEither: nat): nat { Max(0, framesSent - completeOnEither) }

  /**
   The figure for the frames lost on both paths agrees with the sum over the buckets exactly when the frames
   complete on either path lie among those sent, or cover all of them.
   */
  lemma {:induction false} LostOnBothAgrees(
    buckets: seq<Bucket>, left: set<int>, right: set<int>, framesSent: nat, fps: nat)
    requires fps > 0
    requires Tiled(buckets, left, right, framesSent, fps)
    requires framesSent <= Start(|buckets|, fps)
    ensures Total(ExpectedIn, buckets) == framesSent
    ensures LostOnBoth(framesSent, |left + right|) == Total(LostIn, buckets) <==>
            left + right <= Range(0, framesSent) || Range(0, framesSent) <= left + right
  {
    var sent := Range(0, framesSent);
    BucketsAddUp(buckets, left, right, framesSent, fps);
    RangeSize(0, framesSent);
    AgreeIff(sent, left + right);
  }

  lemma {:induction false} AgreeIff(sent: set<int>, either: set<int>)
    ensures Max(0, |sent| - |either|) == |sent - either| <==> either <= sent || sent <= either
  {
    SplitSize(sent, sent * either);
    SplitSize(either, sent * either);
    assert sent - sent * either == sent - either && either - sent * either == either - sent;
    if either <= sent {
      assert either - sent == {};
    }
    if sent <= either {
      assert sent - either == {};
    }
    if |either - sent| == 0 {
      assert either - sent == {};
      assert either <= sent;
    }
    if |sent - either| == 0 {
      assert sent - either == {};
      assert sent <= either;
    }
  }

  /** One frame sent and only frame 7 complete, which was not: the figure says 0 frames lost, the bucket 1. */
  lemma {:induction false} ForeignFrameHidesLoss(buckets: seq<Bucket>)
    requires buckets == [BucketOf(0, FramesOf(0, 1, 1), {7}, {})]
    ensures Tiled(buckets, {7}, {}, 1, 1) && 1 <= Start(|buckets|, 1)
    ensures LostOnBoth(1, |{7} + {}|) == 0 && Total(LostIn, buckets) == 1
  {
    assert FramesOf(0, 1, 1) == Range(0, 1) == {0};
    assert Start(1, 1) == 1;
    var either: set<int> := {7} + {};
    assert either == {7} && {0} - either == {0};
    assert buckets[..0] == [];
  }

  // ----- From one end to the other -----

  /** Every datagram of the history is one the sender sent; it may have been lost, repeated or reordered on the way. */
  predicate Delivered(h: seq<Packet>, out: seq<Sent>) {
    forall i | 0 <= i < |h| :: Carried(h[i], out)
  }

  predicate Carried(p: Packet, out: seq<Sent>) {
    exists j | 0 <= j < |out| :: p.frameId == out[j].frame && p.index == out[j].index && p.count == out[j].count
  }

  lemma {:induction false} DeliveredFacts(h: seq<Packet>, sizes: seq<nat>, payload: nat, w: World, n: nat)
    requires payload > 0 && n <= |sizes| && Delivered(h, Output(sizes, payload, w, n))
    ensures AllWellFormed(h) && Uniform(h) && Ids(h) <= Range(0, n)
    ensures forall i | 0 <= i < |h| :: 0 <= h[i].frameId < n &&
              h[i].count == FragmentCount(sizes[h[i].frameId], payload)
  {
    EveryDatagramIsPlanned(sizes, payload, w, n);
    forall i | 0 <= i < |h|
      ensures WellFormed(h[i]) && 0 <= h[i].frameId < n && h[i].count == FragmentCount(sizes[h[i].frameId], payload)
    {
      assert Carried(h[i], Output(sizes, payload, w, n));
    }
  }

  /** What the joined row of one path reports for a probe whose datagrams the receiver saw as `es`. */
  function RowOf(framesSent: nat, es: seq<Event>, cap: nat): Joined {
    Join(framesSent, ReportOf(RunEvents(es, cap)))
  }

  lemma {:induction false} RowComplete(framesSent: nat, es: seq<Event>, cap: nat)
    requires AllWellFormed(Packets(es))
    ensures RowOf(framesSent, es, cap).complete == |RunEvents(es, cap).stats.firstArrival.Keys|
  {
    hide RunEvents, Vouched, Incomplete, AllWellFormed, Packets;
    EveryRunIsSound(es, cap);
    var m := RunEvents(es, cap).stats.firstArrival;
    assert |m.Keys| == |m|;
  }

  /**
   Conservation: whatever the network and the summaries did, the frames sent are the frames fully lost, partial
   and complete; no clamp bites, and every complete frame is one that was sent.
   */
  lemma {:induction false} FramesAreConserved(sizes: seq<nat>, payload: nat, w: World, n: nat, es: seq<Event>, cap: nat)
    requires payload > 0 && n <= |sizes| && Delivered(Packets(es), Output(sizes, payload, w, n))
    ensures var row := RowOf(n, es, cap);
            && row.fullyLost + row.partial + row.complete == n
            && row.fullyLost == n - row.seen && row.notDecodable == n - row.complete
            && row.notDecodable == row.fullyLost + row.partial
            && row.complete == |RunEvents(es, cap).stats.firstArrival.Keys|
    ensures RunEvents(es, cap).stats.firstArrival.Keys <= Range(0, n)
  {
    hide Output, Delivered, Uniform, Vouched, Counts, AllWellFormed, RunEvents, Incomplete, StatsBalanced;
    var h := Packets(es);
    DeliveredFacts(h, sizes, payload, w, n);
    EveryRunIsSound(es, cap);
    ReportBalances(RunEvents(es, cap), cap);
    RowComplete(n, es, cap);
    RangeSize(0, n);
    SubsetSize(Ids(h), Range(0, n));
  }

  lemma {:induction false} InsideSums(buckets: seq<Bucket>, left: set<int>, right: set<int>, framesSent: nat, fps: nat)
    requires Tiled(buckets, left, right, framesSent, fps) && framesSent <= Start(|buckets|, fps)
    requires left + right <= Range(0, framesSent)
    ensures Total(LeftIn, buckets) == |left| && Total(RightIn, buckets) == |right|
    ensures Total(EitherIn, buckets) == |left + right|
  {
    BucketsAddUp(buckets, left, right, framesSent, fps);
    var all := Range(0, framesSent);
    assert all * left == left && all * right == right && all * (left + right) == left + right;
  }

  /**
   On two paths that sent the same plan as far as each got, the frames lost on both agree with the buckets, the clamp
   of that figure does not bite either, and what the buckets say of each path adds up to its row.
   */
  lemma {:induction false} BothPathsAgree(
    sizes: seq<nat>, payload: nat, w1: World, w2: World, n1: nat, n2: nat, es1: seq<Event>, es2: seq<Event>, cap: nat,
    buckets: seq<Bucket>, fps: nat)
    requires payload > 0 && fps > 0 && n1 <= |sizes| && n2 <= |sizes|
    requires Delivered(Packets(es1), Output(sizes, payload, w1, n1))
    requires Delivered(Packets(es2), Output(sizes, payload, w2, n2))
    requires Tiled(buckets, RunEvents(es1, cap).stats.firstArrival.Keys, RunEvents(es2, cap).stats.firstArrival.Keys,
                   Max(n1, n2), fps)
    requires Max(n1, n2) <= Start(|buckets|, fps)
    ensures var either := RunEvents(es1, cap).stats.firstArrival.Keys + RunEvents(es2, cap).stats.firstArrival.Keys;
            && |either| <= Max(n1, n2)
            && LostOnBoth(Max(n1, n2), |either|) == Total(LostIn, buckets)
            && Total(LostIn, buckets) + |either| == Max(n1, n2) && Total(EitherIn, buckets) == |either|
            && Total(LeftIn, buckets) == RowOf(n1, es1, cap).complete
            && Total(RightIn, buckets) == RowOf(n2, es2, cap).complete
  {
    hide Output, Delivered, RunEvents, Tiled, Start, Total, RowOf, Packets;
    var left, right := RunEvents(es1, cap).stats.firstArrival.Keys, RunEvents(es2, cap).stats.firstArrival.Keys;
    FramesAreConserved(sizes, payload, w1, n1, es1, cap);
    FramesAreConserved(sizes, payload, w2, n2, es2, cap);
    assert left + right <= Range(0, Max(n1, n2));
    LostOnBothAgrees(buckets, left, right, Max(n1, n2), fps);
    InsideSums(buckets, left, right, Max(n1, n2), fps);
    RangeSize(0, Max(n1, n2));
    SubsetSize(left + right, Range(0, Max(n1, n2)));
  }

  lemma {:induction false} NobodyCancels(count: nat, cancel: nat -> bool, from: nat)
    requires from <= count && forall j: nat :: !cancel(j)
    ensures CutAt(count, cancel, from) == count
    decreases count - from
  {
    if from < count {
      NobodyCancels(count, cancel, from + 1);
    }
  }

  predicate Piece(p: Sent, h: seq<Packet>) { (p.frame as int, p.index as int, p.count as int) in Pieces(h) }

  /** Every datagram sent arrived at least once. */
  predicate AllDelivered(out: seq<Sent>, h: seq<Packet>) { forall i | 0 <= i < |out| :: Piece(out[i], h) }

  /** Without cancellation every planned fragment of every frame is sent. */
  lemma {:induction false} AllIsSent(sizes: seq<nat>, payload: nat, w: World, n: nat, f: nat, j: nat)
    requires payload > 0 && n <= |sizes| && f < n && j < FragmentCount(sizes[f], payload)
    requires Uncancelled(w)
    ensures exists i | 0 <= i < |Output(sizes, payload, w, n)| ::
              var p := Output(sizes, payload, w, n)[i];
              p.frame == f && p.index == j && p.count == FragmentCount(sizes[f], payload)
  {
    hide FragmentCount, FrameOutput, CutAt;
    var front := Output(sizes, payload, w, n - 1);
    var out := Output(sizes, payload, w, n);
    if f < n - 1 {
      AllIsSent(sizes, payload, w, n - 1, f, j);
      var i :| 0 <= i < |front| && front[i].frame == f && front[i].index == j &&
               front[i].count == FragmentCount(sizes[f], payload);
      assert out[i] == front[i];
    } else {
      var count := FragmentCount(sizes[f], payload);
      NobodyCancels(count, w.cancel(f), 0);
      BurstIsPlanned(f, sizes[f], payload, w.header(f), count);
      assert out[|front| + j] == Burst(f, sizes[f], payload, w)[j];
    }
  }

  lemma {:induction false} FrameArrives(sizes: seq<nat>, payload: nat, w: World, n: nat, h: seq<Packet>, f: nat)
    requires payload > 0 && n <= |sizes| && f < n && Uncancelled(w)
    requires Delivered(h, Output(sizes, payload, w, n)) && AllDelivered(Output(sizes, payload, w, n), h)
    ensures f in WholeIds(h)
  {
    var count := FragmentCount(sizes[f], payload);
    DeliveredFacts(h, sizes, payload, w, n);
    forall j: nat | j < count
      ensures j in Arrived(h, f)
    {
      AllIsSent(sizes, payload, w, n, f, j);
      var out := Output(sizes, payload, w, n);
      var i :| 0 <= i < |out| && out[i].frame == f && out[i].index == j && out[i].count == count;
      assert Piece(out[i], h);
    }
    assert 0 in Arrived(h, f);
    var i :| 0 <= i < |h| && h[i].frameId == f;
    AnnouncedIsCount(h, f, i);
    assert Arrived(h, f) == Range(0, count);
  }

  lemma {:induction false} EveryFrameArrives(sizes: seq<nat>, payload: nat, w: World, n: nat, h: seq<Packet>)
    requires payload > 0 && n <= |sizes| && Uncancelled(w)
    requires Delivered(h, Output(sizes, payload, w, n)) && AllDelivered(Output(sizes, payload, w, n), h)
    ensures WholeIds(h) == Range(0, n) && Ids(h) == Range(0, n)
  {
    DeliveredFacts(h, sizes, payload, w, n);
    forall f: nat | f < n ensures f in WholeIds(h) { FrameArrives(sizes, payload, w, n, h, f); }
    assert Range(0, n) <= WholeIds(h) <= Ids(h) <= Range(0, n);
  }

  lemma {:induction false} AllWholeReport(h: seq<Packet>, cap: nat, n: nat)
    requires AllWellFormed(h) && Uniform(h) && Room(h, cap)
    requires |WholeIds(h)| == n && |Ids(h)| == n
    ensures ReportOf(Run(h, cap)) == Report(n, n, 0)
  {
    hide Run, Room, WholeIds, Ids, Uniform;
    var s := Run(h, cap);
    assert s.stats.complete == n && s.stats.seen == n by {
      CompleteIffAllArrived(h, cap);
    }
    RunBalanced(h, cap);
    ReportBalances(s, cap);
  }

  /**
   Nothing lost, nothing reported lost: if every datagram sent arrives, however repeated or reordered, and the
   receiver has room, then every frame sent is complete.
   */
  lemma {:induction false} LosslessIsComplete(sizes: seq<nat>, payload: nat, w: World, n: nat, h: seq<Packet>, cap: nat)
    requires payload > 0 && n <= |sizes| && Uncancelled(w) && Room(h, cap)
    requires Delivered(h, Output(sizes, payload, w, n)) && AllDelivered(Output(sizes, payload, w, n), h)
    ensures RowOf(n, Datagrams(h), cap) == Joined(n, n, 0, 0, 0)
  {
    DeliveredFacts(h, sizes, payload, w, n);
    EveryFrameArrives(sizes, payload, w, n, h);
    RangeSize(0, n);
    AllWholeReport(h, cap, n);
    assert RunEvents(Datagrams(h), cap) == Run(h, cap) by {
      RunIsRunEvents(h, cap);
    }
  }
}
