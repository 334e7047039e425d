/**
 The video sender: the plan of frame sizes that meets a byte budget, and the cutting of every frame into datagrams.
 Frame weights, header lengths, the clock and cancellation come from outside as parameters.
 */
module VideoSender {
  import opened SetFacts

  // ----- The frame size schedule -----

  /** Python's `int` on a float. */
  function Trunc(x: real): int { if x >= 0.0 then x.Floor else -((-x).Floor) }

  /** Python's `round`: to the nearest integer, halves to the even one. */
  function Round(x: real): (r: int)
    ensures x - 0.5 <= r as real <= x + 0.5
    ensures r as real == x - 0.5 || r as real == x + 0.5 ==> r % 2 == 0
  {
    var low := x.Floor;
    var rest := x - low as real;
    if rest < 0.5 then low
    else if rest > 0.5 then low + 1
    else if low % 2 == 0 then low else low + 1
  }

  function Sum(s: seq<int>): int { if s == [] then 0 else Sum(s[..|s| - 1]) + s[|s| - 1] }

  function SumReal(s: seq<real>): real { if s == [] then 0.0 else SumReal(s[..|s| - 1]) + s[|s| - 1] }

  function Scale(target: real, weights: seq<real>): real {
    target / (if SumReal(weights) > 1.0 then SumReal(weights) else 1.0)
  }

  function Scaled(weight: real, scale: real): real { weight * scale }

  /** The real-valued share of the budget that each frame has by its weight. */
  function Shares(weights: seq<real>, scale: real): (r: seq<real>)
    ensures |r| == |weights| && forall i | 0 <= i < |r| :: r[i] == Scaled(weights[i], scale)
  {
    if weights == [] then [] else Shares(weights[..|weights| - 1], scale) + [Scaled(weights[|weights| - 1], scale)]
  }

  /** A share in whole bytes, and at least one. */
  function WholeBytes(share: real): int { Max(1, Trunc(share)) }

  function BaseSizes(shares: seq<real>): (r: seq<int>)
    ensures |r| == |shares| && forall i | 0 <= i < |r| :: r[i] == WholeBytes(shares[i])
  {
    if shares == [] then [] else BaseSizes(shares[..|shares| - 1]) + [WholeBytes(shares[|shares| - 1])]
  }

  /** Whose turn it is, round robin over n frames. */
  function Turn(k: nat, n: nat): (i: nat)
    requires n > 0
    ensures i < n && (k < n ==> i == k)
  {
    k % n
  }

  /** The sizes after `turns` rounds of adding one byte to the frames in turn. */
  function Bumped(base: seq<int>, turns: int): (r: seq<int>)
    requires base != []
    ensures |r| == |base|
    decreases turns
  {
    if turns <= 0 then base
    else
      var s := Bumped(base, turns - 1);
      var i := Turn(turns - 1, |base|);
      s[i := s[i] + 1]
  }

  /** How many bytes the rounded shares leave over; not positive when they use up the budget or more. */
  function Remainder(target: real, base: seq<int>): int { Round(target - Sum(base) as real) }

  /** The whole plan as a function of the budget and the shares. */
  function Plan(target: real, shares: seq<real>): seq<int> {
    if shares == [] then [] else Bumped(BaseSizes(shares), Remainder(target, BaseSizes(shares)))
  }

  method SumUp(a: array<int>) returns (total: int)
    ensures total == Sum(a[..])
  {
    total := 0;
    for i := 0 to a.Length
      invariant total == Sum(a[..i])
    {
      assert a[..i + 1][..i] == a[..i];
      total := total + a[i];
    }
    assert a[..a.Length] == a[..];
  }

  /** Hand the remainder out, one byte a turn, in place. */
  method TopUp(sizes: array<int>, amount: int)
    requires sizes.Length > 0
    modifies sizes
    ensures sizes[..] == Bumped(old(sizes[..]), amount)
  {
    var remainder, index := amount, 0;
    while remainder > 0
      invariant index >= 0 && remainder == amount - index && (amount <= 0 ==> index == 0) && (amount > 0 ==>
                remainder >= 0)
      invariant sizes[..] == Bumped(old(sizes[..]), index)
    {
      var i := Turn(index, sizes.Length);
      sizes[i] := sizes[i] + 1;
      remainder := remainder - 1;
      index := index + 1;
    }
  }

  /** The rounded shares, one per frame. */
  method Allot(weights: seq<real>, scale: real) returns (sizes: array<int>)
    ensures fresh(sizes) && sizes[..] == BaseSizes(Shares(weights, scale))
  {
    sizes := new int[|weights|];
    ghost var shares := Shares(weights, scale);
    for k := 0 to |weights|
      invariant forall i | 0 <= i < k :: sizes[i] == WholeBytes(shares[i])
    {
      sizes[k] := WholeBytes(weights[k] * scale);
    }
  }

  method FrameSizeSchedule(frames: int, target: real, weights: seq<real>) returns (sizes: array<int>)
    requires |weights| == Max(0, frames)
    ensures fresh(sizes) && sizes[..] == Plan(target, Shares(weights, Scale(target, weights)))
  {
    hide BaseSizes, Shares, Sum, Scale, Bumped;
    if frames <= 0 {
      sizes := new int[0];
      return;
    }
    ghost var base := BaseSizes(Shares(weights, Scale(target, weights)));
    sizes := Allot(weights, Scale(target, weights));
    var total := SumUp(sizes);
    assert sizes[..] == base && total == Sum(base);
    var remainder := Round(target - total as real);
    TopUp(sizes, remainder);
    assert sizes[..] == Bumped(base, Remainder(target, base));
  }

  lemma {:induction false} SumUpdate(s: seq<int>, i: nat, x: int)
    requires i < |s|
    ensures Sum(s[i := x]) == Sum(s) - s[i] + x
  {
    var t := s[i := x];
    if i == |s| - 1 {
      assert t[..|t| - 1] == s[..|s| - 1];
    } else {
      assert t[..|t| - 1] == s[..|s| - 1][i := x];
      SumUpdate(s[..|s| - 1], i, x);
    }
  }

  lemma {:induction false} BumpedSum(base: seq<int>, turns: int)
    requires base != []
    ensures Sum(Bumped(base, turns)) == Sum(base) + Max(0, turns)
    decreases turns
  {
    if turns > 0 {
      BumpedSum(base, turns - 1);
      var s := Bumped(base, turns - 1);
      var i := Turn(turns - 1, |base|);
      SumUpdate(s, i, s[i] + 1);
    }
  }

  /** As long as the remainder is no larger than the number of frames, no frame has two turns. */
  lemma {:induction false} BumpedOnce(base: seq<int>, turns: int)
    requires base != [] && turns <= |base|
    ensures forall i | 0 <= i < |base| :: Bumped(base, turns)[i] == base[i] + if i < turns then 1 else 0
    decreases turns
  {
    if turns > 0 {
      BumpedOnce(base, turns - 1);
    }
  }

  /** Whatever the remainder, no frame has more than one turn more than another: the first ones have one more. */
  lemma {:induction false} BumpedEvenly(base: seq<int>, turns: nat)
    requires base != []
    ensures forall i | 0 <= i < |base| ::
              Bumped(base, turns)[i] == base[i] + turns / |base| + if i < turns % |base| then 1 else 0
  {
    if turns > 0 {
      BumpedEvenly(base, turns - 1);
      NextTurn(turns - 1, |base|);
    }
  }

  lemma {:induction false} NextTurn(k: nat, n: nat)
    requires n > 0
    ensures k % n < n - 1 ==> (k + 1) / n == k / n && (k + 1) % n == k % n + 1
    ensures k % n == n - 1 ==> (k + 1) / n == k / n + 1 && (k + 1) % n == 0
  {
    assert k == (k / n) * n + k % n;
    if k % n < n - 1 {
      QuotientIs(k + 1, n, k / n, k % n + 1);
    } else {
      assert k + 1 == (k / n + 1) * n;
      QuotientIs(k + 1, n, k / n + 1, 0);
    }
    assert k + 1 == ((k + 1) / n) * n + (k + 1) % n;
  }

  lemma {:induction false} BumpedGrows(base: seq<int>, turns: int)
    requires base != []
    ensures forall i | 0 <= i < |base| :: Bumped(base, turns)[i] >= base[i]
    decreases turns
  {
    if turns > 0 {
      BumpedGrows(base, turns - 1);
    }
  }

  predicate AllPositive(weights: seq<real>) { forall i | 0 <= i < |weights| :: weights[i] > 0.0 }

  /** No share was too small and had to be raised to one byte. */
  predicate NoneRaised(shares: seq<real>) { forall i | 0 <= i < |shares| :: shares[i] >= 1.0 }

  lemma {:induction false} BaseSum(shares: seq<real>)
    requires AllPositive(shares)
    ensures SumReal(shares) - |shares| as real <= Sum(BaseSizes(shares)) as real <= SumReal(shares) + |shares| as real
    ensures NoneRaised(shares) ==> Sum(BaseSizes(shares)) as real <= SumReal(shares)
  {
    if shares != [] {
      BaseSum(shares[..|shares| - 1]);
      assert BaseSizes(shares)[..|shares| - 1] == BaseSizes(shares[..|shares| - 1]);
    }
  }

  lemma {:induction false} SumOfShares(weights: seq<real>, scale: real)
    ensures SumReal(Shares(weights, scale)) == Scaled(SumReal(weights), scale)
  {
    hide Scaled;
    if weights != [] {
      var front, last := weights[..|weights| - 1], weights[|weights| - 1];
      SumOfShares(front, scale);
      SumRealSnoc(Shares(front, scale), Scaled(last, scale));
      Distributed(SumReal(front), last, scale);
    } else {
      Distributed(0.0, 0.0, scale);
    }
  }

  lemma {:induction false} SumRealSnoc(s: seq<real>, x: real)
    ensures SumReal(s + [x]) == SumReal(s) + x
  {
    assert (s + [x])[..|s|] == s;
  }

  lemma {:induction false} Distributed(a: real, b: real, c: real)
    ensures Scaled(a + b, c) == Scaled(a, c) + Scaled(b, c)
  {
  }

  lemma {:induction false} SumRealPositive(weights: seq<real>)
    requires AllPositive(weights)
    ensures SumReal(weights) >= 0.0
  {
    if weights != [] {
      SumRealPositive(weights[..|weights| - 1]);
    }
  }

  /** The shares use up the budget exactly once the weights sum to one, and never more than the budget. */
  lemma {:induction false} SharesMeetTarget(target: real, weights: seq<real>)
    requires target > 0.0 && AllPositive(weights)
    ensures AllPositive(Shares(weights, Scale(target, weights)))
    ensures SumReal(Shares(weights, Scale(target, weights))) <= target
    ensures SumReal(weights) >= 1.0 ==> SumReal(Shares(weights, Scale(target, weights))) == target
  {
    var scale := Scale(target, weights);
    SumRealPositive(weights);
    SumOfShares(weights, scale);
    ScaleTimesSum(target, SumReal(weights));
    forall i | 0 <= i < |weights| ensures weights[i] * scale > 0.0 { Product(weights[i], scale); }
  }

  lemma {:induction false} ScaleTimesSum(target: real, w: real)
    requires target > 0.0 && w >= 0.0
    ensures target / (if w > 1.0 then w else 1.0) > 0.0
    ensures w * (target / (if w > 1.0 then w else 1.0)) <= target
    ensures w >= 1.0 ==> w * (target / (if w > 1.0 then w else 1.0)) == target
  {
    if w < 1.0 {
      Product(1.0 - w, target);
      assert (1.0 - w) * target == target - w * target;
    }
  }

  lemma {:induction false} Product(a: real, b: real)
    requires a > 0.0 && b > 0.0
    ensures a * b > 0.0
  {
  }

  /** The same budget facts about any positive shares of at most the target. */
  lemma {:induction false} PlanOfShares(target: real, shares: seq<real>)
    requires shares != [] && AllPositive(shares) && SumReal(shares) <= target
    ensures forall i | 0 <= i < |shares| :: Plan(target, shares)[i] >= 1
    ensures target - 0.5 <= Sum(Plan(target, shares)) as real <= target + |shares| as real
    ensures NoneRaised(shares) ==> Sum(Plan(target, shares)) as real <= target + 0.5
    ensures SumReal(shares) == target ==> Remainder(target, BaseSizes(shares)) <= |shares|
  {
    var base := BaseSizes(shares);
    var turns := Remainder(target, base);
    BaseSum(shares);
    BumpedSum(base, turns);
    BumpedGrows(base, turns);
  }

  /** A frame's part of the budget by its weight; weights that sum to less than one leave some of it over. */
  function Part(target: real, weights: seq<real>, i: nat): real
    requires i < |weights|
  {
    if SumReal(weights) <= 1.0 then weights[i] * target else weights[i] * (target / SumReal(weights))
  }

  lemma {:induction false} PartIs(target: real, weights: seq<real>, i: nat)
    requires i < |weights| && AllPositive(weights) && target > 0.0
    ensures BaseSizes(Shares(weights, Scale(target, weights)))[i] == Max(1, Part(target, weights, i).Floor)
  {
    hide BaseSizes, Shares, SumReal;
    var scale := Scale(target, weights);
    SharesMeetTarget(target, weights);
    assert Shares(weights, scale)[i] == Scaled(weights[i], scale) == Part(target, weights, i);
    hide Scale, Scaled, Part;
  }

  /**
   Every frame has its part in whole bytes, and at least one, and of the r bytes that are left over as many as every
   other one, or one more if it is among the first.
   */
  ghost predicate Proportional(plan: seq<int>, target: real, weights: seq<real>, r: nat)
    requires |plan| == |weights| > 0
  {
    forall i | 0 <= i < |weights| ::
      plan[i] == Max(1, Part(target, weights, i).Floor) + r / |weights| + if i < r % |weights| then 1 else 0
  }

  lemma {:induction false} PlanLength(target: real, shares: seq<real>)
    ensures |Plan(target, shares)| == |shares|
  {
  }

  lemma {:induction false} PlanOnce(target: real, shares: seq<real>)
    requires shares != [] && Remainder(target, BaseSizes(shares)) <= |shares|
    ensures forall i | 0 <= i < |shares| ::
              BaseSizes(shares)[i] <= Plan(target, shares)[i] <= BaseSizes(shares)[i] + 1
  {
    hide Remainder;
    BumpedOnce(BaseSizes(shares), Remainder(target, BaseSizes(shares)));
  }

  /** The plan, frame by frame; the bytes left over make up the rounded difference of the budget and the whole parts. */
  lemma {:induction false} PlanIsProportional(target: real, weights: seq<real>) returns (r: nat)
    requires weights != [] && AllPositive(weights) && target > 0.0
    ensures var plan := Plan(target, Shares(weights, Scale(target, weights)));
            |plan| == |weights| && Proportional(plan, target, weights, r)
    ensures var whole := seq(|weights|, i requires 0 <= i < |weights| => Max(1, Part(target, weights, i).Floor));
            r == Max(0, Round(target - Sum(whole) as real))
    ensures SumReal(weights) >= 1.0 ==> r <= |weights|
  {
    hide Shares, Scale, Part, SumReal, Bumped, Sum, Round, BaseSizes;
    var shares := Shares(weights, Scale(target, weights));
    SharesMeetTarget(target, weights);
    PlanOfShares(target, shares);
    var base := BaseSizes(shares);
    r := Max(0, Remainder(target, base));
    BumpedEvenly(base, r);
    NoTurn(base, Remainder(target, base));
    forall i | 0 <= i < |weights|
      ensures base[i] == Max(1, Part(target, weights, i).Floor)
    {
      PartIs(target, weights, i);
    }
    assert base == seq(|weights|, i requires 0 <= i < |weights| => Max(1, Part(target, weights, i).Floor));
  }

  lemma {:induction false} NoTurn(base: seq<int>, turns: int)
    requires base != []
    ensures Bumped(base, turns) == Bumped(base, Max(0, turns))
  {
  }

  /**
   The plan meets the budget: every frame has at least one byte, the total is never short by more than half a
   byte, never over by more than one byte a frame, and within half a byte when no share had to be raised; if the
   weights sum to at least one, every frame has its part of the budget by its weight, in whole bytes, and at most one
   more.
   */
  lemma {:induction false} PlanMeetsBudget(target: real, weights: seq<real>)
    requires weights != [] && AllPositive(weights) && target > 0.0
    ensures var shares := Shares(weights, Scale(target, weights));
            var plan := Plan(target, shares);
            && |plan| == |weights| && (forall i | 0 <= i < |weights| :: plan[i] >= 1)
            && target - 0.5 <= Sum(plan) as real <= target + |weights| as real
            && (NoneRaised(shares) ==> Sum(plan) as real <= target + 0.5)
            && (SumReal(weights) >= 1.0 ==>
                  forall i | 0 <= i < |weights| ::
                    Max(1, Part(target, weights, i).Floor) <= plan[i] <= Max(1, Part(target, weights, i).Floor) + 1)
  {
    hide BaseSizes, Shares, Scale, SumReal, Remainder, Bumped, Plan, Sum, Part;
    var shares := Shares(weights, Scale(target, weights));
    SharesMeetTarget(target, weights);
    PlanLength(target, shares);
    PlanOfShares(target, shares);
    if SumReal(weights) >= 1.0 {
      forall i | 0 <= i < |weights|
        ensures BaseSizes(shares)[i] == Max(1, Part(target, weights, i).Floor)
      {
        PartIs(target, weights, i);
      }
      PlanOnce(target, shares);
    }
  }

  // ----- Cutting a frame into datagrams -----

  /** How many datagrams of at most `payload` bytes a frame needs; an empty frame still needs one. */
  function FragmentCount(bytes: nat, payload: nat): (n: nat)
    requires payload > 0
    ensures n >= 1
  {
    if bytes <= payload then 1 else 1 + FragmentCount(bytes - payload, payload)
  }

  lemma {:induction false} FragmentCountIs(bytes: nat, payload: nat)
    requires payload > 0
    ensures FragmentCount(bytes, payload) == Max(1, (bytes + payload - 1) / payload)
  {
    if bytes > payload {
      FragmentCountIs(bytes - payload, payload);
      OneMoreQuotient(bytes - 1, payload);
      if bytes - payload == 0 {
      } else {
        OneMoreQuotient(bytes - payload - 1, payload);
        QuotientNotNegative(bytes - payload - 1, payload);
      }
    } else if bytes > 0 {
      OneMoreQuotient(bytes - 1, payload);
      SmallQuotient(bytes - 1, payload);
    } else {
      SmallQuotient(payload - 1, payload);
    }
  }

  lemma {:induction false} OneMoreQuotient(a: nat, n: nat)
    requires n > 0
    ensures (a + n) / n == a / n + 1
  {
    assert a == (a / n) * n + a % n;
    assert a + n == (a / n + 1) * n + a % n;
    QuotientIs(a + n, n, a / n + 1, a % n);
  }

  lemma {:induction false} MultipleSigns(d: int, n: nat)
    requires n > 0
    ensures d >= 1 ==> d * n >= n
    ensures d <= -1 ==> d * n <= 0 - n
  {
  }

  lemma {:induction false} QuotientIs(a: nat, n: nat, q: int, r: int)
    requires n > 0 && a == q * n + r && 0 <= r < n
    ensures a / n == q
  {
    var d := a / n - q;
    MultipleSigns(d, n);
    assert a == (a / n) * n + a % n;
    assert d * n == (a / n) * n - q * n;
  }

  lemma {:induction false} SmallQuotient(a: nat, n: nat)
    requires a < n
    ensures a / n == 0
  {
  }

  lemma {:induction false} QuotientNotNegative(a: nat, n: nat)
    requires n > 0
    ensures a / n >= 0
  {
  }

  /** What is left of a frame before fragment k. */
  function Left(bytes: nat, payload: nat, k: nat): nat {
    if k == 0 then bytes else Max(0, Left(bytes, payload, k - 1) - payload)
  }

  datatype Sent = Sent(frame: nat, index: nat, count: nat, planned: nat, size: nat)

  function Cut(frame: nat, bytes: nat, payload: nat, header: nat -> nat, k: nat): Sent
    requires payload > 0
  {
    var planned := Min(payload, Left(bytes, payload, k));
    Sent(frame, k, FragmentCount(bytes, payload), planned, Max(header(k), planned))
  }

  lemma {:induction false} LeftShift(bytes: nat, payload: nat, k: nat)
    requires k > 0
    ensures Left(bytes, payload, k) == Left(Max(0, bytes - payload), payload, k - 1)
  {
    if k > 1 {
      LeftShift(bytes, payload, k - 1);
    }
  }

  /** Every planned fragment holds a byte, all but the last are full, and nothing is left after the last. */
  lemma {:induction false} FragmentSizes(bytes: nat, payload: nat, k: nat)
    requires bytes >= 1 && payload > 0 && k <= FragmentCount(bytes, payload)
    ensures k < FragmentCount(bytes, payload) ==> 1 <= Min(payload, Left(bytes, payload, k)) <= payload
    ensures k + 1 < FragmentCount(bytes, payload) ==> Left(bytes, payload, k) > payload
    ensures k < FragmentCount(bytes, payload) ==>
              Left(bytes, payload, k + 1) == Left(bytes, payload, k) - Min(payload, Left(bytes, payload, k))
    ensures Left(bytes, payload, k) == 0 <==> k == FragmentCount(bytes, payload)
    decreases k
  {
    if k > 0 {
      LeftShift(bytes, payload, k);
      LeftShift(bytes, payload, k + 1);
      if bytes > payload {
        FragmentSizes(bytes - payload, payload, k - 1);
      }
    }
  }

  /** The datagrams of a frame up to fragment `cut`. */
  function FrameOutput(frame: nat, bytes: nat, payload: nat, header: nat -> nat, cut: nat): (r: seq<Sent>)
    requires payload > 0
    ensures |r| == cut
  {
    if cut == 0 then []
    else FrameOutput(frame, bytes, payload, header, cut - 1) + [Cut(frame, bytes, payload, header, cut - 1)]
  }

  /** How many fragments of a frame leave before the sender is told to stop. */
  function CutAt(count: nat, cancel: nat -> bool, from: nat): (r: nat)
    requires from <= count
    ensures from <= r <= count && (r < count ==> cancel(r)) && forall k | from <= k < r :: !cancel(k)
    decreases count - from
  {
    if from == count || cancel(from) then from else CutAt(count, cancel, from + 1)
  }

  /** The loop of the sender before fragment k, all earlier ones having left. */
  ghost predicate Sending(frame: nat, bytes: nat, payload: nat, header: nat -> nat, cancel: nat -> bool, k: nat,
                          packets: seq<Sent>, sent: nat, left: nat)
    requires payload > 0
  {
    && k <= FragmentCount(bytes, payload) && left == Left(bytes, payload, k)
    && packets == FrameOutput(frame, bytes, payload, header, k) && sent == SentBytes(packets)
    && CutAt(FragmentCount(bytes, payload), cancel, 0) == CutAt(FragmentCount(bytes, payload), cancel, k)
  }

  lemma {:induction false} SendingStarts(frame: nat, bytes: nat, payload: nat, header: nat -> nat,
                                         cancel: nat -> bool)
    requires payload > 0
    ensures Sending(frame, bytes, payload, header, cancel, 0, [], 0, bytes)
  {
  }

  lemma {:induction false} SendingMore(frame: nat, bytes: nat, payload: nat, header: nat -> nat, cancel: nat -> bool,
                                       k: nat, packets: seq<Sent>, sent: nat, left: nat)
    requires bytes >= 1 && payload > 0 && k < FragmentCount(bytes, payload) && !cancel(k)
    requires Sending(frame, bytes, payload, header, cancel, k, packets, sent, left)
    ensures var planned := Min(payload, left);
            var packet := Sent(frame, k, FragmentCount(bytes, payload), planned, Max(header(k), planned));
            Sending(frame, bytes, payload, header, cancel, k + 1,
                    packets + [packet], sent + packet.size, Max(0, left - planned))
  {
    hide FragmentCount;
    FragmentSizes(bytes, payload, k);
    assert (packets + [Cut(frame, bytes, payload, header, k)])[..k] == packets;
  }

  lemma {:induction false} SendingEnds(frame: nat, bytes: nat, payload: nat, header: nat -> nat, cancel: nat -> bool,
                                       k: nat, packets: seq<Sent>, sent: nat, left: nat)
    requires bytes >= 1 && payload > 0
    requires Sending(frame, bytes, payload, header, cancel, k, packets, sent, left)
    requires k == FragmentCount(bytes, payload) || cancel(k)
    ensures packets == FrameOutput(frame, bytes, payload, header, CutAt(FragmentCount(bytes, payload), cancel, 0))
    ensures sent == SentBytes(packets) && (left == 0 <==> |packets| == FragmentCount(bytes, payload))
  {
    hide FragmentCount;
    FragmentSizes(bytes, payload, k);
  }

  method Fragments(bytes: nat, payload: nat) returns (fragments: nat)
    requires payload > 0
    ensures fragments == FragmentCount(bytes, payload)
  {
    fragments := Max(1, (bytes + payload - 1) / payload);
    FragmentCountIs(bytes, payload);
  }

  method SendFrame(frame: nat, bytes: nat, payload: nat, header: nat -> nat, cancel: nat -> bool)
    returns (packets: seq<Sent>, sent: nat, left: nat)
    requires bytes >= 1 && payload > 0
    ensures packets == FrameOutput(frame, bytes, payload, header, CutAt(FragmentCount(bytes, payload), cancel, 0))
    ensures sent == SentBytes(packets)
    ensures left == 0 <==> |packets| == FragmentCount(bytes, payload)
  {
    hide FragmentCount, Sending;
    var fragments := Fragments(bytes, payload);
    packets, sent, left := [], 0, bytes;
    var fragment := 0;
    SendingStarts(frame, bytes, payload, header, cancel);
    while fragment < fragments
      invariant fragment <= fragments
      invariant Sending(frame, bytes, payload, header, cancel, fragment, packets, sent, left)
    {
      if cancel(fragment) {
        SendingEnds(frame, bytes, payload, header, cancel, fragment, packets, sent, left);
        return;
      }
      SendingMore(frame, bytes, payload, header, cancel, fragment, packets, sent, left);
      var planned := Min(payload, left);
      var size := if header(fragment) < planned then planned else header(fragment);
      packets := packets + [Sent(frame, fragment, fragments, planned, size)];
      sent := sent + size;
      left := Max(0, left - planned);
      fragment := fragment + 1;
    }
    SendingEnds(frame, bytes, payload, header, cancel, fragments, packets, sent, left);
  }

  function SentBytes(packets: seq<Sent>): nat {
    if packets == [] then 0 else SentBytes(packets[..|packets| - 1]) + packets[|packets| - 1].size
  }

  function PlannedBytes(packets: seq<Sent>): nat {
    if packets == [] then 0 else PlannedBytes(packets[..|packets| - 1]) + packets[|packets| - 1].planned
  }

  /** The bytes of the first fragments without and with their headers. */
  function Planned(bytes: nat, payload: nat, cut: nat): nat {
    if cut == 0 then 0 else Planned(bytes, payload, cut - 1) + Min(payload, Left(bytes, payload, cut - 1))
  }

  function Padded(bytes: nat, payload: nat, header: nat -> nat, cut: nat): nat {
    if cut == 0 then 0
    else Padded(bytes, payload, header, cut - 1) + Max(header(cut - 1), Min(payload, Left(bytes, payload, cut - 1)))
  }

  lemma {:induction false} OutputBytes(frame: nat, bytes: nat, payload: nat, header: nat -> nat, cut: nat)
    requires payload > 0
    ensures PlannedBytes(FrameOutput(frame, bytes, payload, header, cut)) == Planned(bytes, payload, cut)
    ensures SentBytes(FrameOutput(frame, bytes, payload, header, cut)) == Padded(bytes, payload, header, cut)
  {
    if cut > 0 {
      OutputBytes(frame, bytes, payload, header, cut - 1);
      var out := FrameOutput(frame, bytes, payload, header, cut);
      assert out[..cut - 1] == FrameOutput(frame, bytes, payload, header, cut - 1);
    }
  }

  /** The planned bytes of the first fragments are what they took from the frame: all of it after the last. */
  lemma {:induction false} PlannedTakesAll(frame: nat, bytes: nat, payload: nat, header: nat -> nat, cut: nat)
    requires bytes >= 1 && payload > 0 && cut <= FragmentCount(bytes, payload)
    ensures PlannedBytes(FrameOutput(frame, bytes, payload, header, cut)) == bytes - Left(bytes, payload, cut)
    ensures cut == FragmentCount(bytes, payload) ==>
              PlannedBytes(FrameOutput(frame, bytes, payload, header, cut)) == bytes
  {
    OutputBytes(frame, bytes, payload, header, cut);
    PlannedIs(bytes, payload, cut);
    FragmentSizes(bytes, payload, cut);
  }

  lemma {:induction false} PlannedIs(bytes: nat, payload: nat, cut: nat)
    requires bytes >= 1 && payload > 0 && cut <= FragmentCount(bytes, payload)
    ensures Planned(bytes, payload, cut) == bytes - Left(bytes, payload, cut)
  {
    if cut > 0 {
      PlannedIs(bytes, payload, cut - 1);
      FragmentSizes(bytes, payload, cut - 1);
    }
  }

  /** Headers of at most `h` bytes that fit in a datagram disappear in the full fragments. */
  lemma {:induction false} PaddedIs(bytes: nat, payload: nat, header: nat -> nat, cut: nat, h: nat)
    requires bytes >= 1 && payload > 0 && cut < FragmentCount(bytes, payload)
    requires h <= payload && forall k: nat :: header(k) <= h
    ensures Padded(bytes, payload, header, cut) == bytes - Left(bytes, payload, cut)
  {
    if cut > 0 {
      PaddedIs(bytes, payload, header, cut - 1, h);
      FragmentSizes(bytes, payload, cut - 1);
      assert header(cut - 1) <= h;
    }
  }

  /** So only the last fragment can grow, by at most h - 1 bytes. */
  lemma {:induction false} FrameOverhead(frame: nat, bytes: nat, payload: nat, header: nat -> nat, cut: nat, h: nat)
    requires bytes >= 1 && payload > 0 && cut <= FragmentCount(bytes, payload)
    requires 1 <= h <= payload && forall k: nat :: header(k) <= h
    ensures SentBytes(FrameOutput(frame, bytes, payload, header, cut)) <= bytes + h - 1
    ensures cut == FragmentCount(bytes, payload) ==> bytes <= SentBytes(FrameOutput(frame, bytes, payload, header, cut))
  {
    OutputBytes(frame, bytes, payload, header, cut);
    if cut < FragmentCount(bytes, payload) {
      PaddedIs(bytes, payload, header, cut, h);
    } else {
      PaddedIs(bytes, payload, header, cut - 1, h);
      FragmentSizes(bytes, payload, cut - 1);
      FragmentSizes(bytes, payload, cut);
      assert header(cut - 1) <= h;
    }
  }

  // ----- The whole probe -----

  /** How far the sender gets: `alive(k)` says that the deadline has not passed and nobody cancelled before frame k. */
  function FramesSent(frames: nat, alive: nat -> bool, from: nat): (r: nat)
    requires from <= frames
    ensures from <= r <= frames && (r < frames ==> !alive(r)) && forall k | from <= k < r :: alive(k)
    decreases frames - from
  {
    if from == frames || !alive(from) then from else FramesSent(frames, alive, from + 1)
  }

  /** What the probe is told by its surroundings. */
  datatype World = World(alive: nat -> bool, cancel: nat -> nat -> bool, header: nat -> nat -> nat)

  predicate Sizes(sizes: seq<nat>) { forall i | 0 <= i < |sizes| :: sizes[i] >= 1 }

  ghost predicate Uncancelled(w: World) { forall k, j :: !w.cancel(k)(j) }

  ghost predicate HeadersWithin(w: World, h: nat) { forall k, j :: w.header(k)(j) <= h }

  /** The datagrams of one frame, as far as cancellation lets it go. */
  function Burst(k: nat, size: nat, payload: nat, w: World): seq<Sent>
    requires payload > 0
  {
    FrameOutput(k, size, payload, w.header(k), CutAt(FragmentCount(size, payload), w.cancel(k), 0))
  }

  /** The datagrams of the first n frames. */
  function Output(sizes: seq<nat>, payload: nat, w: World, n: nat): seq<Sent>
    requires payload > 0 && n <= |sizes|
  {
    if n == 0 then [] else Output(sizes, payload, w, n - 1) + Burst(n - 1, sizes[n - 1], payload, w)
  }

  datatype Probe = BadFps | BadPayload | Probe(framesSent: nat, datagramsSent: nat, bytesSent: nat, packets: seq<Sent>)

  method RunProbe(sizes: seq<nat>, fps: int, payload: int, w: World) returns (r: Probe)
    requires Sizes(sizes)
    ensures r.BadFps? <==> fps <= 0
    ensures r.BadPayload? <==> fps > 0 && payload < 300
    ensures r.Probe? ==>
              && r.framesSent == FramesSent(|sizes|, w.alive, 0)
              && r.packets == Output(sizes, payload, w, r.framesSent)
              && r.datagramsSent == |r.packets| && r.bytesSent == SentBytes(r.packets)
  {
    if fps <= 0 {
      return BadFps;
    }
    if payload < 300 {
      return BadPayload;
    }
    var framesSent, bytesSent := 0, 0;
    var packets := [];
    while framesSent < |sizes| && w.alive(framesSent)
      invariant framesSent <= |sizes| && FramesSent(|sizes|, w.alive, framesSent) == FramesSent(|sizes|, w.alive, 0)
      invariant packets == Output(sizes, payload, w, framesSent)
      invariant bytesSent == SentBytes(packets)
    {
      var k := framesSent;
      var burst, sent, left := SendFrame(k, sizes[k], payload, w.header(k), w.cancel(k));
      BytesConcat(packets, burst);
      packets := packets + burst;
      bytesSent := bytesSent + sent;
      framesSent := framesSent + 1;
    }
    r := Probe(framesSent, |packets|, bytesSent, packets);
  }

  lemma {:induction false} BytesConcat(a: seq<Sent>, b: seq<Sent>)
    ensures SentBytes(a + b) == SentBytes(a) + SentBytes(b)
  {
    if b == [] {
      assert a + b == a;
    } else {
      assert (a + b)[..|a + b| - 1] == a + b[..|b| - 1];
      BytesConcat(a, b[..|b| - 1]);
    }
  }

  function SumNat(s: seq<nat>, n: nat): nat
    requires n <= |s|
  {
    if n == 0 then 0 else SumNat(s, n - 1) + s[n - 1]
  }

  /** The sum of n times m. */
  function Repeated(n: nat, m: nat): nat { if n == 0 then 0 else Repeated(n - 1, m) + m }

  lemma {:induction false} RepeatedIs(n: nat, m: nat)
    ensures Repeated(n, m) == n * m
  {
    if n > 0 {
      RepeatedIs(n - 1, m);
      assert n * m == (n - 1) * m + m;
    }
  }

  lemma {:induction false} BurstBytes(size: nat, payload: nat, w: World, k: nat, h: nat)
    requires size >= 1 && 1 <= h <= payload && HeadersWithin(w, h)
    ensures SentBytes(Burst(k, size, payload, w)) <= size + h - 1
    ensures Uncancelled(w) ==> size <= SentBytes(Burst(k, size, payload, w))
  {
    FrameOverhead(k, size, payload, w.header(k), CutAt(FragmentCount(size, payload), w.cancel(k), 0), h);
  }

  lemma {:induction false} BytesOfOutput(sizes: seq<nat>, payload: nat, w: World, n: nat)
    requires payload > 0 && n <= |sizes|
    ensures n == 0 ==> SentBytes(Output(sizes, payload, w, n)) == 0
    ensures n > 0 ==> SentBytes(Output(sizes, payload, w, n)) ==
                      SentBytes(Output(sizes, payload, w, n - 1)) + SentBytes(Burst(n - 1, sizes[n - 1], payload, w))
  {
    if n > 0 {
      BytesConcat(Output(sizes, payload, w, n - 1), Burst(n - 1, sizes[n - 1], payload, w));
    }
  }

  lemma {:induction false} OutputWithin(sizes: seq<nat>, payload: nat, w: World, n: nat, h: nat)
    requires payload > 0 && n <= |sizes| && Sizes(sizes)
    requires 1 <= h <= payload && HeadersWithin(w, h)
    ensures SentBytes(Output(sizes, payload, w, n)) <= SumNat(sizes, n) + Repeated(n, h - 1)
    ensures Uncancelled(w) ==> SumNat(sizes, n) <= SentBytes(Output(sizes, payload, w, n))
  {
    hide SentBytes, Output, Burst, HeadersWithin, Uncancelled;
    BytesOfOutput(sizes, payload, w, n);
    if n > 0 {
      OutputWithin(sizes, payload, w, n - 1, h);
      BurstBytes(sizes[n - 1], payload, w, n - 1, h);
    }
  }

  /**
   Bytes on the wire: never more than the planned bytes and h - 1 for every frame; never fewer than planned
   either, unless cancellation cut a frame short.
   */
  lemma {:induction false} WireBytes(sizes: seq<nat>, payload: nat, w: World, n: nat, h: nat)
    requires payload > 0 && n <= |sizes| && Sizes(sizes)
    requires 1 <= h <= payload && HeadersWithin(w, h)
    ensures SentBytes(Output(sizes, payload, w, n)) <= SumNat(sizes, n) + n * (h - 1)
    ensures Uncancelled(w) ==> SumNat(sizes, n) <= SentBytes(Output(sizes, payload, w, n))
  {
    OutputWithin(sizes, payload, w, n, h);
    RepeatedIs(n, h - 1);
  }

  /** The bytes of a frame that fragment k carries: a full payload, or what is left for the last one. */
  function PlannedSize(bytes: nat, payload: nat, k: nat): nat { Min(payload, Max(0, bytes - k * payload)) }

  lemma {:induction false} LeftIs(bytes: nat, payload: nat, k: nat)
    ensures Left(bytes, payload, k) == Max(0, bytes - k * payload)
  {
    if k > 0 {
      LeftIs(bytes, payload, k - 1);
      assert k * payload == (k - 1) * payload + payload;
    }
  }

  lemma {:induction false} CutIs(frame: nat, bytes: nat, payload: nat, header: nat -> nat, k: nat)
    requires payload > 0
    ensures var p := Cut(frame, bytes, payload, header, k);
            p.planned == PlannedSize(bytes, payload, k) && p.size == Max(header(k), p.planned)
  {
    LeftIs(bytes, payload, k);
  }

  /**
   Every datagram names a frame that was sent, its place in it, and the frame's own fragment count; it carries its part
   of the frame, and is as long as that or as its header, whichever is longer.
   */
  lemma {:induction false} EveryDatagramIsPlanned(sizes: seq<nat>, payload: nat, w: World, n: nat)
    requires payload > 0 && n <= |sizes|
    ensures forall i | 0 <= i < |Output(sizes, payload, w, n)| ::
              IsPlanned(Output(sizes, payload, w, n)[i], sizes, payload, w, n)
  {
    if n > 0 {
      hide Cut, FragmentCount, CutAt, PlannedSize;
      EveryDatagramIsPlanned(sizes, payload, w, n - 1);
      var k := n - 1;
      var cut := CutAt(FragmentCount(sizes[k], payload), w.cancel(k), 0);
      BurstIsPlanned(k, sizes[k], payload, w.header(k), cut);
      forall j: nat | j < cut
        ensures IsPlanned(Cut(k, sizes[k], payload, w.header(k), j), sizes, payload, w, n)
      {
        CutNames(k, sizes[k], payload, w.header(k), j);
        CutIs(k, sizes[k], payload, w.header(k), j);
      }
    }
  }

  predicate IsPlanned(p: Sent, sizes: seq<nat>, payload: nat, w: World, n: nat)
    requires payload > 0 && n <= |sizes|
  {
    && p.frame < n && p.index < p.count && p.count == FragmentCount(sizes[p.frame], payload)
    && p.planned == PlannedSize(sizes[p.frame], payload, p.index)
    && p.size == Max(w.header(p.frame)(p.index), p.planned)
  }

  lemma {:induction false} CutNames(frame: nat, bytes: nat, payload: nat, header: nat -> nat, k: nat)
    requires payload > 0
    ensures var p := Cut(frame, bytes, payload, header, k);
            p.frame == frame && p.index == k && p.count == FragmentCount(bytes, payload)
  {
  }

  lemma {:induction false} BurstIsPlanned(k: nat, size: nat, payload: nat, header: nat -> nat, cut: nat)
    requires payload > 0
    ensures forall j | 0 <= j < cut ::
              FrameOutput(k, size, payload, header, cut)[j] == Cut(k, size, payload, header, j)
  {
    if cut > 0 {
      BurstIsPlanned(k, size, payload, header, cut - 1);
    }
  }
}
