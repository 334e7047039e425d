/**
 What the frame receiver's counters mean. `Run` feeds a history of datagrams to the receiver; the reference
 side speaks only about the history itself: which fragments of a frame arrived, and whether some prefix of the
 history held every fragment 0..n-1 of it.
 */
module VideoReassembly {
  import opened SetFacts
  import opened VideoReceiver

  function Run(h: seq<Packet>, cap: nat): PathState {
    if h == [] then EMPTY_PATH else Accept(Run(h[..|h| - 1], cap), h[|h| - 1], cap)
  }

  predicate AllWellFormed(h: seq<Packet>) { forall i | 0 <= i < |h| :: WellFormed(h[i]) }

  // ----- The reference side: facts about a history of datagrams -----

  function Ids(h: seq<Packet>): set<int> { set i | 0 <= i < |h| :: h[i].frameId }

  function Arrived(h: seq<Packet>, f: int): set<int> { set i | 0 <= i < |h| && h[i].frameId == f :: h[i].index }

  function Times(h: seq<Packet>, f: int): set<int> { set i | 0 <= i < |h| && h[i].frameId == f :: h[i].nowNs }

  /** The largest fragment count that the datagrams of frame f announced. */
  function Announced(h: seq<Packet>, f: int): int {
    if h == [] then 0
    else
      var p := h[|h| - 1];
      if p.frameId == f then Max(Announced(h[..|h| - 1], f), p.count) else Announced(h[..|h| - 1], f)
  }

  function FirstSendOf(h: seq<Packet>, f: int): Option<int> {
    if h == [] then None
    else
      var earlier := FirstSendOf(h[..|h| - 1], f);
      if earlier == None && h[|h| - 1].frameId == f then h[|h| - 1].sendNs else earlier
  }

  ghost predicate Covers(h: seq<Packet>, f: int) {
    f in Ids(h) && Arrived(h, f) == Range(0, Announced(h, f))
  }

  /** At some moment every fragment announced so far had arrived. */
  ghost predicate Covered(h: seq<Packet>, f: int) {
    exists k | 0 <= k <= |h| :: Covers(h[..k], f)
  }

  ghost function Pending(h: seq<Packet>): set<int> { set f | f in Ids(h) && !Covered(h, f) }

  /** Never more than `cap` frames waiting at once. */
  ghost predicate Room(h: seq<Packet>, cap: nat) {
    forall k | 0 <= k <= |h| :: |Pending(h[..k])| <= cap
  }

  /** The datagrams that arrived before their frame was covered: the ones the path counts. */
  ghost function Heard(h: seq<Packet>): seq<Packet> {
    if h == [] then []
    else
      var earlier := h[..|h| - 1];
      Heard(earlier) + if Covered(earlier, h[|h| - 1].frameId) then [] else [h[|h| - 1]]
  }

  function Bytes(h: seq<Packet>): nat {
    if h == [] then 0 else Bytes(h[..|h| - 1]) + h[|h| - 1].size
  }

  ghost predicate IsLeast(t: int, s: set<int>) { t in s && forall x | x in s :: t <= x }

  ghost predicate IsGreatest(t: int, s: set<int>) { t in s && forall x | x in s :: x <= t }

  // ----- What the state of a path says about the history -----

  ghost predicate Pictures(fr: Frame, h: seq<Packet>, f: int) {
    && fr.count == Announced(h, f)
    && fr.fragments == Arrived(h, f)
    && IsLeast(fr.firstArrival, Times(h, f))
    && IsGreatest(fr.lastArrival, Times(h, f))
    && fr.firstSend == FirstSendOf(h, f)
  }

  /** Position k is the first at which frame f is covered. */
  ghost predicate CoveredFirstAt(h: seq<Packet>, f: int, k: nat) {
    k <= |h| && Covers(h[..k], f) && forall j | 0 <= j < k :: !Covers(h[..j], f)
  }

  /** The arrival and send times kept for a complete frame are those of the moment it was covered. */
  ghost predicate Recorded(st: Stats, h: seq<Packet>, f: int)
    requires f in st.firstArrival
  {
    exists k: nat | CoveredFirstAt(h, f, k) ::
      && IsLeast(st.firstArrival[f], Times(h[..k], f))
      && (if f in st.firstSend then Some(st.firstSend[f]) else None) == FirstSendOf(h[..k], f)
  }

  ghost predicate AllPictured(frames: map<int, Frame>, h: seq<Packet>) {
    forall f | f in frames :: Pictures(frames[f], h, f)
  }

  ghost predicate AllRecorded(st: Stats, h: seq<Packet>) {
    forall f | f in st.firstArrival :: Recorded(st, h, f)
  }

  ghost predicate FramesReflect(frames: map<int, Frame>, h: seq<Packet>) {
    frames.Keys == Pending(h) && AllPictured(frames, h)
  }

  ghost predicate StatsReflect(st: Stats, h: seq<Packet>) {
    && st.finalized == Ids(h) - Pending(h)
    && st.firstArrival.Keys == Ids(h) - Pending(h)
    && st.firstSend.Keys <= st.firstArrival.Keys
    && AllRecorded(st, h)
    && st.partial == 0
  }

  /** Every field of the path is a function of the history: active and complete frames, their times, the traffic. */
  ghost predicate Reflects(s: PathState, h: seq<Packet>) {
    && FramesReflect(s.frames, h)
    && StatsReflect(s.stats, h)
    && s.datagrams == |Heard(h)| && s.bytes == Bytes(Heard(h))
  }

  // ----- One more datagram -----

  lemma {:induction false} Snoc(h: seq<Packet>, p: Packet, f: int)
    ensures (h + [p])[..|h|] == h
    ensures Ids(h + [p]) == Ids(h) + {p.frameId}
    ensures Arrived(h + [p], f) == Arrived(h, f) + if p.frameId == f then {p.index} else {}
    ensures Times(h + [p], f) == Times(h, f) + if p.frameId == f then {p.nowNs} else {}
    ensures Announced(h + [p], f) == if p.frameId == f then Max(Announced(h, f), p.count) else Announced(h, f)
    ensures FirstSendOf(h + [p], f) ==
              if FirstSendOf(h, f) == None && p.frameId == f then p.sendNs else FirstSendOf(h, f)
  {
    var g := h + [p];
    assert g[..|h|] == h && g[|h|] == p;
    assert forall i | 0 <= i < |h| :: g[i] == h[i];
    assert g[|h|].frameId == p.frameId;
  }

  lemma {:induction false} CoveredSnoc(h: seq<Packet>, p: Packet, f: int)
    ensures Covered(h + [p], f) <==> Covered(h, f) || Covers(h + [p], f)
    ensures p.frameId != f ==> (Covered(h + [p], f) <==> Covered(h, f))
  {
    var g := h + [p];
    assert forall k | 0 <= k <= |h| :: g[..k] == h[..k];
    assert g[..|g|] == g && h[..|h|] == h;
    if Covered(h, f) {
      var k :| 0 <= k <= |h| && Covers(h[..k], f);
      assert Covers(g[..k], f);
    }
    if Covered(g, f) {
      var k :| 0 <= k <= |g| && Covers(g[..k], f);
      if k <= |h| {
        assert Covers(h[..k], f);
      }
    }
    if Covers(g, f) {
      assert Covers(g[..|g|], f);
      if p.frameId != f {
        Snoc(h, p, f);
        assert Covers(h[..|h|], f);
      }
    }
  }

  lemma {:induction false} Unseen(h: seq<Packet>, f: int)
    requires f !in Ids(h)
    ensures !Covered(h, f) && Arrived(h, f) == {} && Times(h, f) == {}
    ensures Announced(h, f) == 0 && FirstSendOf(h, f) == None
  {
    assert forall i | 0 <= i < |h| :: h[i].frameId in Ids(h);
    forall k | 0 <= k <= |h|
      ensures !Covers(h[..k], f)
    {
      assert forall i | 0 <= i < k :: h[..k][i] == h[i];
    }
    if h != [] {
      var p := h[|h| - 1];
      var earlier := h[..|h| - 1];
      assert h == earlier + [p];
      Snoc(earlier, p, f);
      Unseen(earlier, f);
    }
  }

  lemma {:induction false} PendingSnoc(h: seq<Packet>, p: Packet)
    ensures Covered(h + [p], p.frameId) ==> Pending(h + [p]) == Pending(h) - {p.frameId}
    ensures !Covered(h + [p], p.frameId) ==> Pending(h + [p]) == Pending(h) + {p.frameId}
  {
    var g := h + [p];
    Snoc(h, p, p.frameId);
    forall f | f != p.frameId
      ensures f in Pending(g) <==> f in Pending(h)
    {
      CoveredSnoc(h, p, f);
    }
  }

  /** The touched frame pictures the longer history. */
  lemma {:induction false} TouchedPictures(s: PathState, h: seq<Packet>, p: Packet)
    requires AllPictured(s.frames, h) && (p.frameId !in s.frames ==> p.frameId !in Ids(h)) && WellFormed(p)
    ensures Pictures(Touched(s, p), h + [p], p.frameId)
  {
    var f := p.frameId;
    Snoc(h, p, f);
    if f !in s.frames {
      Unseen(h, f);
    }
  }

  /** A datagram of another frame leaves the picture of an active frame alone. */
  lemma {:induction false} OtherPictures(fr: Frame, h: seq<Packet>, p: Packet, f: int)
    requires Pictures(fr, h, f) && p.frameId != f
    ensures Pictures(fr, h + [p], f)
  {
    Snoc(h, p, f);
  }

  lemma {:induction false} PicturesStay(frames: map<int, Frame>, h: seq<Packet>, p: Packet)
    requires AllPictured(frames, h) && p.frameId !in frames
    ensures AllPictured(frames, h + [p])
  {
    forall f | f in frames ensures Pictures(frames[f], h + [p], f) { OtherPictures(frames[f], h, p, f); }
  }

  lemma {:induction false} RecordedStays(st: Stats, h: seq<Packet>, p: Packet, f: int)
    requires f in st.firstArrival && Recorded(st, h, f)
    ensures Recorded(st, h + [p], f)
  {
    var k: nat :| CoveredFirstAt(h, f, k) && IsLeast(st.firstArrival[f], Times(h[..k], f)) &&
                  (if f in st.firstSend then Some(st.firstSend[f]) else None) == FirstSendOf(h[..k], f);
    assert forall j | 0 <= j <= k :: (h + [p])[..j] == h[..j];
    assert CoveredFirstAt(h + [p], f, k);
  }

  lemma {:induction false} RecordsStay(st: Stats, h: seq<Packet>, p: Packet)
    requires AllRecorded(st, h)
    ensures AllRecorded(st, h + [p])
  {
    forall f | f in st.firstArrival ensures Recorded(st, h + [p], f) { RecordedStays(st, h, p, f); }
  }

  lemma {:induction false} RecordedNow(st: Stats, h: seq<Packet>, p: Packet, fr: Frame)
    requires p.frameId in st.firstArrival && st.firstArrival[p.frameId] == fr.firstArrival
    requires (if p.frameId in st.firstSend then Some(st.firstSend[p.frameId]) else None) == fr.firstSend
    requires Pictures(fr, h + [p], p.frameId) && Covers(h + [p], p.frameId) && !Covered(h, p.frameId)
    ensures Recorded(st, h + [p], p.frameId)
  {
    var g := h + [p];
    assert g[..|g|] == g;
    forall j | 0 <= j < |g|
      ensures !Covers(g[..j], p.frameId)
    {
      assert g[..j] == h[..j];
    }
    assert CoveredFirstAt(g, p.frameId, |g|);
  }

  lemma {:induction false} HeardSnoc(h: seq<Packet>, p: Packet)
    ensures Heard(h + [p]) == Heard(h) + if Covered(h, p.frameId) then [] else [p]
    ensures Bytes(Heard(h + [p])) == Bytes(Heard(h)) + if Covered(h, p.frameId) then 0 else p.size
  {
    assert (h + [p])[..|h|] == h;
    if !Covered(h, p.frameId) {
      assert (Heard(h) + [p])[..|Heard(h)|] == Heard(h);
    } else {
      assert Heard(h) + [] == Heard(h);
    }
  }

  lemma {:induction false} StepLate(s: PathState, h: seq<Packet>, p: Packet)
    requires Reflects(s, h) && p.frameId in s.stats.finalized
    ensures Reflects(s, h + [p])
  {
    Snoc(h, p, p.frameId);
    CoveredSnoc(h, p, p.frameId);
    PendingSnoc(h, p);
    assert Ids(h + [p]) == Ids(h) && Pending(h + [p]) == Pending(h);
    HeardSnoc(h, p);
    assert FramesReflect(s.frames, h + [p]) by {
      PicturesStay(s.frames, h, p);
    }
    assert StatsReflect(s.stats, h + [p]) by {
      RecordsStay(s.stats, h, p);
    }
  }

  lemma {:induction false} IdsSnoc(h: seq<Packet>, p: Packet)
    requires !Covered(h, p.frameId)
    ensures Pending(h + [p]) == if Covers(h + [p], p.frameId)
              then Pending(h) - {p.frameId} else Pending(h) + {p.frameId}
    ensures Ids(h + [p]) - Pending(h + [p]) ==
              Ids(h) - Pending(h) + if Covers(h + [p], p.frameId) then {p.frameId} else {}
  {
    Snoc(h, p, p.frameId);
    CoveredSnoc(h, p, p.frameId);
    PendingSnoc(h, p);
  }

  /** A frame that is not finalised has not been covered, and one more datagram covers it just when none is missing. */
  lemma {:induction false} TouchedWhole(s: PathState, h: seq<Packet>, p: Packet, cap: nat)
    requires AllPictured(s.frames, h) && (p.frameId !in s.frames ==> p.frameId !in Ids(h))
    requires Balanced(s, cap) && WellFormed(p)
    ensures Pictures(Touched(s, p), h + [p], p.frameId)
    ensures |Touched(s, p).fragments| >= Touched(s, p).count <==> Covers(h + [p], p.frameId)
    ensures Whole(Touched(s, p)) <==> Covers(h + [p], p.frameId)
  {
    TouchedPictures(s, h, p);
    TouchedInRange(s, p);
    Snoc(h, p, p.frameId);
  }

  lemma {:induction false} StepIds(s: PathState, h: seq<Packet>, p: Packet, cap: nat)
    requires Reflects(s, h) && Balanced(s, cap) && WellFormed(p) && p.frameId !in s.stats.finalized
    ensures !Covered(h, p.frameId)
    ensures Pictures(Touched(s, p), h + [p], p.frameId)
    ensures |Touched(s, p).fragments| >= Touched(s, p).count <==> Covers(h + [p], p.frameId)
    ensures Whole(Touched(s, p)) <==> Covers(h + [p], p.frameId)
  {
    if p.frameId !in Ids(h) {
      Unseen(h, p.frameId);
    }
    TouchedWhole(s, h, p, cap);
  }

  lemma {:induction false} FramesOpen(frames: map<int, Frame>, h: seq<Packet>, p: Packet, fr: Frame)
    requires FramesReflect(frames, h) && Pictures(fr, h + [p], p.frameId)
    requires Pending(h + [p]) == Pending(h) + {p.frameId}
    ensures FramesReflect(frames[p.frameId := fr], h + [p])
  {
    PicturesStay(frames - {p.frameId}, h, p);
    forall f | f in frames && f != p.frameId
      ensures Pictures(frames[f], h + [p], f)
    {
      assert f in frames - {p.frameId};
    }
  }

  lemma {:induction false} FramesWhole(frames: map<int, Frame>, h: seq<Packet>, p: Packet, fr: Frame)
    requires FramesReflect(frames, h)
    requires Pending(h + [p]) == Pending(h) - {p.frameId}
    ensures FramesReflect(frames[p.frameId := fr] - {p.frameId}, h + [p])
  {
    PicturesStay(frames - {p.frameId}, h, p);
    assert frames[p.frameId := fr] - {p.frameId} == frames - {p.frameId};
  }

  lemma {:induction false} SeenApart(st: Stats, h: seq<Packet>, seen: nat)
    requires StatsReflect(st, h)
    ensures StatsReflect(st.(seen := seen), h)
  {
    var u := st.(seen := seen);
    forall f | f in u.firstArrival ensures Recorded(u, h, f) { assert Recorded(st, h, f); }
  }

  lemma {:induction false} StatsOpen(st: Stats, h: seq<Packet>, p: Packet)
    requires StatsReflect(st, h)
    requires Ids(h + [p]) - Pending(h + [p]) == Ids(h) - Pending(h)
    ensures StatsReflect(st, h + [p])
  {
    RecordsStay(st, h, p);
  }

  lemma {:induction false} RecordsWhole(st: Stats, h: seq<Packet>, p: Packet, fr: Frame)
    requires AllRecorded(st, h) && p.frameId !in st.finalized && Whole(fr)
    requires st.firstSend.Keys <= st.firstArrival.Keys <= st.finalized
    requires Pictures(fr, h + [p], p.frameId) && Covers(h + [p], p.frameId) && !Covered(h, p.frameId)
    ensures AllRecorded(Finalized(st, p.frameId, fr), h + [p])
  {
    var u := Finalized(st, p.frameId, fr);
    forall f | f in u.firstArrival
      ensures Recorded(u, h + [p], f)
    {
      if f == p.frameId {
        RecordedNow(u, h, p, fr);
      } else {
        RecordedStays(st, h, p, f);
        assert Recorded(st, h + [p], f);
      }
    }
  }

  lemma {:induction false} StatsWhole(st: Stats, h: seq<Packet>, p: Packet, fr: Frame)
    requires StatsReflect(st, h) && p.frameId !in st.finalized && Whole(fr)
    requires Ids(h + [p]) - Pending(h + [p]) == Ids(h) - Pending(h) + {p.frameId}
    requires Pictures(fr, h + [p], p.frameId) && Covers(h + [p], p.frameId) && !Covered(h, p.frameId)
    ensures StatsReflect(Finalized(st, p.frameId, fr), h + [p])
  {
    hide Pictures, Covers, Covered, Pending, Ids, Whole;
    RecordsWhole(st, h, p, fr);
    assert Finalized(st, p.frameId, fr).firstArrival.Keys == st.firstArrival.Keys + {p.frameId};
  }

  lemma {:induction false} StepWhole(s: PathState, h: seq<Packet>, p: Packet)
    requires Reflects(s, h) && p.frameId !in s.stats.finalized && !Covered(h, p.frameId)
    requires Pictures(Touched(s, p), h + [p], p.frameId) && Whole(Touched(s, p)) && Covers(h + [p], p.frameId)
    ensures Reflects(Closed(Noted(s, p), p.frameId), h + [p])
  {
    IdsSnoc(h, p);
    FramesWhole(s.frames, h, p, Touched(s, p));
    SeenApart(s.stats, h, Noted(s, p).stats.seen);
    StatsWhole(Noted(s, p).stats, h, p, Touched(s, p));
    HeardSnoc(h, p);
  }

  lemma {:induction false} StepOpen(s: PathState, h: seq<Packet>, p: Packet)
    requires Reflects(s, h) && p.frameId !in s.stats.finalized && !Covered(h, p.frameId)
    requires Pictures(Touched(s, p), h + [p], p.frameId) && !Covers(h + [p], p.frameId)
    ensures Reflects(Noted(s, p), h + [p])
  {
    IdsSnoc(h, p);
    FramesOpen(s.frames, h, p, Touched(s, p));
    SeenApart(s.stats, h, Noted(s, p).stats.seen);
    StatsOpen(Noted(s, p).stats, h, p);
    HeardSnoc(h, p);
  }

  lemma {:induction false} StepReflects(s: PathState, h: seq<Packet>, p: Packet, cap: nat)
    requires Reflects(s, h) && Balanced(s, cap) && WellFormed(p) && |Pending(h + [p])| <= cap
    ensures Reflects(Accept(s, p, cap), h + [p])
  {
    if p.frameId in s.stats.finalized {
      StepLate(s, h, p);
    } else {
      AcceptOnce(s, p, cap);
      StepIds(s, h, p, cap);
      if Covers(h + [p], p.frameId) {
        StepWhole(s, h, p);
      } else {
        StepOpen(s, h, p);
        assert |Noted(s, p).frames.Keys| == |Noted(s, p).frames|;
      }
    }
  }

  // ----- Whole histories -----

  lemma {:induction false} RunBalanced(h: seq<Packet>, cap: nat)
    requires AllWellFormed(h)
    ensures Balanced(Run(h, cap), cap)
  {
    if h != [] {
      RunBalanced(h[..|h| - 1], cap);
      AcceptKeepsBalance(Run(h[..|h| - 1], cap), h[|h| - 1], cap);
    }
  }

  lemma {:induction false} RoomSnoc(h: seq<Packet>, p: Packet, cap: nat)
    ensures Room(h + [p], cap) <==> Room(h, cap) && |Pending(h + [p])| <= cap
  {
    var g := h + [p];
    assert g[..|g|] == g;
    assert forall k | 0 <= k <= |h| :: g[..k] == h[..k];
    if Room(g, cap) {
      assert |Pending(g[..|g|])| <= cap;
      forall k | 0 <= k <= |h| ensures |Pending(h[..k])| <= cap { assert |Pending(g[..k])| <= cap; }
    }
  }

  /** The parts of a path after its counters have noted a datagram. */
  lemma {:induction false} NotedParts(s: PathState, p: Packet)
    ensures Noted(s, p).frames == s.frames[p.frameId := Touched(s, p)]
    ensures Noted(s, p).stats == s.stats.(seen := Noted(s, p).stats.seen)
    ensures Noted(s, p).datagrams == s.datagrams + 1 && Noted(s, p).bytes == s.bytes + p.size
  {
  }

  lemma {:induction false} PartialGrows(s: PathState, p: Packet, cap: nat)
    requires |s.frames| <= cap
    ensures Accept(s, p, cap).stats.partial >= s.stats.partial
  {
    hide Touched, Pruned, Whole, Noted;
    if p.frameId !in s.stats.finalized {
      NotedParts(s, p);
      AcceptOnce(s, p, cap);
    }
  }

  lemma {:induction false} OverflowIsOpen(s: PathState, h: seq<Packet>, p: Packet, cap: nat)
    requires Reflects(s, h) && Balanced(s, cap) && WellFormed(p) && |Pending(h + [p])| > cap
    ensures p.frameId !in s.stats.finalized && |Touched(s, p).fragments| < Touched(s, p).count
    ensures Noted(s, p).frames.Keys == Pending(h + [p])
    ensures Noted(s, p).stats.partial == 0 && Noted(s, p).stats.finalized == s.stats.firstArrival.Keys
  {
    assert |s.frames.Keys| == |s.frames|;
    if p.frameId in s.stats.finalized {
      StepLate(s, h, p);
      assert false;
    }
    StepIds(s, h, p, cap);
    IdsSnoc(h, p);
    if Covers(h + [p], p.frameId) {
      SubsetSize(Pending(h) - {p.frameId}, s.frames.Keys);
      assert false;
    }
    StepOpen(s, h, p);
  }

  /** With no room left the datagram evicts the lowest waiting frame, and that frame is counted partial for good. */
  lemma {:induction false} OverflowEvicts(s: PathState, h: seq<Packet>, p: Packet, cap: nat)
    requires Reflects(s, h) && Balanced(s, cap) && WellFormed(p) && |Pending(h + [p])| > cap
    ensures Accept(s, p, cap).stats.partial == 1
    ensures Accept(s, p, cap).frames.Keys == Pending(h + [p]) - {Least(Pending(h + [p]))}
    ensures Accept(s, p, cap).stats.firstArrival == s.stats.firstArrival
    ensures Least(Pending(h + [p])) in Accept(s, p, cap).stats.finalized - s.stats.firstArrival.Keys
  {
    hide Reflects, Pending, Pruned, Tallied;
    OverflowIsOpen(s, h, p, cap);
    EvictsLowest(s, p, cap);
  }

  /** A datagram that leaves one frame too many evicts the lowest. */
  lemma {:induction false} EvictsLowest(s: PathState, p: Packet, cap: nat)
    requires Balanced(s, cap) && WellFormed(p) && p.frameId !in s.stats.finalized
    requires |Touched(s, p).fragments| < Touched(s, p).count && |Noted(s, p).frames.Keys| > cap
    ensures var t, low := Noted(s, p), Least(Noted(s, p).frames.Keys);
            && Accept(s, p, cap).stats == t.stats.(partial := t.stats.partial + 1, finalized := t.stats.finalized +
                {low})
            && Accept(s, p, cap).frames.Keys == t.frames.Keys - {low} && low !in t.stats.finalized
  {
    hide StatsBalanced, Pruned, Touched, Noted;
    var t := Noted(s, p);
    NotedParts(s, p);
    assert |t.frames.Keys| == |t.frames|;
    AcceptOnce(s, p, cap);
    var low := Least(t.frames.Keys);
    TouchedInRange(s, p);
    assert Incomplete(t.frames[low]) && low !in t.stats.finalized;
    ClosingIncomplete(t, low);
    ClosedShrinks(t, low);
  }

  /**
   The reassembly theorem. As long as there is room for every waiting frame, the frames counted complete are
   exactly those that some prefix of the history covered, every other frame seen is still active with exactly
   the fragments that arrived, and no frame is partial. The converse holds too: a frame counted partial is the
   mark of an overflow, so `partial == 0` tells the two situations apart.
   */
  lemma {:induction false} Reassembly(h: seq<Packet>, cap: nat)
    requires AllWellFormed(h)
    ensures Run(h, cap).stats.partial == 0 <==> Room(h, cap)
    ensures Room(h, cap) ==> Reflects(Run(h, cap), h)
  {
    if h == [] {
      forall k | 0 <= k <= |h| ensures Pending(h[..k]) == {} { assert h[..k] == []; }
    } else {
      var earlier, p := h[..|h| - 1], h[|h| - 1];
      assert h == earlier + [p];
      Reassembly(earlier, cap);
      RunBalanced(earlier, cap);
      RoomSnoc(earlier, p, cap);
      PartialGrows(Run(earlier, cap), p, cap);
      if Room(earlier, cap) {
        if |Pending(h)| <= cap {
          StepReflects(Run(earlier, cap), earlier, p, cap);
        } else {
          OverflowEvicts(Run(earlier, cap), earlier, p, cap);
        }
      }
    }
  }

  // ----- One fragment count per frame: completeness no longer depends on when the datagrams came -----

  predicate Uniform(h: seq<Packet>) {
    forall i, j | 0 <= i < |h| && 0 <= j < |h| && h[i].frameId == h[j].frameId :: h[i].count == h[j].count
  }

  lemma {:induction false} AnnouncedIsCount(h: seq<Packet>, f: int, i: int)
    requires AllWellFormed(h) && Uniform(h) && 0 <= i < |h| && h[i].frameId == f
    ensures Announced(h, f) == h[i].count
  {
    var earlier := h[..|h| - 1];
    if j :| 0 <= j < |earlier| && h[j].frameId == f {
      AnnouncedIsCount(earlier, f, j);
    } else {
      assert forall j | 0 <= j < |earlier| :: earlier[j] == h[j];
      Unseen(earlier, f);
    }
  }

  lemma {:induction false} UniformCovered(h: seq<Packet>, f: int)
    requires AllWellFormed(h) && Uniform(h)
    ensures Covered(h, f) <==> Covers(h, f)
  {
    assert h[..|h|] == h;
    if Covered(h, f) {
      var k :| 0 <= k <= |h| && Covers(h[..k], f);
      var i :| 0 <= i < k && h[..k][i].frameId == f;
      assert h[i].frameId == f;
      AnnouncedIsCount(h[..k], f, i);
      AnnouncedIsCount(h, f, i);
      assert Arrived(h[..k], f) <= Arrived(h, f) by {
        assert forall j | 0 <= j < k :: h[..k][j] == h[j];
      }
      assert Arrived(h, f) <= Range(0, Announced(h, f));
    }
  }

  /** The frames all of whose announced fragments are among the arrivals. */
  function WholeIds(h: seq<Packet>): set<int> {
    set f | f in Ids(h) && Arrived(h, f) == Range(0, Announced(h, f))
  }

  lemma {:induction false} UniformPending(h: seq<Packet>)
    requires AllWellFormed(h) && Uniform(h)
    ensures Pending(h) == Ids(h) - WholeIds(h) && Ids(h) - Pending(h) == WholeIds(h)
  {
    forall f ensures Covered(h, f) <==> Covers(h, f) { UniformCovered(h, f); }
  }

  lemma {:induction false} ReflectedSizes(s: PathState, h: seq<Packet>)
    requires Reflects(s, h) && Tallied(s)
    ensures s.stats.complete == |Ids(h) - Pending(h)| && s.stats.seen == |Ids(h)|
  {
    assert |s.stats.firstArrival.Keys| == |s.stats.firstArrival| && |s.frames.Keys| == |s.frames|;
    SplitSize(Ids(h), Pending(h));
  }

  /**
   With one fragment count per frame, whatever was lost, repeated or reordered, the frames counted complete are
   exactly those all of whose fragments arrived, and the others seen are exactly the active ones.
   */
  lemma {:induction false} CompleteIffAllArrived(h: seq<Packet>, cap: nat)
    requires AllWellFormed(h) && Uniform(h) && Room(h, cap)
    ensures Run(h, cap).stats.firstArrival.Keys == WholeIds(h)
    ensures Run(h, cap).stats.complete == |WholeIds(h)|
    ensures Run(h, cap).frames.Keys == Ids(h) - WholeIds(h)
    ensures Run(h, cap).stats.seen == |Ids(h)|
  {
    Reassembly(h, cap);
    RunBalanced(h, cap);
    UniformPending(h);
    ReflectedSizes(Run(h, cap), h);
  }

  /** The distinct fragments of a history, without order or multiplicity. */
  function Pieces(h: seq<Packet>): set<(int, int, int)> {
    set i | 0 <= i < |h| :: (h[i].frameId, h[i].index, h[i].count)
  }

  lemma {:induction false} PiecesDecide(g: seq<Packet>, h: seq<Packet>, f: int)
    requires AllWellFormed(g) && AllWellFormed(h) && Uniform(g) && Uniform(h) && Pieces(g) == Pieces(h)
    ensures f in Ids(g) ==> f in Ids(h) && Announced(g, f) == Announced(h, f)
    ensures Arrived(g, f) <= Arrived(h, f)
  {
    forall i | 0 <= i < |g| && g[i].frameId == f
      ensures f in Ids(h) && Announced(g, f) == Announced(h, f) && g[i].index in Arrived(h, f)
    {
      assert (g[i].frameId, g[i].index, g[i].count) in Pieces(h);
      var j :| 0 <= j < |h| && (h[j].frameId, h[j].index, h[j].count) == (g[i].frameId, g[i].index, g[i].count);
      AnnouncedIsCount(g, f, i);
      AnnouncedIsCount(h, f, j);
    }
  }

  lemma {:induction false} SamePieces(g: seq<Packet>, h: seq<Packet>)
    requires AllWellFormed(g) && AllWellFormed(h) && Uniform(g) && Uniform(h) && Pieces(g) == Pieces(h)
    ensures Ids(g) == Ids(h) && WholeIds(g) == WholeIds(h)
  {
    forall f
      ensures f in Ids(g) <==> f in Ids(h)
      ensures f in WholeIds(g) <==> f in WholeIds(h)
    {
      PiecesDecide(g, h, f);
      PiecesDecide(h, g, f);
    }
  }

  /** Two histories with the same fragments, in any order and with any repetition, complete the same frames. */
  lemma {:induction false} OrderDoesNotMatter(g: seq<Packet>, h: seq<Packet>, cap: nat)
    requires AllWellFormed(g) && AllWellFormed(h) && Uniform(g) && Uniform(h)
    requires Room(g, cap) && Room(h, cap) && Pieces(g) == Pieces(h)
    ensures Run(g, cap).stats.firstArrival.Keys == Run(h, cap).stats.firstArrival.Keys
    ensures Run(g, cap).frames.Keys == Run(h, cap).frames.Keys
    ensures Run(g, cap).stats.complete == Run(h, cap).stats.complete
    ensures Run(g, cap).stats.seen == Run(h, cap).stats.seen
  {
    CompleteIffAllArrived(g, cap);
    CompleteIffAllArrived(h, cap);
    SamePieces(g, h);
  }

  /** Uniformity is needed: with two announced counts for one frame, the order decides whether it completes. */
  lemma {:induction false} MixedCountsDependOnOrder(cap: nat)
    requires cap > 0
    ensures
      var a := Packet(7, 0, 1, None, 100, 1);
      var b := Packet(7, 1, 3, None, 100, 2);
      Run([a, b], cap).stats.complete == 1 && Run([b, a], cap).stats.complete == 0
  {
    var a := Packet(7, 0, 1, None, 100, 1);
    var b := Packet(7, 1, 3, None, 100, 2);
    LowCountFirst(a, b, cap);
    HighCountFirst(a, b, cap);
  }

  /** The frame is complete before the higher count is known, and then the late datagram is not counted. */
  lemma {:induction false} LowCountFirst(a: Packet, b: Packet, cap: nat)
    requires cap > 0 && a.frameId == b.frameId && a.count == 1
    ensures Run([a, b], cap).stats.complete == 1
  {
    hide Pruned;
    assert [a, b][..1] == [a] && [a][..0] == [];
    assert Run([a], cap) == Accept(EMPTY_PATH, a, cap);
    AcceptOnce(EMPTY_PATH, a, cap);
  }

  lemma {:induction false} HighCountFirst(a: Packet, b: Packet, cap: nat)
    requires cap > 0 && a.frameId == b.frameId && a.count == 1 && b.count == 3
    ensures Run([b, a], cap).stats.complete == 0
  {
    hide Pruned;
    assert [b, a][..1] == [b] && [b][..0] == [];
    assert Run([b], cap) == Accept(EMPTY_PATH, b, cap);
    AcceptOnce(EMPTY_PATH, b, cap);
    NotedKeys(EMPTY_PATH, b);
    assert Run([b], cap) == Noted(EMPTY_PATH, b);
    AcceptOnce(Noted(EMPTY_PATH, b), a, cap);
    NotedKeys(Noted(EMPTY_PATH, b), a);
  }

  // ----- Which frames depend on the order -----

  /** The same datagrams in another order. */
  ghost predicate Reordered(g: seq<Packet>, h: seq<Packet>) { multiset(g) == multiset(h) }

  predicate Completes(g: seq<Packet>, cap: nat, f: int) { f in Run(g, cap).stats.firstArrival }

  function Counts(h: seq<Packet>, f: int): set<int> { set i | 0 <= i < |h| && h[i].frameId == f :: h[i].count }

  /** The fragments of frame f that came with a count of at most n. */
  function Low(h: seq<Packet>, f: int, n: int): set<int> {
    set i | 0 <= i < |h| && h[i].frameId == f && h[i].count <= n :: h[i].index
  }

  /** For some announced count, the datagrams that announce no more than it hold all its fragments. */
  predicate Closes(h: seq<Packet>, f: int) { exists n | n in Counts(h, f) :: Low(h, f, n) == Range(0, n) }

  lemma {:induction false} SameMembers(g: seq<Packet>, h: seq<Packet>, f: int)
    requires Reordered(g, h)
    ensures forall p :: p in g <==> p in h
    ensures Ids(g) == Ids(h) && (AllWellFormed(h) ==> AllWellFormed(g))
    ensures Counts(g, f) == Counts(h, f) && Arrived(g, f) == Arrived(h, f)
  {
    assert forall p :: p in g <==> p in multiset(g);
    assert forall p :: p in h <==> p in multiset(h);
    forall x
      ensures x in Ids(g) <==> x in Ids(h)
      ensures x in Counts(g, f) <==> x in Counts(h, f)
      ensures x in Arrived(g, f) <==> x in Arrived(h, f)
    {
      Members(g, x, f);
      Members(h, x, f);
    }
    forall i | 0 <= i < |g| && AllWellFormed(h) ensures WellFormed(g[i]) { assert g[i] in h; }
  }

  /** The sets of a history in terms of its members. */
  lemma {:induction false} Members(h: seq<Packet>, x: int, f: int)
    ensures x in Ids(h) <==> exists p :: p in h && p.frameId == x
    ensures x in Counts(h, f) <==> exists p :: p in h && p.frameId == f && p.count == x
    ensures x in Arrived(h, f) <==> exists p :: p in h && p.frameId == f && p.index == x
    ensures forall n :: x in Low(h, f, n) <==> exists p :: p in h && p.frameId == f && p.count <= n && p.index == x
  {
    forall i | 0 <= i < |h| ensures h[i] in h {}
  }

  /** The announced count is the greatest of the counts. */
  lemma {:induction false} AnnouncedIsGreatest(h: seq<Packet>, f: int)
    requires AllWellFormed(h) && f in Ids(h)
    ensures Announced(h, f) in Counts(h, f) && forall c | c in Counts(h, f) :: c <= Announced(h, f)
  {
    var front, p := h[..|h| - 1], h[|h| - 1];
    assert h == front + [p];
    Snoc(front, p, f);
    VouchedGrows(front, p, f);
    assert Counts(h, f) == Counts(front, f) + if p.frameId == f then {p.count} else {} by {
      assert forall i | 0 <= i < |front| :: h[i] == front[i];
    }
    if f in Ids(front) {
      AnnouncedIsGreatest(front, f);
    } else {
      Unseen(front, f);
      assert Counts(front, f) == {};
    }
  }

  /** Whole by the greatest count that was announced: the fragments of a frame are those below some count of its own. */
  lemma {:induction false} FragmentsInRange(h: seq<Packet>, f: int)
    requires AllWellFormed(h)
    ensures Arrived(h, f) <= Range(0, Announced(h, f))
    ensures forall n :: Low(h, f, n) <= Range(0, n)
  {
    if f in Ids(h) {
      AnnouncedIsGreatest(h, f);
    }
    forall i | 0 <= i < |h| && h[i].frameId == f
      ensures 0 <= h[i].index < h[i].count <= Announced(h, f)
    {
      assert h[i].count in Counts(h, f) && f in Ids(h);
    }
  }

  /** With room for every frame, to be complete is to have been covered. */
  lemma {:induction false} CompletesIffCovered(g: seq<Packet>, cap: nat, f: int)
    requires AllWellFormed(g) && |Ids(g)| <= cap
    ensures Completes(g, cap, f) <==> Covered(g, f)
  {
    forall k | 0 <= k <= |g|
      ensures |Pending(g[..k])| <= cap
    {
      assert forall i | 0 <= i < k :: g[..k][i] == g[i];
      SubsetSize(Pending(g[..k]), Ids(g));
    }
    assert Room(g, cap);
    Reassembly(g, cap);
    if f !in Ids(g) {
      Unseen(g, f);
    }
  }

  /** What a covered prefix shows about the whole. */
  lemma {:induction false} CoveredCloses(g: seq<Packet>, h: seq<Packet>, f: int)
    requires AllWellFormed(h) && Reordered(g, h) && Covered(g, f)
    ensures Closes(h, f)
  {
    SameMembers(g, h, f);
    var k :| 0 <= k <= |g| && Covers(g[..k], f);
    var early := g[..k];
    assert forall i | 0 <= i < k :: early[i] == g[i];
    AnnouncedIsGreatest(early, f);
    var n := Announced(early, f);
    assert n in Counts(h, f) by {
      assert n in Counts(g, f);
    }
    forall x | x in Range(0, n)
      ensures x in Low(h, f, n)
    {
      assert x in Arrived(early, f);
      var i :| 0 <= i < k && early[i].frameId == f && early[i].index == x;
      assert early[i].count in Counts(early, f) && g[i] in h;
      Members(h, x, f);
    }
    FragmentsInRange(h, f);
    assert Low(h, f, n) == Range(0, n);
  }

  /** The datagrams of frame f that announce at most n, and the others. */
  function Chosen(h: seq<Packet>, f: int, n: int): seq<Packet> {
    if h == [] then []
    else Chosen(h[..|h| - 1], f, n) + var p := h[|h| - 1]; if p.frameId == f && p.count <= n then [p] else []
  }

  function Others(h: seq<Packet>, f: int, n: int): seq<Packet> {
    if h == [] then []
    else Others(h[..|h| - 1], f, n) + var p := h[|h| - 1]; if p.frameId == f && p.count <= n then [] else [p]
  }

  lemma {:induction false} ChosenMembers(h: seq<Packet>, f: int, n: int)
    ensures forall p :: p in Chosen(h, f, n) <==> p in h && p.frameId == f && p.count <= n
  {
    if h != [] {
      ChosenMembers(h[..|h| - 1], f, n);
      assert h == h[..|h| - 1] + [h[|h| - 1]];
    }
  }

  lemma {:induction false} MultisetSnoc(c: seq<Packet>, o: seq<Packet>, h: seq<Packet>, p: Packet)
    requires multiset(c) + multiset(o) == multiset(h)
    ensures multiset(c + [p]) + multiset(o) == multiset(h + [p]) == multiset(c) + multiset(o + [p])
  {
  }

  lemma {:induction false} ChosenSnoc(h: seq<Packet>, p: Packet, f: int, n: int)
    ensures Chosen(h + [p], f, n) == if p.frameId == f && p.count <= n then Chosen(h, f, n) + [p] else Chosen(h, f, n)
    ensures Others(h + [p], f, n) == if p.frameId == f && p.count <= n then Others(h, f, n) else Others(h, f, n) + [p]
  {
    assert (h + [p])[..|h|] == h;
  }

  lemma {:induction false} ChosenAndOthers(h: seq<Packet>, f: int, n: int)
    ensures multiset(Chosen(h, f, n)) + multiset(Others(h, f, n)) == multiset(h)
  {
    if h != [] {
      var front, p := h[..|h| - 1], h[|h| - 1];
      assert h == front + [p];
      ChosenAndOthers(front, f, n);
      ChosenStep(front, p, f, n);
    }
  }

  lemma {:induction false} ChosenStep(h: seq<Packet>, p: Packet, f: int, n: int)
    requires multiset(Chosen(h, f, n)) + multiset(Others(h, f, n)) == multiset(h)
    ensures multiset(Chosen(h + [p], f, n)) + multiset(Others(h + [p], f, n)) == multiset(h + [p])
  {
    hide Chosen, Others;
    ChosenSnoc(h, p, f, n);
    MultisetSnoc(Chosen(h, f, n), Others(h, f, n), h, p);
  }

  lemma {:induction false} ChosenCovers(h: seq<Packet>, f: int, n: int)
    requires AllWellFormed(h) && n in Counts(h, f) && Low(h, f, n) == Range(0, n)
    ensures Covers(Chosen(h, f, n), f)
  {
    hide Chosen, Low, Counts, Arrived, Announced, Ids;
    var first := Chosen(h, f, n);
    ChosenMembers(h, f, n);
    forall i | 0 <= i < |first| ensures WellFormed(first[i]) { assert first[i] in h; }
    Members(h, n, f);
    Members(first, n, f);
    Members(first, f, f);
    AnnouncedIsGreatest(first, f);
    forall c | c in Counts(first, f) ensures c <= n { Members(first, c, f); }
    forall x
      ensures x in Arrived(first, f) <==> x in Low(h, f, n)
    {
      Members(first, x, f);
      Members(h, x, f);
    }
  }

  /** The order that completes the frame: the datagrams that announce at most n come first. */
  lemma {:induction false} ClosesCovers(h: seq<Packet>, f: int) returns (g: seq<Packet>)
    requires AllWellFormed(h) && Closes(h, f)
    ensures Reordered(g, h) && Covered(g, f)
  {
    hide Chosen, Others, Low, Counts, Covers;
    var n :| n in Counts(h, f) && Low(h, f, n) == Range(0, n);
    g := Chosen(h, f, n) + Others(h, f, n);
    ChosenAndOthers(h, f, n);
    ChosenCovers(h, f, n);
    assert g[..|Chosen(h, f, n)|] == Chosen(h, f, n);
  }

  /** The order that does not: a datagram with the greatest count comes first. */
  lemma {:induction false} GreatestFirst(h: seq<Packet>, f: int) returns (g: seq<Packet>)
    requires AllWellFormed(h) && !Covers(h, f)
    ensures Reordered(g, h) && !Covered(g, f)
  {
    if f !in Ids(h) {
      g := h;
      Unseen(h, f);
    } else {
      AnnouncedIsGreatest(h, f);
      var i :| 0 <= i < |h| && h[i].frameId == f && h[i].count == Announced(h, f);
      g := [h[i]] + (h[..i] + h[i + 1..]);
      assert h == h[..i] + [h[i]] + h[i + 1..];
      SameMembers(g, h, f);
      forall k | 0 <= k <= |g|
        ensures !Covers(g[..k], f)
      {
        NeverCovers(g, h, f, k);
      }
    }
  }

  lemma {:induction false} NeverCovers(g: seq<Packet>, h: seq<Packet>, f: int, k: nat)
    requires AllWellFormed(h) && Reordered(g, h) && !Covers(h, f) && f in Ids(h) && k <= |g|
    requires g[0].frameId == f && g[0].count == Announced(h, f)
    ensures !Covers(g[..k], f)
  {
    if Covers(g[..k], f) {
      var early := g[..k];
      SameMembers(g, h, f);
      assert forall i | 0 <= i < k :: early[i] == g[i];
      AnnouncedIsGreatest(early, f);
      AnnouncedIsGreatest(h, f);
      assert Announced(early, f) == Announced(h, f) by {
        assert early[0].count in Counts(early, f) && Announced(early, f) in Counts(g, f);
      }
      assert Arrived(early, f) <= Arrived(g, f);
      FragmentsInRange(h, f);
      assert false;
    }
  }

  /**
   Which frames depend on the order in which a history arrives, whatever counts its datagrams announce and with room
   for every frame. Some order completes the frame if and only if, for an announced count, the datagrams that
   announce no more hold all its fragments; every order does if and only if the fragments below the greatest count
   all arrived. So the order matters exactly when the first holds and the second does not.
   */
  lemma {:induction false} OrderMattersIff(h: seq<Packet>, cap: nat, f: int)
    requires AllWellFormed(h) && |Ids(h)| <= cap
    ensures (exists g :: Reordered(g, h) && Completes(g, cap, f)) <==> Closes(h, f)
    ensures (forall g :: Reordered(g, h) ==> Completes(g, cap, f)) <==> Covers(h, f)
    ensures (exists g, k :: Reordered(g, h) && Reordered(k, h) && Completes(g, cap, f) && !Completes(k, cap, f)) <==>
              Closes(h, f) && !Covers(h, f)
  {
    forall g | Reordered(g, h)
      ensures Completes(g, cap, f) <==> Covered(g, f)
      ensures Completes(g, cap, f) ==> Closes(h, f)
      ensures Covers(h, f) ==> Completes(g, cap, f)
    {
      SameMembers(g, h, f);
      CompletesIffCovered(g, cap, f);
      if Covered(g, f) {
        CoveredCloses(g, h, f);
      }
      if Covers(h, f) {
        AnnouncedIsGreatest(g, f);
        AnnouncedIsGreatest(h, f);
        assert g[..|g|] == g && Covers(g[..|g|], f);
      }
    }
    if Closes(h, f) {
      var g := ClosesCovers(h, f);
      assert Completes(g, cap, f);
      if !Covers(h, f) {
        var k := GreatestFirst(h, f);
        assert !Completes(k, cap, f);
      }
    }
    if !Covers(h, f) {
      var k := GreatestFirst(h, f);
      assert Reordered(k, h) && !Completes(k, cap, f);
    }
  }

  // ----- Histories with finalising summaries in between, and with eviction -----

  datatype Event = Datagram(p: Packet) | FinalSummary

  function RunEvents(es: seq<Event>, cap: nat): PathState {
    if es == [] then EMPTY_PATH
    else
      var s := RunEvents(es[..|es| - 1], cap);
      match es[|es| - 1]
      case Datagram(p) => Accept(s, p, cap)
      case FinalSummary => Drained(s)
  }

  function Packets(es: seq<Event>): seq<Packet> {
    if es == [] then []
    else
      Packets(es[..|es| - 1]) +
      match es[|es| - 1] { case Datagram(p) => [p] case FinalSummary => [] }
  }

  /** Every fragment 0..n-1 arrived for some fragment count n that a datagram of the frame announced. */
  predicate Vouched(h: seq<Packet>, f: int) {
    exists n | n in Counts(h, f) :: Range(0, n) <= Arrived(h, f)
  }

  predicate Known(s: PathState, f: int) { f in s.frames || f in s.stats.finalized }

  ghost predicate Sound(s: PathState, h: seq<Packet>) {
    && (forall f :: Known(s, f) <==> f in Ids(h))
    && (forall f | f in s.frames :: s.frames[f].fragments <= Arrived(h, f) && s.frames[f].count in Counts(h, f))
    && (forall f | f in s.stats.firstArrival :: Vouched(h, f))
  }

  lemma {:induction false} VouchedGrows(h: seq<Packet>, p: Packet, f: int)
    ensures Arrived(h, f) <= Arrived(h + [p], f) && Counts(h, f) <= Counts(h + [p], f)
    ensures p.index in Arrived(h + [p], p.frameId) && p.count in Counts(h + [p], p.frameId)
    ensures Ids(h + [p]) == Ids(h) + {p.frameId}
    ensures Vouched(h, f) ==> Vouched(h + [p], f)
  {
    Snoc(h, p, f);
    Snoc(h, p, p.frameId);
    assert forall i | 0 <= i < |h| :: (h + [p])[i] == h[i];
    assert (h + [p])[|h|] == p;
  }

  lemma {:induction false} ClosedKnown(s: PathState, id: int, f: int)
    requires id in s.frames && id !in s.stats.finalized
    ensures Known(Closed(s, id), f) <==> Known(s, f)
    ensures f in Closed(s, id).stats.firstArrival <==> f in s.stats.firstArrival || (f == id && Whole(s.frames[id]))
  {
  }

  /** No datagram loses or invents a frame id; it completes its own frame, if no fragment is missing, and no other. */
  lemma {:induction false} AcceptKnown(s: PathState, p: Packet, cap: nat, f: int)
    requires |s.frames| <= cap && p.frameId !in s.stats.finalized && s.stats.finalized !! s.frames.Keys
    requires WellFormed(p) && forall id | id in s.frames :: Incomplete(s.frames[id])
    ensures Known(Accept(s, p, cap), f) <==> Known(s, f) || f == p.frameId
    ensures f in Accept(s, p, cap).stats.firstArrival <==>
            f in s.stats.firstArrival || (f == p.frameId && Touched(s, p).fragments == Range(0, Touched(s, p).count))
  {
    var t := Noted(s, p);
    AcceptOnce(s, p, cap);
    TouchedInRange(s, p);
    if |Touched(s, p).fragments| >= Touched(s, p).count {
      ClosedKnown(t, p.frameId, f);
    } else if |t.frames| > cap {
      var low := Least(t.frames.Keys);
      assert low !in t.stats.finalized && Incomplete(t.frames[low]);
      WholeMeansAll(t.frames[low]);
      ClosedKnown(t, low, f);
    }
  }

  lemma {:induction false} TouchSound(s: PathState, h: seq<Packet>, p: Packet)
    requires Sound(s, h)
    ensures Touched(s, p).fragments <= Arrived(h + [p], p.frameId)
    ensures Touched(s, p).count in Counts(h + [p], p.frameId)
  {
    VouchedGrows(h, p, p.frameId);
  }

  lemma {:induction false} AcceptSound(s: PathState, h: seq<Packet>, p: Packet, cap: nat)
    requires Balanced(s, cap) && WellFormed(p) && Sound(s, h)
    ensures Sound(Accept(s, p, cap), h + [p])
  {
    if p.frameId !in s.stats.finalized {
      TouchSound(s, h, p);
      AcceptFrames(s, p, cap);
    }
    var u := Accept(s, p, cap);
    forall f
      ensures Known(u, f) <==> f in Ids(h + [p])
      ensures f in u.frames ==> u.frames[f].fragments <= Arrived(h + [p], f) && u.frames[f].count in Counts(h + [p], f)
      ensures f in u.stats.firstArrival ==> Vouched(h + [p], f)
    {
      VouchedGrows(h, p, f);
      if p.frameId !in s.stats.finalized {
        AcceptKnown(s, p, cap, f);
      }
    }
  }

  lemma {:induction false} EventsBalanced(es: seq<Event>, cap: nat)
    requires AllWellFormed(Packets(es))
    ensures Balanced(RunEvents(es, cap), cap)
  {
    if es != [] {
      PacketsSnoc(es);
      EventsBalanced(es[..|es| - 1], cap);
      match es[|es| - 1]
      case Datagram(p) => AcceptKeepsBalance(RunEvents(es[..|es| - 1], cap), p, cap);
      case FinalSummary => DrainKeepsBalance(RunEvents(es[..|es| - 1], cap), cap);
    }
  }

  lemma {:induction false} PacketsSnoc(es: seq<Event>)
    requires es != [] && AllWellFormed(Packets(es))
    ensures AllWellFormed(Packets(es[..|es| - 1]))
    ensures es[|es| - 1].Datagram? ==> WellFormed(es[|es| - 1].p)
    ensures es[|es| - 1].FinalSummary? ==> Packets(es) == Packets(es[..|es| - 1])
  {
    var h := Packets(es[..|es| - 1]);
    assert forall i | 0 <= i < |h| :: h[i] == Packets(es)[i];
    if es[|es| - 1].Datagram? {
      assert es[|es| - 1].p == Packets(es)[|h|];
    }
  }

  lemma {:induction false} EventsSound(es: seq<Event>, cap: nat)
    requires AllWellFormed(Packets(es))
    ensures Sound(RunEvents(es, cap), Packets(es))
  {
    if es != [] {
      PacketsSnoc(es);
      EventsSound(es[..|es| - 1], cap);
      EventsBalanced(es[..|es| - 1], cap);
      if es[|es| - 1].Datagram? {
        AcceptSound(RunEvents(es[..|es| - 1], cap), Packets(es[..|es| - 1]), es[|es| - 1].p, cap);
      }
    }
  }

  lemma {:induction false} SeenIsIds(s: PathState, h: seq<Packet>)
    requires Tallied(s) && Sound(s, h)
    ensures s.stats.seen == |Ids(h)|
    ensures s.stats.firstArrival.Keys <= Ids(h)
  {
    var ids := s.frames.Keys + s.stats.finalized;
    assert |s.frames.Keys| == |s.frames|;
    forall f ensures f in ids <==> f in Ids(h) { assert Known(s, f) <==> f in Ids(h); }
    assert Ids(h) == ids;
  }

  /**
   Over every history, with eviction and finalising summaries at any point: the balance holds, the frames seen
   are the frame ids that arrived, and no frame is counted complete without all of its fragments.
   */
  lemma {:induction false} EveryRunIsSound(es: seq<Event>, cap: nat)
    requires AllWellFormed(Packets(es))
    ensures Balanced(RunEvents(es, cap), cap)
    ensures RunEvents(es, cap).stats.seen == |Ids(Packets(es))|
    ensures forall f | f in RunEvents(es, cap).stats.firstArrival :: f in Ids(Packets(es)) && Vouched(Packets(es), f)
  {
    EventsBalanced(es, cap);
    EventsSound(es, cap);
    SeenIsIds(RunEvents(es, cap), Packets(es));
  }

  lemma {:induction false} VouchedIsWhole(h: seq<Packet>, f: int)
    requires AllWellFormed(h) && Uniform(h) && f in Ids(h) && Vouched(h, f)
    ensures f in WholeIds(h)
  {
    var n :| n in Counts(h, f) && Range(0, n) <= Arrived(h, f);
    var i :| 0 <= i < |h| && h[i].frameId == f && h[i].count == n;
    AnnouncedIsCount(h, f, i);
    assert Arrived(h, f) <= Range(0, n);
  }

  /** With one fragment count per frame, a frame counted complete has every fragment, even after evictions. */
  lemma {:induction false} CompleteOnlyIfAllArrived(es: seq<Event>, cap: nat)
    requires AllWellFormed(Packets(es)) && Uniform(Packets(es))
    ensures RunEvents(es, cap).stats.firstArrival.Keys <= WholeIds(Packets(es))
  {
    EveryRunIsSound(es, cap);
    forall f | f in RunEvents(es, cap).stats.firstArrival
      ensures f in WholeIds(Packets(es))
    {
      VouchedIsWhole(Packets(es), f);
    }
  }

  // ----- Which frames an overflow or a final summary loses -----

  /** The frames that wait for fragments, and those that were given up while they did. */
  datatype Ledger = Ledger(waiting: set<int>, lost: set<int>)

  /** With one more frame waiting than there is room for, the lowest is given up. */
  function Fitted(l: Ledger, cap: nat): Ledger {
    if |l.waiting| <= cap then l else Ledger(l.waiting - {Least(l.waiting)}, l.lost + {Least(l.waiting)})
  }

  /** Who waits and who is lost, told from the history alone. */
  ghost function LedgerOf(es: seq<Event>, cap: nat): Ledger {
    if es == [] then Ledger({}, {})
    else
      var front := es[..|es| - 1];
      var l := LedgerOf(front, cap);
      match es[|es| - 1]
      case FinalSummary => Ledger({}, l.lost + l.waiting)
      case Datagram(p) =>
        if p.frameId in l.lost || Covered(Packets(front), p.frameId) then l
        else if Covered(Packets(front) + [p], p.frameId) then l.(waiting := l.waiting - {p.frameId})
        else Fitted(l.(waiting := l.waiting + {p.frameId}), cap)
  }

  ghost predicate CoveredExcept(complete: set<int>, h: seq<Packet>, lost: set<int>) {
    forall f :: f in complete <==> Covered(h, f) && f !in lost
  }

  ghost predicate Uncovered(h: seq<Packet>, waiting: set<int>) { forall f | f in waiting :: !Covered(h, f) }

  /** The books of the closed frames: complete are those that were covered and are not lost. */
  ghost predicate Books(st: Stats, h: seq<Packet>, lost: set<int>) {
    && st.finalized == st.firstArrival.Keys + lost && st.firstArrival.Keys !! lost
    && CoveredExcept(st.firstArrival.Keys, h, lost) && st.partial == |lost|
  }

  /** The path holds what the ledger says. */
  ghost predicate Mirrors(s: PathState, h: seq<Packet>, l: Ledger) {
    && s.frames.Keys == l.waiting && AllPictured(s.frames, h) && Uncovered(h, l.waiting)
    && l.waiting + s.stats.finalized == Ids(h) && Books(s.stats, h, l.lost)
  }

  lemma {:induction false} CoveredOthers(h: seq<Packet>, p: Packet)
    ensures forall f | f != p.frameId :: Covered(h + [p], f) <==> Covered(h, f)
  {
    forall f | f != p.frameId ensures Covered(h + [p], f) <==> Covered(h, f) { CoveredSnoc(h, p, f); }
  }

  lemma {:induction false} BooksLate(st: Stats, h: seq<Packet>, lost: set<int>, p: Packet)
    requires Books(st, h, lost) && p.frameId in st.finalized
    ensures Books(st, h + [p], lost)
  {
    hide Covered;
    CoveredOthers(h, p);
    CoveredSnoc(h, p, p.frameId);
  }

  /** A datagram of a frame that is closed already. */
  lemma {:induction false} MirrorLate(s: PathState, h: seq<Packet>, l: Ledger, p: Packet)
    requires Mirrors(s, h, l) && p.frameId in s.stats.finalized && s.stats.finalized !! s.frames.Keys
    ensures Mirrors(s, h + [p], l)
  {
    hide Covered, Pictures, Books, AllPictured, Ids;
    Snoc(h, p, p.frameId);
    assert p.frameId !in s.frames;
    PicturesStay(s.frames, h, p);
    CoveredOthers(h, p);
    BooksLate(s.stats, h, l.lost, p);
  }

  lemma {:induction false} OneMoreCovered(complete: set<int>, h: seq<Packet>, lost: set<int>, p: Packet)
    requires CoveredExcept(complete, h, lost) && p.frameId !in lost && Covered(h + [p], p.frameId)
    ensures CoveredExcept(complete + {p.frameId}, h + [p], lost)
  {
    hide Covered;
    CoveredOthers(h, p);
  }

  lemma {:induction false} OneMoreClosed(finalized: set<int>, complete: set<int>, lost: set<int>, f: int)
    requires finalized == complete + lost && complete !! lost && f !in finalized
    ensures finalized + {f} == complete + {f} + lost && complete + {f} !! lost
  {
  }

  lemma {:induction false} FinalizedWhole(st: Stats, f: int, fr: Frame)
    requires f !in st.finalized && Whole(fr)
    ensures var u := Finalized(st, f, fr);
            && u.finalized == st.finalized + {f} && u.partial == st.partial
            && u.firstArrival.Keys == st.firstArrival.Keys + {f}
  {
  }

  lemma {:induction false} BooksWhole(st: Stats, h: seq<Packet>, lost: set<int>, p: Packet, fr: Frame, seen: nat)
    requires Books(st, h, lost) && p.frameId !in st.finalized && Whole(fr) && Covered(h + [p], p.frameId)
    ensures Books(Finalized(st.(seen := seen), p.frameId, fr), h + [p], lost)
  {
    hide Covered, Whole, CoveredExcept, Finalized;
    OneMoreCovered(st.firstArrival.Keys, h, lost, p);
    OneMoreClosed(st.finalized, st.firstArrival.Keys, lost, p.frameId);
    FinalizedWhole(st.(seen := seen), p.frameId, fr);
  }

  lemma {:induction false} FramesClosed(frames: map<int, Frame>, h: seq<Packet>, p: Packet, fr: Frame)
    requires AllPictured(frames, h)
    ensures AllPictured(frames[p.frameId := fr] - {p.frameId}, h + [p])
    ensures (frames[p.frameId := fr] - {p.frameId}).Keys == frames.Keys - {p.frameId}
  {
    hide Pictures;
    PicturesStay(frames - {p.frameId}, h, p);
    assert frames[p.frameId := fr] - {p.frameId} == frames - {p.frameId};
  }

  lemma {:induction false} UncoveredStays(h: seq<Packet>, waiting: set<int>, p: Packet)
    requires Uncovered(h, waiting)
    ensures Uncovered(h + [p], waiting - {p.frameId})
    ensures !Covered(h + [p], p.frameId) ==> Uncovered(h + [p], waiting + {p.frameId})
  {
    hide Covered;
    CoveredOthers(h, p);
  }

  lemma {:induction false} SameIds(waiting: set<int>, finalized: set<int>, ids: set<int>, f: int)
    requires waiting + finalized == ids
    ensures waiting + {f} + finalized == ids + {f} && waiting - {f} + (finalized + {f}) == ids + {f}
  {
  }

  /** A datagram that covers its frame. */
  lemma {:induction false} MirrorWhole(s: PathState, h: seq<Packet>, l: Ledger, p: Packet)
    requires Mirrors(s, h, l) && p.frameId !in s.stats.finalized
    requires Whole(Touched(s, p)) && Covered(h + [p], p.frameId)
    ensures Mirrors(Closed(Noted(s, p), p.frameId), h + [p], l.(waiting := l.waiting - {p.frameId}))
  {
    hide Pictures, Covered, Whole, Touched, Books, AllPictured, Ids, Noted, Finalized, Uncovered;
    Snoc(h, p, p.frameId);
    NotedParts(s, p);
    UncoveredStays(h, l.waiting, p);
    FramesClosed(s.frames, h, p, Touched(s, p));
    BooksWhole(s.stats, h, l.lost, p, Touched(s, p), Noted(s, p).stats.seen);
    FinalizedWhole(Noted(s, p).stats, p.frameId, Touched(s, p));
    SameIds(l.waiting, s.stats.finalized, Ids(h), p.frameId);
  }

  lemma {:induction false} BooksOpen(st: Stats, h: seq<Packet>, lost: set<int>, p: Packet, seen: nat)
    requires Books(st, h, lost) && p.frameId !in st.finalized && !Covered(h + [p], p.frameId)
    ensures Books(st.(seen := seen), h + [p], lost)
  {
    hide Covered;
    CoveredOthers(h, p);
  }

  lemma {:induction false} FramesTouched(frames: map<int, Frame>, h: seq<Packet>, p: Packet, fr: Frame)
    requires AllPictured(frames, h) && Pictures(fr, h + [p], p.frameId)
    ensures AllPictured(frames[p.frameId := fr], h + [p])
  {
    hide Pictures;
    PicturesStay(frames - {p.frameId}, h, p);
    forall f | f in frames && f != p.frameId
      ensures Pictures(frames[f], h + [p], f)
    {
      assert f in frames - {p.frameId};
    }
  }

  /** A datagram that leaves its frame waiting. */
  lemma {:induction false} MirrorOpen(s: PathState, h: seq<Packet>, l: Ledger, p: Packet)
    requires Mirrors(s, h, l) && p.frameId !in s.stats.finalized
    requires Pictures(Touched(s, p), h + [p], p.frameId) && !Covered(h + [p], p.frameId)
    ensures Mirrors(Noted(s, p), h + [p], l.(waiting := l.waiting + {p.frameId}))
  {
    hide Pictures, Covered, Touched, Books, AllPictured, Ids, Noted, Uncovered;
    Snoc(h, p, p.frameId);
    NotedParts(s, p);
    UncoveredStays(h, l.waiting, p);
    FramesTouched(s.frames, h, p, Touched(s, p));
    BooksOpen(s.stats, h, l.lost, p, Noted(s, p).stats.seen);
    SameIds(l.waiting, s.stats.finalized, Ids(h), p.frameId);
  }

  lemma {:induction false} BooksLoss(st: Stats, h: seq<Packet>, lost: set<int>, low: int, fr: Frame)
    requires Books(st, h, lost) && low !in st.finalized && !Whole(fr) && !Covered(h, low)
    ensures Books(Finalized(st, low, fr), h, lost + {low})
  {
    hide Covered, Whole, CoveredExcept;
    assert |lost + {low}| == |lost| + 1;
    OneMoreLost(st.firstArrival.Keys, h, lost, low);
  }

  lemma {:induction false} OneMoreLost(complete: set<int>, h: seq<Packet>, lost: set<int>, low: int)
    requires CoveredExcept(complete, h, lost) && !Covered(h, low)
    ensures CoveredExcept(complete, h, lost + {low})
  {
    hide Covered;
  }

  /** A waiting frame is given up. */
  lemma {:induction false} MirrorLoss(s: PathState, h: seq<Packet>, l: Ledger, low: int)
    requires Mirrors(s, h, l) && low in l.waiting && low !in s.stats.finalized && !Whole(s.frames[low])
    ensures Mirrors(Closed(s, low), h, Ledger(l.waiting - {low}, l.lost + {low}))
  {
    hide Pictures, Covered, Whole, Ids, Books;
    ClosedShrinks(s, low);
    BooksLoss(s.stats, h, l.lost, low, s.frames[low]);
    assert Closed(s, low).stats.finalized == s.stats.finalized + {low};
  }

  lemma {:induction false} MirrorAccept(s: PathState, h: seq<Packet>, l: Ledger, p: Packet, cap: nat)
    requires Mirrors(s, h, l) && Balanced(s, cap) && WellFormed(p) && p.frameId !in s.stats.finalized
    ensures p.frameId !in l.lost && !Covered(h, p.frameId)
    ensures Mirrors(Accept(s, p, cap), h + [p],
                    if Covered(h + [p], p.frameId) then l.(waiting := l.waiting - {p.frameId})
                    else Fitted(l.(waiting := l.waiting + {p.frameId}), cap))
  {
    hide Pictures, Covered, Covers, Ids, Pruned, Incomplete;
    AcceptOnce(s, p, cap);
    if p.frameId !in Ids(h) {
      Unseen(h, p.frameId);
    }
    TouchedWhole(s, h, p, cap);
    CoveredSnoc(h, p, p.frameId);
    if Covered(h + [p], p.frameId) {
      MirrorWhole(s, h, l, p);
    } else {
      MirrorOpen(s, h, l, p);
      MirrorOverflow(s, h, l, p, cap);
    }
  }

  lemma {:induction false} MirrorOverflow(s: PathState, h: seq<Packet>, l: Ledger, p: Packet, cap: nat)
    requires Balanced(s, cap) && WellFormed(p) && p.frameId !in s.stats.finalized && s.frames.Keys == l.waiting
    requires !(|Touched(s, p).fragments| >= Touched(s, p).count)
    requires Mirrors(Noted(s, p), h + [p], l.(waiting := l.waiting + {p.frameId}))
    ensures var t := Noted(s, p);
            Mirrors(if |t.frames| > cap then Closed(t, Least(t.frames.Keys)) else t, h + [p],
                    Fitted(l.(waiting := l.waiting + {p.frameId}), cap))
  {
    hide Mirrors, Incomplete;
    var t := Noted(s, p);
    NotedKeys(s, p);
    assert |t.frames.Keys| == |t.frames|;
    if |t.frames| > cap {
      var low := Least(t.frames.Keys);
      TouchedInRange(s, p);
      assert Incomplete(t.frames[low]);
      NeverWhole(t.frames[low]);
      MirrorLoss(t, h + [p], l.(waiting := l.waiting + {p.frameId}), low);
    }
  }

  lemma {:induction false} NeverWhole(fr: Frame)
    requires Incomplete(fr)
    ensures !Whole(fr)
  {
    WholeMeansAll(fr);
  }

  lemma {:induction false} BooksGivenUp(st: Stats, h: seq<Packet>, lost: set<int>, waiting: set<int>)
    requires Books(st, h, lost) && Uncovered(h, waiting) && st.finalized !! waiting
    ensures Books(st.(partial := st.partial + |waiting|, finalized := st.finalized + waiting), h, lost + waiting)
  {
    hide Covered;
    assert |lost + waiting| == |lost| + |waiting|;
  }

  lemma {:induction false} DrainedParts(s: PathState)
    ensures Drained(s).frames == map[]
    ensures Drained(s).stats == s.stats.(partial := s.stats.partial + |s.frames.Keys|,
                                         finalized := s.stats.finalized + s.frames.Keys)
  {
    assert |s.frames.Keys| == |s.frames|;
  }

  lemma {:induction false} BooksDrained(s: PathState, h: seq<Packet>, lost: set<int>)
    requires Books(s.stats, h, lost) && Uncovered(h, s.frames.Keys) && s.stats.finalized !! s.frames.Keys
    ensures Books(Drained(s).stats, h, lost + s.frames.Keys)
  {
    hide Books, Uncovered, Drained;
    DrainedParts(s);
    BooksGivenUp(s.stats, h, lost, s.frames.Keys);
  }

  lemma {:induction false} NothingWaits(waiting: set<int>, finalized: set<int>)
    ensures {} + (finalized + waiting) == waiting + finalized
  {
  }

  lemma {:induction false} NonePictured(h: seq<Packet>)
    ensures AllPictured(map[], h) && Uncovered(h, {})
  {
  }

  lemma {:induction false} MirrorDrain(s: PathState, h: seq<Packet>, l: Ledger)
    requires Mirrors(s, h, l) && s.stats.finalized !! s.frames.Keys
    ensures Mirrors(Drained(s), h, Ledger({}, l.lost + l.waiting))
  {
    hide Pictures, Covered, Ids, Books, AllPictured, Uncovered;
    BooksDrained(s, h, l.lost);
    NothingWaits(l.waiting, s.stats.finalized);
    NonePictured(h);
  }

  lemma {:induction false} LedgerMirrors(es: seq<Event>, cap: nat)
    requires AllWellFormed(Packets(es))
    ensures Mirrors(RunEvents(es, cap), Packets(es), LedgerOf(es, cap))
  {
    if es == [] {
      forall f ensures f !in Ids(Packets(es)) && !Covered(Packets(es), f) { Unseen([], f); }
    } else {
      var front := es[..|es| - 1];
      var s, h, l := RunEvents(front, cap), Packets(front), LedgerOf(front, cap);
      PacketsSnoc(es);
      LedgerMirrors(front, cap);
      EventsBalanced(front, cap);
      match es[|es| - 1]
      case FinalSummary => MirrorDrain(s, h, l);
      case Datagram(p) =>
        if p.frameId in s.stats.finalized {
          MirrorLate(s, h, l, p);
        } else {
          MirrorAccept(s, h, l, p, cap);
        }
    }
  }

  /** The datagrams that arrived before their frame was covered or given up. */
  ghost function Counted(es: seq<Event>, cap: nat): seq<Packet> {
    if es == [] then []
    else
      var front := es[..|es| - 1];
      var l := LedgerOf(front, cap);
      match es[|es| - 1]
      case FinalSummary => Counted(front, cap)
      case Datagram(p) =>
        Counted(front, cap) + if p.frameId in l.lost || Covered(Packets(front), p.frameId) then [] else [p]
  }

  /** From the first to the last arrival of a frame. */
  ghost function SpanOf(h: seq<Packet>, f: int): int {
    if Times(h, f) == {} then 0 else Greatest(Times(h, f)) - Least(Times(h, f))
  }

  /** The span of every frame at the moment it was covered, in that order. */
  ghost function Spans(es: seq<Event>, cap: nat): seq<int> {
    if es == [] then []
    else
      var front := es[..|es| - 1];
      match es[|es| - 1]
      case FinalSummary => Spans(front, cap)
      case Datagram(p) => Spans(front, cap) + SpanAdded(Packets(front), LedgerOf(front, cap).lost, p)
  }

  ghost function SpanAdded(h: seq<Packet>, lost: set<int>, p: Packet): seq<int> {
    if p.frameId !in lost && !Covered(h, p.frameId) && Covered(h + [p], p.frameId) then [SpanOf(h + [p], p.frameId)]
    else []
  }

  /** The traffic counters and the times of the complete frames say what the history does. */
  ghost predicate Accounts(s: PathState, h: seq<Packet>, counted: seq<Packet>, spans: seq<int>) {
    AllRecorded(s.stats, h) && s.datagrams == |counted| && s.bytes == Bytes(counted) && s.stats.spans == spans
  }

  lemma {:induction false} BytesSnoc(h: seq<Packet>, p: Packet)
    ensures Bytes(h + [p]) == Bytes(h) + p.size
  {
    assert (h + [p])[..|h|] == h;
  }

  /** What is recorded of the complete frames depends on their two maps of times only. */
  lemma {:induction false} RecordsKept(st: Stats, u: Stats, h: seq<Packet>)
    requires AllRecorded(st, h) && u.firstArrival == st.firstArrival && u.firstSend == st.firstSend
    ensures AllRecorded(u, h)
  {
    forall f | f in u.firstArrival ensures Recorded(u, h, f) { assert Recorded(st, h, f); }
  }

  /** A path has closed exactly the frames that are lost or were covered. */
  lemma {:induction false} ClosedIff(s: PathState, h: seq<Packet>, l: Ledger, f: int)
    requires Mirrors(s, h, l)
    ensures f in s.stats.finalized <==> f in l.lost || Covered(h, f)
  {
    hide Covered, AllPictured, Uncovered, Ids;
  }

  lemma {:induction false} RecordsOpen(s: PathState, h: seq<Packet>, p: Packet, cap: nat)
    requires AllRecorded(s.stats, h) && Balanced(s, cap) && WellFormed(p) && p.frameId !in s.stats.finalized
    requires !(|Touched(s, p).fragments| >= Touched(s, p).count)
    ensures AllRecorded(Accept(s, p, cap).stats, h + [p])
  {
    hide Recorded, Touched, Noted, Pruned, Incomplete;
    AcceptOnce(s, p, cap);
    NotedParts(s, p);
    RecordsStay(s.stats, h, p);
    NotedKeys(s, p);
    var t := Noted(s, p);
    if |t.frames| > cap {
      var low := Least(t.frames.Keys);
      TouchedInRange(s, p);
      assert Incomplete(t.frames[low]);
      NeverWhole(t.frames[low]);
    }
    RecordsKept(s.stats, Accept(s, p, cap).stats, h + [p]);
  }

  lemma {:induction false} RecordsAccept(s: PathState, h: seq<Packet>, l: Ledger, p: Packet, cap: nat)
    requires Mirrors(s, h, l) && AllRecorded(s.stats, h) && Balanced(s, cap) && WellFormed(p)
    ensures AllRecorded(Accept(s, p, cap).stats, h + [p])
  {
    hide Recorded, Touched, Noted, Pruned, Incomplete, Covered, Covers, Pictures, AllRecorded, Books, Finalized, Whole;
    if p.frameId in s.stats.finalized {
      RecordsStay(s.stats, h, p);
    } else {
      ClosedIff(s, h, l, p.frameId);
      TouchedWhole(s, h, p, cap);
      if Covers(h + [p], p.frameId) {
        AcceptOnce(s, p, cap);
        NotedParts(s, p);
        RecordsKept(s.stats, Noted(s, p).stats, h);
        RecordsWhole(Noted(s, p).stats, h, p, Touched(s, p));
      } else {
        RecordsOpen(s, h, p, cap);
      }
    }
  }

  lemma {:induction false} TrafficAccept(s: PathState, p: Packet, cap: nat)
    requires |s.frames| <= cap
    ensures var t := Accept(s, p, cap);
            if p.frameId in s.stats.finalized then t.datagrams == s.datagrams && t.bytes == s.bytes
            else t.datagrams == s.datagrams + 1 && t.bytes == s.bytes + p.size
  {
    hide Touched, Pruned, Whole, Noted, Finalized;
    if p.frameId !in s.stats.finalized {
      NotedParts(s, p);
      AcceptOnce(s, p, cap);
    }
  }

  /** The span that the touched frame has, and so the one it is closed with if it is whole. */
  lemma {:induction false} TouchedSpan(fr: Frame, h: seq<Packet>, f: int)
    requires Pictures(fr, h, f)
    ensures fr.lastArrival - fr.firstArrival == SpanOf(h, f)
  {
  }

  lemma {:induction false} FinalizedSpans(st: Stats, f: int, fr: Frame)
    requires f !in st.finalized
    ensures Finalized(st, f, fr).spans == st.spans + if Whole(fr) then [fr.lastArrival - fr.firstArrival] else []
  {
  }

  lemma {:induction false} SpansOpen(s: PathState, p: Packet, cap: nat)
    requires Balanced(s, cap) && WellFormed(p) && p.frameId !in s.stats.finalized
    requires !(|Touched(s, p).fragments| >= Touched(s, p).count)
    ensures Accept(s, p, cap).stats.spans == s.stats.spans
  {
    hide Touched, Noted, Pruned, Incomplete, Whole;
    AcceptOnce(s, p, cap);
    NotedParts(s, p);
    NotedKeys(s, p);
    var t := Noted(s, p);
    if |t.frames| > cap {
      var low := Least(t.frames.Keys);
      TouchedInRange(s, p);
      assert Incomplete(t.frames[low]);
      NeverWhole(t.frames[low]);
    }
  }

  lemma {:induction false} SpansWhole(s: PathState, p: Packet, cap: nat)
    requires |s.frames| <= cap && p.frameId !in s.stats.finalized
    requires |Touched(s, p).fragments| >= Touched(s, p).count && Whole(Touched(s, p))
    ensures Accept(s, p, cap).stats.spans ==
              s.stats.spans + [Touched(s, p).lastArrival - Touched(s, p).firstArrival]
  {
    hide Touched, Noted, Pruned, Whole, Finalized;
    AcceptOnce(s, p, cap);
    NotedParts(s, p);
    FinalizedSpans(Noted(s, p).stats, p.frameId, Touched(s, p));
  }

  lemma {:induction false} SpanAddedIs(h: seq<Packet>, lost: set<int>, p: Packet)
    ensures SpanAdded(h, lost, p) ==
              if p.frameId !in lost && !Covered(h, p.frameId) && Covers(h + [p], p.frameId)
              then [SpanOf(h + [p], p.frameId)] else []
  {
    hide Covered, Covers, SpanOf;
    CoveredSnoc(h, p, p.frameId);
  }

  lemma {:induction false} MirrorTouched(s: PathState, h: seq<Packet>, l: Ledger, p: Packet, cap: nat)
    requires Mirrors(s, h, l) && Balanced(s, cap) && WellFormed(p) && p.frameId !in s.stats.finalized
    ensures Pictures(Touched(s, p), h + [p], p.frameId) && |s.frames| <= cap
    ensures |Touched(s, p).fragments| >= Touched(s, p).count <==> Covers(h + [p], p.frameId)
    ensures Whole(Touched(s, p)) <==> Covers(h + [p], p.frameId)
  {
    hide Touched, Covers, Pictures, Books, AllPictured, Uncovered, Whole;
    TouchedWhole(s, h, p, cap);
  }

  lemma {:induction false} LateStays(s: PathState, p: Packet, cap: nat)
    requires p.frameId in s.stats.finalized
    ensures Accept(s, p, cap) == s
  {
  }

  lemma {:induction false} SpansAccept(s: PathState, h: seq<Packet>, l: Ledger, p: Packet, cap: nat)
    requires Mirrors(s, h, l) && Balanced(s, cap) && WellFormed(p)
    ensures Accept(s, p, cap).stats.spans == s.stats.spans + SpanAdded(h, l.lost, p)
  {
    hide Mirrors, Balanced, Touched, Covered, Covers, Pictures, Whole, SpanOf, SpanAdded, Accept;
    ClosedIff(s, h, l, p.frameId);
    SpanAddedIs(h, l.lost, p);
    if p.frameId in s.stats.finalized {
      LateStays(s, p, cap);
    } else {
      MirrorTouched(s, h, l, p, cap);
      if Covers(h + [p], p.frameId) {
        TouchedSpan(Touched(s, p), h + [p], p.frameId);
        SpansWhole(s, p, cap);
      } else {
        SpansOpen(s, p, cap);
      }
    }
  }

  lemma {:induction false} AccountsAccept(s: PathState, h: seq<Packet>, l: Ledger, p: Packet, cap: nat,
                                          counted: seq<Packet>, spans: seq<int>)
    requires Mirrors(s, h, l) && Accounts(s, h, counted, spans) && Balanced(s, cap) && WellFormed(p)
    ensures Accounts(Accept(s, p, cap), h + [p],
                     counted + (if p.frameId in l.lost || Covered(h, p.frameId) then [] else [p]),
                     spans + SpanAdded(h, l.lost, p))
  {
    hide Mirrors, AllRecorded, Covered, Accept, Bytes, SpanAdded;
    RecordsAccept(s, h, l, p, cap);
    TrafficAccept(s, p, cap);
    SpansAccept(s, h, l, p, cap);
    ClosedIff(s, h, l, p.frameId);
    BytesSnoc(counted, p);
    assert counted + [] == counted;
  }

  lemma {:induction false} LedgerAccounts(es: seq<Event>, cap: nat)
    requires AllWellFormed(Packets(es))
    ensures Accounts(RunEvents(es, cap), Packets(es), Counted(es, cap), Spans(es, cap))
  {
    hide SpanAdded;
    if es != [] {
      var front := es[..|es| - 1];
      var s, h, l := RunEvents(front, cap), Packets(front), LedgerOf(front, cap);
      PacketsSnoc(es);
      LedgerMirrors(front, cap);
      LedgerAccounts(front, cap);
      EventsBalanced(front, cap);
      match es[|es| - 1]
      case FinalSummary =>
        DrainedParts(s);
        RecordsKept(s.stats, Drained(s).stats, h);
      case Datagram(p) => AccountsAccept(s, h, l, p, cap, Counted(front, cap), Spans(front, cap));
    }
  }

  /**
   The reassembly theorem without room, over every history with overflows and final summaries: the path waits for
   exactly the frames of the ledger, with exactly the fragments that arrived; the frames counted complete are
   exactly those that some prefix of the history covered and that are not lost, with the times and the span of the
   moment they were covered; and a datagram counts exactly if its frame was neither covered nor lost before.
   */
  lemma {:induction false} LedgerTells(es: seq<Event>, cap: nat)
    requires AllWellFormed(Packets(es))
    ensures Mirrors(RunEvents(es, cap), Packets(es), LedgerOf(es, cap))
    ensures Accounts(RunEvents(es, cap), Packets(es), Counted(es, cap), Spans(es, cap))
  {
    LedgerMirrors(es, cap);
    LedgerAccounts(es, cap);
  }

  /** At event k frame f is given up: the lowest of too many waiting frames, or waiting when a final summary comes. */
  ghost predicate GivenUp(es: seq<Event>, cap: nat, f: int, k: nat)
    requires k < |es|
  {
    var l := LedgerOf(es[..k], cap);
    match es[k]
    case FinalSummary => f in l.waiting
    case Datagram(p) =>
      && p.frameId !in l.lost && !Covered(Packets(es[..k]) + [p], p.frameId)
      && |l.waiting + {p.frameId}| > cap && f == Least(l.waiting + {p.frameId})
  }

  lemma {:induction false} LostStep(es: seq<Event>, cap: nat, f: int)
    requires es != []
    ensures f in LedgerOf(es, cap).lost <==>
              f in LedgerOf(es[..|es| - 1], cap).lost || GivenUp(es, cap, f, |es| - 1)
  {
    var front := es[..|es| - 1];
    if es[|es| - 1].Datagram? {
      CoveredSnoc(Packets(front), es[|es| - 1].p, es[|es| - 1].p.frameId);
    }
  }

  lemma {:induction false} LostIff(es: seq<Event>, cap: nat, f: int)
    ensures f in LedgerOf(es, cap).lost <==> exists k | 0 <= k < |es| :: GivenUp(es, cap, f, k)
  {
    if es != [] {
      var front := es[..|es| - 1];
      LostIff(front, cap, f);
      LostStep(es, cap, f);
      forall k | 0 <= k < |front|
        ensures GivenUp(front, cap, f, k) <==> GivenUp(es, cap, f, k)
      {
        assert front[..k] == es[..k];
      }
    }
  }

  /**
   With one fragment count per frame, a frame all of whose fragments arrived is counted complete if and only if it
   was never given up: never the lowest waiting frame at an overflow, and never waiting at a final summary.
   */
  lemma {:induction false} CompleteIffNeverGivenUp(es: seq<Event>, cap: nat)
    requires AllWellFormed(Packets(es)) && Uniform(Packets(es))
    ensures forall f :: f in RunEvents(es, cap).stats.firstArrival <==>
              f in WholeIds(Packets(es)) && !(exists k | 0 <= k < |es| :: GivenUp(es, cap, f, k))
    ensures RunEvents(es, cap).stats.partial == |LedgerOf(es, cap).lost|
  {
    hide GivenUp, LedgerOf, RunEvents;
    LedgerTells(es, cap);
    var h := Packets(es);
    forall f
      ensures f in RunEvents(es, cap).stats.firstArrival <==>
                f in WholeIds(h) && !(exists k | 0 <= k < |es| :: GivenUp(es, cap, f, k))
    {
      LostIff(es, cap, f);
      UniformCovered(h, f);
      assert f in WholeIds(h) <==> Covers(h, f);
    }
  }

  /** A history of datagrams alone is a run of events. */
  function Datagrams(h: seq<Packet>): seq<Event> {
    seq(|h|, i requires 0 <= i < |h| => Datagram(h[i]))
  }

  lemma {:induction false} RunIsRunEvents(h: seq<Packet>, cap: nat)
    ensures RunEvents(Datagrams(h), cap) == Run(h, cap)
    ensures Packets(Datagrams(h)) == h
  {
    if h != [] {
      assert Datagrams(h)[..|h| - 1] == Datagrams(h[..|h| - 1]);
      RunIsRunEvents(h[..|h| - 1], cap);
    }
  }
}
