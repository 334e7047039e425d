/**
 The video frame receiver of the test node: one `VideoPath` object per path, updated in place by every
 accepted datagram, by eviction of the lowest frame id, and by the finalising summary.
 `Accept`, `Pruned` and `Drained` say what one call does to the value of a path; what those values mean
 in terms of the datagrams that arrived is proved in VideoReassembly.
 */
module VideoReceiver {
  import opened SetFacts

  /** A datagram whose header parsed and whose run is authorised. */
  datatype Packet = Packet(frameId: int, index: int, count: int, sendNs: Option<int>, size: nat, nowNs: int)

  predicate WellFormed(p: Packet) {
    p.frameId >= 0 && p.count >= 1 && 0 <= p.index < p.count
  }

  datatype Frame = Frame(count: int, fragments: set<int>, firstArrival: int, lastArrival: int, firstSend: Option<int>)

  /** The `stats` dictionary of a path: what is known about the frames that are no longer active. */
  datatype Stats = Stats(
    seen: nat, complete: nat, partial: nat, spans: seq<int>,
    firstArrival: map<int, int>, firstSend: map<int, int>, finalized: set<int>)

  datatype PathState = PathState(bytes: nat, datagrams: nat, frames: map<int, Frame>, stats: Stats)

  const EMPTY_STATS := Stats(0, 0, 0, [], map[], map[], {})
  const EMPTY_PATH := PathState(0, 0, map[], EMPTY_STATS)

  function OpenedBy(p: Packet): Frame {
    Frame(p.count, {}, p.nowNs, p.nowNs, p.sendNs)
  }

  function Absorb(fr: Frame, p: Packet): Frame {
    Frame(Max(fr.count, p.count), fr.fragments + {p.index},
          Min(fr.firstArrival, p.nowNs), Max(fr.lastArrival, p.nowNs),
          if fr.firstSend == None then p.sendNs else fr.firstSend)
  }

  predicate Whole(fr: Frame) { fr.count != 0 && |fr.fragments| >= fr.count }

  function Finalized(st: Stats, id: int, fr: Frame): Stats {
    if id in st.finalized then st
    else if Whole(fr) then
      st.(finalized := st.finalized + {id}, complete := st.complete + 1,
      spans := st.spans + [fr.lastArrival - fr.firstArrival],
      firstArrival := st.firstArrival[id := fr.firstArrival],
      firstSend := if fr.firstSend == None then st.firstSend else st.firstSend[id := fr.firstSend.value])
    else st.(finalized := st.finalized + {id}, partial := st.partial + 1)
  }

  /** Finalise one active frame: it leaves the active map first. */
  function Closed(s: PathState, id: int): PathState
    requires id in s.frames
  {
    s.(frames := s.frames - {id}, stats := Finalized(s.stats, id, s.frames[id]))
  }

  lemma {:induction false} ClosedShrinks(s: PathState, id: int)
    requires id in s.frames
    ensures |Closed(s, id).frames| == |s.frames| - 1
    ensures Closed(s, id).frames.Keys == s.frames.Keys - {id}
  {
    assert (s.frames - {id}).Keys == s.frames.Keys - {id};
  }

  /** Evict lowest frame ids until at most `cap` frames are active. */
  function Pruned(s: PathState, cap: nat): PathState
    decreases |s.frames|
  {
    if |s.frames| <= cap then s
    else
      var id := Least(s.frames.Keys);
      ClosedShrinks(s, id);
      Pruned(Closed(s, id), cap)
  }

  /** The frame that a datagram belongs to, with the datagram's fragment recorded. */
  function Touched(s: PathState, p: Packet): Frame {
    Absorb(if p.frameId in s.frames then s.frames[p.frameId] else OpenedBy(p), p)
  }

  /** The path once a datagram has been counted and its frame updated, before any frame is closed. */
  function Noted(s: PathState, p: Packet): PathState {
    PathState(s.bytes + p.size, s.datagrams + 1, s.frames[p.frameId := Touched(s, p)],
              if p.frameId in s.frames then s.stats else s.stats.(seen := s.stats.seen + 1))
  }

  /** What one accepted datagram does to its path. */
  function Accept(s: PathState, p: Packet, cap: nat): PathState {
    if p.frameId in s.stats.finalized then s
    else
      var fr := Touched(s, p);
      var t := Noted(s, p);
      Pruned(if |fr.fragments| >= fr.count then Closed(t, p.frameId) else t, cap)
  }

  /** What the finalising summary does to a path: every frame still active becomes partial. */
  function Drained(s: PathState): PathState {
    s.(frames := map[], stats := s.stats.(partial := s.stats.partial + |s.frames|,
                                 finalized := s.stats.finalized + s.frames.Keys))
  }

  /** A frame that still lacks a fragment; its fragments are a strict subset of 0..count-1. */
  predicate Incomplete(fr: Frame) {
    fr.fragments != {} && fr.fragments < Range(0, fr.count) && fr.firstArrival <= fr.lastArrival
  }

  predicate StatsBalanced(st: Stats) {
    && st.complete + st.partial == |st.finalized|
    && |st.spans| == |st.firstArrival| == st.complete
    && st.firstSend.Keys <= st.firstArrival.Keys <= st.finalized
    && (forall i | 0 <= i < |st.spans| :: st.spans[i] >= 0)
  }

  predicate Tallied(s: PathState) {
    && s.stats.seen == |s.stats.finalized| + |s.frames|
    && s.stats.finalized !! s.frames.Keys
    && StatsBalanced(s.stats)
  }

  /** The balance that every operation on a path keeps. */
  predicate Balanced(s: PathState, cap: nat) {
    && Tallied(s)
    && (forall id | id in s.frames :: Incomplete(s.frames[id]))
    && |s.frames| <= cap
  }

  lemma {:induction false} WholeMeansAll(fr: Frame)
    requires fr.fragments <= Range(0, fr.count) && fr.count >= 0
    ensures |fr.fragments| >= fr.count <==> fr.fragments == Range(0, fr.count)
  {
    RangeSize(0, fr.count);
    SubsetSize(fr.fragments, Range(0, fr.count));
  }

  /** An active frame is never whole, so eviction and the finalising summary only ever add to `partial`. */
  lemma {:induction false} ClosingIncomplete(s: PathState, id: int)
    requires id in s.frames && id !in s.stats.finalized && Incomplete(s.frames[id])
    ensures Closed(s, id).stats == s.stats.(partial := s.stats.partial + 1, finalized := s.stats.finalized + {id})
  {
    WholeMeansAll(s.frames[id]);
  }

  lemma {:induction false} TouchedInRange(s: PathState, p: Packet)
    requires WellFormed(p) && (p.frameId in s.frames ==> Incomplete(s.frames[p.frameId]))
    ensures var fr := Touched(s, p);
            && fr.count >= 1 && fr.firstArrival <= fr.lastArrival
            && fr.fragments != {} && fr.fragments <= Range(0, fr.count)
            && (|fr.fragments| >= fr.count <==> fr.fragments == Range(0, fr.count))
            && (|fr.fragments| < fr.count ==> Incomplete(fr))
  {
    WholeMeansAll(Touched(s, p));
  }

  lemma {:induction false} NotedKeys(s: PathState, p: Packet)
    ensures Noted(s, p).frames.Keys == s.frames.Keys + {p.frameId}
    ensures |Noted(s, p).frames| == |s.frames| + if p.frameId in s.frames then 0 else 1
  {
    assert Noted(s, p).frames.Keys == s.frames.Keys + {p.frameId};
    assert |Noted(s, p).frames.Keys| == |s.frames.Keys| + if p.frameId in s.frames then 0 else 1;
  }

  /** One accepted datagram closes at most one frame: its own if now whole, else the lowest id if over the cap. */
  lemma {:induction false} AcceptOnce(s: PathState, p: Packet, cap: nat)
    requires |s.frames| <= cap && p.frameId !in s.stats.finalized
    ensures
      var fr := Touched(s, p);
      var t := Noted(s, p);
      Accept(s, p, cap) ==
        if |fr.fragments| >= fr.count then Closed(t, p.frameId)
        else if |t.frames| > cap then Closed(t, Least(t.frames.Keys))
        else t
  {
    var t := Noted(s, p);
    NotedKeys(s, p);
    ClosedShrinks(t, p.frameId);
    if |t.frames| > cap {
      var low := Least(t.frames.Keys);
      ClosedShrinks(t, low);
      assert Pruned(Closed(t, low), cap) == Closed(t, low);
    }
  }

  /** Eviction never completes a frame: the evicted one is counted partial. */
  lemma {:induction false} EvictionIsPartial(s: PathState, p: Packet, cap: nat)
    requires Balanced(s, cap) && WellFormed(p) && p.frameId !in s.stats.finalized
    requires |Touched(s, p).fragments| < Touched(s, p).count && |Noted(s, p).frames| > cap
    ensures Accept(s, p, cap).stats.partial == s.stats.partial + 1
  {
    var t := Noted(s, p);
    var low := Least(t.frames.Keys);
    AcceptOnce(s, p, cap);
    TouchedInRange(s, p);
    assert low !in s.stats.finalized && Incomplete(t.frames[low]);
    ClosingIncomplete(t, low);
  }

  lemma {:induction false} FinalizedKeepsStats(st: Stats, id: int, fr: Frame)
    requires StatsBalanced(st) && fr.firstArrival <= fr.lastArrival
    ensures StatsBalanced(Finalized(st, id, fr))
    ensures Finalized(st, id, fr).finalized == st.finalized + {id}
  {
    if id !in st.finalized && Whole(fr) {
      assert id !in st.firstArrival;
      MapGrows(st.firstArrival, id, fr.firstArrival);
    }
  }

  lemma {:induction false} ClosingKeepsTally(s: PathState, id: int)
    requires Tallied(s) && id in s.frames && s.frames[id].firstArrival <= s.frames[id].lastArrival
    ensures Tallied(Closed(s, id))
  {
    ClosedShrinks(s, id);
    FinalizedKeepsStats(s.stats, id, s.frames[id]);
  }

  lemma {:induction false} NotedKeepsTally(s: PathState, p: Packet)
    requires Tallied(s) && p.frameId !in s.stats.finalized
    ensures Tallied(Noted(s, p))
  {
    NotedKeys(s, p);
  }

  lemma {:induction false} AcceptKeepsTally(s: PathState, p: Packet, cap: nat)
    requires Balanced(s, cap) && WellFormed(p)
    ensures Tallied(Accept(s, p, cap))
  {
    hide Absorb, Finalized, Pruned;
    if p.frameId !in s.stats.finalized {
      var t := Noted(s, p);
      TouchedInRange(s, p);
      AcceptOnce(s, p, cap);
      NotedKeepsTally(s, p);
      if |Touched(s, p).fragments| >= Touched(s, p).count {
        ClosingKeepsTally(t, p.frameId);
      } else if |t.frames| > cap {
        assert t.frames[Least(t.frames.Keys)].firstArrival <= t.frames[Least(t.frames.Keys)].lastArrival;
        ClosingKeepsTally(t, Least(t.frames.Keys));
      }
    }
  }

  /** A datagram changes no active frame but its own, and leaves its own active only while a fragment is missing. */
  lemma {:induction false} AcceptFrames(s: PathState, p: Packet, cap: nat)
    requires |s.frames| <= cap && p.frameId !in s.stats.finalized
    ensures |Accept(s, p, cap).frames| <= cap
    ensures forall id | id in Accept(s, p, cap).frames ::
              if id == p.frameId then
                Accept(s, p, cap).frames[id] == Touched(s, p) && |Touched(s, p).fragments| < Touched(s, p).count
              else id in s.frames && Accept(s, p, cap).frames[id] == s.frames[id]
  {
    var t := Noted(s, p);
    AcceptOnce(s, p, cap);
    NotedKeys(s, p);
    ClosedShrinks(t, p.frameId);
    ClosedShrinks(t, Least(t.frames.Keys));
  }

  lemma {:induction false} AcceptKeepsBalance(s: PathState, p: Packet, cap: nat)
    requires Balanced(s, cap) && WellFormed(p)
    ensures Balanced(Accept(s, p, cap), cap)
  {
    if p.frameId !in s.stats.finalized {
      AcceptKeepsTally(s, p, cap);
      AcceptFrames(s, p, cap);
      TouchedInRange(s, p);
    }
  }

  lemma {:induction false} DrainStep(s: PathState, id: int, cap: nat)
    requires id in s.frames && Balanced(s, cap)
    ensures Drained(Closed(s, id)) == Drained(s)
    ensures Balanced(Closed(s, id), cap)
    ensures |Closed(s, id).frames| < |s.frames|
  {
    ClosingIncomplete(s, id);
    ClosedShrinks(s, id);
    ClosingKeepsTally(s, id);
    assert s.stats.finalized + {id} + (s.frames.Keys - {id}) == s.stats.finalized + s.frames.Keys;
  }

  lemma {:induction false} DrainKeepsBalance(s: PathState, cap: nat)
    requires Balanced(s, cap)
    ensures Balanced(Drained(s), cap)
    ensures Drained(Drained(s)) == Drained(s)
  {
    assert |s.frames.Keys| == |s.frames|;
    var t := Drained(s);
    assert t.stats.finalized == s.stats.finalized + s.frames.Keys;
    assert t.frames.Keys == {};
    assert t.stats.finalized + t.frames.Keys == t.stats.finalized;
  }

  class VideoPath {
    var bytesReceived: nat
    var datagramsReceived: nat
    var frames: map<int, Frame>
    var framesSeen: nat
    var framesComplete: nat
    var framesPartial: nat
    var spans: seq<int>
    var firstArrivalByFrame: map<int, int>
    var firstSendByFrame: map<int, int>
    var finalizedIds: set<int>

    ghost function State(): PathState
      reads this
    {
      PathState(bytesReceived, datagramsReceived, frames,
                Stats(framesSeen, framesComplete, framesPartial, spans,
                      firstArrivalByFrame, firstSendByFrame, finalizedIds))
    }

    constructor ()
      ensures State() == EMPTY_PATH
    {
      bytesReceived, datagramsReceived, frames := 0, 0, map[];
      framesSeen, framesComplete, framesPartial, spans := 0, 0, 0, [];
      firstArrivalByFrame, firstSendByFrame, finalizedIds := map[], map[], {};
    }

    method FinalizeFrame(frameId: int, frame: Frame)
      modifies this
      ensures State() == old(State()).(stats := Finalized(old(State()).stats, frameId, frame))
    {
      if frameId in finalizedIds {
        return;
      }
      finalizedIds := finalizedIds + {frameId};
      if frame.count != 0 && |frame.fragments| >= frame.count {
        framesComplete := framesComplete + 1;
        spans := spans + [frame.lastArrival - frame.firstArrival];
        firstArrivalByFrame := firstArrivalByFrame[frameId := frame.firstArrival];
        if frame.firstSend.Some? {
          firstSendByFrame := firstSendByFrame[frameId := frame.firstSend.value];
        }
      } else {
        framesPartial := framesPartial + 1;
      }
    }

    /** Take an active frame out of the map and finalise it. */
    method Close(frameId: int)
      requires frameId in frames
      modifies this
      ensures State() == Closed(old(State()), frameId)
    {
      var frame := frames[frameId];
      frames := frames - {frameId};
      FinalizeFrame(frameId, frame);
    }

    method Prune(cap: nat)
      modifies this
      ensures State() == Pruned(old(State()), cap)
    {
      while |frames| > cap
        invariant Pruned(State(), cap) == Pruned(old(State()), cap)
        decreases |frames|
      {
        var oldest := Least(frames.Keys);
        ClosedShrinks(State(), oldest);
        Close(oldest);
      }
    }

    /** Count a datagram and update its frame in place. */
    method Note(p: Packet) returns (frame: Frame)
      modifies this
      ensures State() == Noted(old(State()), p)
      ensures frame == Touched(old(State()), p)
    {
      bytesReceived := bytesReceived + p.size;
      datagramsReceived := datagramsReceived + 1;
      var isNew := p.frameId !in frames;
      frame := if isNew then OpenedBy(p) else frames[p.frameId];
      if isNew {
        framesSeen := framesSeen + 1;
      }
      frame := frame.(count := Max(frame.count, p.count));
      frame := frame.(fragments := frame.fragments + {p.index});
      frame := frame.(firstArrival := Min(frame.firstArrival, p.nowNs));
      frame := frame.(lastArrival := Max(frame.lastArrival, p.nowNs));
      if frame.firstSend == None && p.sendNs.Some? {
        frame := frame.(firstSend := p.sendNs);
      }
      frames := frames[p.frameId := frame];
    }

    method Record(p: Packet, cap: nat)
      requires WellFormed(p)
      modifies this
      ensures State() == Accept(old(State()), p, cap)
    {
      if p.frameId in finalizedIds {
        return;
      }
      var frame := Note(p);
      if |frame.fragments| >= frame.count {
        Close(p.frameId);
      }
      Prune(cap);
    }

    /** The finalising pass of the summary; the order in which the active frames are taken does not matter. */
    method FinalizeAll(ghost cap: nat)
      requires Balanced(State(), cap)
      modifies this
      ensures State() == Drained(old(State()))
      ensures Balanced(State(), cap)
    {
      while frames != map[]
        invariant Balanced(State(), cap)
        invariant Drained(State()) == Drained(old(State()))
        decreases |frames|
      {
        ghost var any := SomeElement(frames.Keys);
        var id :| id in frames;
        DrainStep(State(), id, cap);
        Close(id);
      }
      assert State().stats.finalized + {} == State().stats.finalized;
    }
  }
}
