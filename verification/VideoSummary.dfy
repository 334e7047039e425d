/**
 The video part of the test node around one path: the entry point for frame datagrams with its header and
 reservation checks, the live, full and final summaries, and the comparison of two paths.
 */
module VideoSummary {
  import opened SetFacts
  import opened VideoReceiver
  import Reservations

  /** A header field after JSON decoding. */
  datatype Field = Absent | Malformed | Number(value: int)

  datatype Header = Header(runId: string, pathId: string, token: string,
                           frameId: Field, fragmentIndex: Field, fragmentCount: Field, sendNs: Field)

  /** The packet that a header describes, if all its fields convert and the fragment numbers make sense. */
  function Parse(h: Header, size: nat, nowNs: int): (r: Option<Packet>)
    ensures r.Some? ==> WellFormed(r.value)
  {
    if !h.frameId.Number? || !h.fragmentIndex.Number? || !h.fragmentCount.Number? || h.sendNs.Malformed? then None
    else
      var p := Packet(h.frameId.value, h.fragmentIndex.value, h.fragmentCount.value,
                      if h.sendNs.Number? then Some(h.sendNs.value) else None, size, nowNs);
      if WellFormed(p) then Some(p) else None
  }

  /** The header that describes a packet. */
  predicate Describes(h: Header, p: Packet) {
    && h.frameId == Number(p.frameId) && h.fragmentIndex == Number(p.index) && h.fragmentCount == Number(p.count)
    && h.sendNs == if p.sendNs == None then Absent else Number(p.sendNs.value)
  }

  /** A header is accepted exactly if it describes a well-formed packet, and then as that packet. */
  lemma {:induction false} AcceptedHeaders(h: Header, size: nat, nowNs: int)
    ensures Parse(h, size, nowNs).Some? <==> exists p :: WellFormed(p) && Describes(h, p)
    ensures forall p | WellFormed(p) && Describes(h, p) ::
              Parse(h, size, nowNs) == Some(p.(size := size, nowNs := nowNs))
  {
    var r := Parse(h, size, nowNs);
    if r.Some? {
      assert WellFormed(r.value) && Describes(h, r.value);
    }
  }

  /** Whether a datagram is counted at all. */
  predicate Counted(h: Header, size: nat, nowNs: int, table: Reservations.Table, now: real) {
    && h.runId != "" && h.pathId != ""
    && Reservations.Granted(table, Reservations.Traffic(h.runId, h.token), now)
    && Parse(h, size, nowNs).Some?
  }

  /**
   While the test node holds reservation r, a datagram counts exactly if it names a path and a run, carries the token of
   the reservation, belongs to its run or a part of it, and describes a well-formed fragment.
   */
  lemma {:induction false} CountedIff(
    h: Header, size: nat, nowNs: int, table: Reservations.Table, now: real, r: Reservations.Reservation)
    requires table == map[r.id := r] && !Reservations.Expired(r, now)
    ensures Counted(h, size, nowNs, table, now) <==>
              && h.pathId != "" && h.runId != "" && h.token != "" && h.token == r.token
              && (r.runId == "" || h.runId == r.runId || exists part :: h.runId == r.runId + "-" + part)
              && (exists p :: WellFormed(p) && Describes(h, p))
  {
    hide Parse, Reservations.Matches, Describes;
    assert Reservations.Live(table, now) == table;
    Reservations.MatchesIff(r.runId, h.runId);
    AcceptedHeaders(h, size, nowNs);
    assert r.id in table;
  }

  /** What every summary mode reports about one path. */
  datatype Report = Report(seen: nat, complete: nat, partial: nat)

  function ReportOf(s: PathState): Report {
    Report(s.stats.seen, s.stats.complete, s.stats.partial + |s.frames|)
  }

  /** A report balances, and finalising changes neither it nor the set of complete frames. */
  lemma {:induction false} ReportBalances(s: PathState, cap: nat)
    requires Balanced(s, cap)
    ensures ReportOf(s).complete + ReportOf(s).partial == ReportOf(s).seen
    ensures ReportOf(Drained(s)) == ReportOf(s)
    ensures Drained(s).stats.firstArrival == s.stats.firstArrival && Drained(s).stats.firstSend == s.stats.firstSend
    ensures Drained(Drained(s)) == Drained(s)
  {
    DrainKeepsBalance(s, cap);
  }

  function WholeAmong(frames: map<int, Frame>): set<int> { set id | id in frames && Whole(frames[id]) }

  /** Count the active frames that are whole and those that are not, as every summary does before adding the totals. */
  method CountActive(frames: map<int, Frame>) returns (whole: nat, open: nat)
    ensures whole == |WholeAmong(frames)| && whole + open == |frames|
  {
    whole, open := 0, 0;
    var todo := frames.Keys;
    ghost var met: set<int> := {};
    while todo != {}
      invariant met + todo == frames.Keys && met !! todo
      invariant whole == |met * WholeAmong(frames)| && whole + open == |met|
      decreases |todo|
    {
      ghost var any := SomeElement(todo);
      var id :| id in todo;
      todo := todo - {id};
      CountOneMore(met, WholeAmong(frames), id);
      met := met + {id};
      if frames[id].count != 0 && |frames[id].fragments| >= frames[id].count {
        whole := whole + 1;
      } else {
        open := open + 1;
      }
    }
    assert met == frames.Keys && met * WholeAmong(frames) == WholeAmong(frames);
    assert |frames.Keys| == |frames|;
  }

  lemma {:induction false} CountOneMore(met: set<int>, chosen: set<int>, id: int)
    requires id !in met
    ensures |(met + {id}) * chosen| == |met * chosen| + if id in chosen then 1 else 0
    ensures |met + {id}| == |met| + 1
  {
    if id in chosen {
      assert (met + {id}) * chosen == met * chosen + {id};
    } else {
      assert (met + {id}) * chosen == met * chosen;
    }
  }

  /** No active frame is ever whole, so the summaries find nothing more to count complete. */
  lemma {:induction false} NothingWhole(s: PathState, cap: nat)
    requires Balanced(s, cap)
    ensures WholeAmong(s.frames) == {}
  {
    forall id | id in s.frames ensures !Whole(s.frames[id]) { WholeMeansAll(s.frames[id]); }
  }

  /** One frame datagram for a path: counted there, or dropped without any effect on the path. */
  method RecordDatagram(
    node: Reservations.TestNode, path: VideoPath, cap: nat, h: Header, size: nat, nowNs: int, now: real)
    requires node.Valid() && Balanced(path.State(), cap)
    modifies node, path
    ensures node.Valid() && Balanced(path.State(), cap)
    ensures path.State() ==
              if Counted(h, size, nowNs, old(node.reservations), now) then
                Accept(old(path.State()), Parse(h, size, nowNs).value, cap)
              else old(path.State())
    ensures node.reservations ==
              if h.runId == "" || h.pathId == "" then old(node.reservations)
              else Reservations.Live(old(node.reservations), now)
  {
    if h.runId == "" || h.pathId == "" {
      return;
    }
    var ok := node.Authorize(h.runId, h.token, now);
    if !ok {
      return;
    }
    var packet := Parse(h, size, nowNs);
    if packet == None {
      return;
    }
    AcceptKeepsBalance(path.State(), packet.value, cap);
    path.Record(packet.value, cap);
  }

  /** The live summary of a path changes nothing. */
  method LiveReport(path: VideoPath, ghost cap: nat) returns (r: Report)
    requires Balanced(path.State(), cap)
    ensures r == ReportOf(path.State())
  {
    var whole, open := CountActive(path.frames);
    NothingWhole(path.State(), cap);
    r := Report(path.framesSeen, path.framesComplete + whole, path.framesPartial + open);
  }

  /**
   The full summary also hands out the arrival and send times of the complete frames; with `finalize` it drains the
   path.
   */
  method FullReport(path: VideoPath, finalize: bool, ghost cap: nat) returns (r: Report, a: Arrivals)
    requires Balanced(path.State(), cap)
    modifies path
    ensures Balanced(path.State(), cap)
    ensures r == ReportOf(old(path.State()))
    ensures a == Arrivals(old(path.State()).stats.firstArrival, old(path.State()).stats.firstSend)
    ensures path.State() == if finalize then Drained(old(path.State())) else old(path.State())
  {
    ReportBalances(path.State(), cap);
    if finalize {
      path.FinalizeAll(cap);
    }
    r := LiveReport(path, cap);
    a := Arrivals(path.firstArrivalByFrame, path.firstSendByFrame);
  }

  // ----- The comparison of two paths -----

  datatype Arrivals = Arrivals(first: map<int, int>, sent: map<int, int>)

  /** Negative when frame f won on the left path; corrected by the send stamps if both sides have one. */
  function Comparison(l: Arrivals, r: Arrivals, f: int): int
    requires f in l.first && f in r.first
  {
    var diff := l.first[f] - r.first[f];
    if f in l.sent && f in r.sent then diff - (l.sent[f] - r.sent[f]) else diff
  }

  datatype Dual = Dual(both: nat, either: nat, leftOnly: nat, rightOnly: nat, score: Score)

  function Sign(x: int): int { if x < 0 then -1 else if x > 0 then 1 else 0 }

  /** The frames complete on both paths whose comparison has a given sign. */
  function Signed(l: Arrivals, r: Arrivals, sign: int): set<int> {
    set f | f in l.first.Keys * r.first.Keys && Sign(Comparison(l, r, f)) == sign
  }

  /**
   Path a was faster with frame f: it took less time from its sending to its first arrival, if both sides stamped it,
   and it arrived earlier, if one of the stamps is missing.
   */
  predicate Beats(a: Arrivals, b: Arrivals, f: int)
    requires f in a.first && f in b.first
  {
    if f in a.sent && f in b.sent then a.first[f] - a.sent[f] < b.first[f] - b.sent[f] else a.first[f] < b.first[f]
  }

  /** The frames complete on both paths with which path a was faster. */
  function Faster(a: Arrivals, b: Arrivals): set<int> { set f | f in a.first.Keys * b.first.Keys && Beats(a, b, f) }

  lemma {:induction false} TwoParts(all: set<int>, a: set<int>, b: set<int>)
    requires a <= all && b <= all && a !! b
    ensures |all - a - b| == |all| - |a| - |b|
  {
    SplitSize(all, a);
    SplitSize(all - a, b);
  }

  lemma {:induction false} SignIs(l: Arrivals, r: Arrivals, f: int)
    requires f in l.first && f in r.first
    ensures Sign(Comparison(l, r, f)) == if Beats(l, r, f) then -1 else if Beats(r, l, f) then 1 else 0
    ensures !(Beats(l, r, f) && Beats(r, l, f))
  {
  }

  lemma {:induction false} SignSets(l: Arrivals, r: Arrivals)
    ensures Signed(l, r, -1) == Faster(l, r) && Signed(l, r, 1) == Faster(r, l) && Faster(l, r) !! Faster(r, l)
    ensures Signed(l, r, 0) == l.first.Keys * r.first.Keys - Faster(l, r) - Faster(r, l)
  {
    hide Comparison, Sign, Beats;
    forall f | f in l.first && f in r.first
      ensures Sign(Comparison(l, r, f)) == if Beats(l, r, f) then -1 else if Beats(r, l, f) then 1 else 0
      ensures !(Beats(l, r, f) && Beats(r, l, f))
    {
      SignIs(l, r, f);
    }
  }

  /** The sign of the comparison says which path was faster, for every frame complete on both. */
  lemma {:induction false} SignTells(l: Arrivals, r: Arrivals)
    ensures Signed(l, r, -1) == Faster(l, r) && Signed(l, r, 1) == Faster(r, l) && Faster(l, r) !! Faster(r, l)
    ensures |Signed(l, r, 0)| == |l.first.Keys * r.first.Keys| - |Faster(l, r)| - |Faster(r, l)|
  {
    SignSets(l, r);
    assert Faster(l, r) <= l.first.Keys * r.first.Keys && Faster(r, l) <= l.first.Keys * r.first.Keys;
    hide Signed, Faster;
    TwoParts(l.first.Keys * r.first.Keys, Faster(l, r), Faster(r, l));
  }

  /** Neither path is preferred: with the two swapped, every comparison is the opposite, and so is every award. */
  lemma {:induction false} SwapNegates(l: Arrivals, r: Arrivals, sign: int)
    ensures forall f | f in l.first.Keys * r.first.Keys :: Comparison(r, l, f) == -Comparison(l, r, f)
    ensures Signed(r, l, -sign) == Signed(l, r, sign)
  {
    assert r.first.Keys * l.first.Keys == l.first.Keys * r.first.Keys;
    forall f | f in l.first.Keys * r.first.Keys
      ensures Sign(Comparison(r, l, f)) == -Sign(Comparison(l, r, f))
    {
    }
  }

  datatype Score = Score(leftWins: nat, rightWins: nat, ties: nat)

  /** Award one frame: a tie if the comparison is zero, else a win for the earlier path. */
  function Awarded(s: Score, comparison: int): Score {
    if comparison == 0 then s.(ties := s.ties + 1)
    else if comparison < 0 then s.(leftWins := s.leftWins + 1)
    else s.(rightWins := s.rightWins + 1)
  }

  /** The pairing loop of the summary: each path wins the frames with which it was faster. */
  method Pair(l: Arrivals, r: Arrivals) returns (s: Score)
    ensures s == Score(|Signed(l, r, -1)|, |Signed(l, r, 1)|, |Signed(l, r, 0)|)
    ensures s.leftWins == |Faster(l, r)| && s.rightWins == |Faster(r, l)|
    ensures s.leftWins + s.rightWins + s.ties == |l.first.Keys * r.first.Keys|
  {
    s := Score(0, 0, 0);
    var todo := l.first.Keys * r.first.Keys;
    ScoredNone(l, r);
    while todo != {}
      invariant todo <= l.first.Keys * r.first.Keys
      invariant ScoredBut(l, r, todo, s)
      decreases |todo|
    {
      ghost var any := SomeElement(todo);
      var f :| f in todo;
      ScoreOneMore(l, r, todo, f, s);
      todo := todo - {f};
      s := Awarded(s, Comparison(l, r, f));
    }
    ScoredAll(l, r, s);
    SignTells(l, r);
  }

  predicate Scored(l: Arrivals, r: Arrivals, met: set<int>, s: Score) {
    && s.leftWins == |met * Signed(l, r, -1)| && s.rightWins == |met * Signed(l, r, 1)|
    && s.ties == |met * Signed(l, r, 0)|
    && s.leftWins + s.rightWins + s.ties == |met|
  }

  /** The score covers every common frame but those in `todo`. */
  predicate ScoredBut(l: Arrivals, r: Arrivals, todo: set<int>, s: Score) {
    Scored(l, r, l.first.Keys * r.first.Keys - todo, s)
  }

  lemma {:induction false} ScoredNone(l: Arrivals, r: Arrivals)
    ensures ScoredBut(l, r, l.first.Keys * r.first.Keys, Score(0, 0, 0))
  {
    var common := l.first.Keys * r.first.Keys;
    assert common - common == {};
    assert forall sign :: {} * Signed(l, r, sign) == {};
  }

  lemma {:induction false} SignedHas(l: Arrivals, r: Arrivals, f: int, sign: int)
    requires f in l.first.Keys * r.first.Keys
    ensures f in Signed(l, r, sign) <==> Sign(Comparison(l, r, f)) == sign
  {
  }

  lemma {:induction false} ScoreOneMore(l: Arrivals, r: Arrivals, todo: set<int>, f: int, s: Score)
    requires todo <= l.first.Keys * r.first.Keys && f in todo && ScoredBut(l, r, todo, s)
    ensures f in l.first && f in r.first
    ensures ScoredBut(l, r, todo - {f}, Awarded(s, Comparison(l, r, f)))
  {
    hide Signed, Comparison;
    SignedHas(l, r, f, -1);
    SignedHas(l, r, f, 0);
    SignedHas(l, r, f, 1);
    var met := l.first.Keys * r.first.Keys - todo;
    assert l.first.Keys * r.first.Keys - (todo - {f}) == met + {f};
    CountOneMore(met, Signed(l, r, -1), f);
    CountOneMore(met, Signed(l, r, 0), f);
    CountOneMore(met, Signed(l, r, 1), f);
  }

  lemma {:induction false} ScoredAll(l: Arrivals, r: Arrivals, s: Score)
    requires ScoredBut(l, r, {}, s)
    ensures s == Score(|Signed(l, r, -1)|, |Signed(l, r, 1)|, |Signed(l, r, 0)|)
    ensures s.leftWins + s.rightWins + s.ties == |l.first.Keys * r.first.Keys|
  {
    var common := l.first.Keys * r.first.Keys;
    assert common - {} == common;
    assert common * Signed(l, r, -1) == Signed(l, r, -1);
    assert common * Signed(l, r, 0) == Signed(l, r, 0);
    assert common * Signed(l, r, 1) == Signed(l, r, 1);
  }

  /** The dual-path part of the summary: the split of the frames by path, and who delivered the common ones first. */
  method ComparePaths(l: Arrivals, r: Arrivals) returns (d: Dual)
    ensures d.both == |l.first.Keys * r.first.Keys| && d.either == |l.first.Keys + r.first.Keys|
    ensures d.leftOnly == |l.first.Keys - r.first.Keys| && d.rightOnly == |r.first.Keys - l.first.Keys|
    ensures d.score == Score(|Signed(l, r, -1)|, |Signed(l, r, 1)|, |Signed(l, r, 0)|)
    ensures d.score.leftWins == |Faster(l, r)| && d.score.rightWins == |Faster(r, l)|
    ensures d.score.leftWins + d.score.rightWins + d.score.ties == d.both
    ensures d.both + d.leftOnly + d.rightOnly == d.either
  {
    var score := Pair(l, r);
    Overlap(l.first.Keys, r.first.Keys);
    d := Dual(|l.first.Keys * r.first.Keys|, |l.first.Keys + r.first.Keys|,
              |l.first.Keys - r.first.Keys|, |r.first.Keys - l.first.Keys|, score);
  }

  lemma {:induction false} Overlap(a: set<int>, b: set<int>)
    ensures |a * b| + |a - b| + |b - a| == |a + b|
  {
    assert a + b == a * b + (a - b) + (b - a);
  }

  /** The same frames, all sent and received k later. */
  function Delayed(a: Arrivals, k: int): Arrivals {
    Arrivals(map f | f in a.first :: a.first[f] + k, map f | f in a.sent :: a.sent[f] + k)
  }

  /**
   The correction does its work: when both sides stamped every frame, sending all of a path's frames k later decides
   nothing.
   */
  lemma {:induction false} SendingLaterDecidesNothing(l: Arrivals, r: Arrivals, k: int, sign: int)
    requires l.first.Keys <= l.sent.Keys && r.first.Keys <= r.sent.Keys
    ensures Signed(Delayed(l, k), r, sign) == Signed(l, r, sign)
  {
    forall f | f in l.first.Keys * r.first.Keys
      ensures Comparison(Delayed(l, k), r, f) == Comparison(l, r, f)
    {
    }
  }

  /** The same frames, stamped by a sender whose clock is k ahead: arrivals are stamped by the one receiver. */
  function Skewed(a: Arrivals, k: int): Arrivals {
    a.(sent := map f | f in a.sent :: a.sent[f] + k)
  }

  predicate Stamped(l: Arrivals, r: Arrivals, f: int) { f in l.sent && f in r.sent }

  /** Frame f keeps its winner under a skew of k: it is not corrected, or won by more than the skew takes away. */
  predicate Outlasts(l: Arrivals, r: Arrivals, f: int, k: int)
    requires f in l.first && f in r.first
  {
    var x := Comparison(l, r, f);
    !Stamped(l, r, f) || k == 0 || (x > 0 && k < x) || (x < 0 && x < k)
  }

  /** A skew of one sender's clock moves the comparison of every frame that both sides stamped by just as much. */
  lemma {:induction false} SkewMovesComparison(l: Arrivals, r: Arrivals, f: int, k: int)
    requires f in l.first && f in r.first
    ensures Comparison(Skewed(l, k), r, f) == Comparison(l, r, f) - if Stamped(l, r, f) then k else 0
    ensures Sign(Comparison(Skewed(l, k), r, f)) == Sign(Comparison(l, r, f)) <==> Outlasts(l, r, f, k)
  {
  }

  /**
   So the frames won by the left, won by the right and tied stay the same if and only if every frame complete on
   both paths outlasts the skew. The correction takes it that the two senders' clocks agree.
   */
  lemma {:induction false} SkewDecidesIff(l: Arrivals, r: Arrivals, k: int)
    ensures (forall sign :: Signed(Skewed(l, k), r, sign) == Signed(l, r, sign)) <==>
              forall f | f in l.first.Keys * r.first.Keys :: Outlasts(l, r, f, k)
  {
    forall f | f in l.first.Keys * r.first.Keys
      ensures Outlasts(l, r, f, k) <==> f in Signed(Skewed(l, k), r, Sign(Comparison(l, r, f)))
      ensures f in Signed(l, r, Sign(Comparison(l, r, f)))
    {
      SkewMovesComparison(l, r, f, k);
      SignedHas(Skewed(l, k), r, f, Sign(Comparison(l, r, f)));
    }
    if forall f | f in l.first.Keys * r.first.Keys :: Outlasts(l, r, f, k) {
      forall sign
        ensures Signed(Skewed(l, k), r, sign) == Signed(l, r, sign)
      {
        forall f | f in l.first.Keys * r.first.Keys
          ensures f in Signed(Skewed(l, k), r, sign) <==> f in Signed(l, r, sign)
        {
          SkewMovesComparison(l, r, f, k);
        }
      }
    }
  }

  /** A frame that the left path delivered first is awarded to the right one if the left sender's clock is 5 behind. */
  lemma {:induction false} SkewTurnsWinner(f: int)
    ensures var l, r := Arrivals(map[f := 10], map[f := 0]), Arrivals(map[f := 11], map[f := 0]);
            Signed(l, r, -1) == {f} && Signed(Skewed(l, -5), r, -1) == {} && Signed(Skewed(l, -5), r, 1) == {f}
  {
    var l, r := Arrivals(map[f := 10], map[f := 0]), Arrivals(map[f := 11], map[f := 0]);
    assert Comparison(l, r, f) == -1;
    SkewMovesComparison(l, r, f, -5);
    assert l.first.Keys * r.first.Keys == {f};
  }
}
