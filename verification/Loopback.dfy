/** What is sent is what is received: the encoder, the transmit timer, the line and the decoder together. */
module Loopback {
  import opened Dali
  import opened Biphase
  import opened Encoder
  import opened TxSpec
  import opened RxSpec
  import opened Runs
  import opened Decoder

  // ---- time ----

  /** The times of the captures among the events from `i` up to `k`. */
  function Times(es: seq<Event>, ts: seq<int>, i: nat, k: nat): seq<int>
    requires i <= k <= |es| == |ts|
  {
    if k == i then [] else
    var earlier := Times(es, ts, i, k - 1);
    if es[k - 1].Capture? then earlier + [ts[k - 1]] else earlier
  }

  lemma {:induction false} TimesCaptured(ws: seq<World>, es: seq<Event>, ts: seq<int>, i: nat, k: nat)
    requires Timed(ws, es, ts) && i <= k <= |es|
    ensures |Times(es, ts, i, k)| == |Captured(es, i, k)|
    ensures forall m :: 0 <= m < |Captured(es, i, k)| ==> Captured(es, i, k)[m] == Wrap(Times(es, ts, i, k)[m])
  {
    if k > i {
      TimesCaptured(ws, es, ts, i, k - 1);
      assert OnTimeAt(ws, es, ts, k - 1);
    }
  }

  /** The capture that follows event `m` comes no earlier than `m`. */
  lemma {:induction false} NextTime(ws: seq<World>, es: seq<Event>, ts: seq<int>, i: nat, m: nat, l: nat)
    requires Timed(ws, es, ts) && i <= m <= l < |es| && es[l].Capture?
    ensures Times(es, ts, i, m) < Times(es, ts, i, l + 1)
    ensures ts[m] <= Times(es, ts, i, l + 1)[|Times(es, ts, i, m)|]
    decreases l - m
  {
    hide Run, OnTime;
    if m < l {
      NextTime(ws, es, ts, i, m + 1, l);
      if es[m].Capture? {
        assert Times(es, ts, i, m + 1)[|Times(es, ts, i, m)|] == ts[m];
      }
    }
  }

  lemma NotYet(last: int, t: int)
    requires last <= t < last + MIN_STOP
    ensures Wrap(Wrap(last) + MIN_STOP) != Wrap(t)
  {}

  ghost predicate Close(times: seq<int>) {
    forall k :: 0 <= k < |times| - 1 ==> times[k + 1] < times[k] + 2400
  }

  /** While the edges come closer together than a stop condition, no stop condition is seen. */
  lemma {:induction false} NoEarlyStop(ws: seq<World>, es: seq<Event>, ts: seq<int>, i: nat, m: nat, l: nat)
    requires Timed(ws, es, ts) && i < m <= l < |es| && es[l].Capture?
    requires Inv(ws[i]) && Listening(ws[i].node.rx.status) && es[i].Capture?
    requires Close(Times(es, ts, i, l + 1))
    ensures Receiving(ws, es, i, m)
  {
    hide Inv, Step;
    if m > i + 1 {
      NoEarlyStop(ws, es, ts, i, m - 1, l);
      NoStopHere(ws, es, ts, i, m - 1, l);
    }
  }

  lemma NoStopHere(ws: seq<World>, es: seq<Event>, ts: seq<int>, i: nat, m: nat, l: nat)
    requires Timed(ws, es, ts) && m <= l < |es| && es[l].Capture?
    requires Receiving(ws, es, i, m)
    requires Close(Times(es, ts, i, l + 1))
    ensures !es[m].StopMatch?
  {
    hide Step, Scan, Phases;
    if es[m].StopMatch? {
      var all, sofar := Times(es, ts, i, l + 1), Times(es, ts, i, m);
      HeardAlong(ws, es, i, m);
      TimesCaptured(ws, es, ts, i, m);
      NextTime(ws, es, ts, i, m, l);
      LastBefore(ws, es, ts, i, m);
      assert FollowsAt(ws, es, m);
      assert OnTimeAt(ws, es, ts, m);
      var n := |sofar|;
      assert all[n - 1] == sofar[n - 1];
      NotYet(sofar[n - 1], ts[m]);
      hide Wrap;
    }
  }

  lemma {:induction false} LastBefore(ws: seq<World>, es: seq<Event>, ts: seq<int>, i: nat, m: nat)
    requires Timed(ws, es, ts) && i <= m < |es|
    ensures var times := Times(es, ts, i, m); times != [] ==> times[|times| - 1] <= ts[m]
  {
    hide Run, OnTime;
    if m > i { LastBefore(ws, es, ts, i, m - 1); }
  }

  // ---- jitter ----

  const JITTER := 83

  /** A phase of a frame is recognised although it is up to 83 us too long or too short. */
  lemma JitterTolerated(w: Width, k: nat, elapsed: Word)
    requires w != Bad && Duration(w, k) - JITTER <= elapsed <= Duration(w, k) + JITTER
    ensures Classify(k % 2 == 0, elapsed) == w
  {
    ClassifyExact(k % 2 == 0, elapsed);
  }

  /** No larger tolerance would do: an idle half bit 84 us too long is not a half bit. */
  lemma JitterTight(k: nat)
    requires k % 2 == 1
    ensures Classify(k % 2 == 0, Duration(Half, k) + JITTER + 1) == Bad
  {
    ClassifyExact(false, Duration(Half, k) + JITTER + 1);
  }

  /** The edges heard are those sent, each interval off by at most the jitter. */
  ghost predicate Echo(edges: seq<int>, times: seq<int>) {
    && |times| == |edges| + 1
    && forall k :: 0 <= k < |edges| ==> Gap(edges, k) - JITTER <= times[k + 1] - times[k] <= Gap(edges, k) + JITTER
  }

  /** Events `i` to `l` hold all edges of a transmission, `j` is the stop condition behind them. */
  ghost predicate Hears(ws: seq<World>, es: seq<Event>, ts: seq<int>, i: nat, l: nat, j: nat, edges: seq<int>) {
    && Timed(ws, es, ts) && i < l < j < |es|
    && Inv(ws[i]) && Listening(ws[i].node.rx.status) && es[i].Capture?
    && es[l].Capture? && es[j].StopMatch?
    && (forall m :: l < m < j ==> !es[m].Capture? && !es[m].StopMatch?)
    && Echo(edges, Times(es, ts, i, l + 1))
  }

  lemma {:induction false} NoneAfter(es: seq<Event>, i: nat, l: nat, j: nat)
    requires i <= l <= j <= |es| && forall m :: l <= m < j ==> !es[m].Capture?
    ensures Captured(es, i, j) == Captured(es, i, l)
  {
    if l < j { NoneAfter(es, i, l, j - 1); }
  }

  /** Hearing a transmission: the reception is not cut short, and it holds the edges sent. */
  lemma HearsAll(ws: seq<World>, es: seq<Event>, ts: seq<int>, i: nat, l: nat, j: nat, edges: seq<int>)
    requires Hears(ws, es, ts, i, l, j, edges)
    requires forall k :: 0 <= k < |edges| ==> 100 <= Gap(edges, k) <= 2000
    ensures Receiving(ws, es, i, j)
    ensures |Captured(es, i, j)| == |edges| + 1
    ensures forall k :: 0 <= k < |edges| ==>
              Gap(edges, k) - JITTER <= Elapsed(Captured(es, i, j), k) <= Gap(edges, k) + JITTER
    ensures |edges| % 2 == 1 ==> !ws[j].active
  {
    hide Inv, Step, Scan, Phases, Times, Captured;
    NoEarlyStop(ws, es, ts, i, l, l);
    NoneAfter(es, i, l + 1, j);
    TimesCaptured(ws, es, ts, i, l + 1);
    HeardAlong(ws, es, i, j);
    EchoGaps(edges, Times(es, ts, i, l + 1), Captured(es, i, j));
    hide Elapsed, Gap;
  }

  lemma EchoGaps(edges: seq<int>, times: seq<int>, cs: seq<Word>)
    requires Echo(edges, times) && |cs| == |times|
    requires forall k :: 0 <= k < |edges| ==> 100 <= Gap(edges, k) <= 2000
    requires forall k :: 0 <= k < |cs| ==> cs[k] == Wrap(times[k])
    ensures forall k :: 0 <= k < |edges| ==>
              Gap(edges, k) - JITTER <= Elapsed(cs, k) <= Gap(edges, k) + JITTER
  {
    forall k | 0 <= k < |edges|
      ensures Gap(edges, k) - JITTER <= Elapsed(cs, k) <= Gap(edges, k) + JITTER
    {
      WrapGap(times[k], times[k + 1]);
    }
  }

  lemma WrapGap(a: int, b: int)
    requires 0 <= b - a < WORD
    ensures Wrap(Wrap(b) - Wrap(a)) == b - a
  {}

  // ---- frames ----

  /** The second queue is the first one and `n` good frames with the given length and data. */
  ghost predicate GoodFrames(before: seq<RxFrame>, after: seq<RxFrame>, n: nat, length: nat, data: nat) {
    && |after| == |before| + n && after[..|before|] == before
    && forall k :: |before| <= k < |after| ==>
         after[k].code == OK && after[k].length == length && after[k].data == data
  }

  /** The loopback round trip. A frame of up to 32 bits goes through the encoder and the transmit timer; its
      edges arrive with up to 83 us of jitter in every interval. The receiver queues exactly one frame: good,
      of the same length, with the data modulo 2^length, stamped with the time of the start edge. */
  lemma RoundTrip(tx: TxState, frame: TxFrame, ws: seq<World>, es: seq<Event>, ts: seq<int>, i: nat, l: nat, j: nat)
    requires TxSpec.Valid(tx) && frame.length <= MAX_DATA_LENGTH && frame.kind != Corrupt
    requires Hears(ws, es, ts, i, l, j, RunTimer(StartSend(Load(tx, frame))).edges)
    ensures var q, rx := ws[i].node.rx.queue, ws[j + 1].node.rx;
            && rx.status == INTER_FRAME_IDLE
            && GoodFrames(q, rx.queue, 1, frame.length, frame.data % Pow2(frame.length))
            && rx.queue[|q|].timestamp == es[i].tick
  {
    hide Inv, Step, Scan, Load, RunTimer, ToMidBit, Times, Captured;
    var bits := Bits(frame.data, frame.length);
    var edges := RunTimer(StartSend(Load(tx, frame))).edges;
    FrameOnTheLine(tx, frame);
    forall k | 0 <= k < |edges| ensures 393 <= Gap(edges, k) <= 857 && Pattern(bits)[k] != Bad {
      DurationsPositive(bits, k);
    }
    HearsAll(ws, es, ts, i, l, j, edges);
    PhasesMatch(Captured(es, i, j), edges, Pattern(bits));
    ReceptionOutcome(ws, es, i, j, bits);
    FrameHolds(StartFrame(ws[i], es[i]), frame);
    hide Pattern, Bits, FrameOf, Pow2, Phases, Hears, Gap, FaultFrame, GoodFrames;
    OneGoodFrame(ws[i].node.rx.queue, ws[j + 1].node.rx.queue);
  }

  lemma FrameReceived(frame: TxFrame, tx: TxState, ws: seq<World>, es: seq<Event>, ts: seq<int>, i: nat, l: nat, j: nat)
    requires TxSpec.Valid(tx) && frame.length <= MAX_DATA_LENGTH && frame.kind != Corrupt
    requires Hears(ws, es, ts, i, l, j, RunTimer(StartSend(Load(tx, frame))).edges)
    ensures i < |ws| && j + 1 < |ws|
    ensures GoodFrames(ws[i].node.rx.queue, ws[j + 1].node.rx.queue, 1, frame.length, frame.data % Pow2(frame.length))
  {
    hide Load, RunTimer, Pow2, Inv, Step, Times, OnTimeAt, FollowsAt, Echo, GoodFrames;
    RoundTrip(tx, frame, ws, es, ts, i, l, j);
  }

  lemma OneGoodFrame(before: seq<RxFrame>, after: seq<RxFrame>)
    requires |after| == |before| + 1 && after[..|before|] == before && after[|before|].code == OK
    ensures GoodFrames(before, after, 1, after[|before|].length, after[|before|].data)
  {}

  lemma FrameHolds(start: RxFrame, frame: TxFrame)
    requires frame.length <= MAX_DATA_LENGTH
    ensures var f := FrameOf(start, Bits(frame.data, frame.length));
            && f.length == frame.length && f.data == frame.data % Pow2(frame.length)
            && f.code == start.code && f.timestamp == start.timestamp
  {
    BitsValue(frame.data, frame.length);
    DataFits(frame.data, Pow2(frame.length));
  }

  lemma DataFits(data: Word, p: nat)
    requires p >= 1
    ensures Wrap(data % p) == data % p
  {}

  lemma PhasesMatch(cs: seq<Word>, edges: seq<int>, ws: seq<Width>)
    requires |cs| == |edges| + 1 == |ws| + 1
    requires forall k :: 0 <= k < |ws| ==> ws[k] != Bad && Gap(edges, k) == Duration(ws[k], k)
    requires forall k :: 0 <= k < |edges| ==> Gap(edges, k) - JITTER <= Elapsed(cs, k) <= Gap(edges, k) + JITTER
    ensures Phases(cs) == ws
  {
    forall k | 0 <= k < |ws| ensures Phases(cs)[k] == ws[k] {
      JitterTolerated(ws[k], k, Elapsed(cs, k));
    }
  }

  // ---- such runs exist ----

  /** The events of a reception: an edge at each of the given times, and the stop condition. */
  function ReceptionEvents(times: seq<int>): seq<Event>
    requires times != []
  {
    var end := times[|times| - 1] + MIN_STOP;
    EdgeEvents(times) + [StopMatch(Wrap(end), 0)]
  }

  function EdgeEvents(times: seq<int>): (es: seq<Event>)
    ensures |es| == |times|
    ensures forall k :: 0 <= k < |times| ==> es[k] == Capture(Wrap(times[k]), Wrap(times[k]), 0)
  {
    seq(|times|, k requires 0 <= k < |times| => Capture(Wrap(times[k]), Wrap(times[k]), 0))
  }

  /** The line has not been active for longer than a frame allows. */
  predicate Hearing(status: Status) {
    InBit(status) || Listening(status) || status == ERROR_IN_FRAME
  }

  lemma StopArmed(w: World, e: Event)
    requires Inv(w) && e.Capture? && Hearing(w.node.rx.status)
    ensures Step(w, e).node.rx.stop == Match(Wrap(e.count + MIN_STOP), true)
    ensures Hearing(Step(w, e).node.rx.status)
  {
    hide Wrap, ErrorData, CorrectedDifference, ManageTx, ShiftIn, FrameAgrees, TimersAgree, RepeatsAgree, Recover;
  }

  /** The worlds of a run of edges. */
  lemma {:induction false} EdgesRun(w: World, times: seq<int>, n: nat) returns (ws: seq<World>)
    requires Inv(w) && Hearing(w.node.rx.status) && n <= |times|
    ensures |ws| == n + 1 && ws[0] == w && Inv(ws[n]) && Hearing(ws[n].node.rx.status)
    ensures forall k :: 0 <= k < n ==> Follows(ws[k], EdgeEvents(times)[k], ws[k + 1])
    ensures n > 0 ==> ws[n].node.rx.stop == Match(Wrap(Wrap(times[n - 1]) + MIN_STOP), true)
  {
    hide Step, Inv, Hearing, Wrap, Follows;
    if n == 0 {
      ws := [w];
    } else {
      var front := EdgesRun(w, times, n - 1);
      var next := NextEdge(front[n - 1], EdgeEvents(times)[n - 1]);
      ws := front + [next];
    }
  }

  lemma NextEdge(w: World, e: Event) returns (next: World)
    requires Inv(w) && e.Capture? && Hearing(w.node.rx.status)
    ensures Follows(w, e, next) && Inv(next) && Hearing(next.node.rx.status)
    ensures next.node.rx.stop == Match(Wrap(e.count + MIN_STOP), true)
  {
    hide Step, LevelAgrees, FrameAgrees, TimersAgree, RepeatsAgree, Wrap, Hearing;
    InvStep(w, e);
    StopArmed(w, e);
    next := Step(w, e);
  }

  lemma {:induction false} EdgeTimes(times: seq<int>, ts: seq<int>, k: nat)
    requires times != [] && k <= |times| && |ts| == |times| + 1 && ts[..|times|] == times
    ensures Times(ReceptionEvents(times), ts, 0, k) == times[..k]
  {
    if k > 0 {
      EdgeTimes(times, ts, k - 1);
      assert ts[k - 1] == ts[..|times|][k - 1];
    }
  }

  /** From every world in which the receiver listens, every transmission can be heard with every jitter: the run
      that the round trip speaks of exists. */
  lemma TransmissionHeard(w: World, edges: seq<int>, times: seq<int>) returns (ws: seq<World>, ts: seq<int>)
    requires Inv(w) && Listening(w.node.rx.status) && edges != [] && Echo(edges, times)
    requires forall k :: 0 <= k < |edges| ==> Gap(edges, k) >= JITTER
    ensures ws != [] && ws[0] == w
    ensures Hears(ws, ReceptionEvents(times), ts, 0, |edges|, |edges| + 1, edges)
  {
    hide Step, LevelAgrees, FrameAgrees, TimersAgree, RepeatsAgree;
    var n, es := |times|, ReceptionEvents(times);
    ws := EdgesRun(w, times, n);
    WrapAdd(times[n - 1], MIN_STOP);
    ws := ws + [Step(ws[n], es[n])];
    ts := times + [times[n - 1] + MIN_STOP];
    Ordered(edges, times);
    forall k | 0 <= k < |es| ensures FollowsAt(ws, es, k) && OnTimeAt(ws, es, ts, k) {}
    EdgeTimes(times, ts, n);
    assert times[..n] == times;
  }

  lemma {:induction false} OrderedTo(edges: seq<int>, times: seq<int>, a: nat, b: nat)
    requires Echo(edges, times) && (forall k :: 0 <= k < |edges| ==> Gap(edges, k) >= JITTER) && a <= b < |times|
    ensures times[a] <= times[b]
  {
    if a < b { OrderedTo(edges, times, a, b - 1); }
  }

  lemma Ordered(edges: seq<int>, times: seq<int>)
    requires Echo(edges, times) && forall k :: 0 <= k < |edges| ==> Gap(edges, k) >= JITTER
    ensures forall a, b :: 0 <= a <= b < |times| ==> times[a] <= times[b]
  {
    forall a, b | 0 <= a <= b < |times| ensures times[a] <= times[b] {
      OrderedTo(edges, times, a, b);
    }
  }

  // ---- corrupt frames ----

  /** A corrupt frame is always rejected: the receiver queues exactly one frame, a data timing error in the
      second bit, of 1492 us but for the jitter. */
  lemma CorruptRejected(tx: TxState, frame: TxFrame,
                        ws: seq<World>, es: seq<Event>, ts: seq<int>, i: nat, l: nat, j: nat)
    requires TxSpec.Valid(tx) && frame.length <= MAX_DATA_LENGTH && frame.kind == Corrupt
    requires Hears(ws, es, ts, i, l, j, RunTimer(StartSend(Load(tx, frame))).edges)
    ensures var q, rx := ws[i].node.rx.queue, ws[j + 1].node.rx;
            && rx.status == INTER_FRAME_IDLE && |rx.queue| == |q| + 1 && rx.queue[..|q|] == q
            && rx.queue[|q|].code == RECEIVE_DATA_TIMING && rx.queue[|q|].length == 0
            && rx.queue[|q|].data % 0x100 == 1 && 1409 <= rx.queue[|q|].data / 0x100 <= 1575
  {
    hide Inv, Step, Load, RunTimer, Times, Captured, Scan, Phases, Gap, Pattern, Wrap, Corrected;
    var edges := RunTimer(StartSend(Load(tx, frame))).edges;
    CorruptOnTheLine(tx, frame);
    HearsAll(ws, es, ts, i, l, j, edges);
    var cs := Captured(es, i, j);
    CorruptScan(cs, edges);
    ReceptionOutcome(ws, es, i, j, []);
    PatternScanned(cs, []);
    hide Hears;
    assert |[true]| % 0x100 == 1;
  }

  lemma CorruptOnTheLine(tx: TxState, frame: TxFrame)
    requires TxSpec.Valid(tx) && frame.length <= MAX_DATA_LENGTH && frame.kind == Corrupt
    ensures var edges := RunTimer(StartSend(Load(tx, frame))).edges;
            |edges| == 17 && forall k :: 0 <= k < 17 ==> Gap(edges, k) == CorruptPhase(k)
  {
    var loaded, ds := Load(tx, frame), CorruptDurations();
    TransmissionRun(loaded);
    var edges := RunTimer(StartSend(loaded)).edges;
    assert edges == loaded.count[..17];
    hide RunTimer;
    forall k | 0 <= k < 17 ensures Gap(edges, k) == CorruptPhase(k) {
      EncodedBound(frame, k);
      WrapSmall(Total(ds, k + 1));
      assert ds[k] == CorruptPhase(k);
      if k > 0 {
        EncodedBound(frame, k - 1);
        WrapSmall(Total(ds, k));
      }
    }
  }

  lemma CorruptScan(cs: seq<Word>, edges: seq<int>)
    requires |edges| == 17 && |cs| == 18
    requires forall k :: 0 <= k < 17 ==> Gap(edges, k) == CorruptPhase(k)
    requires forall k :: 0 <= k < 17 ==> Gap(edges, k) - JITTER <= Elapsed(cs, k) <= Gap(edges, k) + JITTER
    ensures Scan(Phases(cs)) == Broken([true], STRETCHED)
  {
    var ps := Phases(cs);
    forall k | 0 <= k <= STRETCHED ensures ps[k] == if k == STRETCHED then Bad else Half {
      ClassifyExact(k % 2 == 0, Elapsed(cs, k));
      assert CorruptPhase(k) == if k == STRETCHED then 1476 else if k % 2 == 0 then 393 else 441;
    }
    assert ps[..5] == [Half, Half, Half, Half, Bad];
    ScanFive();
    BrokenStays(ps, 5);
  }

  lemma ScanFive()
    ensures Scan([Half, Half, Half, Half, Bad]) == Broken([true], 4)
  {
    var one: seq<Width> := [] + [Half];
    var two := one + [Half];
    var three := two + [Half];
    var four := three + [Half];
    ScanAppend([], Half);
    ScanAppend(one, Half);
    ScanAppend(two, Half);
    ScanAppend(three, Half);
    ScanAppend(four, Bad);
    assert [] + [true] == [true];
    hide Scan;
    assert four + [Bad] == [Half, Half, Half, Half, Bad];
  }

  lemma {:induction false} BrokenStays(ws: seq<Width>, n: nat)
    requires n <= |ws| && Scan(ws[..n]).Broken?
    ensures Scan(ws) == Scan(ws[..n])
    decreases |ws|
  {
    if n < |ws| {
      var front := ws[..|ws| - 1];
      assert front[..n] == ws[..n];
      BrokenStays(front, n);
    } else {
      assert ws[..n] == ws;
    }
  }

  // ---- user-defined sequences ----

  /** How a period of a user-defined sequence is received on a wire without delay: exactly by these windows,
      which lie 8 us above or below those of the standard on the side that the correction moves. */
  function Window(period: Word, k: nat): Width {
    if k % 2 == 0 then
      if 333 <= period <= 516 then Half else if 666 <= period <= 1016 then Full else Bad
    else
      if 317 <= period <= 500 then Half else if 650 <= period <= 1000 then Full else Bad
  }

  lemma WindowExact(period: Word, k: nat)
    ensures Classify(k % 2 == 0, Wrap(Shifted(period, k))) == Window(period, k)
    ensures 333 <= period <= 500 ==> Window(period, k) == Half
    ensures 666 <= period <= 1000 ==> Window(period, k) == Full
  {
    hide Classify;
    ClassifyExact(k % 2 == 0, Wrap(Shifted(period, k)));
  }

  /** What is heard of the periods: a last idle period runs into the stop condition. */
  function HeardWidths(periods: seq<Word>): seq<Width>
    requires periods != []
  {
    var n := if |periods| % 2 == 1 then |periods| else |periods| - 1;
    seq(n, k requires 0 <= k < n => Window(periods[k], k))
  }

  /** The edges of a sequence once it is executed. */
  lemma SequenceOnTheLine(tx: TxState, periods: seq<Word>)
    requires Entered(tx, periods) && periods != []
    ensures var edges := RunTimer(StartSend(tx.(indexMax := tx.indexMax - 1))).edges;
            && |edges| == |HeardWidths(periods)|
            && forall k :: 0 <= k < |edges| ==> Wrap(Gap(edges, k)) == Wrap(Shifted(periods[k], k))
  {
    SequenceEdges(tx);
    hide RunTimer, Wrap, Shifted, StartSend, Window;
    SequenceGaps(tx, periods, RunTimer(StartSend(tx.(indexMax := tx.indexMax - 1))).edges);
  }

  lemma SequenceEdges(tx: TxState)
    requires 1 <= tx.indexMax <= COUNT_ARRAY_SIZE
    ensures RunTimer(StartSend(tx.(indexMax := tx.indexMax - 1))).edges ==
            tx.count[..if tx.indexMax % 2 == 1 then tx.indexMax else tx.indexMax - 1]
  {
    TransmissionRun(tx.(indexMax := tx.indexMax - 1));
    hide RunTimer;
  }

  lemma SequenceGaps(tx: TxState, periods: seq<Word>, edges: seq<Word>)
    requires Entered(tx, periods) && |edges| <= |periods| && edges == tx.count[..|edges|]
    ensures forall k :: 0 <= k < |edges| ==> Wrap(Gap(edges, k)) == Wrap(Shifted(periods[k], k))
  {
    hide Wrap, Shifted, Gap;
    forall k | 0 <= k < |edges| ensures Wrap(Gap(edges, k)) == Wrap(Shifted(periods[k], k)) {
      SequenceGap(tx, periods, k);
      PrefixGap(tx.count, |edges|, k);
    }
  }

  lemma PrefixGap(s: seq<int>, n: nat, k: nat)
    requires k < n <= |s|
    ensures Gap(s[..n], k) == Gap(s, k)
  {}

  lemma SequenceGap(tx: TxState, periods: seq<Word>, k: nat)
    requires Entered(tx, periods) && k < |periods|
    ensures Wrap(Gap(tx.count, k)) == Wrap(Shifted(periods[k], k))
  {
    var ds := SequencePhases(periods);
    assert Total(ds, k + 1) == Total(ds, k) + ds[k];
    WrapDifference(Total(ds, k), ds[k]);
  }

  lemma WrapDifference(a: int, b: int)
    ensures Wrap(Wrap(a + b) - Wrap(a)) == Wrap(b)
    ensures a == 0 ==> Wrap(Wrap(a + b)) == Wrap(b)
  {}

  /** The tolerance of the receiver is exact. On a wire without delay, an executed sequence of up to 67
      periods is received as a good frame if and only if its periods, seen through the windows, are the
      waveform of a bit sequence; and then it is received as those bits. */
  lemma SequenceTolerance(tx: TxState, periods: seq<Word>,
                          ws: seq<World>, es: seq<Event>, i: nat, j: nat, bits: seq<bool>)
    requires Entered(tx, periods) && periods != []
    requires Receiving(ws, es, i, j) && j < |es| && es[j].StopMatch? && !ws[j].active
    requires var edges, cs := RunTimer(StartSend(tx.(indexMax := tx.indexMax - 1))).edges, Captured(es, i, j);
             |cs| == |edges| + 1 && forall k :: 0 <= k < |edges| ==> Elapsed(cs, k) == Wrap(Gap(edges, k))
    ensures var q, rx := ws[i].node.rx.queue, ws[j + 1].node.rx;
            && |rx.queue| == |q| + 1 && rx.queue[..|q|] == q
            && (rx.queue[|q|].code == OK <==> exists b :: HeardWidths(periods) == Pattern(b))
            && (HeardWidths(periods) == Pattern(bits) ==>
                  rx.queue[|q|].(twice := false) == FrameOf(StartFrame(ws[i], es[i]), bits))
  {
    hide Inv, Step, RunTimer, Captured, Pattern;
    SequenceOnTheLine(tx, periods);
    var cs := Captured(es, i, j);
    forall k | 0 <= k < |cs| - 1 ensures Phases(cs)[k] == HeardWidths(periods)[k] {
      WindowExact(periods[k], k);
    }
    assert Phases(cs) == HeardWidths(periods);
    ReceptionOutcome(ws, es, i, j, bits);
  }
}
