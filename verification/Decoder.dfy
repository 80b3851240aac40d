/** The decoder: whatever edges arrive between a start edge and the stop condition, exactly one frame is
    queued, and it is good exactly when the edges are the biphase waveform of a bit sequence. */
module Decoder {
  import opened Dali
  import opened Biphase
  import opened TxSpec
  import opened RxSpec
  import opened Runs

  /** What the receiver makes of a phase of the given level and length. */
  function Classify(active: bool, elapsed: Word): Width {
    var difference := Corrected(active, elapsed);
    if ValidHalfBit(difference) then Half else if ValidFullBit(difference) then Full else Bad
  }

  /** The modular arithmetic of the classification never wraps into a valid window: a phase is accepted
      exactly when its true length is, also when it is too short to be corrected. */
  lemma ClassifyExact(active: bool, elapsed: Word)
    ensures var t := if active then elapsed + 16 else elapsed - 16;
            Classify(active, elapsed) == if 325 <= t <= 508 then Half else if 658 <= t <= 1008 then Full else Bad
  {}

  function Elapsed(cs: seq<Word>, k: nat): Word
    requires k + 1 < |cs|
  {
    Wrap(cs[k + 1] as int - cs[k])
  }

  /** The phases between the captured counts `cs`; the first one is active. */
  function Phases(cs: seq<Word>): (ws: seq<Width>)
    requires cs != []
    ensures |ws| == |cs| - 1
  {
    seq(|cs| - 1, k requires 0 <= k < |cs| - 1 => Classify(k % 2 == 0, Elapsed(cs, k)))
  }

  lemma PhasesAppend(cs: seq<Word>, c: Word)
    requires cs != []
    ensures Phases(cs + [c]) == Phases(cs) + [Classify(|cs| % 2 == 1, Wrap(c as int - cs[|cs| - 1]))]
  {
    hide Classify;
  }

  /** The frame that holds `bits`: the length is kept modulo 256, the data modulo 2^32. */
  function FrameOf(start: RxFrame, bits: seq<bool>): RxFrame {
    start.(data := Wrap(Value(bits)), length := |bits| % 0x100)
  }

  lemma WrapTwice(v: nat, d: int)
    ensures Wrap(2 * Wrap(v) + d) == Wrap(2 * v + d)
  {}

  lemma ShiftInAppends(start: RxFrame, bits: seq<bool>, b: bool)
    ensures ShiftIn(FrameOf(start, bits), b) == FrameOf(start, bits + [b])
  {
    ValueAppend(bits, b);
    WrapTwice(Value(bits), Digit(b));
    hide Value, Wrap;
  }

  /** The error frame for a waveform that stops being biphase at phase `at`, behind `bits`: it reports how
      many bits were complete and how long the phase was. */
  function FaultFrame(start: RxFrame, cs: seq<Word>, bits: seq<bool>, at: nat): RxFrame
    requires at + 1 < |cs|
  {
    Faulted(FrameOf(start, bits), if at == 0 then RECEIVE_START_TIMING else RECEIVE_DATA_TIMING,
            Corrected(at % 2 == 0, Elapsed(cs, at)))
  }

  /** What the error frame says, in numbers: the time of the faulty phase in microseconds, corrected by 16 for its
      level, in the upper 24 bits of the data, and the number of complete bits in the lower 8. */
  ghost predicate FaultSays(f: RxFrame, start: RxFrame, cs: seq<Word>, bits: seq<bool>, at: nat)
    requires at + 1 < |cs|
  {
    && f.code == (if at == 0 then RECEIVE_START_TIMING else RECEIVE_DATA_TIMING)
    && f.data / 0x100 == (Elapsed(cs, at) + (if at % 2 == 0 then 16 else -16)) % 0x100_0000
    && f.data % 0x100 == |bits| % 0x100
    && f.length == 0 && f.timestamp == start.timestamp && f.loopback == start.loopback && f.twice == start.twice
  }

  lemma FaultInNumbers(start: RxFrame, cs: seq<Word>, bits: seq<bool>, at: nat)
    requires at + 1 < |cs|
    ensures FaultSays(FaultFrame(start, cs, bits, at), start, cs, bits, at)
  {
    hide Elapsed, ErrorData, Wrap, FrameOf;
    FrameOfLength(start, bits);
    Payload(Elapsed(cs, at) + (if at % 2 == 0 then 16 else -16), |bits| % 0x100);
  }

  lemma FrameOfLength(start: RxFrame, bits: seq<bool>)
    ensures var f := FrameOf(start, bits);
            && f.length == |bits| % 0x100 && f.timestamp == start.timestamp && f.loopback == start.loopback
            && f.twice == start.twice && f.code == start.code
  {
    hide Value, Wrap;
  }

  lemma Payload(time: int, bit: Byte)
    ensures ErrorData(Wrap(time), bit) / 0x100 == time % 0x100_0000 && ErrorData(Wrap(time), bit) % 0x100 == bit
  {}

  /** The receiver has heard the edges `cs` since it started to receive with frame `start` and queue `q`. */
  ghost predicate Heard(w: World, q: seq<RxFrame>, start: RxFrame, cs: seq<Word>)
    requires cs != []
  {
    var rx := w.node.rx;
    && rx.lastEdgeCount == cs[|cs| - 1]
    && w.active == (|cs| % 2 == 1)
    && Tells(rx, q, start, cs, Scan(Phases(cs)))
  }

  ghost predicate Tells(rx: RxState, q: seq<RxFrame>, start: RxFrame, cs: seq<Word>, p: Progress) {
    match p
    case Start => rx.status == START_BIT_START && rx.lastDataBit && rx.frame == FrameOf(start, []) && rx.queue == q
    case Inside(bits) =>
      && rx.status == (if bits == [] then START_BIT_INSIDE else DATA_BIT_INSIDE)
      && rx.lastDataBit == Last(bits) && rx.frame == FrameOf(start, bits) && rx.queue == q
    case Begin(bits) =>
      && rx.status == DATA_BIT_START
      && rx.lastDataBit == Last(bits) && rx.frame == FrameOf(start, bits) && rx.queue == q
    case Broken(bits, at) =>
      && rx.status == ERROR_IN_FRAME
      && at + 1 < |cs| && rx.queue == q + [FaultFrame(start, cs, bits, at)]
  }

  /** An edge while the first half of a bit is due. */
  lemma EdgeAtBegin(w: World, e: Event)
    requires Inv(w) && e.Capture? && (w.node.rx.status == START_BIT_START || w.node.rx.status == DATA_BIT_START)
    ensures var rx, rx' := w.node.rx, Step(w, e).node.rx;
            var time := Corrected(w.active, Wrap(e.count - rx.lastEdgeCount));
            var first := rx.status == START_BIT_START;
            && rx'.lastEdgeCount == e.count && Step(w, e).active == !w.active
            && if ValidHalfBit(time) then
                 && rx'.status == (if first then START_BIT_INSIDE else DATA_BIT_INSIDE)
                 && rx'.lastDataBit == rx.lastDataBit && rx'.queue == rx.queue
                 && rx'.frame == if first then rx.frame else ShiftIn(rx.frame, rx.lastDataBit)
               else
                 && rx'.status == ERROR_IN_FRAME
                 && rx'.queue == rx.queue +
                      [Faulted(rx.frame, if first then RECEIVE_START_TIMING else RECEIVE_DATA_TIMING, time)]
  {
    hide CheckStartTiming, ErrorData, Wrap, Corrected, ShiftIn, ValidHalfBit;
    hide FrameAgrees, TimersAgree, RepeatsAgree, InsideBit, StartReception, Recover;
    var rx := CaptureIsr(w.node.rx, e.count);
    BeginBit(rx, if rx.status == START_BIT_START then START_BIT_INSIDE else DATA_BIT_INSIDE, e.tick);
  }

  /** An edge inside a bit. */
  lemma EdgeInside(w: World, e: Event)
    requires Inv(w) && e.Capture? && (w.node.rx.status == START_BIT_INSIDE || w.node.rx.status == DATA_BIT_INSIDE)
    ensures var rx, rx' := w.node.rx, Step(w, e).node.rx;
            var time := Corrected(w.active, Wrap(e.count - rx.lastEdgeCount));
            && rx'.lastEdgeCount == e.count && Step(w, e).active == !w.active
            && if ValidHalfBit(time) then
                 && rx'.status == DATA_BIT_START && rx'.lastDataBit == rx.lastDataBit
                 && rx'.queue == rx.queue && rx'.frame == rx.frame
               else if ValidFullBit(time) then
                 && rx'.status == DATA_BIT_INSIDE && rx'.lastDataBit == !rx.lastDataBit
                 && rx'.queue == rx.queue && rx'.frame == ShiftIn(rx.frame, !rx.lastDataBit)
               else
                 && rx'.status == ERROR_IN_FRAME
                 && rx'.queue == rx.queue + [Faulted(rx.frame, RECEIVE_DATA_TIMING, time)]
  {
    hide InsideBit, ErrorData, Wrap, Corrected, ShiftIn, ValidHalfBit, ValidFullBit;
    hide FrameAgrees, TimersAgree, RepeatsAgree, CheckStartTiming, StartReception, Recover;
    InsideBitCases(CaptureIsr(w.node.rx, e.count), e.tick);
  }

  lemma EdgeInError(w: World, e: Event)
    requires Inv(w) && e.Capture? && w.node.rx.status == ERROR_IN_FRAME
    ensures var rx, rx' := w.node.rx, Step(w, e).node.rx;
            && rx'.lastEdgeCount == e.count && Step(w, e).active == !w.active
            && rx'.status == ERROR_IN_FRAME && rx'.queue == rx.queue
  {}

  /** Scanning one phase further. */
  lemma ScanEdge(cs: seq<Word>, c: Word)
    requires cs != []
    ensures Scan(Phases(cs + [c])) ==
            Advance(Scan(Phases(cs)), Classify(|cs| % 2 == 1, Wrap(c as int - cs[|cs| - 1])), |cs| - 1)
  {
    PhasesAppend(cs, c);
    ScanAppend(Phases(cs), Classify(|cs| % 2 == 1, Wrap(c as int - cs[|cs| - 1])));
  }

  function NextProgress(cs: seq<Word>, p: Progress, active: bool, count: Word): Progress
    requires cs != []
  {
    Advance(p, Classify(active, Wrap(count as int - cs[|cs| - 1])), |cs| - 1)
  }

  /** What one more edge makes of the report: three lemmas, by what has been heard. */
  lemma HearBegin(w: World, e: Event, q: seq<RxFrame>, start: RxFrame, cs: seq<Word>, p: Progress)
    requires Inv(w) && e.Capture? && cs != [] && (p.Start? || p.Begin?)
    requires w.node.rx.lastEdgeCount == cs[|cs| - 1] && w.active == (|cs| % 2 == 1)
    requires Tells(w.node.rx, q, start, cs, p) && (p.Start? <==> |cs| == 1)
    ensures Step(w, e).node.rx.lastEdgeCount == e.count && Step(w, e).active == !w.active
    ensures Tells(Step(w, e).node.rx, q, start, cs + [e.count], NextProgress(cs, p, w.active, e.count))
  {
    hide Step, Inv, ErrorData, Corrected, Wrap, ShiftIn, FrameOf, ValidFullBit;
    EdgeAtBegin(w, e);
    if p.Begin? { ShiftInAppends(start, p.bits, Last(p.bits)); }
    assert Elapsed(cs + [e.count], |cs| - 1) == Wrap(e.count as int - cs[|cs| - 1]);
  }

  lemma HearInside(w: World, e: Event, q: seq<RxFrame>, start: RxFrame, cs: seq<Word>, p: Progress)
    requires Inv(w) && e.Capture? && |cs| > 1 && p.Inside?
    requires w.node.rx.lastEdgeCount == cs[|cs| - 1] && w.active == (|cs| % 2 == 1)
    requires Tells(w.node.rx, q, start, cs, p)
    ensures Step(w, e).node.rx.lastEdgeCount == e.count && Step(w, e).active == !w.active
    ensures Tells(Step(w, e).node.rx, q, start, cs + [e.count], NextProgress(cs, p, w.active, e.count))
  {
    hide Step, Inv, ErrorData, Corrected, Wrap, ShiftIn, FrameOf;
    EdgeInside(w, e);
    ShiftInAppends(start, p.bits, !Last(p.bits));
    assert Elapsed(cs + [e.count], |cs| - 1) == Wrap(e.count as int - cs[|cs| - 1]);
  }

  lemma HearBroken(w: World, e: Event, q: seq<RxFrame>, start: RxFrame, cs: seq<Word>, p: Progress)
    requires Inv(w) && e.Capture? && p.Broken? && Tells(w.node.rx, q, start, cs, p)
    ensures Step(w, e).node.rx.lastEdgeCount == e.count && Step(w, e).active == !w.active
    ensures Tells(Step(w, e).node.rx, q, start, cs + [e.count], p)
  {
    EdgeInError(w, e);
    hide Step, Inv, Faulted;
    assert Elapsed(cs + [e.count], p.at) == Elapsed(cs, p.at);
  }

  lemma HearEdge(w: World, e: Event, q: seq<RxFrame>, start: RxFrame, cs: seq<Word>)
    requires Inv(w) && e.Capture? && cs != [] && Heard(w, q, start, cs)
    ensures Heard(Step(w, e), q, start, cs + [e.count])
  {
    hide Step, Inv, Scan, Phases, Tells, Classify;
    var p := Scan(Phases(cs));
    ScanStart(cs);
    ScanEdge(cs, e.count);
    match p {
      case Start => HearBegin(w, e, q, start, cs, p);
      case Begin(_) => HearBegin(w, e, q, start, cs, p);
      case Inside(_) => HearInside(w, e, q, start, cs, p);
      case Broken(_, _) => HearBroken(w, e, q, start, cs, p);
    }
  }

  lemma ScanStart(cs: seq<Word>)
    requires cs != []
    ensures Scan(Phases(cs)).Start? <==> |cs| == 1
  {
    ScanSound(Phases(cs));
  }

  // ---- over a run ----

  /** The counts captured by the events from `i` up to `k`. */
  function Captured(es: seq<Event>, i: nat, k: nat): seq<Word>
    requires i <= k <= |es|
  {
    if k == i then [] else
    var earlier := Captured(es, i, k - 1);
    if es[k - 1].Capture? then earlier + [es[k - 1].count] else earlier
  }

  /** The frame under construction when reception starts. */
  function StartFrame(w: World, e: Event): RxFrame
    requires e.Capture?
  {
    EMPTY_FRAME.(timestamp := e.tick, loopback := w.node.tx.indexNext != 0)
  }

  /** Reception starts at event `i`, and up to event `j` no stop condition is seen. */
  ghost predicate Receiving(ws: seq<World>, es: seq<Event>, i: nat, j: nat) {
    && Run(ws, es) && i < j < |ws|
    && Inv(ws[i]) && Listening(ws[i].node.rx.status) && es[i].Capture?
    && forall m :: i < m < j ==> !es[m].StopMatch?
  }

  lemma StartHeard(w: World, e: Event)
    requires Inv(w) && Listening(w.node.rx.status) && e.Capture?
    ensures Heard(Step(w, e), w.node.rx.queue, StartFrame(w, e), [e.count])
  {
    assert Scan(Phases([e.count])) == Start;
    assert Value([]) == 0;
  }

  /** Nothing but an edge or a stop condition touches a reception. */
  lemma OtherEvent(w: World, e: Event, q: seq<RxFrame>, start: RxFrame, cs: seq<Word>)
    requires Inv(w) && Enabled(w, e) && !e.Capture? && !e.StopMatch?
    requires cs != [] && Heard(w, q, start, cs)
    ensures Heard(Step(w, e), q, start, cs)
  {
    hide Scan, Phases, Load, TimerMatch, FaultFrame, FrameOf, FrameAgrees, LevelAgrees;
  }

  lemma {:induction false} HeardAlong(ws: seq<World>, es: seq<Event>, i: nat, k: nat)
    requires Receiving(ws, es, i, k)
    ensures Captured(es, i, k) != [] && Inv(ws[k])
    ensures Heard(ws[k], ws[i].node.rx.queue, StartFrame(ws[i], es[i]), Captured(es, i, k))
  {
    hide Step, Inv, Heard;
    InvAlong(ws, es, i, k - 1);
    InvAlong(ws, es, i, k);
    assert FollowsAt(ws, es, k - 1);
    if k == i + 1 {
      StartHeard(ws[i], es[i]);
      assert Captured(es, i, k) == [es[i].count];
    } else {
      HeardAlong(ws, es, i, k - 1);
      var q, start, cs := ws[i].node.rx.queue, StartFrame(ws[i], es[i]), Captured(es, i, k - 1);
      if es[k - 1].Capture? {
        HearEdge(ws[k - 1], es[k - 1], q, start, cs);
      } else {
        OtherEvent(ws[k - 1], es[k - 1], q, start, cs);
      }
    }
  }

  lemma StopHeard(w: World, e: Event, q: seq<RxFrame>, start: RxFrame, cs: seq<Word>)
    requires Inv(w) && Enabled(w, e) && e.StopMatch? && !w.active && start.code == OK && !start.twice
    requires cs != [] && Heard(w, q, start, cs)
    ensures var rx := Step(w, e).node.rx;
            && rx.status == INTER_FRAME_IDLE && |rx.queue| == |q| + 1 && rx.queue[..|q|] == q
            && var p := Scan(Phases(cs));
            if p.Broken? then
              p.at + 1 < |cs| && rx.queue[|q|] == FaultFrame(start, cs, p.bits, p.at)
            else
              rx.queue[|q|].(twice := false) == FrameOf(start, if p.Start? then [] else p.bits)
  {
    hide Scan, Phases, FaultFrame, FrameOf, ManageTx, ProcessPendingFrame, ReceivedTwice;
  }

  /** Decoder soundness and completeness. Whatever edges arrive between the start edge and a stop condition
      on an idle line, one frame is queued. It is good exactly when the phases are the waveform of a bit
      sequence, and then it holds those bits (their number modulo 256, their value modulo 2^32). Otherwise it
      is an error frame that names the first phase that fits no waveform, its time and the bits before it. */
  lemma ReceptionOutcome(ws: seq<World>, es: seq<Event>, i: nat, j: nat, bits: seq<bool>)
    requires Receiving(ws, es, i, j) && j < |es| && es[j].StopMatch? && !ws[j].active
    ensures var start, cs := StartFrame(ws[i], es[i]), Captured(es, i, j);
            var q, rx := ws[i].node.rx.queue, ws[j + 1].node.rx;
            && cs != [] && rx.status == INTER_FRAME_IDLE && |rx.queue| == |q| + 1 && rx.queue[..|q|] == q
            && var f := rx.queue[|q|];
            && (f.code == OK <==> exists bits :: Phases(cs) == Pattern(bits))
            && (Phases(cs) == Pattern(bits) ==> f.(twice := false) == FrameOf(start, bits))
            && (f.code != OK ==>
                  && Scan(Phases(cs)).Broken?
                  && var Broken(before, at) := Scan(Phases(cs));
                     at + 1 < |cs| && FaultSays(f, start, cs, before, at))
  {
    var q, start, cs := ws[i].node.rx.queue, StartFrame(ws[i], es[i]), Captured(es, i, j);
    HeardAlong(ws, es, i, j);
    assert FollowsAt(ws, es, j);
    StopHeard(ws[j], es[j], q, start, cs);
    if Scan(Phases(cs)).Broken? { FaultInNumbers(start, cs, Scan(Phases(cs)).bits, Scan(Phases(cs)).at); }
    PatternScanned(cs, bits);
    hide FaultFrame, FaultSays;
    hide Step, Inv, Scan, Phases, Pattern;
  }

  /** At idle, an unbroken scan is a whole frame, and every whole frame gives an unbroken scan. */
  lemma PatternScanned(cs: seq<Word>, bits: seq<bool>)
    requires |cs| % 2 == 0 && cs != []
    ensures var p := Scan(Phases(cs));
            && (!p.Broken? <==> exists bits :: Phases(cs) == Pattern(bits))
            && !p.Start?
            && (Phases(cs) == Pattern(bits) ==> !p.Broken? && p.bits == bits)
  {
    var ps := Phases(cs);
    hide Scan, Phases, Pattern;
    ScanAtIdle(ps);
    forall b | ps == Pattern(b) ensures !Scan(ps).Broken? && !Scan(ps).Start? && Scan(ps).bits == b {
      ScanPattern(b);
    }
  }
}
