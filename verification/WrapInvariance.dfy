/** The receiver does not care where its 32-bit counter stands: shifting all counts of a run by any offset,
    wrapping or not, changes no status and no queued frame. The one exception is a frame sent during the
    inter-frame idle time: its start is decided by comparing counts, and so is its appointment. */
module WrapInvariance {
  import opened Dali
  import opened TxSpec
  import opened RxSpec
  import opened Runs

  function ShiftMatch(m: Match, d: int): Match {
    Match(Wrap(m.count + d), m.on)
  }

  function ShiftRx(rx: RxState, d: int): RxState {
    rx.(lastEdgeCount := Wrap(rx.lastEdgeCount + d), lastFullFrameCount := Wrap(rx.lastFullFrameCount + d),
        edgeCount := Wrap(rx.edgeCount + d), endInterFrameIdle := Wrap(rx.endInterFrameIdle + d),
        stop := ShiftMatch(rx.stop, d), period := ShiftMatch(rx.period, d), query := ShiftMatch(rx.query, d))
  }

  function ShiftNode(n: Node, d: int): Node {
    Node(n.tx, ShiftRx(n.rx, d))
  }

  function ShiftWorld(w: World, d: int): World {
    World(ShiftNode(w.node, d), w.active)
  }

  function ShiftEvent(e: Event, d: int): Event {
    match e
    case Capture(count, now, tick) => Capture(Wrap(count + d), Wrap(now + d), tick)
    case StopMatch(now, tick) => StopMatch(Wrap(now + d), tick)
    case PeriodMatch(now) => PeriodMatch(Wrap(now + d))
    case QueryMatch(now, tick) => QueryMatch(Wrap(now + d), tick)
    case TxMatch(now) => TxMatch(Wrap(now + d))
    case Send(frame, now) => Send(frame, Wrap(now + d))
  }

  lemma ShiftDifference(a: int, b: int, d: int)
    ensures Wrap(Wrap(a + d) - Wrap(b + d)) == Wrap(a - b)
  {}

  lemma ShiftSum(a: int, c: int, d: int)
    ensures Wrap(Wrap(a + d) + c) == Wrap(Wrap(a + c) + d)
  {}

  lemma ShiftCorrected(rx: RxState, invert: bool, d: int)
    ensures CorrectedDifference(ShiftRx(rx, d), invert) == CorrectedDifference(rx, invert)
  {
    ShiftDifference(rx.edgeCount, rx.lastEdgeCount, d);
  }

  lemma ShiftIsr(rx: RxState, count: Word, d: int)
    ensures CaptureIsr(ShiftRx(rx, d), Wrap(count + d)) == ShiftRx(CaptureIsr(rx, count), d)
  {
    ShiftSum(count, MIN_STOP, d);
  }

  lemma ShiftSettling(rx: RxState, kind: FrameType, now: Word, d: int)
    ensures ScheduleSettling(ShiftRx(rx, d), kind, Wrap(now + d)) == ShiftRx(ScheduleSettling(rx, kind, now), d)
  {
    ShiftSum(ReferenceCount(rx, kind), SettlingTime(kind), d);
    ShiftDifference(FrameStartCount(rx, kind), now, d);
    ShiftSum(now, 100, d);
    hide Wrap;
  }

  lemma ShiftPending(rx: RxState, now: Word, d: int)
    ensures ProcessPendingFrame(ShiftRx(rx, d), Wrap(now + d)) == ShiftRx(ProcessPendingFrame(rx, now), d)
  {
    ShiftSettling(rx, if rx.waiting then rx.waitingType else Forward(5), now, d);
    hide Wrap, ScheduleSettling;
  }

  lemma ShiftManage(n: Node, now: Word, d: int)
    requires !Listening(n.rx.status)
    ensures ManageTx(ShiftNode(n, d), Wrap(now + d)) == ShiftNode(ManageTx(n, now), d)
  {
    hide ManageTx, Wrap;
  }

  lemma ShiftError(rx: RxState, code: Code, bit: Byte, time: Word, tick: Word, d: int)
    ensures QueueError(ShiftRx(rx, d), code, bit, time, tick) == ShiftRx(QueueError(rx, code, bit, time, tick), d)
  {
    hide Wrap, ErrorData;
  }

  lemma ShiftRecover(n: Node, code: Code, bit: Byte, now: Word, tick: Word, d: int)
    requires n.rx.status == LOW || n.rx.status == FAILURE
    ensures Recover(ShiftNode(n, d), code, bit, Wrap(now + d), tick) == ShiftNode(Recover(n, code, bit, now, tick), d)
  {
    hide Wrap, CorrectedDifference, ManageTx;
    var time := CorrectedDifference(n.rx, false);
    var reported := QueueError(n.rx, code, bit, time, tick);
    assert !Listening(reported.status);
    hide QueueError;
    ShiftCorrected(n.rx, false, d);
    ShiftError(n.rx, code, bit, time, tick, d);
    ShiftManage(n.(rx := reported), now, d);
  }

  lemma ShiftBegin(rx: RxState, tick: Word, d: int)
    ensures CheckStartTiming(ShiftRx(rx, d), tick) == ShiftRx(CheckStartTiming(rx, tick), d)
  {
    hide Wrap, CorrectedDifference, QueueError, ShiftIn;
    var time := CorrectedDifference(rx, false);
    ShiftCorrected(rx, false, d);
    ShiftError(rx, if rx.status == START_BIT_START then RECEIVE_START_TIMING else RECEIVE_DATA_TIMING,
               rx.frame.length, time, tick, d);
  }

  lemma ShiftInside(rx: RxState, tick: Word, d: int)
    ensures InsideBit(ShiftRx(rx, d), tick) == ShiftRx(InsideBit(rx, tick), d)
  {
    hide Wrap, CorrectedDifference, QueueError, ShiftIn, ValidHalfBit, ValidFullBit;
    var time := CorrectedDifference(rx, true);
    ShiftCorrected(rx, true, d);
    if !ValidHalfBit(time) && !ValidFullBit(time) {
      ShiftError(rx, RECEIVE_DATA_TIMING, rx.frame.length, time, tick, d);
    }
  }

  lemma ShiftCapture(n: Node, active: bool, now: Word, tick: Word, d: int)
    ensures ProcessCapture(ShiftNode(n, d), active, Wrap(now + d), tick) ==
            ShiftNode(ProcessCapture(n, active, now, tick), d)
  {
    hide ProcessCapture, ShiftNode;
    if InBit(n.rx.status) {
      ShiftCaptureInBit(n, active, now, tick, d);
    } else if n.rx.status == LOW || n.rx.status == FAILURE {
      ShiftCaptureActive(n, active, now, tick, d);
    } else {
      ShiftCaptureIdle(n, active, now, tick, d);
    }
  }

  lemma ShiftCaptureInBit(n: Node, active: bool, now: Word, tick: Word, d: int)
    requires InBit(n.rx.status)
    ensures ProcessCapture(ShiftNode(n, d), active, Wrap(now + d), tick) ==
            ShiftNode(ProcessCapture(n, active, now, tick), d)
  {
    hide Wrap, InsideBit, CheckStartTiming, Recover, StartReception;
    if n.rx.status == START_BIT_START || n.rx.status == DATA_BIT_START {
      ShiftBegin(n.rx, tick, d);
    } else {
      ShiftInside(n.rx, tick, d);
    }
  }

  lemma ShiftCaptureActive(n: Node, active: bool, now: Word, tick: Word, d: int)
    requires n.rx.status == LOW || n.rx.status == FAILURE
    ensures ProcessCapture(ShiftNode(n, d), active, Wrap(now + d), tick) ==
            ShiftNode(ProcessCapture(n, active, now, tick), d)
  {
    hide Wrap, InsideBit, CheckStartTiming, Recover, StartReception;
    if n.rx.status == LOW {
      ShiftRecover(n, if n.rx.frame.length > 1 then RECEIVE_DATA_TIMING else RECEIVE_START_TIMING,
                   n.rx.frame.length, now, tick, d);
    } else {
      ShiftRecover(n.(rx := n.rx.(frame := n.rx.frame.(timestamp := tick))), SYSTEM_RECOVER, 0, now, tick, d);
    }
  }

  lemma ShiftCaptureIdle(n: Node, active: bool, now: Word, tick: Word, d: int)
    requires Listening(n.rx.status) || n.rx.status == ERROR_IN_FRAME
    ensures ProcessCapture(ShiftNode(n, d), active, Wrap(now + d), tick) ==
            ShiftNode(ProcessCapture(n, active, now, tick), d)
  {
    hide Wrap, InsideBit, CheckStartTiming, Recover;
  }

  lemma ShiftEndOfFrame(n: Node, now: Word, d: int)
    requires !Listening(n.rx.status)
    ensures EndOfError(ShiftNode(n, d), Wrap(now + d)) == ShiftNode(EndOfError(n, now), d)
    ensures var managed, managed' := ManageTx(n, now), ManageTx(ShiftNode(n, d), Wrap(now + d));
            managed'.(rx := ProcessPendingFrame(QueueFrame(managed'.rx), Wrap(now + d))) ==
            ShiftNode(managed.(rx := ProcessPendingFrame(QueueFrame(managed.rx), now)), d)
  {
    hide Wrap, ManageTx, ProcessPendingFrame, ReceivedTwice;
    var rx := ManageTx(n, now).rx;
    ShiftManage(n, now, d);
    ShiftPending(Reset(rx), now, d);
    ShiftPending(QueueFrame(rx), now, d);
  }

  lemma ShiftStop(n: Node, active: bool, now: Word, tick: Word, d: int)
    ensures ProcessMatch(ShiftNode(n, d), active, Wrap(now + d), tick) ==
            ShiftNode(ProcessMatch(n, active, now, tick), d)
  {
    hide Wrap, ManageTx, ProcessPendingFrame, QueueFrame, EndOfError, QueueError;
    if active {
      ShiftSum(n.rx.lastEdgeCount, MIN_FAILURE, d);
      ShiftError(n.rx, SYSTEM_FAILURE, 0, 0, tick, d);
    } else if !Listening(n.rx.status) {
      ShiftEndOfFrame(n, now, d);
    }
  }

  // ---- comparing counts ----

  /** The counter wraps before both or behind both of the moments `a` and `b` after the count `from`. */
  predicate SameRound(from: Word, a: Word, b: Word) {
    from + a < WORD <==> from + b < WORD
  }

  /** Comparing two counts tells which moment is the later one exactly if no wrap lies between them. */
  lemma CountOrder(from: Word, a: Word, b: Word)
    ensures (Wrap(from + a) >= Wrap(from + b) <==> a >= b) <==> SameRound(from, a, b)
  {}

  lemma CountAt(from: Word, count: Word)
    ensures Wrap(from + Wrap(count - from)) == count
  {}

  /** A frame sent in the inter-frame idle time meets no wrap: none between now and the time when the frame may
      start, and if it has to wait, none between that time and the end of the inter-frame idle time. */
  predicate OneRound(rx: RxState, kind: FrameType, now: Word) {
    var from, settling := ReferenceCount(rx, kind), SettlingTime(kind);
    var waited, end := Wrap(now - from), Wrap(rx.endInterFrameIdle - from);
    && SameRound(from, waited, settling)
    && (waited < settling ==> SameRound(from, settling, end))
  }

  /** Then the two comparisons say what they mean. */
  lemma Compared(rx: RxState, kind: FrameType, now: Word)
    requires OneRound(rx, kind, now)
    ensures var from, settling, start := ReferenceCount(rx, kind), SettlingTime(kind), FrameStartCount(rx, kind);
            var waited, end := Wrap(now - from), Wrap(rx.endInterFrameIdle - from);
            && (now >= start <==> waited >= settling)
            && (now < start ==> start - now == settling - waited && (start < rx.endInterFrameIdle <==> settling < end))
  {
    hide Wrap, SettlingTime;
    var from, settling := ReferenceCount(rx, kind), SettlingTime(kind);
    var waited, end := Wrap(now - from), Wrap(rx.endInterFrameIdle - from);
    CountAt(from, now);
    CountAt(from, rx.endInterFrameIdle);
    CountOrder(from, waited, settling);
    if waited < settling {
      CountOrder(from, end, settling);
      CountOrder(from, settling, end);
      Apart(from, waited, settling);
    }
  }

  lemma Apart(from: Word, a: Word, b: Word)
    requires a < b && SameRound(from, a, b)
    ensures Wrap(from + b) - Wrap(from + a) == b - a
  {}

  lemma ShiftRounds(rx: RxState, kind: FrameType, now: Word, d: int)
    ensures var from, from' := ReferenceCount(rx, kind), ReferenceCount(ShiftRx(rx, d), kind);
            && Wrap(Wrap(now + d) - from') == Wrap(now - from)
            && Wrap(Wrap(rx.endInterFrameIdle + d) - from') == Wrap(rx.endInterFrameIdle - from)
            && FrameStartCount(ShiftRx(rx, d), kind) == Wrap(FrameStartCount(rx, kind) + d)
  {
    var from := ReferenceCount(rx, kind);
    ShiftDifference(now, from, d);
    ShiftDifference(rx.endInterFrameIdle, from, d);
    ShiftSum(from, SettlingTime(kind), d);
    hide Wrap, SettlingTime;
  }

  /** What becomes of a frame sent in the inter-frame idle time, by the outcome of the comparisons. */
  function Decided(n: Node, kind: FrameType, over: bool, earlier: bool, appointment: Word): Node {
    var rx := n.rx.(waitingType := kind);
    if over then Node(StartSend(n.tx), rx)
    else Node(n.tx, rx.(period := if earlier then Match(appointment, true) else rx.period, waiting := true))
  }

  lemma DecidedBy(n: Node, kind: FrameType, now: Word)
    requires n.rx.status == INTER_FRAME_IDLE
    ensures var start := FrameStartCount(n.rx, kind);
            ScheduleTransmission(n, kind, now) ==
            Decided(n, kind, now >= start, start < n.rx.endInterFrameIdle,
                    if start - now < 100 then Wrap(now + 100) else start)
  {
    hide SettlingTime, Wrap, StartSend;
  }

  lemma DecidedShifted(n: Node, kind: FrameType, over: bool, earlier: bool, appointment: Word, d: int)
    ensures Decided(ShiftNode(n, d), kind, over, earlier, Wrap(appointment + d)) ==
            ShiftNode(Decided(n, kind, over, earlier, appointment), d)
  {
    hide Wrap, StartSend;
  }

  lemma OverAnyway(n: Node, kind: FrameType, earlier: bool, appointment: Word)
    ensures forall earlier', appointment' ::
              Decided(n, kind, true, earlier', appointment') == Decided(n, kind, true, earlier, appointment)
  {}

  lemma LaterAnyway(n: Node, kind: FrameType, appointment: Word)
    ensures forall appointment' ::
              Decided(n, kind, false, false, appointment') == Decided(n, kind, false, false, appointment)
  {}

  lemma ShiftSchedule(n: Node, kind: FrameType, now: Word, d: int)
    requires n.rx.status == INTER_FRAME_IDLE
    requires OneRound(n.rx, kind, now) && OneRound(ShiftRx(n.rx, d), kind, Wrap(now + d))
    ensures ScheduleTransmission(ShiftNode(n, d), kind, Wrap(now + d)) ==
            ShiftNode(ScheduleTransmission(n, kind, now), d)
  {
    hide Wrap, SettlingTime, FrameStartCount, OneRound, ScheduleTransmission, ReferenceCount, Decided;
    var start, over, earlier := FrameStartCount(n.rx, kind), now >= FrameStartCount(n.rx, kind),
                                FrameStartCount(n.rx, kind) < n.rx.endInterFrameIdle;
    var appointment := if start - now < 100 then Wrap(now + 100) else start;
    Compared(n.rx, kind, now);
    Compared(ShiftRx(n.rx, d), kind, Wrap(now + d));
    ShiftRounds(n.rx, kind, now, d);
    ShiftSum(now, 100, d);
    DecidedBy(n, kind, now);
    DecidedBy(ShiftNode(n, d), kind, Wrap(now + d));
    DecidedShifted(n, kind, over, earlier, appointment, d);
    if over {
      OverAnyway(ShiftNode(n, d), kind, earlier, Wrap(appointment + d));
    } else if !earlier {
      LaterAnyway(ShiftNode(n, d), kind, Wrap(appointment + d));
    }
  }

  lemma ShiftSend(n: Node, kind: FrameType, now: Word, d: int)
    requires n.rx.status == INTER_FRAME_IDLE ==>
               OneRound(n.rx, kind, now) && OneRound(ShiftRx(n.rx, d), kind, Wrap(now + d))
    ensures ScheduleTransmission(ShiftNode(n, d), kind, Wrap(now + d)) ==
            ShiftNode(ScheduleTransmission(n, kind, now), d)
  {
    if n.rx.status == INTER_FRAME_IDLE {
      ShiftSchedule(n, kind, now, d);
      hide ScheduleTransmission;
    }
    hide Wrap, OneRound;
  }

  /** The event is not a frame that meets a wrap, at the counts given or at the shifted ones. */
  predicate MeetsNoWrap(w: World, e: Event, d: int) {
    e.Send? && w.node.rx.status == INTER_FRAME_IDLE && e.frame.kind != NoFrame ==>
      && OneRound(w.node.rx, e.frame.kind, e.now)
      && OneRound(ShiftRx(w.node.rx, d), e.frame.kind, Wrap(e.now + d))
  }

  /** A shifted step is the step, shifted. */
  lemma ShiftStep(w: World, e: Event, d: int)
    requires Ready(w.node.tx) && Enabled(w, e) && MeetsNoWrap(w, e, d)
    ensures Enabled(ShiftWorld(w, d), ShiftEvent(e, d))
    ensures Step(ShiftWorld(w, d), ShiftEvent(e, d)) == ShiftWorld(Step(w, e), d)
  {
    hide Step, Wrap, MeetsNoWrap;
    match e
    case Capture(_, _, _) => ShiftStepCapture(w, e, d);
    case Send(_, _) => ShiftStepSend(w, e, d);
    case _ => ShiftStepMatch(w, e, d);
  }

  lemma ShiftStepCapture(w: World, e: Event, d: int)
    requires Ready(w.node.tx) && e.Capture?
    ensures Step(ShiftWorld(w, d), ShiftEvent(e, d)) == ShiftWorld(Step(w, e), d)
  {
    hide Wrap, ProcessCapture, CaptureIsr;
    ShiftIsr(w.node.rx, e.count, d);
    ShiftCapture(w.node.(rx := CaptureIsr(w.node.rx, e.count)), !w.active, e.now, e.tick, d);
  }

  lemma ShiftStepMatch(w: World, e: Event, d: int)
    requires Ready(w.node.tx) && Enabled(w, e) && !e.Capture? && !e.Send?
    ensures Enabled(ShiftWorld(w, d), ShiftEvent(e, d))
    ensures Step(ShiftWorld(w, d), ShiftEvent(e, d)) == ShiftWorld(Step(w, e), d)
  {
    hide Wrap, ProcessMatch, TimerMatch;
    match e
    case StopMatch(now, tick) =>
      ShiftStop(w.node.(rx := w.node.rx.(stop := w.node.rx.stop.(on := false))), w.active, now, tick, d);
    case TxMatch(now) =>
      ShiftSum(now, MAX_BACKWARD_SETTLING, d);
    case _ =>
  }

  lemma ShiftStepSend(w: World, e: Event, d: int)
    requires Ready(w.node.tx) && Enabled(w, e) && e.Send? && MeetsNoWrap(w, e, d)
    ensures Step(ShiftWorld(w, d), ShiftEvent(e, d)) == ShiftWorld(Step(w, e), d)
  {
    if e.frame.kind != NoFrame {
      var n := w.node.(tx := Load(w.node.tx, e.frame));
      hide Load, ScheduleTransmission, OneRound, Wrap;
      ShiftSend(n, e.frame.kind, e.now, d);
    }
  }

  function ShiftWorlds(ws: seq<World>, d: int): seq<World> {
    seq(|ws|, k requires 0 <= k < |ws| => ShiftWorld(ws[k], d))
  }

  function ShiftEvents(es: seq<Event>, d: int): seq<Event> {
    seq(|es|, k requires 0 <= k < |es| => ShiftEvent(es[k], d))
  }

  /** Counter-wrap invariance. Shifting every count of a run by any offset gives a run in which at every
      moment the status, the line, the transmitter and the queued frames are the same, provided that no frame
      sent in the inter-frame idle time meets a wrap, in one run or the other (`Settling.SendDecision` says what
      happens if one does). */
  lemma ShiftedRun(ws: seq<World>, es: seq<Event>, d: int)
    requires Run(ws, es)
    requires forall k :: 0 <= k < |es| ==> MeetsNoWrap(ws[k], es[k], d)
    ensures Run(ShiftWorlds(ws, d), ShiftEvents(es, d))
    ensures forall k :: 0 <= k < |ws| ==>
              && ShiftWorlds(ws, d)[k].node.rx.queue == ws[k].node.rx.queue
              && ShiftWorlds(ws, d)[k].node.rx.status == ws[k].node.rx.status
              && ShiftWorlds(ws, d)[k].node.tx == ws[k].node.tx && ShiftWorlds(ws, d)[k].active == ws[k].active
  {
    hide Step, Wrap, MeetsNoWrap;
    forall k | 0 <= k < |es| ensures FollowsAt(ShiftWorlds(ws, d), ShiftEvents(es, d), k) {
      assert FollowsAt(ws, es, k);
      ShiftStep(ws[k], es[k], d);
    }
  }
}
