/** What the frames say that do not end a reception: power failures, recoveries, lines held active, refused calls. */
module Reports {
  import opened Dali
  import opened Biphase
  import opened TxSpec
  import opened RxSpec
  import opened Runs
  import opened Decoder

  /** The frame that a step queues. */
  ghost predicate Adds(rx: RxState, rx': RxState, f: RxFrame) {
    rx'.queue == rx.queue + [f]
  }

  // ---- the line is held active ----

  /** An active line at the stop match: the receiver waits for a power failure, counted from the last edge. The frame
      under construction stays as it is. */
  lemma HeldActive(w: World, e: Event)
    requires Inv(w) && Enabled(w, e) && e.StopMatch? && w.active && w.node.rx.status != LOW
    ensures var rx, rx' := w.node.rx, Step(w, e).node.rx;
            && rx'.status == LOW && rx'.queue == rx.queue && rx'.frame == rx.frame && rx'.lastDataBit == rx.lastDataBit
            && rx'.stop == Match(Wrap(rx.lastEdgeCount + 500_000), true) && rx'.lastEdgeCount == rx.lastEdgeCount
  {
    hide Wrap, FrameAgrees, RepeatsAgree;
  }

  /** After 500 ms a failure is reported: no data, and the time at which the line went active. */
  lemma FailureReported(w: World, e: Event)
    requires Inv(w) && Enabled(w, e) && e.StopMatch? && w.active && w.node.rx.status == LOW
    ensures var rx, rx' := w.node.rx, Step(w, e).node.rx;
            && rx'.status == FAILURE
            && Adds(rx, rx', rx.frame.(code := SYSTEM_FAILURE, length := 0, data := 0, timestamp := Wrap(e.tick - 500)))
  {
    hide Wrap, FrameAgrees, RepeatsAgree, TimersAgree;
  }

  /** A line that comes back before that is a timing error: of the data if more than one bit had been received, else of
      the start bit. It says how many bits those were, how long the line was active, and when that began. */
  lemma ReleaseReported(w: World, e: Event)
    requires Inv(w) && e.Capture? && w.active && w.node.rx.status == LOW
    ensures var rx, rx' := w.node.rx, Step(w, e).node.rx;
            && rx'.status == IDLE && rx'.queue != []
            && var f := rx'.queue[|rx'.queue| - 1];
            && Adds(rx, rx', f)
            && (if rx.frame.length > 1 then f.code == RECEIVE_DATA_TIMING else f.code == RECEIVE_START_TIMING)
            && f.data / 0x100 == (e.count - rx.lastEdgeCount + (if rx.lastDataBit then 16 else -16)) % WORD % 0x100_0000
            && f.data % 0x100 == rx.frame.length && f.length == 0
            && f.timestamp == Wrap(e.tick - 500) && f.loopback == rx.frame.loopback
  {
    hide Step, Inv, Wrap, ErrorData;
    var rx := w.node.rx;
    ReleaseFrame(w, e);
    ReleasePayload(e.count - rx.lastEdgeCount, if rx.lastDataBit then 16 else -16, rx.frame.length);
    CorrectedIs(rx.lastDataBit, Wrap(e.count - rx.lastEdgeCount));
  }

  lemma ReleaseFrame(w: World, e: Event)
    requires Inv(w) && e.Capture? && w.active && w.node.rx.status == LOW
    ensures var rx, rx' := w.node.rx, Step(w, e).node.rx;
            var code := if rx.frame.length > 1 then RECEIVE_DATA_TIMING else RECEIVE_START_TIMING;
            var time := Corrected(rx.lastDataBit, Wrap(e.count - rx.lastEdgeCount));
            && rx'.status == IDLE
            && Adds(rx, rx', rx.frame.(timestamp := Wrap(e.tick - 500), code := code, length := 0,
                                       data := ErrorData(time, rx.frame.length)))
  {
    hide Wrap, ErrorData, Corrected, ManageTx, FrameAgrees, RepeatsAgree, TimersAgree;
  }

  lemma RecoveryFrame(w: World, e: Event)
    requires Inv(w) && e.Capture? && w.active && w.node.rx.status == FAILURE
    ensures var rx, rx' := w.node.rx, Step(w, e).node.rx;
            var time := Corrected(rx.lastDataBit, Wrap(e.count - rx.lastEdgeCount));
            && rx'.status == IDLE
            && Adds(rx, rx', rx.frame.(timestamp := e.tick, code := SYSTEM_RECOVER, length := 0,
                                       data := ErrorData(time, 0)))
  {
    hide Wrap, ErrorData, Corrected, ManageTx, FrameAgrees, RepeatsAgree, TimersAgree;
  }

  lemma CorrectedIs(active: bool, elapsed: Word)
    ensures Corrected(active, elapsed) == Wrap(elapsed + if active then 16 else -16)
  {}

  lemma ReleasePayload(elapsed: int, shift: int, bit: Byte)
    ensures var d := ErrorData(Wrap(Wrap(elapsed) + shift), bit);
            d / 0x100 == (elapsed + shift) % WORD % 0x100_0000 && d % 0x100 == bit
  {
    WrapAdd(elapsed, shift);
  }

  /** The end of a power failure: how long the line was active, and the time at which it came back. */
  lemma RecoveryReported(w: World, e: Event)
    requires Inv(w) && e.Capture? && w.active && w.node.rx.status == FAILURE
    ensures var rx, rx' := w.node.rx, Step(w, e).node.rx;
            && rx'.status == IDLE && rx'.queue != []
            && var f := rx'.queue[|rx'.queue| - 1];
            && Adds(rx, rx', f) && f.code == SYSTEM_RECOVER
            && f.data / 0x100 == (e.count - rx.lastEdgeCount + (if rx.lastDataBit then 16 else -16)) % WORD % 0x100_0000
            && f.data % 0x100 == 0 && f.length == 0 && f.timestamp == e.tick
  {
    hide Step, Inv, Wrap, ErrorData;
    var rx := w.node.rx;
    RecoveryFrame(w, e);
    ReleasePayload(e.count - rx.lastEdgeCount, if rx.lastDataBit then 16 else -16, 0);
    CorrectedIs(rx.lastDataBit, Wrap(e.count - rx.lastEdgeCount));
  }

  // ---- over a run ----

  /** A reception starts at `i`, the stop match at `j` finds the line active, and it comes back at `k`. */
  ghost predicate Released(ws: seq<World>, es: seq<Event>, i: nat, j: nat, k: nat) {
    && Receiving(ws, es, i, j) && j < k < |es| && es[j].StopMatch? && ws[j].active && es[k].Capture?
    && forall m :: j < m < k ==> !es[m].Capture? && !es[m].StopMatch?
  }

  /** The number of bits received when the line stays active: none if the edges before that fit no waveform. */
  function BitsHeard(p: Progress): nat {
    match p
    case Start => 0
    case Inside(bits) => |bits| % 0x100
    case Begin(bits) => |bits| % 0x100
    case Broken(_, _) => 0
  }

  lemma LowKept(w: World, e: Event)
    requires Inv(w) && Enabled(w, e) && !e.Capture? && !e.StopMatch? && w.node.rx.status == LOW
    ensures var rx, rx' := w.node.rx, Step(w, e).node.rx;
            && rx'.status == LOW && rx'.frame == rx.frame && rx'.queue == rx.queue && rx'.lastDataBit == rx.lastDataBit
            && rx'.lastEdgeCount == rx.lastEdgeCount && Step(w, e).active == w.active
  {
    hide Wrap, Load, TimerMatch, FrameAgrees, RepeatsAgree;
  }

  lemma {:induction false} LowAlong(ws: seq<World>, es: seq<Event>, j: nat, k: nat)
    requires Run(ws, es) && j <= k <= |es| && Inv(ws[j]) && ws[j].node.rx.status == LOW
    requires forall m :: j <= m < k ==> !es[m].Capture? && !es[m].StopMatch?
    ensures Inv(ws[k]) && ws[k].active == ws[j].active
    ensures var rx, rx' := ws[j].node.rx, ws[k].node.rx;
            && rx'.status == LOW && rx'.frame == rx.frame && rx'.queue == rx.queue && rx'.lastDataBit == rx.lastDataBit
            && rx'.lastEdgeCount == rx.lastEdgeCount
  {
    hide Step, Inv;
    if j < k {
      LowAlong(ws, es, j, k - 1);
      assert FollowsAt(ws, es, k - 1);
      LowKept(ws[k - 1], es[k - 1]);
      InvStep(ws[k - 1], es[k - 1]);
    }
  }

  lemma FrameHeard(w: World, q: seq<RxFrame>, start: RxFrame, cs: seq<Word>)
    requires Inv(w) && cs != [] && Heard(w, q, start, cs)
    ensures start.length == 0 ==> w.node.rx.frame.length == BitsHeard(Scan(Phases(cs)))
    ensures w.node.rx.status != LOW && w.node.rx.lastEdgeCount == cs[|cs| - 1]
    ensures w.active && !Scan(Phases(cs)).Broken? ==> w.node.rx.lastDataBit == !Scan(Phases(cs)).Inside?
  {
    hide Scan, Phases, FaultFrame, TimersAgree, RepeatsAgree;
  }

  /** A line held active behind a reception and released before a failure is reported as an error of the data exactly
      if more than one bit had been received, and otherwise as an error of the start bit. A line that is just pulled
      active for some milliseconds is the latter, with bit number 0. The time reported is that since the last edge, 16
      us more for the level, as it should be, exactly if the line is held in the first half of a bit; held in the second
      half, the correction has the wrong sign. */
  lemma HeldLineReported(ws: seq<World>, es: seq<Event>, i: nat, j: nat, k: nat)
    requires Released(ws, es, i, j, k)
    ensures Captured(es, i, j) != []
    ensures var p, q, q' := Scan(Phases(Captured(es, i, j))), ws[j].node.rx.queue, ws[k + 1].node.rx.queue;
            && |q'| == |q| + 1 && q'[..|q|] == q
            && var f := q'[|q|];
            && (f.code == RECEIVE_DATA_TIMING <==> BitsHeard(p) > 1)
            && (f.code == RECEIVE_START_TIMING <==> BitsHeard(p) <= 1)
            && f.data % 0x100 == BitsHeard(p) && f.length == 0 && f.timestamp == Wrap(es[k].tick - 500)
            && var cs := Captured(es, i, j);
            (!p.Broken? ==>
               f.data / 0x100 == (es[k].count - cs[|cs| - 1] + (if p.Inside? then -16 else 16)) % WORD % 0x100_0000)
  {
    hide Step, Inv, Scan, Phases, Heard, Wrap;
    HeardAlong(ws, es, i, j);
    assert FollowsAt(ws, es, j) && FollowsAt(ws, es, k);
    FrameHeard(ws[j], ws[i].node.rx.queue, StartFrame(ws[i], es[i]), Captured(es, i, j));
    HeldActive(ws[j], es[j]);
    InvStep(ws[j], es[j]);
    StillActive(ws[j], es[j]);
    LowAlong(ws, es, j + 1, k);
    ReleaseReported(ws[k], es[k]);
  }

  lemma StillActive(w: World, e: Event)
    requires Ready(w.node.tx) && Enabled(w, e) && e.StopMatch?
    ensures Step(w, e).active == w.active
  {
    hide OnStopMatch;
  }

  // ---- refused calls ----

  /** A call that the transmitter refuses is reported at once, without data: with the time if the receiver is idle, with
      the time at which the line went active if it waits for a power failure, otherwise with the time of the frame under
      construction (0 in the inter-frame idle time). In an error it is not reported. In any case the receiver is deaf
      until the next stop condition. */
  lemma RefusalReported(w: World, code: Code, tick: Word)
    requires Inv(w)
    ensures var rx, rx' := w.node.rx, QueueError(w.node.rx, code, 0, 0, tick);
            && rx'.status == ERROR_IN_FRAME
            && if rx.status == ERROR_IN_FRAME then rx' == rx
               else if rx.status == IDLE then Adds(rx, rx', RxFrame(false, false, code, 0, 0, tick))
               else if rx.status == INTER_FRAME_IDLE then Adds(rx, rx', RxFrame(false, false, code, 0, 0, 0))
               else if rx.status == LOW then
                 Adds(rx, rx', rx.frame.(code := code, length := 0, data := 0, timestamp := Wrap(tick - 500)))
               else Adds(rx, rx', rx.frame.(code := code, length := 0, data := 0))
  {
    hide LevelAgrees, TimersAgree, RepeatsAgree, Wrap;
  }

  /** The frames that begin after a refused call are not received: an edge leaves the error as it is. */
  lemma DeafAfterRefusal(w: World, e: Event)
    requires Inv(w) && e.Capture? && w.node.rx.status == ERROR_IN_FRAME
    ensures var rx, rx' := w.node.rx, Step(w, e).node.rx; rx'.status == ERROR_IN_FRAME && rx'.queue == rx.queue
  {
    EdgeInError(w, e);
  }

  // ---- the period interrupt ----

  /** The period interrupt disables the stop-bit channel and leaves its own armed. While the receiver listens, that is
      without consequence: a stop-bit match then does nothing but disable the same channel. */
  lemma WrongChannelHarmless(w: World, e: Event, s: Event)
    requires Inv(w) && Enabled(w, e) && e.PeriodMatch? && s.StopMatch?
    ensures Listening(w.node.rx.status)
    ensures !Step(w, e).node.rx.stop.on && Step(w, e).node.rx.period == w.node.rx.period
    ensures Enabled(w, s) ==> Step(w, s).node == w.node.(rx := w.node.rx.(stop := w.node.rx.stop.(on := false)))
  {
    hide Wrap, ManageTx, FrameAgrees, RepeatsAgree;
  }
}
